/** Whole operations, in any order and by any clients, on an honest store: the keyfile, the
    roster pointer and the manifest pointer always describe one membership. */
module Membership {
  import opened Wrappers
  import opened Documents
  import opened Protocol

  // ---- the invariant of the three pointers ----

  /** The keyfile and the roster pointer agree: same key, same generation, and the key is
      wrapped to exactly the members. */
  predicate RosterConsistent(s: Store, repo: RepoId) {
    && s.keyfile.Some? && s.roster.Some?
    && var k, c := s.keyfile.value, s.roster.value;
    && c.repo == repo && c.key == k.key && c.text.RosterText?
    && var r := c.text.roster;
    && s.rver == r.body.version && r.body.gen == k.gen && k.gen >= 1
    && k.recipients == Recipients(r.body.members)
    && DistinctFingerprints(r.body.members)
    && r.body.Has(r.body.author) && r.Verify(r.body.author.ed)
  }

  function LiveRoster(s: Store): Roster
    requires s.roster.Some? && s.roster.value.text.RosterText?
  {
    s.roster.value.text.roster
  }

  predicate HasManifest(s: Store) {
    s.manifest.Some? && s.manifest.value.text.ManifestText?
  }

  function LiveManifest(s: Store): Manifest
    requires HasManifest(s)
  {
    s.manifest.value.text.manifest
  }

  /** ... and any manifest is under that key, at the stored version, bound to that roster and
      signed by one of its members. */
  predicate Consistent(s: Store, repo: RepoId) {
    && RosterConsistent(s, repo)
    && (s.mver == 0 <==> s.manifest.None?)
    && (s.mver > 0 ==>
          && HasManifest(s)
          && s.manifest.value.repo == repo && s.manifest.value.key == s.keyfile.value.key
          && LiveManifest(s).body.version == s.mver
          && VerifyManifest(LiveManifest(s), LiveRoster(s)).Pass?)
  }

  function LivePacks(s: Store): seq<Digest> {
    if HasManifest(s) then LiveManifest(s).body.packs else []
  }

  function LiveRefs(s: Store): map<string, Object> {
    if HasManifest(s) then LiveManifest(s).body.refs else map[]
  }

  predicate SamePointers(s: Store, t: Store) {
    && s.manifest == t.manifest && s.mver == t.mver && s.roster == t.roster && s.rver == t.rver
    && s.keyfile == t.keyfile
  }

  /** The same refs, packs and blobs. */
  predicate SameContent(s: Store, t: Store) {
    && s.blobs == t.blobs && HasManifest(s) == HasManifest(t)
    && LivePacks(s) == LivePacks(t) && LiveRefs(s) == LiveRefs(t)
  }

  /** The roster pin of a client is a roster it once accepted, under its own hash. */
  predicate PinOk(st: State) {
    st.rosterPinned ==>
      st.trusted.RosterText? && st.rosterHash == Sha(st.trusted) && st.rosterVersion == st.trusted.roster.body.version
  }

  // ---- entering an operation ----

  /** The pin of the client is absent, is the live roster, or is the live roster's predecessor
      and lists its author. */
  predicate PinCurrent(st: State, s: Store)
    requires s.roster.Some? && s.roster.value.text.RosterText?
  {
    var body := LiveRoster(s).body;
    || !st.rosterPinned
    || (st.rosterVersion == body.version && st.rosterHash == Sha(s.roster.value.text))
    || (st.rosterVersion < body.version && body.prev == Some(st.rosterHash)
        && st.trusted.RosterText? && st.trusted.roster.body.Has(body.author))
  }

  /** On a consistent store an operation gets past its preamble exactly when the client can
      unwrap the keyfile and its pin is current, and then it works with the live roster. */
  lemma EnterExactly(id: Identity, repo: RepoId, st: State, s: Store)
    requires RosterConsistent(s, repo) && PinOk(st)
    ensures var (st', r) := Enter(id, repo, st, s);
      && PinOk(st')
      && (r.Ok? <==> id.x in Recipients(LiveRoster(s).body.members) && PinCurrent(st, s))
      && (r.Ok? ==>
            && r.value == Opened(Session(id, repo, s.keyfile.value.key, s.keyfile.value.gen, st'.keys),
                                 LiveRoster(s), Sha(s.roster.value.text))
            && st' == PinRoster(st.(keys := Insert(st.keys, s.keyfile.value.key)), s.rver, st'.trusted)
            && st'.trusted == s.roster.value.text)
  {
  }

  /** Whatever the store serves, the preamble leaves a consistent roster pin. */
  lemma EnterKeepsPin(id: Identity, repo: RepoId, st: State, s: Store)
    requires PinOk(st)
    ensures PinOk(Enter(id, repo, st, s).0)
    ensures Enter(id, repo, st, s).1.Ok? ==>
      var o := Enter(id, repo, st, s).1.value;
      Enter(id, repo, st, s).0.rosterPinned && Enter(id, repo, st, s).0.trusted.RosterText?
      && o.trusted == Enter(id, repo, st, s).0.trusted.roster
  {
  }

  // ---- one operation ----

  lemma LoadCurrentConsistent(o: Opened, repo: RepoId, s: Store)
    requires Consistent(s, repo)
    requires o.ses.repo == repo && o.ses.key == s.keyfile.value.key && o.trusted == LiveRoster(s)
    ensures LoadCurrent(o.ses, o.trusted, s) ==
      Ok(if s.mver == 0 then NoManifest else Current(LiveManifest(s), s.mver, Sha(s.manifest.value.text)))
  {
  }

  lemma PushAttemptConsistent(
      o: Opened, repo: RepoId, st: State, git: Git, s: Store, wants: map<string, Object>,
      objects: Option<set<Object>>, draw: nat)
    requires Consistent(s, repo) && PinOk(st)
    requires o.ses.repo == repo && o.ses.key == s.keyfile.value.key && o.trusted == LiveRoster(s)
    requires o.trusted.body.Has(o.ses.id)
    ensures var p := PushAttempt(o, st, git, s, wants, objects, draw);
      && Consistent(p.s, repo) && PinOk(p.st)
      && (p.outcome.Fail? ==> SamePointers(p.s, s))
      && (p.outcome.Pass? ==>
            && p.s.mver == s.mver + 1 && p.s.keyfile == s.keyfile && p.s.roster == s.roster
            && objects.Some? && LiveRefs(p.s) == LiveRefs(s) + wants
            && LivePacks(p.s) == LivePacks(s) +
                 if objects.value == {} then []
                 else [ShaBlob(Cipher(s.keyfile.value.key, repo, draw, PackText(objects.value)))])
  {
    hide ImportPacks;
    LoadCurrentConsistent(o, repo, s);
    var cur := LoadCurrent(o.ses, o.trusted, s).value;
    var imp := ImportPacks(o.ses, git, st.imported, cur.Packs(), s.blobs);
    if imp.outcome.Pass? && objects.Some? {
      var more := NewPack(o.ses, objects.value, draw);
      assert VerifyManifest(PushText(o, cur, wants, more).manifest, o.trusted).Pass?;
    }
  }

  lemma PushConsistent(
      id: Identity, repo: RepoId, st: State, git: Git, s: Store, wants: map<string, Object>,
      objects: Option<set<Object>>, draw: nat)
    requires Consistent(s, repo) && PinOk(st)
    ensures var p := Push(id, repo, st, git, s, wants, objects, draw);
      && Consistent(p.s, repo) && PinOk(p.st)
      && (p.outcome.Fail? ==> SamePointers(p.s, s))
      && (p.outcome.Pass? ==>
            && p.s.mver == s.mver + 1 && p.s.keyfile == s.keyfile && p.s.roster == s.roster
            && objects.Some? && LiveRefs(p.s) == LiveRefs(s) + wants
            && LivePacks(p.s) == LivePacks(s) +
                 if objects.value == {} then []
                 else [ShaBlob(Cipher(s.keyfile.value.key, repo, draw, PackText(objects.value)))])
  {
    hide Enter, PushAttempt;
    EnterExactly(id, repo, st, s);
    var (st1, r) := Enter(id, repo, st, s);
    if r.Ok? && r.value.trusted.body.Has(id) && wants != map[] {
      PushAttemptConsistent(r.value, repo, st1, git, s, wants, objects, draw);
    }
  }

  /** A membership change by a member publishes exactly the new roster, wraps the key to
      exactly its members and re-issues the live manifest; it never fails half way. */
  lemma PublishConsistent(
      o: Opened, repo: RepoId, members: set<Member>, gen: nat, key: Key, nonce: nat, s: Store, st: State)
    requires Consistent(s, repo)
    requires o.ses.repo == repo && o.ses.key == s.keyfile.value.key
    requires o.trusted == LiveRoster(s) && o.hash == Sha(s.roster.value.text)
    requires members != {} && DistinctFingerprints(members) && gen >= 1
    requires RosterSuccessor(o, members, gen).Has(o.ses.id)
    ensures var c := PublishChange(o, members, gen, key, nonce, s, st);
      && c.outcome.Pass? && Consistent(c.s, repo) && PinOk(c.st)
      && LiveRoster(c.s).body == RosterSuccessor(o, members, gen)
      && c.s.keyfile == Some(Keyfile(gen, key, Recipients(members)))
      && c.s.mver == (if s.mver == 0 then 0 else s.mver + 1)
      && c.s.blobs == s.blobs
      && (s.mver > 0 ==>
            && LiveManifest(c.s).body.refs == LiveManifest(s).body.refs
            && LiveManifest(c.s).body.packs == LiveManifest(s).body.packs
            && LiveManifest(c.s).body.prev == Some(Sha(s.manifest.value.text)))
  {
    var m :| m in members;
    assert m.x in Recipients(members);
    var s2 := s.(roster := Some(Cipher(key, o.ses.repo, nonce, RosterDocument(o, members, gen))),
                 rver := o.trusted.body.version + 1,
                 keyfile := Some(Keyfile(gen, key, Recipients(members))));
    assert LoadCurrent(o.ses, o.trusted, s2) == LoadCurrent(o.ses, o.trusted, s);
    LoadCurrentConsistent(o, repo, s);
  }

  lemma AddConsistent(
      id: Identity, repo: RepoId, st: State, s: Store, member: Member, fingerprint: Option<Identity>, draw: nat)
    requires Consistent(s, repo) && PinOk(st)
    ensures var c := AddMember(id, repo, st, s, member, fingerprint, draw);
      && Consistent(c.s, repo) && PinOk(c.st) && SameContent(c.s, s)
      && (c.outcome.Fail? ==> SamePointers(c.s, s))
      && (c.outcome.Pass? ==>
            && !LiveRoster(s).body.Has(member.Fingerprint()) && fingerprint == Some(member.Fingerprint())
            && LiveRoster(c.s).body.members == LiveRoster(s).body.members + {member}
            && c.s.keyfile.value.gen == s.keyfile.value.gen && c.s.keyfile.value.key == s.keyfile.value.key)
  {
    hide Enter, PublishChange;
    EnterExactly(id, repo, st, s);
    var (st1, r) := Enter(id, repo, st, s);
    if AddMember(id, repo, st, s, member, fingerprint, draw).outcome.Pass? || (r.Ok? && r.value.trusted.body.Has(id)) {
      var o := r.value;
      var members := o.trusted.body.members + {member};
      if fingerprint == Some(member.Fingerprint()) && !o.trusted.body.Has(member.Fingerprint()) {
        var me :| me in o.trusted.body.members && me.Fingerprint() == id;
        assert me in members;
        PublishConsistent(o, repo, members, o.trusted.body.gen, o.ses.key, draw, s, st1);
      }
    }
  }

  lemma RemoveConsistent(id: Identity, repo: RepoId, st: State, s: Store, target: Identity, draw: nat)
    requires Consistent(s, repo) && PinOk(st)
    ensures var c := RemoveMember(id, repo, st, s, target, draw);
      && Consistent(c.s, repo) && PinOk(c.st) && SameContent(c.s, s)
      && (c.outcome.Fail? ==> SamePointers(c.s, s))
      && (c.outcome.Pass? ==>
            && LiveRoster(c.s).body.members == MembersExcept(LiveRoster(s).body.members, target)
            && c.s.keyfile.value.gen == s.keyfile.value.gen + 1 && c.s.keyfile.value.key == draw)
  {
    hide Enter, PublishChange;
    EnterExactly(id, repo, st, s);
    var (st1, r) := Enter(id, repo, st, s);
    if r.Ok? && r.value.trusted.body.Has(id) && target != id {
      var o := r.value;
      var members := MembersExcept(o.trusted.body.members, target);
      var me :| me in o.trusted.body.members && me.Fingerprint() == id;
      assert me in members;
      PublishConsistent(o, repo, members, o.trusted.body.gen + 1, draw, draw + 1, s, st1);
    }
  }

  /** Who is a member is a recipient. */
  lemma MemberIsRecipient(body: RosterBody, id: Identity)
    requires body.Has(id)
    ensures id.x in Recipients(body.members)
  {
    var m :| m in body.members && m.Fingerprint() == id;
    assert m.x in Recipients(body.members);
  }

  /** Adding succeeds exactly for a member with a current pin who gives the new member's verified
      fingerprint, which is not listed yet. */
  lemma AddExactly(
      id: Identity, repo: RepoId, st: State, s: Store, member: Member, fingerprint: Option<Identity>, draw: nat)
    requires Consistent(s, repo) && PinOk(st)
    ensures AddMember(id, repo, st, s, member, fingerprint, draw).outcome.Pass?
       <==> && LiveRoster(s).body.Has(id) && PinCurrent(st, s)
            && fingerprint == Some(member.Fingerprint()) && !LiveRoster(s).body.Has(member.Fingerprint())
  {
    hide Enter, PublishChange;
    EnterExactly(id, repo, st, s);
    var (st1, r) := Enter(id, repo, st, s);
    if LiveRoster(s).body.Has(id) {
      MemberIsRecipient(LiveRoster(s).body, id);
      if r.Ok? && fingerprint == Some(member.Fingerprint()) && !LiveRoster(s).body.Has(member.Fingerprint()) {
        var o := r.value;
        var members := o.trusted.body.members + {member};
        var me :| me in o.trusted.body.members && me.Fingerprint() == id;
        assert me in members;
        PublishConsistent(o, repo, members, o.trusted.body.gen, o.ses.key, draw, s, st1);
      }
    }
  }

  /** Removing succeeds exactly for a member with a current pin who names another member. */
  lemma RemoveExactly(id: Identity, repo: RepoId, st: State, s: Store, target: Identity, draw: nat)
    requires Consistent(s, repo) && PinOk(st)
    ensures RemoveMember(id, repo, st, s, target, draw).outcome.Pass?
       <==> LiveRoster(s).body.Has(id) && PinCurrent(st, s) && target != id && LiveRoster(s).body.Has(target)
  {
    hide Enter, PublishChange;
    EnterExactly(id, repo, st, s);
    var (st1, r) := Enter(id, repo, st, s);
    if LiveRoster(s).body.Has(id) {
      MemberIsRecipient(LiveRoster(s).body, id);
      if r.Ok? && target != id && LiveRoster(s).body.Has(target) {
        var o := r.value;
        var members := MembersExcept(o.trusted.body.members, target);
        var me :| me in o.trusted.body.members && me.Fingerprint() == id;
        assert me in members;
        PublishConsistent(o, repo, members, o.trusted.body.gen + 1, draw, draw + 1, s, st1);
      }
    }
  }

  lemma FinishRekeyConsistent(
      o: Opened, repo: RepoId, key: Key, nonce: nat, stale: seq<Digest>, s: Store, before: State, st: State)
    requires s.roster.Some? && s.roster.value.text.RosterText?
    requires o.ses.repo == repo && o.trusted == LiveRoster(s) && s.rver == o.trusted.body.version
    requires DistinctFingerprints(o.trusted.body.members) && o.trusted.body.Has(o.ses.id)
    ensures var c := FinishRekey(o, key, nonce, stale, s, before, st);
      && c.outcome.Pass? && RosterConsistent(c.s, repo) && PinOk(c.st)
      && c.st == PinRoster(st.(keys := Insert(st.keys, key)), c.s.rver, c.s.roster.value.text)
      && LiveRoster(c.s).body == RosterSuccessor(o, o.trusted.body.members, o.trusted.body.gen + 1)
      && c.s == s.(roster := c.s.roster, rver := c.s.rver, blobs := DeleteAll(s.blobs, stale),
                   keyfile := Some(Keyfile(o.trusted.body.gen + 1, key, Recipients(o.trusted.body.members))))
  {
    var me :| me in o.trusted.body.members && me.Fingerprint() == o.ses.id;
    assert me.x in Recipients(o.trusted.body.members);
    assert me in RosterSuccessor(o, o.trusted.body.members, o.trusted.body.gen + 1).members;
  }

  lemma RekeyConsistent(id: Identity, repo: RepoId, st: State, s: Store, draw: nat)
    requires Consistent(s, repo) && PinOk(st)
    ensures var c := FullRekey(id, repo, st, s, draw);
      && Consistent(c.s, repo) && PinOk(c.st)
      && (c.outcome.Fail? ==> SamePointers(c.s, s))
      && (c.outcome.Pass? ==>
            && LiveRoster(c.s).body.members == LiveRoster(s).body.members
            && c.s.keyfile.value.gen == s.keyfile.value.gen + 1 && c.s.keyfile.value.key == draw)
  {
    hide Enter, FinishRekey, RekeyManifest;
    EnterExactly(id, repo, st, s);
    var (st1, r) := Enter(id, repo, st, s);
    if r.Ok? && r.value.trusted.body.Has(id) {
      var o := r.value;
      LoadCurrentConsistent(o, repo, s);
      if s.mver == 0 {
        FinishRekeyConsistent(o, repo, draw, draw + 1, [], s, st1, st1);
      } else {
        RekeyManifestConsistent(o, repo, Current(LiveManifest(s), s.mver, Sha(s.manifest.value.text)), s, st1, draw);
      }
    }
  }

  lemma RekeyManifestConsistent(o: Opened, repo: RepoId, cur: Current, s: Store, st: State, draw: nat)
    requires Consistent(s, repo) && PinOk(st) && s.mver > 0
    requires o.ses.repo == repo && o.ses.key == s.keyfile.value.key && o.trusted == LiveRoster(s)
    requires o.trusted.body.Has(o.ses.id)
    requires cur == Current(LiveManifest(s), s.mver, Sha(s.manifest.value.text))
    ensures var c := RekeyManifest(o, cur, s, st, draw);
      && Consistent(c.s, repo) && PinOk(c.st)
      && (c.outcome.Fail? ==> SamePointers(c.s, s))
      && (c.outcome.Pass? ==>
            && LiveRoster(c.s).body == RosterSuccessor(o, o.trusted.body.members, o.trusted.body.gen + 1)
            && c.s.keyfile == Some(Keyfile(o.trusted.body.gen + 1, draw, Recipients(o.trusted.body.members))))
  {
    hide ResealAll, FinishRekey, DeleteAll;
    var re := ResealAll(o.ses, cur.Packs(), s.blobs, draw, draw + 1, []);
    if re.outcome.Pass? {
      var roster := RosterSuccessor(o, o.trusted.body.members, o.trusted.body.gen + 1);
      var text := Reissued(o, cur, re.packs, roster);
      var nonce := draw + 1 + |cur.Packs()|;
      var s2 := s.(blobs := re.blobs, manifest := Some(Cipher(draw, repo, nonce, text)), mver := s.mver + 1);
      var st2 := st.(imported := InsertAll(st.imported, re.packs), version := cur.seen + 1, hash := Sha(text));
      FinishRekeyConsistent(o, repo, draw, nonce + 1, cur.Packs(), s2, st, st2);
    }
  }
}
