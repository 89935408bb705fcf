/** What the operations write and save, field by field, in terms of the stored documents alone. */
module Saves {
  import opened Wrappers
  import opened Documents
  import opened Protocol
  import opened Packs
  import opened Membership

  // ---- the saved state after a success ----

  /** The roster pin is the live roster. */
  predicate RosterPinLive(st: State, t: Store) {
    && t.roster.Some? && st.rosterPinned && st.rosterVersion == t.rver
    && st.trusted == t.roster.value.text && st.rosterHash == Sha(t.roster.value.text)
  }

  /** The manifest pin is the live manifest, or as before if there is none. */
  predicate ManifestPinLive(st: State, st': State, t: Store) {
    if t.mver == 0 then st'.version == st.version && st'.hash == st.hash
    else t.manifest.Some? && st'.version == t.mver && st'.hash == Sha(t.manifest.value.text)
  }

  /** The key that was current and the one that is now are held, and every older one still is. */
  ghost predicate KeysKept(st: State, st': State, s: Store, t: Store) {
    && s.keyfile.Some? && t.keyfile.Some? && st.keys <= st'.keys
    && forall k :: k in st'.keys <==> k in st.keys || k == s.keyfile.value.key || k == t.keyfile.value.key
  }

  ghost predicate Saved(st: State, st': State, s: Store, t: Store) {
    RosterPinLive(st', t) && ManifestPinLive(st, st', t) && KeysKept(st, st', s, t)
  }

  lemma PublishSaves(
      o: Opened, repo: RepoId, members: set<Member>, gen: nat, key: Key, nonce: nat, s: Store, st: State)
    requires Consistent(s, repo)
    requires o.ses.repo == repo && o.ses.key == s.keyfile.value.key
    requires o.trusted == LiveRoster(s) && o.hash == Sha(s.roster.value.text)
    requires members != {}
    ensures var c := PublishChange(o, members, gen, key, nonce, s, st);
      && c.outcome.Pass? && RosterPinLive(c.st, c.s) && ManifestPinLive(st, c.st, c.s)
      && c.st.keys == Insert(st.keys, key) && c.st.imported == st.imported
      && c.s.keyfile == Some(Keyfile(gen, key, Recipients(members)))
  {
    var m :| m in members;
    assert m.x in Recipients(members);
    var s2 := s.(roster := Some(Cipher(key, o.ses.repo, nonce, RosterDocument(o, members, gen))),
                 rver := o.trusted.body.version + 1,
                 keyfile := Some(Keyfile(gen, key, Recipients(members))));
    assert LoadCurrent(o.ses, o.trusted, s2) == LoadCurrent(o.ses, o.trusted, s);
    LoadCurrentConsistent(o, repo, s);
  }

  /** A successful addition saves both live pins and keeps every key. */
  lemma AddSaves(
      id: Identity, repo: RepoId, st: State, s: Store, member: Member, fingerprint: Option<Identity>, draw: nat)
    requires Consistent(s, repo) && PinOk(st)
    requires AddMember(id, repo, st, s, member, fingerprint, draw).outcome.Pass?
    ensures var c := AddMember(id, repo, st, s, member, fingerprint, draw);
      Saved(st, c.st, s, c.s) && c.st.imported == st.imported
  {
    hide Enter, PublishChange, Insert;
    EnterExactly(id, repo, st, s);
    var (st1, r) := Enter(id, repo, st, s);
    var o := r.value;
    PublishSaves(o, repo, o.trusted.body.members + {member}, o.trusted.body.gen, o.ses.key, draw, s, st1);
  }

  /** A successful removal does too, and so holds the key it has made. */
  lemma RemoveSaves(id: Identity, repo: RepoId, st: State, s: Store, target: Identity, draw: nat)
    requires Consistent(s, repo) && PinOk(st)
    requires RemoveMember(id, repo, st, s, target, draw).outcome.Pass?
    ensures var c := RemoveMember(id, repo, st, s, target, draw);
      Saved(st, c.st, s, c.s) && c.st.imported == st.imported && draw in c.st.keys
  {
    hide Enter, PublishChange, Insert;
    EnterExactly(id, repo, st, s);
    var (st1, r) := Enter(id, repo, st, s);
    var o := r.value;
    PublishSaves(
      o, repo, MembersExcept(o.trusted.body.members, target), o.trusted.body.gen + 1, draw, draw + 1, s, st1);
  }

  lemma FinishSaves(
      o: Opened, key: Key, nonce: nat, stale: seq<Digest>, s: Store, before: State, st: State)
    requires s.roster.Some? && s.rver == o.trusted.body.version && o.trusted.body.Has(o.ses.id)
    ensures var c := FinishRekey(o, key, nonce, stale, s, before, st);
      && c.outcome.Pass? && RosterPinLive(c.st, c.s) && c.st.keys == Insert(st.keys, key)
      && c.st.version == st.version && c.st.hash == st.hash && c.st.imported == st.imported
      && c.s.manifest == s.manifest && c.s.mver == s.mver && c.s.keyfile.Some? && c.s.keyfile.value.key == key
  {
    MemberIsRecipient(o.trusted.body, o.ses.id);
  }

  /** A successful rekey saves both live pins, keeps every key, and records exactly the new packs. */
  lemma RekeySaves(id: Identity, repo: RepoId, st: State, s: Store, draw: nat)
    requires Consistent(s, repo) && PinOk(st)
    requires FullRekey(id, repo, st, s, draw).outcome.Pass?
    ensures var c := FullRekey(id, repo, st, s, draw);
      && Saved(st, c.st, s, c.s) && draw in c.st.keys
      && forall p :: p in c.st.imported <==> p in st.imported || p in LivePacks(c.s)
  {
    hide Enter, FinishRekey, RekeyManifest, Insert, Consistent;
    assert RosterConsistent(s, repo) by { ConsistentRoster(s, repo); }
    EnterExactly(id, repo, st, s);
    var (st1, r) := Enter(id, repo, st, s);
    var o := r.value;
    LoadCurrentConsistent(o, repo, s);
    if s.mver == 0 {
      ConsistentNone(s, repo);
      FinishSaves(o, draw, draw + 1, [], s, st1, st1);
    } else {
      ConsistentSome(s, repo);
      RekeyManifestSaves(o, Current(LiveManifest(s), s.mver, Sha(s.manifest.value.text)), s, st1, draw);
    }
  }

  lemma ConsistentRoster(s: Store, repo: RepoId)
    requires Consistent(s, repo)
    ensures RosterConsistent(s, repo)
  {
  }

  lemma ConsistentNone(s: Store, repo: RepoId)
    requires Consistent(s, repo) && s.mver == 0
    ensures s.manifest.None? && LivePacks(s) == []
  {
  }

  lemma ConsistentSome(s: Store, repo: RepoId)
    requires Consistent(s, repo) && s.mver > 0
    ensures HasManifest(s)
  {
  }

  lemma RekeyManifestSaves(o: Opened, cur: Current, s: Store, st: State, draw: nat)
    requires s.roster.Some? && s.rver == o.trusted.body.version && o.trusted.body.Has(o.ses.id)
    requires cur.Current? && cur.seen == s.mver
    requires RekeyManifest(o, cur, s, st, draw).outcome.Pass?
    ensures var c := RekeyManifest(o, cur, s, st, draw);
      && RosterPinLive(c.st, c.s) && ManifestPinLive(st, c.st, c.s) && c.s.mver > 0 && HasManifest(c.s)
      && c.st.keys == Insert(st.keys, draw) && c.s.keyfile.Some? && c.s.keyfile.value.key == draw
      && forall p :: p in c.st.imported <==> p in st.imported || p in LivePacks(c.s)
  {
    hide ResealAll, FinishRekey, DeleteAll;
    var re := ResealAll(o.ses, cur.Packs(), s.blobs, draw, draw + 1, []);
    var roster := RosterSuccessor(o, o.trusted.body.members, o.trusted.body.gen + 1);
    var text := Reissued(o, cur, re.packs, roster);
    var nonce := draw + 1 + |cur.Packs()|;
    var s2 := s.(blobs := re.blobs, manifest := Some(Cipher(draw, o.ses.repo, nonce, text)), mver := s.mver + 1);
    var st2 := st.(imported := InsertAll(st.imported, re.packs), version := cur.seen + 1, hash := Sha(text));
    FinishSaves(o, draw, nonce + 1, cur.Packs(), s2, st, st2);
  }

  // ---- push ----

  /** The live packs the client has not recorded can be imported with the keys it then holds. */
  ghost predicate CanImportLive(st: State, s: Store, repo: RepoId) {
    && s.keyfile.Some?
    && forall p :: p in LivePacks(s) && p !in st.imported ==>
         && p in s.blobs && ShaBlob(s.blobs[p]) == p && s.blobs[p].text.PackText? && s.blobs[p].repo == repo
         && (s.blobs[p].key == s.keyfile.value.key || s.blobs[p].key in st.keys)
  }

  /** A push succeeds exactly for a member with a current pin who has something to push, can import
      what is live, and whose git packs it; then both pins are live, every key is kept, and exactly
      the live packs have been recorded besides those that were. */
  lemma PushExactly(
      id: Identity, repo: RepoId, st: State, git: Git, s: Store, wants: map<string, Object>,
      objects: Option<set<Object>>, draw: nat)
    requires Consistent(s, repo) && PinOk(st) && ImportedLocal(st.imported, git)
    ensures var p := Push(id, repo, st, git, s, wants, objects, draw);
      && (p.outcome.Pass? <==>
            && LiveRoster(s).body.Has(id) && PinCurrent(st, s) && wants != map[] && objects.Some?
            && CanImportLive(st, s, repo))
      && (p.outcome.Pass? ==>
            && Saved(st, p.st, s, p.s)
            && forall q :: q in p.st.imported <==> q in st.imported || q in LivePacks(p.s))
  {
    hide Enter, PushAttempt, Insert;
    EnterExactly(id, repo, st, s);
    var (st1, r) := Enter(id, repo, st, s);
    if LiveRoster(s).body.Has(id) {
      MemberIsRecipient(LiveRoster(s).body, id);
    }
    if r.Ok? && r.value.trusted.body.Has(id) && wants != map[] {
      var o := r.value;
      PushAttemptSaves(o, repo, st1, git, s, wants, objects, draw);
      ImportableExactly(o.ses, st, s, repo);
    }
  }

  lemma ImportableExactly(ses: Session, st: State, s: Store, repo: RepoId)
    requires s.keyfile.Some? && ses.repo == repo && ses.key == s.keyfile.value.key
    requires ses.known == Insert(st.keys, s.keyfile.value.key)
    ensures CanImportLive(st, s, repo)
       <==> forall p :: p in LivePacks(s) && p !in st.imported ==> Importable(ses, s.blobs, p)
  {
    if CanImportLive(st, s, repo) {
      forall p | p in LivePacks(s) && p !in st.imported
        ensures Importable(ses, s.blobs, p)
      {
      }
    } else {
      var p :| p in LivePacks(s) && p !in st.imported && !(
        && p in s.blobs && ShaBlob(s.blobs[p]) == p && s.blobs[p].text.PackText? && s.blobs[p].repo == repo
        && (s.blobs[p].key == s.keyfile.value.key || s.blobs[p].key in st.keys));
      assert !Importable(ses, s.blobs, p);
    }
  }

  lemma PushAttemptSaves(
      o: Opened, repo: RepoId, st: State, git: Git, s: Store, wants: map<string, Object>,
      objects: Option<set<Object>>, draw: nat)
    requires Consistent(s, repo) && ImportedLocal(st.imported, git)
    requires o.ses.repo == repo && o.ses.key == s.keyfile.value.key && o.trusted == LiveRoster(s)
    requires RosterPinLive(st, s)
    ensures var p := PushAttempt(o, st, git, s, wants, objects, draw);
      && (p.outcome.Pass? <==>
            objects.Some? && forall q :: q in LivePacks(s) && q !in st.imported ==> Importable(o.ses, s.blobs, q))
      && (p.outcome.Pass? ==>
            && p.s.mver > 0 && ManifestPinLive(st, p.st, p.s) && RosterPinLive(p.st, p.s)
            && p.st.keys == st.keys && p.s.keyfile == s.keyfile
            && forall q :: q in p.st.imported <==> q in st.imported || q in LivePacks(p.s))
  {
    hide ImportPacks;
    LoadCurrentConsistent(o, repo, s);
    var cur := LoadCurrent(o.ses, o.trusted, s).value;
    assert cur.Packs() == LivePacks(s);
    ImportPacksExactly(o.ses, git, st.imported, cur.Packs(), s.blobs);
  }

  // ---- fetch ----

  /** What a fetch saves: the pin of what it accepted and the packs it listed, and without acceptance
      nothing of either; in every case every key is kept and the keyfile's is added if it opens. */
  lemma FetchSaves(id: Identity, repo: RepoId, st: State, git: Git, s: Store, order: seq<string>)
    requires ImportedLocal(st.imported, git)
    ensures var f := Fetch(id, repo, st, git, s, order);
      && (f.result.Ok? && f.result.value.Advance? ==>
            && HasManifest(s) && f.result.value.manifest == LiveManifest(s)
            && f.st.version == LiveManifest(s).body.version && f.st.hash == Sha(s.manifest.value.text)
            && forall p :: p in f.st.imported <==> p in st.imported || p in LivePacks(s))
      && (!(f.result.Ok? && f.result.value.Advance?) ==>
            f.st.version == st.version && f.st.hash == st.hash && f.st.imported == st.imported)
      && st.keys <= f.st.keys
      && (forall k :: k in f.st.keys <==>
            k in st.keys || (s.keyfile.Some? && id.x in s.keyfile.value.recipients && k == s.keyfile.value.key))
  {
    hide ImportPacks, UpdateRefs, LoadTrusted, Insert;
    EnterKeeps(id, repo, st, s);
    var (st1, r) := Enter(id, repo, st, s);
    if r.Ok? && HasManifest(s) {
      ImportPacksExactly(r.value.ses, git, st1.imported, LiveManifest(s).body.packs, s.blobs);
    }
  }

  /** The preamble keeps the manifest pin and the record of packs, and adds the keyfile's key. */
  lemma EnterKeeps(id: Identity, repo: RepoId, st: State, s: Store)
    ensures var st' := Enter(id, repo, st, s).0;
      && st'.version == st.version && st'.hash == st.hash && st'.imported == st.imported && st.keys <= st'.keys
      && (forall k :: k in st'.keys <==>
            k in st.keys || (s.keyfile.Some? && id.x in s.keyfile.value.recipients && k == s.keyfile.value.key))
  {
  }

  // ---- the saved state after a failure ----

  /** A membership operation that fails, on any store, has saved what its preamble saved and no more. */
  lemma FailedChangeSavesNothing(
      id: Identity, repo: RepoId, st: State, s: Store, member: Member, fingerprint: Option<Identity>, target: Identity,
      draw: nat)
    ensures var c := AddMember(id, repo, st, s, member, fingerprint, draw);
      c.outcome.Fail? ==> c.st == Enter(id, repo, st, s).0
    ensures var c := RemoveMember(id, repo, st, s, target, draw);
      c.outcome.Fail? ==> c.st == Enter(id, repo, st, s).0
  {
    hide Enter, Republish, Recipients, MembersExcept, RosterDocument;
  }

  lemma FailedRekeySavesNothing(id: Identity, repo: RepoId, st: State, s: Store, draw: nat)
    ensures var c := FullRekey(id, repo, st, s, draw);
      c.outcome.Fail? ==> c.st == Enter(id, repo, st, s).0
  {
    hide Enter, RekeyOpened;
    var (st1, r) := Enter(id, repo, st, s);
    if r.Ok? {
      FailedRekeyOpened(r.value, s, st1, draw);
    }
  }

  lemma FailedRekeyOpened(o: Opened, s: Store, st: State, draw: nat)
    ensures var c := RekeyOpened(o, s, st, draw);
      c.outcome.Fail? ==> c.st == st
  {
    hide LoadCurrent, ResealAll, DeleteAll, InsertAll, Recipients, RosterDocument, Reissued;
  }
}
