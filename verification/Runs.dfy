/** Runs of whole operations on an honest store, by any clients in any local state. */
module Runs {
  import opened Wrappers
  import opened Documents
  import opened Protocol
  import opened Packs
  import opened Membership

  /** The store, the next unused random draw, and how many rotations have succeeded. */
  datatype World = World(s: Store, next: nat, rotations: nat)

  /** An operation, the client's state when it starts, and what git answers it. */
  datatype Op =
    | PushOp(id: Identity, st: State, git: Git, wants: map<string, Object>, objects: Option<set<Object>>)
    | FetchOp(id: Identity, st: State)
    | AddOp(id: Identity, st: State, member: Member, fingerprint: Option<Identity>)
    | RemoveOp(id: Identity, st: State, target: Identity)
    | RekeyOp(id: Identity, st: State)

  /** Any client whose roster pin is one it accepted; git keeps its contract. */
  ghost predicate Legal(op: Op, s: Store) {
    && PinOk(op.st)
    && (op.PushOp? && op.objects.Some? ==> PackContract(op.wants.Values, LiveRefs(s).Values, op.objects.value))
  }

  function Step(repo: RepoId, w: World, op: Op): World {
    match op
    case PushOp(id, st, git, wants, objects) =>
      World(Push(id, repo, st, git, w.s, wants, objects, w.next).s, w.next + 2, w.rotations)
    case FetchOp(_, _) => w
    case AddOp(id, st, member, fingerprint) =>
      World(AddMember(id, repo, st, w.s, member, fingerprint, w.next).s, w.next + 2, w.rotations)
    case RemoveOp(id, st, target) =>
      var c := RemoveMember(id, repo, st, w.s, target, w.next);
      World(c.s, w.next + 3, w.rotations + if c.outcome.Pass? then 1 else 0)
    case RekeyOp(id, st) =>
      var c := FullRekey(id, repo, st, w.s, w.next);
      World(c.s, w.next + 3 + |LivePacks(w.s)|, w.rotations + if c.outcome.Pass? then 1 else 0)
  }

  function Run(repo: RepoId, w: World, ops: seq<Op>): World
    decreases |ops|
  {
    if ops == [] then w else Run(repo, Step(repo, w, ops[0]), ops[1..])
  }

  ghost predicate AllLegal(repo: RepoId, w: World, ops: seq<Op>)
    decreases |ops|
  {
    ops == [] || (Legal(ops[0], w.s) && AllLegal(repo, Step(repo, w, ops[0]), ops[1..]))
  }

  // ---- what the store holds ----

  predicate PackStored(s: Store, repo: RepoId, next: nat, id: Digest) {
    && id in s.blobs
    && s.blobs[id].repo == repo && s.blobs[id].text.PackText?
    && s.blobs[id].key < next && s.blobs[id].nonce < next
  }

  /** Content-addressed; every live pack is present and is a pack; the live manifest is closed
      under reachability; nothing used so far is as fresh as the next draw. */
  predicate Stored(s: Store, repo: RepoId, next: nat) {
    && Addressed(s.blobs)
    && (forall id | id in LivePacks(s) :: PackStored(s, repo, next, id))
    && (HasManifest(s) ==> Closed(LiveManifest(s).body))
    && (s.keyfile.Some? ==> s.keyfile.value.key < next)
  }

  predicate Inv(w: World, repo: RepoId) {
    && Consistent(w.s, repo)
    && Stored(w.s, repo, w.next)
    && w.s.keyfile.value.gen == 1 + w.rotations
  }

  lemma PushAttemptStored(
      o: Opened, repo: RepoId, st: State, git: Git, s: Store, wants: map<string, Object>,
      objects: Option<set<Object>>, draw: nat)
    requires Consistent(s, repo) && Stored(s, repo, draw)
    requires o.ses.repo == repo && o.ses.key == s.keyfile.value.key && o.trusted == LiveRoster(s)
    requires objects.Some? ==> PackContract(wants.Values, LiveRefs(s).Values, objects.value)
    ensures Stored(PushAttempt(o, st, git, s, wants, objects, draw).s, repo, draw + 2)
  {
    hide ImportPacks, VerifyManifest;
    LoadCurrentConsistent(o, repo, s);
    var cur := LoadCurrent(o.ses, o.trusted, s).value;
    var imp := ImportPacks(o.ses, git, st.imported, cur.Packs(), s.blobs);
    if imp.outcome.Pass? && objects.Some? {
      var pack := o.ses.Seal(PackText(objects.value), draw);
      var more := if objects.value == {} then [] else [ShaBlob(pack)];
      CoveredOne(ShaBlob(pack));
      assert Covered([]) == {};
      PushStaysClosed(cur.Refs(), wants, cur.Packs(), more);
      var s' := PushAttempt(o, st, git, s, wants, objects, draw).s;
      assert LivePacks(s') == LivePacks(s) + more;
      assert Closed(LiveManifest(s').body);
      assert Addressed(s'.blobs);
      forall id | id in LivePacks(s')
        ensures PackStored(s', repo, draw + 2, id)
      {
        assert id in LivePacks(s) ==> PackStored(s, repo, draw, id);
      }
    }
  }

  lemma PushStored(repo: RepoId, op: Op, s: Store, draw: nat)
    requires op.PushOp? && Legal(op, s)
    requires Consistent(s, repo) && Stored(s, repo, draw)
    ensures Stored(Push(op.id, repo, op.st, op.git, s, op.wants, op.objects, draw).s, repo, draw + 2)
  {
    hide Enter, PushAttempt;
    EnterExactly(op.id, repo, op.st, s);
    var (st1, r) := Enter(op.id, repo, op.st, s);
    if r.Ok? && r.value.trusted.body.Has(op.id) && op.wants != map[] {
      PushAttemptStored(r.value, repo, st1, op.git, s, op.wants, op.objects, draw);
    }
  }

  /** The live packs after a rekey: the same plaintexts in the same places, all under the new
      key and all new, with the old blobs deleted and nothing else. */
  ghost predicate Rekeyed(s: Store, t: Store, key: Key) {
    && LiveRefs(t) == LiveRefs(s)
    && |LivePacks(t)| == |LivePacks(s)|
    && (forall i :: 0 <= i < |LivePacks(s)| ==>
          && LivePacks(s)[i].ShaBlob? && LivePacks(t)[i].ShaBlob?
          && LivePacks(t)[i].blob.text == LivePacks(s)[i].blob.text
          && LivePacks(t)[i].blob.key == key)
    && (forall id :: id in LivePacks(s) ==> id !in t.blobs && id !in LivePacks(t))
    && (forall id :: id in LivePacks(t) ==> id in t.blobs)
    && (forall id :: id in s.blobs && id !in LivePacks(s) ==> id in t.blobs && t.blobs[id] == s.blobs[id])
  }

  /** Both pins of the client are the live documents. */
  predicate UpToDateWith(st: State, s: Store) {
    && HasManifest(s) && s.roster.Some?
    && st.version == s.mver && st.hash == Sha(s.manifest.value.text)
    && st.rosterPinned && st.rosterVersion == s.rver && st.rosterHash == Sha(s.roster.value.text)
  }

  /** What a rekey whose packs were all re-encrypted leaves behind. */
  lemma RekeyManifestShape(o: Opened, repo: RepoId, cur: Current, s: Store, st: State, draw: nat)
    requires Consistent(s, repo) && PinOk(st) && s.mver > 0
    requires o.ses.repo == repo && o.ses.key == s.keyfile.value.key && o.trusted == LiveRoster(s)
    requires o.trusted.body.Has(o.ses.id)
    requires cur == Current(LiveManifest(s), s.mver, Sha(s.manifest.value.text))
    ensures var c, re := RekeyManifest(o, cur, s, st, draw), ResealAll(o.ses, cur.Packs(), s.blobs, draw, draw + 1, []);
      && (c.outcome.Pass? <==> re.outcome.Pass?)
      && (c.outcome.Fail? ==> c.s == s.(blobs := re.blobs))
      && (c.outcome.Pass? ==>
            && HasManifest(c.s) && LivePacks(c.s) == re.packs && LiveRefs(c.s) == LiveRefs(s)
            && c.s.blobs == DeleteAll(re.blobs, cur.Packs())
            && c.s.keyfile.Some? && c.s.keyfile.value.key == draw
            && c.st.imported == InsertAll(st.imported, re.packs)
            && UpToDateWith(c.st, c.s))
  {
    var packs := cur.Packs();
    var re := ResealAll(o.ses, packs, s.blobs, draw, draw + 1, []);
    if re.outcome.Pass? {
      var roster := RosterSuccessor(o, o.trusted.body.members, o.trusted.body.gen + 1);
      var text := Reissued(o, cur, re.packs, roster);
      var nonce := draw + 1 + |packs|;
      var s2 := s.(blobs := re.blobs, manifest := Some(Cipher(draw, repo, nonce, text)), mver := s.mver + 1);
      var st2 := st.(imported := InsertAll(st.imported, re.packs), version := cur.seen + 1, hash := Sha(text));
      FinishRekeyConsistent(o, repo, draw, nonce + 1, packs, s2, st, st2);
    }
  }

  lemma RekeyedStored(s: Store, t: Store, repo: RepoId, blobs: map<Digest, Cipher>, draw: nat)
    requires Stored(s, repo, draw) && Addressed(blobs) && HasManifest(s) && HasManifest(t)
    requires |LivePacks(t)| == |LivePacks(s)| && LiveRefs(t) == LiveRefs(s)
    requires forall i :: 0 <= i < |LivePacks(s)| ==>
      && LivePacks(s)[i].ShaBlob?
      && LivePacks(t)[i] == ShaBlob(Cipher(draw, repo, draw + 1 + i, LivePacks(s)[i].blob.text))
      && LivePacks(t)[i] in blobs
    requires forall id :: id in s.blobs ==> id in blobs && blobs[id] == s.blobs[id]
    requires t.blobs == DeleteAll(blobs, LivePacks(s)) && t.keyfile.Some? && t.keyfile.value.key == draw
    ensures Stored(t, repo, draw + 3 + |LivePacks(s)|) && Rekeyed(s, t, draw)
  {
    assert forall id :: id in LivePacks(s) ==> PackStored(s, repo, draw, id);
    DeleteAllExactly(blobs, LivePacks(s));
    RekeyedPacks(s, repo, LivePacks(s), LivePacks(t), blobs, draw);
    SamePlaintextsCover(LivePacks(s), LivePacks(t));
    forall id | id in LivePacks(t)
      ensures PackStored(t, repo, draw + 3 + |LivePacks(s)|, id)
    {
      assert ShaBlob(blobs[id]) == id;
    }
  }

  /** Re-encrypting the live packs of an honest store. */
  lemma ResealLive(ses: Session, repo: RepoId, s: Store, draw: nat)
    requires Stored(s, repo, draw) && ses.repo == repo
    ensures var re := ResealAll(ses, LivePacks(s), s.blobs, draw, draw + 1, []);
      && Addressed(re.blobs)
      && (forall id :: id in s.blobs ==> id in re.blobs && re.blobs[id] == s.blobs[id])
      && (re.outcome.Pass? <==> forall id :: id in LivePacks(s) ==> ses.OpensAny(s.blobs[id]))
      && (re.outcome.Pass? ==>
            && |re.packs| == |LivePacks(s)|
            && forall i :: 0 <= i < |LivePacks(s)| ==>
                 && LivePacks(s)[i].ShaBlob?
                 && re.packs[i] == ShaBlob(Cipher(draw, repo, draw + 1 + i, LivePacks(s)[i].blob.text))
                 && re.packs[i] in re.blobs)
  {
    assert forall id :: id in LivePacks(s) ==> PackStored(s, repo, draw, id);
    ResealAllMeaning(ses, LivePacks(s), s.blobs, draw, draw + 1, []);
    ResealAllExactly(ses, LivePacks(s), s.blobs, draw, draw + 1, []);
  }

  lemma FailedRekeyStored(s: Store, repo: RepoId, blobs: map<Digest, Cipher>, draw: nat, later: nat)
    requires Stored(s, repo, draw) && Addressed(blobs) && draw <= later
    requires forall id :: id in s.blobs ==> id in blobs && blobs[id] == s.blobs[id]
    ensures Stored(s.(blobs := blobs), repo, later)
  {
    var t := s.(blobs := blobs);
    assert LivePacks(t) == LivePacks(s);
    forall id | id in LivePacks(t)
      ensures PackStored(t, repo, later, id)
    {
      assert PackStored(s, repo, draw, id);
    }
  }

  lemma RekeyManifestMeaning(o: Opened, repo: RepoId, cur: Current, s: Store, st: State, draw: nat)
    requires Consistent(s, repo) && Stored(s, repo, draw) && PinOk(st) && s.mver > 0
    requires o.ses.repo == repo && o.ses.key == s.keyfile.value.key && o.trusted == LiveRoster(s)
    requires o.trusted.body.Has(o.ses.id)
    requires cur == Current(LiveManifest(s), s.mver, Sha(s.manifest.value.text))
    ensures var c := RekeyManifest(o, cur, s, st, draw);
      && Stored(c.s, repo, draw + 3 + |LivePacks(s)|)
      && (c.outcome.Pass? <==> forall id :: id in LivePacks(s) ==> o.ses.OpensAny(s.blobs[id]))
      && (c.outcome.Pass? ==> Rekeyed(s, c.s, draw))
      && (c.outcome.Pass? ==> UpToDateWith(c.st, c.s))
      && (c.outcome.Pass? ==> forall id :: id in c.st.imported <==> id in st.imported || id in LivePacks(c.s))
  {
    assert forall id :: id in LivePacks(s) ==> PackStored(s, repo, draw, id);
    RekeyManifestShape(o, repo, cur, s, st, draw);
    ResealLive(o.ses, repo, s, draw);
    var re := ResealAll(o.ses, LivePacks(s), s.blobs, draw, draw + 1, []);
    var c := RekeyManifest(o, cur, s, st, draw);
    if re.outcome.Pass? {
      RekeyedStored(s, c.s, repo, re.blobs, draw);
    } else {
      FailedRekeyStored(s, repo, re.blobs, draw, draw + 3 + |LivePacks(s)|);
    }
  }

  /** Old and new ids are disjoint, because the new ones carry a key never used before. */
  lemma RekeyedPacks(
      s: Store, repo: RepoId, packs: seq<Digest>, packs': seq<Digest>, blobs: map<Digest, Cipher>, draw: nat)
    requires Addressed(s.blobs) && |packs'| == |packs|
    requires forall id :: id in packs ==> PackStored(s, repo, draw, id)
    requires forall i :: 0 <= i < |packs| ==>
      && packs[i].ShaBlob?
      && packs'[i] == ShaBlob(Cipher(draw, repo, draw + 1 + i, packs[i].blob.text))
    ensures forall id :: id in packs ==> id !in packs'
    ensures forall i :: 0 <= i < |packs| ==> PackObjects(packs'[i]) == PackObjects(packs[i])
    ensures forall id :: id in packs' ==>
      id.ShaBlob? && id.blob.text.PackText? && id.blob.key == draw && id.blob.repo == repo
      && id.blob.nonce <= draw + |packs|
  {
    forall i, j | 0 <= i < |packs| && 0 <= j < |packs|
      ensures packs[i] != packs'[j]
    {
      assert PackStored(s, repo, draw, packs[i]);
    }
    forall i | 0 <= i < |packs|
      ensures packs'[i].blob.text.PackText?
    {
      assert PackStored(s, repo, draw, packs[i]);
    }
  }

  /** A full rekey keeps what the repository means.  It succeeds exactly when the caller can
      enter, is a member, and holds a key for every live pack. */
  lemma RekeyMeaning(id: Identity, repo: RepoId, st: State, s: Store, draw: nat)
    requires Consistent(s, repo) && Stored(s, repo, draw) && PinOk(st)
    ensures var c := FullRekey(id, repo, st, s, draw);
      && Stored(c.s, repo, draw + 3 + |LivePacks(s)|)
      && (c.outcome.Pass? ==> Rekeyed(s, c.s, draw))
      && (c.outcome.Pass? <==>
            && LiveRoster(s).body.Has(id) && PinCurrent(st, s)
            && forall p :: p in LivePacks(s) ==>
              p.ShaBlob? && (p.blob.key == s.keyfile.value.key || p.blob.key in st.keys))
      && (c.outcome.Pass? && s.mver > 0 ==> UpToDateWith(c.st, c.s))
      && (c.outcome.Pass? ==> forall p :: p in c.st.imported <==> p in st.imported || p in LivePacks(c.s))
  {
    hide Enter, FinishRekey, RekeyManifest;
    EnterExactly(id, repo, st, s);
    var (st1, r) := Enter(id, repo, st, s);
    if LiveRoster(s).body.Has(id) {
      var me :| me in LiveRoster(s).body.members && me.Fingerprint() == id;
      assert id.x in Recipients(LiveRoster(s).body.members);
    }
    assert forall p :: p in LivePacks(s) ==> PackStored(s, repo, draw, p);
    if r.Ok? && r.value.trusted.body.Has(id) {
      var o := r.value;
      LoadCurrentConsistent(o, repo, s);
      if s.mver == 0 {
        FinishRekeyConsistent(o, repo, draw, draw + 1, [], s, st1, st1);
      } else {
        RekeyManifestMeaning(o, repo, Current(LiveManifest(s), s.mver, Sha(s.manifest.value.text)), s, st1, draw);
      }
    }
  }

  // ---- every run ----

  lemma InitInv(repo: RepoId, founder: Identity, name: string, key: Key, next: nat)
    requires key < next
    ensures Init(EMPTY_STORE, founder, name, repo, key, key).outcome.Pass?
    ensures Inv(World(Init(EMPTY_STORE, founder, name, repo, key, key).s, next, 0), repo)
  {
    var s := Init(EMPTY_STORE, founder, name, repo, key, key).s;
    var m := Member(name, founder.x, founder.ed);
    assert m in LiveRoster(s).body.members && m.Fingerprint() == founder;
    assert Recipients({m}) == {founder.x};
  }

  lemma StoredLater(s: Store, t: Store, repo: RepoId, next: nat, later: nat)
    requires Stored(s, repo, next) && next <= later && SameContent(t, s)
    requires t.keyfile.Some? ==> t.keyfile.value.key < later
    ensures Stored(t, repo, later)
  {
    forall id | id in LivePacks(t)
      ensures PackStored(t, repo, later, id)
    {
      assert PackStored(s, repo, next, id);
    }
  }

  lemma StepInv(repo: RepoId, w: World, op: Op)
    requires Inv(w, repo) && Legal(op, w.s)
    ensures Inv(Step(repo, w, op), repo)
  {
    hide Push, AddMember, RemoveMember, FullRekey;
    match op
    case PushOp(id, st, git, wants, objects) =>
      PushConsistent(id, repo, st, git, w.s, wants, objects, w.next);
      PushStored(repo, op, w.s, w.next);
    case FetchOp(_, _) =>
    case AddOp(id, st, member, fingerprint) =>
      AddConsistent(id, repo, st, w.s, member, fingerprint, w.next);
      StoredLater(w.s, Step(repo, w, op).s, repo, w.next, Step(repo, w, op).next);
    case RemoveOp(id, st, target) =>
      RemoveConsistent(id, repo, st, w.s, target, w.next);
      StoredLater(w.s, Step(repo, w, op).s, repo, w.next, Step(repo, w, op).next);
    case RekeyOp(id, st) =>
      RekeyConsistent(id, repo, st, w.s, w.next);
      RekeyMeaning(id, repo, st, w.s, w.next);
  }

  /** After Init and any run, the three pointers agree and the generation counts the rotations. */
  lemma {:induction false} RunInv(repo: RepoId, w: World, ops: seq<Op>)
    requires Inv(w, repo) && AllLegal(repo, w, ops)
    ensures Inv(Run(repo, w, ops), repo)
    decreases |ops|
  {
    if ops != [] {
      StepInv(repo, w, ops[0]);
      RunInv(repo, Step(repo, w, ops[0]), ops[1..]);
    }
  }

  lemma RunsFromInit(repo: RepoId, founder: Identity, name: string, key: Key, next: nat, ops: seq<Op>)
    requires key < next
    requires AllLegal(repo, World(Init(EMPTY_STORE, founder, name, repo, key, key).s, next, 0), ops)
    ensures Inv(Run(repo, World(Init(EMPTY_STORE, founder, name, repo, key, key).s, next, 0), ops), repo)
  {
    InitInv(repo, founder, name, key, next);
    RunInv(repo, World(Init(EMPTY_STORE, founder, name, repo, key, key).s, next, 0), ops);
  }

  // ---- removal ----

  predicate KeyAbsent(s: Store, x: nat)
    requires s.roster.Some? && s.roster.value.text.RosterText?
  {
    forall m | m in LiveRoster(s).body.members :: m.x != x
  }

  /** A removal takes the key away from the target exactly when no remaining member has the
      target's X25519 key. */
  lemma RemovalExactly(id: Identity, repo: RepoId, st: State, s: Store, target: Identity, draw: nat)
    requires Consistent(s, repo) && PinOk(st)
    requires RemoveMember(id, repo, st, s, target, draw).outcome.Pass?
    ensures var t := RemoveMember(id, repo, st, s, target, draw).s;
      && RosterConsistent(t, repo) && !LiveRoster(t).body.Has(target)
      && (target.x !in t.keyfile.value.recipients
          <==> forall m :: m in LiveRoster(s).body.members && m.Fingerprint() != target ==> m.x != target.x)
      && (target.x !in t.keyfile.value.recipients ==> KeyAbsent(t, target.x))
  {
    RemoveConsistent(id, repo, st, s, target, draw);
    var t := RemoveMember(id, repo, st, s, target, draw).s;
    var remaining := MembersExcept(LiveRoster(s).body.members, target);
    forall m | m in remaining ensures m.x in Recipients(remaining) { }
  }

  lemma StepKeyAbsent(repo: RepoId, w: World, op: Op, x: nat)
    requires Inv(w, repo) && Legal(op, w.s) && KeyAbsent(w.s, x)
    requires op.AddOp? ==> op.member.x != x
    ensures Inv(Step(repo, w, op), repo) && KeyAbsent(Step(repo, w, op).s, x)
  {
    hide Push, AddMember, RemoveMember, FullRekey;
    StepInv(repo, w, op);
    match op
    case PushOp(id, st, git, wants, objects) => PushConsistent(id, repo, st, git, w.s, wants, objects, w.next);
    case FetchOp(_, _) =>
    case AddOp(id, st, member, fingerprint) => AddConsistent(id, repo, st, w.s, member, fingerprint, w.next);
    case RemoveOp(id, st, target) => RemoveConsistent(id, repo, st, w.s, target, w.next);
    case RekeyOp(id, st) => RekeyConsistent(id, repo, st, w.s, w.next);
  }

  /** While nobody adds a member with this X25519 key, its holder opens no later keyfile. */
  lemma {:induction false} RemovedStaysOut(repo: RepoId, w: World, ops: seq<Op>, x: nat, id: Identity, st: State)
    requires Inv(w, repo) && AllLegal(repo, w, ops) && KeyAbsent(w.s, x)
    requires forall op :: op in ops && op.AddOp? ==> op.member.x != x
    requires id.x == x
    ensures Refresh(id, repo, st, Run(repo, w, ops).s.keyfile) == Err(NotRecipient)
    decreases |ops|
  {
    if ops != [] {
      StepKeyAbsent(repo, w, ops[0], x);
      RemovedStaysOut(repo, Step(repo, w, ops[0]), ops[1..], x, id, st);
    }
  }

  // ---- fetching ----

  /** Every live pack is under the current key. */
  predicate AllCurrent(s: Store) {
    s.keyfile.Some? && forall id | id in LivePacks(s) :: id.ShaBlob? && id.blob.key == s.keyfile.value.key
  }

  /** The manifest pin is absent, is the live manifest, or is its direct predecessor. */
  predicate ManifestPinCurrent(st: State, s: Store) {
    || !HasManifest(s) || st.version == 0
    || (st.version == LiveManifest(s).body.version && st.hash == Sha(s.manifest.value.text))
    || (st.version < LiveManifest(s).body.version && LiveManifest(s).body.prev == Some(st.hash))
  }

  predicate HoldsPacks(s: Store, st: State) {
    s.keyfile.Some? && forall id | id in LivePacks(s) && id !in st.imported ::
      id.ShaBlob? && (id.blob.key == s.keyfile.value.key || id.blob.key in st.keys)
  }

  /** On an honest store a recipient whose roster pin is current fetches successfully exactly
      when its manifest pin is current and, if there is something new, it holds the keys of the
      packs it misses; afterwards it holds everything the live refs reach. */
  lemma FetchExactly(id: Identity, repo: RepoId, st: State, git: Git, s: Store, next: nat, order: seq<string>)
    requires Consistent(s, repo) && Stored(s, repo, next) && PinOk(st) && ImportedLocal(st.imported, git)
    requires id.x in Recipients(LiveRoster(s).body.members) && PinCurrent(st, s)
    requires Enumerates(order, LiveRefs(s))
    ensures var f := Fetch(id, repo, st, git, s, order);
      && ImportedLocal(f.st.imported, f.git)
      && (f.result.Ok? <==>
            && ManifestPinCurrent(st, s)
            && (HasManifest(s) && st.version != s.mver ==> HoldsPacks(s, st)))
      && (f.result.Ok? && f.result.value.Advance? ==>
            && f.result.value.manifest == LiveManifest(s)
            && ReachSet(LiveRefs(s).Values) <= f.git.objects
            && f.git.refs == git.refs + LiveRefs(s)
            && f.st.version == s.mver && f.st.hash == Sha(s.manifest.value.text))
  {
    hide Enter, Apply;
    EnterExactly(id, repo, st, s);
    var (st1, r) := Enter(id, repo, st, s);
    var o := r.value;
    assert st1.imported == st.imported && st1.version == st.version && st1.hash == st.hash;
    var verdict := Judge(o, st1, s);
    if verdict.Ok? && verdict.value.Advance? {
      ApplyExactly(o, repo, st1, git, s, next, order);
      assert HoldsPacks(s, st)
        <==> forall p :: p in LivePacks(s) && p !in st1.imported ==> Importable(o.ses, s.blobs, p) by {
        forall p | p in LivePacks(s)
          ensures Importable(o.ses, s.blobs, p)
            <==> p.ShaBlob? && (p.blob.key == s.keyfile.value.key || p.blob.key in st.keys)
        {
          assert PackStored(s, repo, next, p);
        }
      }
    }
  }

  lemma ApplyExactly(o: Opened, repo: RepoId, st: State, git: Git, s: Store, next: nat, order: seq<string>)
    requires Consistent(s, repo) && Stored(s, repo, next) && ImportedLocal(st.imported, git) && HasManifest(s)
    requires Enumerates(order, LiveRefs(s))
    ensures var f := Apply(o, st, git, s, LiveManifest(s), Sha(s.manifest.value.text), order);
      && ImportedLocal(f.st.imported, f.git)
      && (f.result.Ok? <==> forall p :: p in LivePacks(s) && p !in st.imported ==> Importable(o.ses, s.blobs, p))
      && (f.result.Ok? ==>
            && f.result.value == Advance(LiveManifest(s), Sha(s.manifest.value.text))
            && ReachSet(LiveRefs(s).Values) <= f.git.objects
            && f.git.refs == git.refs + LiveRefs(s)
            && f.st.version == s.mver && f.st.hash == Sha(s.manifest.value.text))
  {
    var m := LiveManifest(s);
    ImportPacksExactly(o.ses, git, st.imported, m.body.packs, s.blobs);
    var imp := ImportPacks(o.ses, git, st.imported, m.body.packs, s.blobs);
    UpdateRefsExactly(imp.git, m.body.refs, order);
    if imp.outcome.Pass? {
      forall r | r in order
        ensures m.body.refs[r] in imp.git.objects
      {
        RefsReached(m.body.refs, r);
      }
      assert (map r | r in order :: m.body.refs[r]) == m.body.refs;
    } else {
      assert forall p :: p in st.imported ==> PackObjects(p) <= imp.git.objects;
    }
  }

  lemma StepAllCurrent(repo: RepoId, w: World, op: Op)
    requires Inv(w, repo) && Legal(op, w.s)
    requires AllCurrent(w.s) || (op.RekeyOp? && FullRekey(op.id, repo, op.st, w.s, w.next).outcome.Pass?)
    requires op.RemoveOp? ==> RemoveMember(op.id, repo, op.st, w.s, op.target, w.next).outcome.Fail?
    ensures Inv(Step(repo, w, op), repo) && AllCurrent(Step(repo, w, op).s)
  {
    hide Push, AddMember, RemoveMember, FullRekey;
    StepInv(repo, w, op);
    match op
    case PushOp(id, st, git, wants, objects) => PushConsistent(id, repo, st, git, w.s, wants, objects, w.next);
    case FetchOp(_, _) =>
    case AddOp(id, st, member, fingerprint) => AddConsistent(id, repo, st, w.s, member, fingerprint, w.next);
    case RemoveOp(id, st, target) => RemoveConsistent(id, repo, st, w.s, target, w.next);
    case RekeyOp(id, st) =>
      RekeyConsistent(id, repo, st, w.s, w.next);
      RekeyMeaning(id, repo, st, w.s, w.next);
  }

  /** The operations of a run that remove nobody. */
  ghost predicate NoRemoval(repo: RepoId, w: World, ops: seq<Op>)
    decreases |ops|
  {
    ops == [] || (
      && (ops[0].RemoveOp? ==> RemoveMember(ops[0].id, repo, ops[0].st, w.s, ops[0].target, w.next).outcome.Fail?)
      && NoRemoval(repo, Step(repo, w, ops[0]), ops[1..]))
  }

  lemma {:induction false} RunAllCurrent(repo: RepoId, w: World, ops: seq<Op>)
    requires Inv(w, repo) && AllLegal(repo, w, ops) && AllCurrent(w.s) && NoRemoval(repo, w, ops)
    ensures Inv(Run(repo, w, ops), repo) && AllCurrent(Run(repo, w, ops).s)
    decreases |ops|
  {
    if ops != [] {
      StepAllCurrent(repo, w, ops[0]);
      RunAllCurrent(repo, Step(repo, w, ops[0]), ops[1..]);
    }
  }

  /** The fetch succeeds and leaves every live ref and everything it reaches. */
  ghost predicate FetchesAll(repo: RepoId, s: Store, id: Identity, git: Git, order: seq<string>) {
    var f := Fetch(id, repo, EMPTY_STATE, git, s, order);
    && f.result.Ok?
    && (HasManifest(s) ==> ReachSet(LiveRefs(s).Values) <= f.git.objects && f.git.refs == git.refs + LiveRefs(s))
  }

  lemma AllCurrentFetches(repo: RepoId, w: World, id: Identity, git: Git, order: seq<string>)
    requires Inv(w, repo) && AllCurrent(w.s) && LiveRoster(w.s).body.Has(id) && Enumerates(order, LiveRefs(w.s))
    ensures FetchesAll(repo, w.s, id, git, order)
  {
    var me :| me in LiveRoster(w.s).body.members && me.Fingerprint() == id;
    assert id.x in Recipients(LiveRoster(w.s).body.members);
    FetchExactly(id, repo, EMPTY_STATE, git, w.s, w.next, order);
  }

  /** After a rekey and until the next removal, any current member with empty local state can
      fetch, and then has the whole history. */
  lemma FreshMemberFetches(repo: RepoId, w: World, rekey: Op, ops: seq<Op>)
    requires Inv(w, repo) && Legal(rekey, w.s)
    requires rekey.RekeyOp? && FullRekey(rekey.id, repo, rekey.st, w.s, w.next).outcome.Pass?
    requires AllLegal(repo, Step(repo, w, rekey), ops) && NoRemoval(repo, Step(repo, w, rekey), ops)
    ensures var w' := Run(repo, Step(repo, w, rekey), ops);
      && Inv(w', repo)
      && forall id, git, order | LiveRoster(w'.s).body.Has(id) && Enumerates(order, LiveRefs(w'.s)) ::
           FetchesAll(repo, w'.s, id, git, order)
  {
    StepAllCurrent(repo, w, rekey);
    RunAllCurrent(repo, Step(repo, w, rekey), ops);
    var w' := Run(repo, Step(repo, w, rekey), ops);
    forall id, git, order | LiveRoster(w'.s).body.Has(id) && Enumerates(order, LiveRefs(w'.s))
      ensures FetchesAll(repo, w'.s, id, git, order)
    {
      AllCurrentFetches(repo, w', id, git, order);
    }
  }

  // ---- what a rekey records as imported ----

  /** A rekey records the new packs as imported without importing them, so afterwards the record
      is right exactly when everything the live packs hold was already local. */
  lemma RekeyImportsExactly(id: Identity, repo: RepoId, st: State, git: Git, s: Store, draw: nat)
    requires Consistent(s, repo) && Stored(s, repo, draw) && PinOk(st) && ImportedLocal(st.imported, git)
    requires FullRekey(id, repo, st, s, draw).outcome.Pass?
    ensures ImportedLocal(FullRekey(id, repo, st, s, draw).st.imported, git) <==> Covered(LivePacks(s)) <= git.objects
  {
    hide FullRekey, Consistent, Stored;
    RekeyMeaning(id, repo, st, s, draw);
    var c := FullRekey(id, repo, st, s, draw);
    SamePlaintextsCover(LivePacks(s), LivePacks(c.s));
    if ImportedLocal(c.st.imported, git) {
      assert Covered(LivePacks(c.s)) <= git.objects;
    } else {
      var p :| p in c.st.imported && !(PackObjects(p) <= git.objects);
      assert p in LivePacks(c.s);
      var o :| o in PackObjects(p) && o !in git.objects;
      assert o in Covered(LivePacks(c.s));
    }
  }

  /** So a member who rekeys before ever fetching never gets the history: whatever is missing from
      their repository, the next fetch reports that they are up to date and imports nothing. */
  lemma RekeyBeforeFetchImportsNothing(
      id: Identity, repo: RepoId, git: Git, s: Store, draw: nat, order: seq<string>)
    requires Consistent(s, repo) && Stored(s, repo, draw) && s.mver > 0 && AllCurrent(s)
    requires LiveRoster(s).body.Has(id)
    ensures var c := FullRekey(id, repo, EMPTY_STATE, s, draw);
      && c.outcome.Pass?
      && Fetch(id, repo, c.st, git, c.s, order).result == Ok(UpToDate)
      && Fetch(id, repo, c.st, git, c.s, order).git == git
  {
    hide FullRekey;
    RekeyMeaning(id, repo, EMPTY_STATE, s, draw);
    RekeyConsistent(id, repo, EMPTY_STATE, s, draw);
    var c := FullRekey(id, repo, EMPTY_STATE, s, draw);
    var me :| me in LiveRoster(c.s).body.members && me.Fingerprint() == id;
    assert id.x in Recipients(LiveRoster(c.s).body.members);
    EnterExactly(id, repo, c.st, c.s);
  }
}
