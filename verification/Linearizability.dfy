/** What every step of every interleaving keeps. */
module Linearizability {
  import opened Wrappers
  import opened Documents
  import opened Protocol
  import opened Packs
  import opened Interleaving

  // ---- the committed manifests ----

  predicate AllManifests(log: seq<Commit>) {
    forall k | k in log :: k.text.ManifestText?
  }

  function Body(log: seq<Commit>, i: nat): ManifestBody
    requires AllManifests(log) && i < |log|
  {
    assert log[i] in log;
    log[i].text.manifest.body
  }

  function RefsBefore(log: seq<Commit>, i: nat): map<string, Object>
    requires AllManifests(log) && i <= |log|
  {
    if i == 0 then map[] else Body(log, i - 1).refs
  }

  function PacksBefore(log: seq<Commit>, i: nat): seq<Digest>
    requires AllManifests(log) && i <= |log|
  {
    if i == 0 then [] else Body(log, i - 1).packs
  }

  /** Two pack ids of the same plaintext. */
  predicate SamePlaintext(id: Digest, id': Digest) {
    id.ShaBlob? && id'.ShaBlob? && id.blob.text == id'.blob.text
  }

  /** What the operation of each kind does to refs and packs. */
  predicate KindAllows(kind: Kind, refs: map<string, Object>, packs: seq<Digest>, b: ManifestBody) {
    match kind
    case PushKind(wants) => b.refs == refs + wants && packs <= b.packs && |b.packs| <= |packs| + 1
    case ReissueKind => b.refs == refs && b.packs == packs
    case RekeyKind =>
      b.refs == refs && |b.packs| == |packs| && forall k | 0 <= k < |packs| :: SamePlaintext(packs[k], b.packs[k])
  }

  /** The i-th commit is version i+1, hash-linked to the one before, does to refs and packs what
      its operation promises, and is closed under reachability. */
  predicate CommitOk(log: seq<Commit>, i: nat)
    requires AllManifests(log) && i < |log|
  {
    var b := Body(log, i);
    && b.version == i + 1
    && b.prev == (if i == 0 then None else Some(Sha(log[i - 1].text)))
    && KindAllows(log[i].kind, RefsBefore(log, i), PacksBefore(log, i), b)
    && Closed(b)
  }

  predicate LogOk(log: seq<Commit>) {
    AllManifests(log) && forall i | 0 <= i < |log| :: CommitOk(log, i)
  }

  // ---- the store ----

  predicate Fresh(sys: Sys, id: Digest) {
    id.ShaBlob? && id.blob.nonce < sys.next
  }

  /** The store holds the last commit and, under its own address, every pack it lists. */
  predicate StoreOk(sys: Sys) {
    && sys.s.mver == |sys.log|
    && (if sys.log == [] then sys.s.manifest.None?
        else sys.s.manifest.Some? && sys.s.manifest.value.text == sys.log[|sys.log| - 1].text)
    && Addressed(sys.s.blobs)
    && (forall id | id in LivePacks(sys) :: id in sys.s.blobs && Fresh(sys, id) && id !in sys.retired)
    && (forall id | id in sys.retired :: Fresh(sys, id))
  }

  // ---- a client in the middle of an operation ----

  /** The ids of packs a client has made for a manifest it has not committed. */
  function Owned(p: Prog): set<Digest> {
    match p
    case PushPutBlob(_, pack) => {ShaBlob(pack)}
    case PushCasManifest(_, more) => set id | id in more
    case RekeyGetBlob(_, done) => set id | id in done
    case RekeyPutBlob(_, done, pack) => (set id | id in done) + {ShaBlob(pack)}
    case RekeyCasManifest(_, done) => set id | id in done
    case _ => {}
  }

  /** Those of them it has already put. */
  function Put(p: Prog): set<Digest> {
    match p
    case PushCasManifest(_, more) => set id | id in more
    case RekeyGetBlob(_, done) => set id | id in done
    case RekeyPutBlob(_, done, _) => set id | id in done
    case RekeyCasManifest(_, done) => set id | id in done
    case _ => {}
  }

  predicate OwnedOk(sys: Sys, p: Prog) {
    && (forall id | id in Owned(p) :: Fresh(sys, id) && id !in LivePacks(sys) && id !in sys.retired)
    && (forall id | id in Put(p) :: id in sys.s.blobs)
  }

  /** A manifest the client has read is the one committed at the version it read. */
  predicate Snapshot(log: seq<Commit>, cur: Current)
    requires AllManifests(log)
  {
    cur.NoManifest? || (
      && 1 <= cur.seen <= |log|
      && cur.manifest.body == Body(log, cur.seen - 1)
      && cur.hash == Sha(log[cur.seen - 1].text))
  }

  /** Everything committed since the push began was committed by others. */
  predicate ByOthers(log: seq<Commit>, c: nat, began: nat) {
    began <= |log| && forall i | began <= i < |log| :: log[i].client != c
  }

  predicate PushOk(log: seq<Commit>, c: nat, rd: Round)
    requires AllManifests(log)
  {
    && rd.attempt < MAX_ATTEMPTS && ByOthers(log, c, rd.job.began)
    && Snapshot(log, rd.cur) && rd.cur.Version() >= rd.job.began + rd.attempt
  }

  predicate RekeyOk(log: seq<Commit>, rk: Rekey, done: seq<Digest>)
    requires AllManifests(log)
  {
    && rk.cur.Current? && Snapshot(log, rk.cur) && |done| <= |rk.cur.Packs()|
    && forall k | 0 <= k < |done| :: SamePlaintext(rk.cur.Packs()[k], done[k])
  }

  ghost predicate ProgOk(log: seq<Commit>, retired: set<Digest>, c: nat, p: Prog)
    requires AllManifests(log)
  {
    match p
    case PushGetKeyfile(_, began) => ByOthers(log, c, began)
    case PushGetRoster(_, began, _) => ByOthers(log, c, began)
    case PushGetManifest(job, attempt) =>
      attempt < MAX_ATTEMPTS && ByOthers(log, c, job.began) && |log| >= job.began + attempt
    case PushGetBlob(rd, _) => PushOk(log, c, rd)
    case PushPack(rd) => PushOk(log, c, rd)
    case PushPutBlob(rd, pack) =>
      PushOk(log, c, rd)
      && pack.text.PackText? && PackContract(rd.job.wants.Values, rd.cur.Refs().Values, pack.text.objects)
    case PushCasManifest(rd, more) =>
      PushOk(log, c, rd)
      && |more| <= 1 && PackContract(rd.job.wants.Values, rd.cur.Refs().Values, Covered(more))
    case ChangeCasManifest(_, cur) => cur.Current? && Snapshot(log, cur)
    case RekeyGetBlob(rk, done) => RekeyOk(log, rk, done)
    case RekeyPutBlob(rk, done, pack) =>
      RekeyOk(log, rk, done) && |done| < |rk.cur.Packs()| && SamePlaintext(rk.cur.Packs()[|done|], ShaBlob(pack))
    case RekeyCasManifest(rk, done) => RekeyOk(log, rk, done) && |done| == |rk.cur.Packs()|
    case RekeyPutKeyfile(_, stale, _) => forall id | id in stale :: id in retired
    case RekeyCasRoster(_, stale, _) => forall id | id in stale :: id in retired
    case RekeyDeleteBlob(_, stale, _) => forall id | id in stale :: id in retired
    case PushSucceeded(job, version) =>
      job.began < version <= |log| && log[version - 1].client == c && log[version - 1].kind == PushKind(job.wants)
    case PushGaveUp(began) => ByOthers(log, c, began) && |log| >= began + MAX_ATTEMPTS
    case _ => true
  }

  ghost predicate SlotOk(sys: Sys, c: nat, p: Prog)
    requires AllManifests(sys.log)
  {
    ProgOk(sys.log, sys.retired, c, p) && OwnedOk(sys, p)
  }

  ghost predicate Inv(sys: Sys) {
    && LogOk(sys.log) && StoreOk(sys)
    && (forall c | 0 <= c < |sys.slots| :: SlotOk(sys, c, sys.slots[c].prog))
    && (forall c, d | 0 <= c < d < |sys.slots| :: Owned(sys.slots[c].prog) !! Owned(sys.slots[d].prog))
  }

  // ---- steps that commit nothing ----

  /** Client c moves to p; packs may be put, and only retired ones deleted. */
  ghost predicate Calm(sys: Sys, sys': Sys, c: nat) {
    && c < |sys.slots| && sys'.log == sys.log && sys'.retired == sys.retired && sys'.next >= sys.next
    && sys'.s.mver == sys.s.mver && sys'.s.manifest == sys.s.manifest
    && Addressed(sys'.s.blobs)
    && (forall id :: id in sys.s.blobs && id !in sys.retired ==> id in sys'.s.blobs)
    && |sys'.slots| == |sys.slots|
    && (forall d | 0 <= d < |sys.slots| && d != c :: sys'.slots[d] == sys.slots[d])
  }

  lemma CalmInv(sys: Sys, sys': Sys, c: nat)
    requires Inv(sys) && Calm(sys, sys', c)
    requires SlotOk(sys', c, sys'.slots[c].prog)
    requires forall id | id in Owned(sys'.slots[c].prog) ::
      id in Owned(sys.slots[c].prog) || (id.ShaBlob? && id.blob.nonce >= sys.next)
    ensures Inv(sys')
  {
    forall d | 0 <= d < |sys.slots| && d != c
      ensures SlotOk(sys', d, sys'.slots[d].prog)
      ensures Owned(sys'.slots[d].prog) !! Owned(sys'.slots[c].prog)
    {
      assert SlotOk(sys, d, sys.slots[d].prog) && SlotOk(sys, c, sys.slots[c].prog);
      assert Put(sys.slots[d].prog) <= Owned(sys.slots[d].prog);
      assert forall id | id in Owned(sys.slots[d].prog) :: Fresh(sys, id);
    }
  }

  // ---- commits ----

  lemma LogExtends(log: seq<Commit>, k: Commit)
    requires LogOk(log) && k.text.ManifestText?
    requires CommitOk(log + [k], |log|)
    ensures LogOk(log + [k])
  {
    forall i | 0 <= i < |log|
      ensures CommitOk(log + [k], i)
    {
      assert CommitOk(log, i);
      assert RefsBefore(log + [k], i) == RefsBefore(log, i) && PacksBefore(log + [k], i) == PacksBefore(log, i);
      assert Body(log + [k], i) == Body(log, i);
    }
  }

  /** Client d is untouched by another client's commit. */
  lemma SlotKept(sys: Sys, sys': Sys, d: nat, p: Prog, k: Commit)
    requires AllManifests(sys.log) && SlotOk(sys, d, p) && k.client != d && k.text.ManifestText?
    requires sys'.log == sys.log + [k] && sys.retired <= sys'.retired && sys'.next >= sys.next
    requires sys'.s.blobs == sys.s.blobs
    requires forall id | id in Owned(p) :: id !in LivePacks(sys') && id !in sys'.retired
    ensures SlotOk(sys', d, p)
  {
    assert forall i | 0 <= i < |sys.log| :: Body(sys'.log, i) == Body(sys.log, i);
  }

  /** A commit over the live version whose packs are live or the client's own. */
  lemma CommitInv(sys: Sys, sys': Sys, c: nat, k: Commit)
    requires Inv(sys) && c < |sys.slots| && k.client == c && k.text.ManifestText?
    requires CommitOk(sys.log + [k], |sys.log|)
    requires forall id | id in k.text.manifest.body.packs :: id in LivePacks(sys) || id in Put(sys.slots[c].prog)
    requires sys'.log == sys.log + [k] && sys'.next >= sys.next
    requires sys'.retired == sys.retired + set id | id in LivePacks(sys) && id !in k.text.manifest.body.packs
    requires sys'.s.mver == sys.s.mver + 1 && sys'.s.manifest.Some? && sys'.s.manifest.value.text == k.text
    requires sys'.s.blobs == sys.s.blobs
    requires |sys'.slots| == |sys.slots| && forall d | 0 <= d < |sys.slots| && d != c :: sys'.slots[d] == sys.slots[d]
    requires ProgOk(sys'.log, sys'.retired, c, sys'.slots[c].prog)
      && Owned(sys'.slots[c].prog) == {} == Put(sys'.slots[c].prog)
    ensures Inv(sys')
  {
    LogExtends(sys.log, k);
    var p := sys.slots[c].prog;
    assert SlotOk(sys, c, p) && Put(p) <= Owned(p);
    assert LivePacks(sys') == k.text.manifest.body.packs;
    forall d | 0 <= d < |sys.slots| && d != c
      ensures SlotOk(sys', d, sys'.slots[d].prog)
    {
      assert SlotOk(sys, d, sys.slots[d].prog);
      assert Owned(sys.slots[d].prog) !! Owned(p);
      SlotKept(sys, sys', d, sys.slots[d].prog, k);
    }
  }

  // ---- every step ----

  /** A step that changes neither log nor blobs nor what the client owns. */
  lemma QuietInv(sys: Sys, sys': Sys, c: nat)
    requires Inv(sys) && Calm(sys, sys', c) && sys'.s.blobs == sys.s.blobs
    requires ProgOk(sys.log, sys.retired, c, sys'.slots[c].prog)
    requires Owned(sys'.slots[c].prog) <= Owned(sys.slots[c].prog) && Put(sys'.slots[c].prog) <= Put(sys.slots[c].prog)
    ensures Inv(sys')
  {
    assert SlotOk(sys, c, sys.slots[c].prog);
    CalmInv(sys, sys', c);
  }

  /** A step in which the client makes a pack it has not put yet. */
  lemma DrawInv(sys: Sys, sys': Sys, c: nat, pack: Cipher)
    requires Inv(sys) && Calm(sys, sys', c) && sys'.s.blobs == sys.s.blobs
    requires pack.nonce == sys.next < sys'.next
    requires ProgOk(sys.log, sys.retired, c, sys'.slots[c].prog)
    requires Owned(sys'.slots[c].prog) <= Owned(sys.slots[c].prog) + {ShaBlob(pack)}
    requires Put(sys'.slots[c].prog) <= Put(sys.slots[c].prog)
    ensures Inv(sys')
  {
    assert SlotOk(sys, c, sys.slots[c].prog);
    assert !Fresh(sys, ShaBlob(pack));
    CalmInv(sys, sys', c);
  }

  /** What a client reads as the live manifest is the last commit. */
  lemma ReadIsSnapshot(sys: Sys, ses: Session, trusted: Roster)
    requires LogOk(sys.log) && StoreOk(sys)
    requires LoadCurrent(ses, trusted, sys.s).Ok?
    ensures Snapshot(sys.log, LoadCurrent(ses, trusted, sys.s).value)
    ensures LoadCurrent(ses, trusted, sys.s).value.Version() == |sys.log|
  {
  }

  lemma PushReadInv(sys: Sys, c: nat)
    requires Inv(sys) && c < |sys.slots| && sys.slots[c].prog.PushGetManifest?
    ensures Inv(StepPushRead(sys, c))
  {
    assert AllManifests(sys.log);
    hide LogOk, CommitOk, Closed, KindAllows;
    assert SlotOk(sys, c, sys.slots[c].prog);
    var o := sys.slots[c].prog.job.o;
    if LoadCurrent(o.ses, o.trusted, sys.s).Ok? {
      ReadIsSnapshot(sys, o.ses, o.trusted);
    }
    QuietInv(sys, StepPushRead(sys, c), c);
  }

  lemma PushImportInv(sys: Sys, c: nat)
    requires Inv(sys) && c < |sys.slots| && sys.slots[c].prog.PushGetBlob?
    ensures Inv(StepPushImport(sys, c))
  {
    assert AllManifests(sys.log);
    hide LogOk, CommitOk, Closed, KindAllows;
    assert SlotOk(sys, c, sys.slots[c].prog);
    QuietInv(sys, StepPushImport(sys, c), c);
  }

  lemma PushPackInv(sys: Sys, c: nat, objects: Option<set<Object>>)
    requires Inv(sys) && c < |sys.slots| && sys.slots[c].prog.PushPack?
    ensures Inv(StepPushPack(sys, c, objects))
  {
    assert AllManifests(sys.log);
    hide LogOk, CommitOk, Closed, KindAllows;
    assert SlotOk(sys, c, sys.slots[c].prog);
    assert Covered([]) == {};
    var sys' := StepPushPack(sys, c, objects);
    if sys'.slots[c].prog.PushPutBlob? {
      DrawInv(sys, sys', c, sys'.slots[c].prog.pack);
    } else {
      QuietInv(sys, sys', c);
    }
  }

  lemma PushPutInv(sys: Sys, c: nat)
    requires Inv(sys) && c < |sys.slots| && sys.slots[c].prog.PushPutBlob?
    ensures Inv(StepPushPut(sys, c))
  {
    assert AllManifests(sys.log);
    hide LogOk, CommitOk, Closed, KindAllows;
    assert SlotOk(sys, c, sys.slots[c].prog);
    CoveredOne(ShaBlob(sys.slots[c].prog.pack));
    CalmInv(sys, StepPushPut(sys, c), c);
  }

  /** A snapshot at the live version is the last commit. */
  lemma SnapshotIsLast(log: seq<Commit>, cur: Current)
    requires LogOk(log) && Snapshot(log, cur) && cur.Version() == |log|
    ensures cur.Refs() == RefsBefore(log, |log|) && cur.Packs() == PacksBefore(log, |log|)
    ensures cur.Prev() == if log == [] then None else Some(Sha(log[|log| - 1].text))
    ensures ReachSet(cur.Refs().Values) <= Covered(cur.Packs())
  {
    if log != [] {
      assert CommitOk(log, |log| - 1);
    }
  }

  /** A push over the last commit is a legal next commit. */
  lemma PushCommitOk(
      log: seq<Commit>, ses: Session, trusted: Roster, cur: Current, wants: map<string, Object>, more: seq<Digest>,
      k: Commit)
    requires LogOk(log) && Snapshot(log, cur) && cur.Version() == |log|
    requires |more| <= 1 && PackContract(wants.Values, cur.Refs().Values, Covered(more))
    requires k.kind == PushKind(wants) && k.text.ManifestText?
    requires k.text.manifest.body == PushBody(ses, trusted, cur, wants, cur.Packs() + more)
    ensures LogOk(log + [k]) && CommitOk(log + [k], |log|)
  {
    SnapshotIsLast(log, cur);
    PushStaysClosed(cur.Refs(), wants, cur.Packs(), more);
    CommitAppended(log, k);
    LogExtends(log, k);
  }

  lemma PushCasInv(sys: Sys, c: nat)
    requires Inv(sys) && c < |sys.slots| && sys.slots[c].prog.PushCasManifest?
    ensures Inv(StepPushCas(sys, c))
  {
    if sys.s.mver == sys.slots[c].prog.round.cur.Version() {
      PushWonInv(sys, c);
    } else {
      PushLostInv(sys, c);
    }
  }

  lemma PushLostInv(sys: Sys, c: nat)
    requires Inv(sys) && c < |sys.slots| && sys.slots[c].prog.PushCasManifest?
    requires sys.s.mver != sys.slots[c].prog.round.cur.Version()
    ensures Inv(StepPushCas(sys, c))
  {
    assert AllManifests(sys.log);
    hide LogOk, CommitOk, Closed, KindAllows;
    assert SlotOk(sys, c, sys.slots[c].prog);
    QuietInv(sys, StepPushCas(sys, c), c);
  }

  lemma PushWonInv(sys: Sys, c: nat)
    requires Inv(sys) && c < |sys.slots| && sys.slots[c].prog.PushCasManifest?
    requires sys.s.mver == sys.slots[c].prog.round.cur.Version()
    ensures Inv(StepPushCas(sys, c))
  {
    assert AllManifests(sys.log);
    hide LogOk, CommitOk, Closed, KindAllows;
    var p := sys.slots[c].prog;
    assert SlotOk(sys, c, p);
    var rd, o := p.round, p.round.job.o;
    var k := Commit(c, PushKind(rd.job.wants), PushText(o, rd.cur, rd.job.wants, p.more));
    SnapshotIsLast(sys.log, rd.cur);
    PushCommitOk(sys.log, o.ses, o.trusted, rd.cur, rd.job.wants, p.more, k);
    CommitInv(sys, StepPushCas(sys, c), c, k);
  }

  /** Checking a new commit only needs the log before it. */
  lemma CommitAppended(log: seq<Commit>, k: Commit)
    requires AllManifests(log) && k.text.ManifestText?
    requires var b := k.text.manifest.body;
      && b.version == |log| + 1
      && b.prev == (if log == [] then None else Some(Sha(log[|log| - 1].text)))
      && KindAllows(k.kind, RefsBefore(log, |log|), PacksBefore(log, |log|), b)
      && Closed(b)
    ensures AllManifests(log + [k]) && CommitOk(log + [k], |log|)
  {
    var log' := log + [k];
    assert log'[|log|] == k;
    if log != [] {
      assert Body(log', |log| - 1) == Body(log, |log| - 1);
    }
  }

  lemma ChangeReadInv(sys: Sys, c: nat)
    requires Inv(sys) && c < |sys.slots| && sys.slots[c].prog.ChangeGetManifest?
    ensures Inv(StepChangeRead(sys, c))
  {
    assert AllManifests(sys.log);
    hide LogOk, CommitOk, Closed, KindAllows;
    assert SlotOk(sys, c, sys.slots[c].prog);
    var o := sys.slots[c].prog.change.o;
    if LoadCurrent(o.ses, o.trusted, sys.s).Ok? {
      ReadIsSnapshot(sys, o.ses, o.trusted);
    }
    QuietInv(sys, StepChangeRead(sys, c), c);
  }

  lemma ChangeCommitInv(sys: Sys, c: nat)
    requires Inv(sys) && c < |sys.slots| && sys.slots[c].prog.ChangeCasManifest? && sys.slots[c].prog.cur.Current?
    ensures Inv(StepChangeCommit(sys, c))
  {
    assert AllManifests(sys.log);
    hide LogOk, CommitOk, Closed, KindAllows;
    var p := sys.slots[c].prog;
    assert SlotOk(sys, c, p);
    var sys' := StepChangeCommit(sys, c);
    if sys.s.mver == p.cur.seen {
      var k := Commit(c, ReissueKind, Reissued(p.change.o, p.cur, p.cur.Packs(), p.change.Body()));
      SnapshotIsLast(sys.log, p.cur);
      CommitAppended(sys.log, k);
      CommitInv(sys, sys', c, k);
    } else {
      QuietInv(sys, sys', c);
    }
  }

  lemma RekeyReadInv(sys: Sys, c: nat)
    requires Inv(sys) && c < |sys.slots| && sys.slots[c].prog.RekeyGetManifest?
    ensures Inv(StepRekeyRead(sys, c))
  {
    assert AllManifests(sys.log);
    hide LogOk, CommitOk, Closed, KindAllows;
    assert SlotOk(sys, c, sys.slots[c].prog);
    var o := sys.slots[c].prog.o;
    if LoadCurrent(o.ses, o.trusted, sys.s).Ok? {
      ReadIsSnapshot(sys, o.ses, o.trusted);
    }
    QuietInv(sys, StepRekeyRead(sys, c), c);
  }

  lemma RekeyGetInv(sys: Sys, c: nat)
    requires Inv(sys) && c < |sys.slots| && sys.slots[c].prog.RekeyGetBlob?
    ensures Inv(StepRekeyGet(sys, c))
  {
    assert AllManifests(sys.log);
    hide LogOk, CommitOk, Closed, KindAllows;
    assert SlotOk(sys, c, sys.slots[c].prog);
    var sys' := StepRekeyGet(sys, c);
    if sys'.slots[c].prog.RekeyPutBlob? {
      DrawInv(sys, sys', c, sys'.slots[c].prog.pack);
    } else {
      QuietInv(sys, sys', c);
    }
  }

  lemma RekeyPutInv(sys: Sys, c: nat)
    requires Inv(sys) && c < |sys.slots| && sys.slots[c].prog.RekeyPutBlob?
    ensures Inv(StepRekeyPut(sys, c))
  {
    assert AllManifests(sys.log);
    hide LogOk, CommitOk, Closed, KindAllows;
    var p := sys.slots[c].prog;
    assert SlotOk(sys, c, p);
    var sys' := StepRekeyPut(sys, c);
    assert Owned(sys'.slots[c].prog) == Owned(p);
    assert Put(sys'.slots[c].prog) == Owned(p);
    CalmInv(sys, sys', c);
  }

  lemma RekeyCommitOk(sys: Sys, rk: Rekey, done: seq<Digest>, k: Commit)
    requires LogOk(sys.log) && StoreOk(sys) && RekeyOk(sys.log, rk, done) && |done| == |rk.cur.Packs()|
    requires rk.cur.seen == |sys.log| && k.kind == RekeyKind && k.text == RekeyText(rk, done)
    ensures AllManifests(sys.log + [k]) && CommitOk(sys.log + [k], |sys.log|)
  {
    SnapshotIsLast(sys.log, rk.cur);
    SamePlaintextsCover(rk.cur.Packs(), done);
    CommitAppended(sys.log, k);
  }

  lemma RekeyCommitInv(sys: Sys, c: nat)
    requires Inv(sys) && c < |sys.slots| && sys.slots[c].prog.RekeyCasManifest? && sys.slots[c].prog.rekey.cur.Current?
    ensures Inv(StepRekeyCommit(sys, c))
  {
    if sys.s.mver == sys.slots[c].prog.rekey.cur.seen {
      RekeyWonInv(sys, c);
    } else {
      RekeyLostInv(sys, c);
    }
  }

  lemma RekeyLostInv(sys: Sys, c: nat)
    requires Inv(sys) && c < |sys.slots| && sys.slots[c].prog.RekeyCasManifest? && sys.slots[c].prog.rekey.cur.Current?
    requires sys.s.mver != sys.slots[c].prog.rekey.cur.seen
    ensures Inv(StepRekeyCommit(sys, c))
  {
    assert AllManifests(sys.log);
    hide LogOk, CommitOk, Closed, KindAllows;
    assert SlotOk(sys, c, sys.slots[c].prog);
    QuietInv(sys, StepRekeyCommit(sys, c), c);
  }

  lemma RekeyWonInv(sys: Sys, c: nat)
    requires Inv(sys) && c < |sys.slots| && sys.slots[c].prog.RekeyCasManifest? && sys.slots[c].prog.rekey.cur.Current?
    requires sys.s.mver == sys.slots[c].prog.rekey.cur.seen
    ensures Inv(StepRekeyCommit(sys, c))
  {
    assert AllManifests(sys.log);
    hide LogOk, CommitOk, Closed, KindAllows;
    var p := sys.slots[c].prog;
    assert SlotOk(sys, c, p);
    var k := Commit(c, RekeyKind, RekeyText(p.rekey, p.done));
    RekeyCommitOk(sys, p.rekey, p.done, k);
    CommitInv(sys, StepRekeyCommit(sys, c), c, k);
  }

  lemma RekeyDeleteInv(sys: Sys, c: nat)
    requires Inv(sys) && c < |sys.slots| && sys.slots[c].prog.RekeyDeleteBlob?
    ensures Inv(StepRekeyDelete(sys, c))
  {
    assert AllManifests(sys.log);
    hide LogOk, CommitOk, Closed, KindAllows;
    assert SlotOk(sys, c, sys.slots[c].prog);
    CalmInv(sys, StepRekeyDelete(sys, c), c);
  }

  lemma PushOpenInv(sys: Sys, c: nat)
    requires Inv(sys) && c < |sys.slots| && sys.slots[c].prog.PushGetRoster?
    ensures Inv(StepPushOpen(sys, c))
  {
    assert AllManifests(sys.log);
    hide LogOk, CommitOk, Closed, KindAllows;
    assert SlotOk(sys, c, sys.slots[c].prog);
    QuietInv(sys, StepPushOpen(sys, c), c);
  }

  lemma AddOpenInv(sys: Sys, c: nat)
    requires Inv(sys) && c < |sys.slots| && sys.slots[c].prog.AddGetRoster?
    ensures Inv(StepAddOpen(sys, c))
  {
    assert AllManifests(sys.log);
    hide LogOk, CommitOk, Closed, KindAllows;
    assert SlotOk(sys, c, sys.slots[c].prog);
    QuietInv(sys, StepAddOpen(sys, c), c);
  }

  lemma RemoveOpenInv(sys: Sys, c: nat)
    requires Inv(sys) && c < |sys.slots| && sys.slots[c].prog.RemoveGetRoster?
    ensures Inv(StepRemoveOpen(sys, c))
  {
    assert AllManifests(sys.log);
    hide LogOk, CommitOk, Closed, KindAllows;
    assert SlotOk(sys, c, sys.slots[c].prog);
    QuietInv(sys, StepRemoveOpen(sys, c), c);
  }

  lemma RekeyOpenInv(sys: Sys, c: nat)
    requires Inv(sys) && c < |sys.slots| && sys.slots[c].prog.RekeyGetRoster?
    ensures Inv(StepRekeyOpen(sys, c))
  {
    assert AllManifests(sys.log);
    hide LogOk, CommitOk, Closed, KindAllows;
    assert SlotOk(sys, c, sys.slots[c].prog);
    QuietInv(sys, StepRekeyOpen(sys, c), c);
  }

  lemma ChangeCasRosterInv(sys: Sys, c: nat)
    requires Inv(sys) && c < |sys.slots| && sys.slots[c].prog.ChangeCasRoster?
    ensures Inv(StepChangeCasRoster(sys, c))
  {
    assert AllManifests(sys.log);
    hide LogOk, CommitOk, Closed, KindAllows;
    assert SlotOk(sys, c, sys.slots[c].prog);
    QuietInv(sys, StepChangeCasRoster(sys, c), c);
  }

  lemma ChangePutKeyfileInv(sys: Sys, c: nat)
    requires Inv(sys) && c < |sys.slots| && sys.slots[c].prog.ChangePutKeyfile?
    ensures Inv(StepChangePutKeyfile(sys, c))
  {
    assert AllManifests(sys.log);
    hide LogOk, CommitOk, Closed, KindAllows;
    assert SlotOk(sys, c, sys.slots[c].prog);
    QuietInv(sys, StepChangePutKeyfile(sys, c), c);
  }

  lemma RekeyWrapInv(sys: Sys, c: nat)
    requires Inv(sys) && c < |sys.slots| && sys.slots[c].prog.RekeyPutKeyfile?
    ensures Inv(StepRekeyWrap(sys, c))
  {
    assert AllManifests(sys.log);
    hide LogOk, CommitOk, Closed, KindAllows;
    assert SlotOk(sys, c, sys.slots[c].prog);
    QuietInv(sys, StepRekeyWrap(sys, c), c);
  }

  lemma RekeyCasRosterInv(sys: Sys, c: nat)
    requires Inv(sys) && c < |sys.slots| && sys.slots[c].prog.RekeyCasRoster?
    ensures Inv(StepRekeyCasRoster(sys, c))
  {
    assert AllManifests(sys.log);
    hide LogOk, CommitOk, Closed, KindAllows;
    assert SlotOk(sys, c, sys.slots[c].prog);
    QuietInv(sys, StepRekeyCasRoster(sys, c), c);
  }

  lemma RefreshInv(sys: Sys, c: nat)
    requires Inv(sys) && c < |sys.slots|
    requires var p := sys.slots[c].prog;
      p.PushGetKeyfile? || p.AddGetKeyfile? || p.RemoveGetKeyfile? || p.RekeyGetKeyfile?
    ensures Inv(StepRefresh(sys, c))
  {
    assert AllManifests(sys.log);
    hide LogOk, CommitOk, Closed, KindAllows;
    assert SlotOk(sys, c, sys.slots[c].prog);
    QuietInv(sys, StepRefresh(sys, c), c);
  }

  lemma ProgInv(sys: Sys, c: nat, objects: Option<set<Object>>)
    requires Inv(sys) && c < |sys.slots|
    ensures Inv(StepProg(sys, c, objects))
  {
    hide Inv, StepPushOpen, StepPushRead, StepPushImport, StepPushPack, StepPushPut, StepPushCas;
    hide StepAddOpen, StepRemoveOpen, StepChangeCasRoster, StepChangePutKeyfile, StepChangeRead, StepChangeCommit;
    hide StepRekeyOpen, StepRekeyRead, StepRekeyGet, StepRekeyPut, StepRekeyCommit, StepRekeyWrap;
    hide StepRekeyCasRoster, StepRekeyDelete, StepRefresh;
    match sys.slots[c].prog
    case PushGetKeyfile(_, _) => RefreshInv(sys, c);
    case AddGetKeyfile(_, _) => RefreshInv(sys, c);
    case RemoveGetKeyfile(_) => RefreshInv(sys, c);
    case RekeyGetKeyfile => RefreshInv(sys, c);
    case PushGetRoster(_, _, _) => PushOpenInv(sys, c);
    case PushGetManifest(_, _) => PushReadInv(sys, c);
    case PushGetBlob(_, _) => PushImportInv(sys, c);
    case PushPack(_) => PushPackInv(sys, c, objects);
    case PushPutBlob(_, _) => PushPutInv(sys, c);
    case PushCasManifest(_, _) => PushCasInv(sys, c);
    case AddGetRoster(_, _, _) => AddOpenInv(sys, c);
    case RemoveGetRoster(_, _) => RemoveOpenInv(sys, c);
    case ChangeCasRoster(_) => ChangeCasRosterInv(sys, c);
    case ChangePutKeyfile(_) => ChangePutKeyfileInv(sys, c);
    case ChangeGetManifest(_) => ChangeReadInv(sys, c);
    case ChangeCasManifest(_, cur) => if cur.Current? { ChangeCommitInv(sys, c); }
    case RekeyGetRoster(_) => RekeyOpenInv(sys, c);
    case RekeyGetManifest(_) => RekeyReadInv(sys, c);
    case RekeyGetBlob(_, _) => RekeyGetInv(sys, c);
    case RekeyPutBlob(_, _, _) => RekeyPutInv(sys, c);
    case RekeyCasManifest(rk, _) => if rk.cur.Current? { RekeyCommitInv(sys, c); }
    case RekeyPutKeyfile(_, _, _) => RekeyWrapInv(sys, c);
    case RekeyCasRoster(_, _, _) => RekeyCasRosterInv(sys, c);
    case RekeyDeleteBlob(_, _, _) => RekeyDeleteInv(sys, c);
    case _ =>
  }

  lemma StepInv(sys: Sys, c: nat, e: Event)
    requires Inv(sys)
    ensures Inv(Step(sys, c, e))
  {
    assert AllManifests(sys.log);
    hide LogOk, CommitOk, Closed, KindAllows;
    if c < |sys.slots| {
      assert SlotOk(sys, c, sys.slots[c].prog);
      match e
      case Proceed(objects) => ProgInv(sys, c, objects);
      case Begin(p) =>
        if IsIdle(sys.slots[c].prog) && IsStart(p, |sys.log|) {
          QuietInv(sys, Step(sys, c, e), c);
        }
      case Crash => QuietInv(sys, Step(sys, c, e), c);
      case Local(_, _) =>
        if IsIdle(sys.slots[c].prog) {
          QuietInv(sys, Step(sys, c, e), c);
        }
    }
  }

  // ---- every run ----

  /** A store with a roster but no manifest yet, and nobody busy. */
  predicate Initial(sys: Sys) {
    && sys.s.mver == 0 && sys.s.manifest.None? && Addressed(sys.s.blobs)
    && sys.log == [] && sys.retired == {}
    && forall c | 0 <= c < |sys.slots| :: sys.slots[c].prog.Idle?
  }

  lemma {:induction false} RunInv(sys: Sys, schedule: seq<(nat, Event)>)
    requires Inv(sys)
    ensures Inv(Run(sys, schedule))
    decreases |schedule|
  {
    if schedule != [] {
      StepInv(sys, schedule[0].0, schedule[0].1);
      RunInv(Step(sys, schedule[0].0, schedule[0].1), schedule[1..]);
    }
  }

  lemma InitialInv(sys: Sys)
    requires Initial(sys)
    ensures Inv(sys)
  {
    assert forall c | 0 <= c < |sys.slots| :: IsIdle(sys.slots[c].prog);
  }

  /** The refs after the first n commits, from the successful pushes alone. */
  function FoldPushes(log: seq<Commit>): map<string, Object>
    decreases |log|
  {
    if log == [] then map[]
    else
      var refs, k := FoldPushes(log[..|log| - 1]), log[|log| - 1];
      if k.kind.PushKind? then refs + k.kind.wants else refs
  }

  lemma {:induction false} FoldIsLive(log: seq<Commit>, i: nat)
    requires LogOk(log) && i <= |log|
    ensures FoldPushes(log[..i]) == RefsBefore(log, i)
    decreases i
  {
    if i > 0 {
      FoldIsLive(log, i - 1);
      assert CommitOk(log, i - 1);
      assert log[..i][..i - 1] == log[..i - 1];
    }
  }

  /** Pushes are linearizable, with membership operations and crashes going on around them: the
      live refs are the fold of the successful pushes' wanted refs in commit order, the version
      counts the commits, and the commits form a hash chain in which pushes only append packs,
      re-issues change nothing and rekeys only re-encrypt. */
  lemma PushesLinearizable(sys: Sys, schedule: seq<(nat, Event)>)
    requires Initial(sys)
    ensures var sys' := Run(sys, schedule);
      && LogOk(sys'.log) && sys'.s.mver == |sys'.log|
      && (sys'.log != [] ==>
            && sys'.s.manifest.Some? && sys'.s.manifest.value.text == sys'.log[|sys'.log| - 1].text
            && sys'.s.manifest.value.text.ManifestText?
            && sys'.s.manifest.value.text.manifest.body.refs == FoldPushes(sys'.log))
  {
    InitialInv(sys);
    RunInv(sys, schedule);
    var sys' := Run(sys, schedule);
    FoldIsLive(sys'.log, |sys'.log|);
    assert sys'.log[..|sys'.log|] == sys'.log;
  }

  /** At every point of every run, also in the middle of a rekey's deletions, every pack the live
      manifest lists is in the store, and they hold everything its refs reach. */
  lemma PacksStayPresent(sys: Sys, schedule: seq<(nat, Event)>)
    requires Initial(sys)
    ensures var sys' := Run(sys, schedule);
      && (forall id | id in LivePacks(sys') :: id in sys'.s.blobs && ShaBlob(sys'.s.blobs[id]) == id)
      && ReachSet(FoldPushes(sys'.log).Values) <= Covered(LivePacks(sys'))
  {
    hide Inv, Run, FoldPushes, Covered, LivePacks, Initial;
    InitialInv(sys);
    RunInv(sys, schedule);
    LivePacksPresent(Run(sys, schedule));
  }

  lemma LivePacksPresent(sys: Sys)
    requires Inv(sys)
    ensures forall id | id in LivePacks(sys) :: id in sys.s.blobs && ShaBlob(sys.s.blobs[id]) == id
    ensures ReachSet(FoldPushes(sys.log).Values) <= Covered(LivePacks(sys))
  {
    FoldIsLive(sys.log, |sys.log|);
    assert sys.log[..|sys.log|] == sys.log;
    hide FoldPushes, Covered;
    if sys.log != [] {
      assert CommitOk(sys.log, |sys.log| - 1);
    }
  }

  /** A push that gave up lost to at least 16 commits, all by others, since it began. */
  lemma GivingUpMeansContention(sys: Sys, schedule: seq<(nat, Event)>, c: nat)
    requires Initial(sys)
    requires c < |Run(sys, schedule).slots| && Run(sys, schedule).slots[c].prog.PushGaveUp?
    ensures var sys' := Run(sys, schedule);
      var began := sys'.slots[c].prog.began;
      && |sys'.log| >= began + 16
      && forall i | began <= i < |sys'.log| :: sys'.log[i].client != c
  {
    hide Inv, Run, Initial;
    InitialInv(sys);
    RunInv(sys, schedule);
    GaveUpContended(Run(sys, schedule), c);
  }

  /** A push that loses its round starts the next one up to the sixteenth, which is the last. */
  lemma SixteenRounds(sys: Sys, c: nat)
    requires c < |sys.slots| && sys.slots[c].prog.PushCasManifest?
    requires sys.s.mver != sys.slots[c].prog.round.cur.Version()
    ensures var rd, p := sys.slots[c].prog.round, StepPushCas(sys, c).slots[c].prog;
      && (p.PushGetManifest? <==> rd.attempt + 1 < 16)
      && (p.PushGetManifest? ==> p.job == rd.job && p.attempt == rd.attempt + 1)
      && (p.PushGaveUp? <==> rd.attempt + 1 >= 16) && (p.PushGaveUp? ==> p.began == rd.job.began)
    ensures StepPushCas(sys, c).s == sys.s && StepPushCas(sys, c).log == sys.log
    ensures StepPushCas(sys, c).slots[c].st == sys.slots[c].st.(imported := sys.slots[c].prog.round.imported)
  {
  }

  /** A membership change or rekey that loses a swap ends there: it changes neither the store nor what
      it has saved. */
  lemma LostSwapEnds(sys: Sys, c: nat, objects: Option<set<Object>>)
    requires c < |sys.slots|
    requires match sys.slots[c].prog
      case ChangeCasRoster(ch) => (if sys.s.roster.Some? then sys.s.rver else 0) != ch.o.trusted.body.version
      case ChangeCasManifest(_, cur) => cur.Current? && sys.s.mver != cur.seen
      case RekeyCasManifest(rk, _) => rk.cur.Current? && sys.s.mver != rk.cur.seen
      case RekeyCasRoster(rk, _, _) => (if sys.s.roster.Some? then sys.s.rver else 0) != rk.o.trusted.body.version
      case _ => false
    ensures var sys' := StepProg(sys, c, objects);
      && sys'.s == sys.s && sys'.log == sys.log
      && sys'.slots == sys.slots[c := sys.slots[c].(prog := Idle)]
  {
    hide Recipients, Insert, InsertAll, Reissued;
  }

  lemma SuccessCommitted(sys: Sys, c: nat)
    requires Inv(sys) && c < |sys.slots| && sys.slots[c].prog.PushSucceeded?
    ensures var p := sys.slots[c].prog;
      && p.job.began < p.version <= |sys.log|
      && sys.log[p.version - 1].client == c && sys.log[p.version - 1].kind == PushKind(p.job.wants)
  {
    assert SlotOk(sys, c, sys.slots[c].prog);
  }

  /** What a client that pushed has saved as its pin. */
  predicate PinSaved(log: seq<Commit>, slot: Slot) {
    slot.prog.PushSucceeded? ==>
      && 1 <= slot.prog.version <= |log| && slot.st.version == slot.prog.version
      && slot.st.hash == Sha(log[slot.prog.version - 1].text)
  }

  predicate PinsSaved(sys: Sys) {
    forall slot | slot in sys.slots :: PinSaved(sys.log, slot)
  }

  /** One client moves, the log only grows, and no push has just succeeded. */
  predicate NoPushEnds(sys: Sys, sys': Sys, c: nat) {
    && c < |sys.slots| == |sys'.slots| && sys.log <= sys'.log
    && sys'.slots == sys.slots[c := sys'.slots[c]]
    && (sys'.slots[c] == sys.slots[c] || !sys'.slots[c].prog.PushSucceeded?)
  }

  lemma NoPushEndsKeeps(sys: Sys, sys': Sys, c: nat)
    requires PinsSaved(sys) && NoPushEnds(sys, sys', c)
    ensures PinsSaved(sys')
  {
    forall slot | slot in sys'.slots
      ensures PinSaved(sys'.log, slot)
    {
      if slot in sys.slots {
        assert PinSaved(sys.log, slot);
      }
    }
  }

  lemma PushCasSaves(sys: Sys, c: nat)
    requires Inv(sys) && PinsSaved(sys) && c < |sys.slots| && sys.slots[c].prog.PushCasManifest?
    ensures PinsSaved(StepPushCas(sys, c))
  {
    hide SlotOk, LogOk;
    var sys' := StepPushCas(sys, c);
    if sys.s.mver == sys.slots[c].prog.round.cur.Version() {
      forall slot | slot in sys'.slots
        ensures PinSaved(sys'.log, slot)
      {
        assert slot == sys'.slots[c] || slot in sys.slots;
      }
    } else {
      assert NoPushEnds(sys, sys', c);
      NoPushEndsKeeps(sys, sys', c);
    }
  }

  lemma StepSaves(sys: Sys, c: nat, e: Event)
    requires Inv(sys) && PinsSaved(sys)
    ensures PinsSaved(Step(sys, c, e))
  {
    hide Inv, PinsSaved;
    if c < |sys.slots| && e.Proceed? && sys.slots[c].prog.PushCasManifest? {
      PushCasSaves(sys, c);
    } else if c < |sys.slots| {
      hide NoPushEnds;
      if e.Proceed? {
        ProgEndsNoPush(sys, c, e.objects);
      } else {
        EventEndsNoPush(sys, c, e);
      }
      NoPushEndsKeeps(sys, Step(sys, c, e), c);
    }
  }

  lemma EventEndsNoPush(sys: Sys, c: nat, e: Event)
    requires c < |sys.slots| && !e.Proceed?
    ensures NoPushEnds(sys, Step(sys, c, e), c)
  {
  }

  lemma ProgEndsNoPush(sys: Sys, c: nat, objects: Option<set<Object>>)
    requires c < |sys.slots| && !sys.slots[c].prog.PushCasManifest?
    ensures NoPushEnds(sys, StepProg(sys, c, objects), c)
  {
    hide NoPushEnds, StepProg;
    var p := sys.slots[c].prog;
    if InPush(p) {
      PushEndsNoPush(sys, c, objects);
    } else if InRekey(p) {
      RekeyEndsNoPush(sys, c, objects);
    } else {
      ChangeEndsNoPush(sys, c, objects);
    }
  }

  predicate InPush(p: Prog) {
    p.PushGetKeyfile? || p.PushGetRoster? || p.PushGetManifest? || p.PushGetBlob? || p.PushPack? || p.PushPutBlob?
  }

  predicate InRekey(p: Prog) {
    || p.RekeyGetRoster? || p.RekeyGetManifest? || p.RekeyGetBlob? || p.RekeyPutBlob? || p.RekeyCasManifest?
    || p.RekeyPutKeyfile? || p.RekeyCasRoster? || p.RekeyDeleteBlob?
  }

  lemma PushEndsNoPush(sys: Sys, c: nat, objects: Option<set<Object>>)
    requires c < |sys.slots|
    requires var p := sys.slots[c].prog; InPush(p)
    ensures NoPushEnds(sys, StepProg(sys, c, objects), c)
  {
    hide LoadCurrent, ImportPack, Refresh, LoadTrusted, PackContract, Reissued, Recipients, MembersExcept;
  }

  lemma RekeyEndsNoPush(sys: Sys, c: nat, objects: Option<set<Object>>)
    requires c < |sys.slots|
    requires var p := sys.slots[c].prog; InRekey(p)
    ensures NoPushEnds(sys, StepProg(sys, c, objects), c)
  {
    hide LoadCurrent, ImportPack, Refresh, LoadTrusted, PackContract, Reissued, Recipients, MembersExcept;
  }

  lemma ChangeEndsNoPush(sys: Sys, c: nat, objects: Option<set<Object>>)
    requires c < |sys.slots|
    requires var p := sys.slots[c].prog; !InPush(p) && !InRekey(p) && !p.PushCasManifest?
    ensures NoPushEnds(sys, StepProg(sys, c, objects), c)
  {
    hide LoadCurrent, ImportPack, Refresh, LoadTrusted, PackContract, Reissued, Recipients, MembersExcept;
  }

  lemma {:induction false} RunSaves(sys: Sys, schedule: seq<(nat, Event)>)
    requires Inv(sys) && PinsSaved(sys)
    ensures PinsSaved(Run(sys, schedule))
    decreases |schedule|
  {
    hide Inv, PinsSaved, Step;
    if schedule != [] {
      StepInv(sys, schedule[0].0, schedule[0].1);
      StepSaves(sys, schedule[0].0, schedule[0].1);
      RunSaves(Step(sys, schedule[0].0, schedule[0].1), schedule[1..]);
    }
  }

  lemma GaveUpContended(sys: Sys, c: nat)
    requires Inv(sys) && c < |sys.slots| && sys.slots[c].prog.PushGaveUp?
    ensures var began := sys.slots[c].prog.began;
      |sys.log| >= began + MAX_ATTEMPTS && forall i | began <= i < |sys.log| :: sys.log[i].client != c
  {
    assert SlotOk(sys, c, sys.slots[c].prog);
  }

  lemma InitialSaves(sys: Sys)
    requires Initial(sys)
    ensures PinsSaved(sys)
  {
  }

  lemma SavedPin(sys: Sys, c: nat)
    requires PinsSaved(sys) && c < |sys.slots|
    ensures PinSaved(sys.log, sys.slots[c])
  {
  }

  /** A push that succeeded took effect at one commit of its own, made after it began, and until
      the client does something else that commit is its saved pin. */
  lemma SuccessIsOneCommit(sys: Sys, schedule: seq<(nat, Event)>, c: nat)
    requires Initial(sys)
    requires c < |Run(sys, schedule).slots| && Run(sys, schedule).slots[c].prog.PushSucceeded?
    ensures var sys' := Run(sys, schedule);
      var slot := sys'.slots[c];
      var p := slot.prog;
      && p.job.began < p.version <= |sys'.log|
      && sys'.log[p.version - 1].client == c && sys'.log[p.version - 1].kind == PushKind(p.job.wants)
      && slot.st.version == p.version && slot.st.hash == Sha(sys'.log[p.version - 1].text)
  {
    hide Inv, Run, Initial, PinsSaved;
    InitialInv(sys);
    RunInv(sys, schedule);
    InitialSaves(sys);
    RunSaves(sys, schedule);
    SuccessCommitted(Run(sys, schedule), c);
    SavedPin(Run(sys, schedule), c);
  }
}
