/** Who and what the documents in the store name: in every run the repository's own id, and the
    client that wrote them, whose signature they carry. */
module Written {
  import opened Wrappers
  import opened Documents
  import opened Protocol
  import opened Interleaving
  import Runs

  /** A manifest of this repository by this member, in canonical form. */
  predicate ManifestBy(t: Text, repo: RepoId, id: Identity) {
    && t.ManifestText? && t.form == 0
    && t.manifest.body.repo == repo && t.manifest.body.pusher == id
    && t.manifest.sig == Signature(id.ed, SignedManifest(t.manifest.body))
  }

  predicate RosterBy(t: Text, repo: RepoId, id: Identity) {
    && t.RosterText? && t.form == 0
    && t.roster.body.repo == repo && t.roster.body.author == id
    && t.roster.sig == Signature(id.ed, SignedRoster(t.roster.body))
  }

  /** What the client has written to either pointer is its own, for this repository. */
  predicate Writes(s: Store, t: Store, repo: RepoId, id: Identity) {
    && (t.manifest != s.manifest ==>
          t.manifest.Some? && t.manifest.value.repo == repo && ManifestBy(t.manifest.value.text, repo, id))
    && (t.roster != s.roster ==>
          t.roster.Some? && t.roster.value.repo == repo && RosterBy(t.roster.value.text, repo, id))
  }

  // ---- whole operations, on any store ----

  lemma PushWrites(
      id: Identity, repo: RepoId, st: State, git: Git, s: Store, wants: map<string, Object>,
      objects: Option<set<Object>>, draw: nat)
    ensures Writes(s, Push(id, repo, st, git, s, wants, objects, draw).s, repo, id)
  {
    hide LoadTrusted, ImportPacks, Insert, OpenManifest;
  }

  lemma AddWrites(
      id: Identity, repo: RepoId, st: State, s: Store, member: Member, fingerprint: Option<Identity>, draw: nat)
    ensures Writes(s, AddMember(id, repo, st, s, member, fingerprint, draw).s, repo, id)
  {
    hide LoadTrusted, OpenManifest, Insert;
  }

  lemma RemoveWrites(id: Identity, repo: RepoId, st: State, s: Store, target: Identity, draw: nat)
    ensures Writes(s, RemoveMember(id, repo, st, s, target, draw).s, repo, id)
  {
    hide LoadTrusted, OpenManifest, Insert;
  }

  lemma RekeyWrites(id: Identity, repo: RepoId, st: State, s: Store, draw: nat)
    ensures Writes(s, FullRekey(id, repo, st, s, draw).s, repo, id)
  {
    hide LoadTrusted, OpenManifest, Insert, ResealAll, DeleteAll, InsertAll;
  }

  /** The genesis: generation 1 wrapped to the founder alone, and a signed roster of version 0 without
      predecessor that lists the founder alone. */
  lemma GenesisExactly(s: Store, founder: Identity, name: string, repo: RepoId, key: Key, nonce: nat)
    requires s.roster.None?
    ensures var c := Init(s, founder, name, repo, key, nonce);
      && c.outcome.Pass? && c.s.rver == 0 && c.s.roster.Some?
      && c.s.keyfile == Some(Keyfile(1, key, {founder.x}))
      && c.s.manifest == s.manifest && c.s.mver == s.mver && c.s.blobs == s.blobs
      && var blob := c.s.roster.value;
      && blob.key == key && blob.repo == repo && RosterBy(blob.text, repo, founder)
      && var b := blob.text.roster.body;
      && b.version == 0 && b.prev == None && b.gen == 1
      && b.members == {Member(name, founder.x, founder.ed)}
  {
  }

  // ---- runs of whole operations ----

  /** The live documents name this repository. */
  predicate Named(s: Store, repo: RepoId) {
    && (s.manifest.Some? && s.manifest.value.text.ManifestText? ==> s.manifest.value.text.manifest.body.repo == repo)
    && (s.roster.Some? && s.roster.value.text.RosterText? ==> s.roster.value.text.roster.body.repo == repo)
  }

  lemma StepNamed(repo: RepoId, w: Runs.World, op: Runs.Op)
    requires Named(w.s, repo)
    ensures Named(Runs.Step(repo, w, op).s, repo)
  {
    hide Push, AddMember, RemoveMember, FullRekey;
    match op
    case PushOp(id, st, git, wants, objects) => PushWrites(id, repo, st, git, w.s, wants, objects, w.next);
    case FetchOp(_, _) =>
    case AddOp(id, st, member, fingerprint) => AddWrites(id, repo, st, w.s, member, fingerprint, w.next);
    case RemoveOp(id, st, target) => RemoveWrites(id, repo, st, w.s, target, w.next);
    case RekeyOp(id, st) => RekeyWrites(id, repo, st, w.s, w.next);
  }

  lemma {:induction false} RunNamed(repo: RepoId, w: Runs.World, ops: seq<Runs.Op>)
    requires Named(w.s, repo)
    ensures Named(Runs.Run(repo, w, ops).s, repo)
    decreases |ops|
  {
    hide Runs.Step, Named;
    if ops != [] {
      StepNamed(repo, w, ops[0]);
      RunNamed(repo, Runs.Step(repo, w, ops[0]), ops[1..]);
    }
  }

  /** After Init and any run the live manifest and the live roster state the repository's own id. */
  lemma RunsNameTheRepository(repo: RepoId, founder: Identity, name: string, key: Key, next: nat, ops: seq<Runs.Op>)
    ensures var s := Runs.Run(repo, Runs.World(Init(EMPTY_STORE, founder, name, repo, key, key).s, next, 0), ops).s;
      && (s.manifest.Some? && s.manifest.value.text.ManifestText? ==> s.manifest.value.text.manifest.body.repo == repo)
      && (s.roster.Some? && s.roster.value.text.RosterText? ==> s.roster.value.text.roster.body.repo == repo)
  {
    GenesisExactly(EMPTY_STORE, founder, name, repo, key, key);
    RunNamed(repo, Runs.World(Init(EMPTY_STORE, founder, name, repo, key, key).s, next, 0), ops);
  }

  // ---- interleaved store calls ----

  /** Whose session a running operation has opened. */
  function SessionOf(p: Prog): Option<Session> {
    match p
    case PushGetRoster(_, _, ses) => Some(ses)
    case PushGetManifest(job, _) => Some(job.o.ses)
    case PushGetBlob(rd, _) => Some(rd.job.o.ses)
    case PushPack(rd) => Some(rd.job.o.ses)
    case PushPutBlob(rd, _) => Some(rd.job.o.ses)
    case PushCasManifest(rd, _) => Some(rd.job.o.ses)
    case AddGetRoster(_, _, ses) => Some(ses)
    case RemoveGetRoster(_, ses) => Some(ses)
    case ChangeCasRoster(ch) => Some(ch.o.ses)
    case ChangePutKeyfile(ch) => Some(ch.o.ses)
    case ChangeGetManifest(ch) => Some(ch.o.ses)
    case ChangeCasManifest(ch, _) => Some(ch.o.ses)
    case RekeyGetRoster(ses) => Some(ses)
    case RekeyGetManifest(o) => Some(o.ses)
    case RekeyGetBlob(rk, _) => Some(rk.o.ses)
    case RekeyPutBlob(rk, _, _) => Some(rk.o.ses)
    case RekeyCasManifest(rk, _) => Some(rk.o.ses)
    case RekeyPutKeyfile(rk, _, _) => Some(rk.o.ses)
    case RekeyCasRoster(rk, _, _) => Some(rk.o.ses)
    case RekeyDeleteBlob(rk, _, _) => Some(rk.o.ses)
    case _ => None
  }

  /** It is the client's own, in this repository. */
  predicate OwnSession(repo: RepoId, slot: Slot) {
    var ses := SessionOf(slot.prog);
    ses.Some? ==> ses.value.repo == repo && ses.value.id == slot.id
  }

  /** The commit is a manifest of this repository by the client that made it. */
  predicate OwnCommit(sys: Sys, k: Commit) {
    k.client < |sys.slots| && ManifestBy(k.text, sys.repo, sys.slots[k.client].id)
  }

  predicate AllOwn(sys: Sys) {
    && (forall slot | slot in sys.slots :: OwnSession(sys.repo, slot))
    && (forall k | k in sys.log :: OwnCommit(sys, k))
    && RosterNamed(sys)
  }

  predicate RosterNamed(sys: Sys) {
    sys.s.roster.Some? && sys.s.roster.value.text.RosterText? ==> sys.s.roster.value.text.roster.body.repo == sys.repo
  }

  /** Client c moves within its own operation and commits at most a manifest of its own. */
  predicate OwnMove(sys: Sys, sys': Sys, c: nat) {
    && c < |sys.slots| == |sys'.slots| && sys'.repo == sys.repo
    && sys'.slots == sys.slots[c := sys'.slots[c]] && sys'.slots[c].id == sys.slots[c].id
    && OwnSession(sys.repo, sys'.slots[c])
    && (sys'.log == sys.log
        || (|sys'.log| == |sys.log| + 1 && sys'.log == sys.log + [sys'.log[|sys.log|]]
            && sys'.log[|sys.log|].client == c
            && ManifestBy(sys'.log[|sys.log|].text, sys.repo, sys.slots[c].id)))
    && (sys'.s.roster == sys.s.roster
        || (sys'.s.roster.Some? && RosterBy(sys'.s.roster.value.text, sys.repo, sys.slots[c].id)))
  }

  lemma OwnMoveKeeps(sys: Sys, sys': Sys, c: nat)
    requires AllOwn(sys) && OwnMove(sys, sys', c)
    ensures AllOwn(sys')
  {
    hide OwnSession, ManifestBy;
    forall k | k in sys'.log
      ensures OwnCommit(sys', k)
    {
      if k in sys.log {
        assert OwnCommit(sys, k);
      }
    }
  }

  predicate InPushReads(p: Prog) {
    p.PushGetKeyfile? || p.PushGetRoster? || p.PushGetManifest? || p.PushGetBlob?
  }

  lemma PushReadsMoves(sys: Sys, c: nat, objects: Option<set<Object>>)
    requires c < |sys.slots| && OwnSession(sys.repo, sys.slots[c]) && InPushReads(sys.slots[c].prog)
    ensures OwnMove(sys, StepProg(sys, c, objects), c)
  {
    hide LoadCurrent, ImportPack, LoadTrusted, GenerationMatches, Insert;
  }

  predicate InPushSends(p: Prog) {
    p.PushPack? || p.PushPutBlob?
  }

  lemma PushSendsMoves(sys: Sys, c: nat, objects: Option<set<Object>>)
    requires c < |sys.slots| && OwnSession(sys.repo, sys.slots[c]) && InPushSends(sys.slots[c].prog)
    ensures OwnMove(sys, StepProg(sys, c, objects), c)
  {
    hide PackContract, Insert;
  }

  predicate InPushCommits(p: Prog) {
    p.PushCasManifest?
  }

  lemma PushCommitsMoves(sys: Sys, c: nat, objects: Option<set<Object>>)
    requires c < |sys.slots| && OwnSession(sys.repo, sys.slots[c]) && InPushCommits(sys.slots[c].prog)
    ensures OwnMove(sys, StepProg(sys, c, objects), c)
  {
    hide Insert;
  }

  predicate InRekeyReads(p: Prog) {
    p.RekeyGetKeyfile? || p.RekeyGetRoster? || p.RekeyGetManifest?
  }

  lemma RekeyReadsMoves(sys: Sys, c: nat, objects: Option<set<Object>>)
    requires c < |sys.slots| && OwnSession(sys.repo, sys.slots[c]) && InRekeyReads(sys.slots[c].prog)
    ensures OwnMove(sys, StepProg(sys, c, objects), c)
  {
    hide LoadCurrent, LoadTrusted, GenerationMatches, Insert;
  }

  predicate InRekeySends(p: Prog) {
    p.RekeyGetBlob? || p.RekeyPutBlob?
  }

  lemma RekeySendsMoves(sys: Sys, c: nat, objects: Option<set<Object>>)
    requires c < |sys.slots| && OwnSession(sys.repo, sys.slots[c]) && InRekeySends(sys.slots[c].prog)
    ensures OwnMove(sys, StepProg(sys, c, objects), c)
  {
    hide Reseal, PutBlob;
  }

  predicate InRekeyCommits(p: Prog) {
    p.RekeyCasManifest?
  }

  lemma RekeyCommitsMoves(sys: Sys, c: nat, objects: Option<set<Object>>)
    requires c < |sys.slots| && OwnSession(sys.repo, sys.slots[c]) && InRekeyCommits(sys.slots[c].prog)
    ensures OwnMove(sys, StepProg(sys, c, objects), c)
  {
    hide InsertAll;
  }

  predicate InRekeyPublishes(p: Prog) {
    p.RekeyPutKeyfile? || p.RekeyCasRoster? || p.RekeyDeleteBlob?
  }

  lemma RekeyPublishesMoves(sys: Sys, c: nat, objects: Option<set<Object>>)
    requires c < |sys.slots| && OwnSession(sys.repo, sys.slots[c]) && InRekeyPublishes(sys.slots[c].prog)
    ensures OwnMove(sys, StepProg(sys, c, objects), c)
  {
    hide Insert, Recipients;
  }

  predicate InChangeReads(p: Prog) {
    p.AddGetKeyfile? || p.AddGetRoster? || p.RemoveGetKeyfile? || p.RemoveGetRoster?
  }

  lemma ChangeReadsMoves(sys: Sys, c: nat, objects: Option<set<Object>>)
    requires c < |sys.slots| && OwnSession(sys.repo, sys.slots[c]) && InChangeReads(sys.slots[c].prog)
    ensures OwnMove(sys, StepProg(sys, c, objects), c)
  {
    hide LoadTrusted, GenerationMatches, Insert, MembersExcept;
  }

  predicate InChangePublishes(p: Prog) {
    p.ChangeCasRoster? || p.ChangePutKeyfile?
  }

  lemma ChangePublishesMoves(sys: Sys, c: nat, objects: Option<set<Object>>)
    requires c < |sys.slots| && OwnSession(sys.repo, sys.slots[c]) && InChangePublishes(sys.slots[c].prog)
    ensures OwnMove(sys, StepProg(sys, c, objects), c)
  {
    hide Recipients;
  }

  predicate InChangeCommits(p: Prog) {
    p.ChangeGetManifest? || p.ChangeCasManifest?
  }

  lemma ChangeCommitsMoves(sys: Sys, c: nat, objects: Option<set<Object>>)
    requires c < |sys.slots| && OwnSession(sys.repo, sys.slots[c]) && InChangeCommits(sys.slots[c].prog)
    ensures OwnMove(sys, StepProg(sys, c, objects), c)
  {
    hide LoadCurrent, Insert;
  }

  lemma ProgMoves(sys: Sys, c: nat, objects: Option<set<Object>>)
    requires c < |sys.slots| && OwnSession(sys.repo, sys.slots[c])
    ensures OwnMove(sys, StepProg(sys, c, objects), c)
  {
    var p := sys.slots[c].prog;
    if InPushReads(p) {
      hide StepProg, OwnMove;
      PushReadsMoves(sys, c, objects);
    } else if InPushSends(p) {
      hide StepProg, OwnMove;
      PushSendsMoves(sys, c, objects);
    } else if InPushCommits(p) {
      hide StepProg, OwnMove;
      PushCommitsMoves(sys, c, objects);
    } else if InRekeyReads(p) {
      hide StepProg, OwnMove;
      RekeyReadsMoves(sys, c, objects);
    } else if InRekeySends(p) {
      hide StepProg, OwnMove;
      RekeySendsMoves(sys, c, objects);
    } else if InRekeyCommits(p) {
      hide StepProg, OwnMove;
      RekeyCommitsMoves(sys, c, objects);
    } else if InRekeyPublishes(p) {
      hide StepProg, OwnMove;
      RekeyPublishesMoves(sys, c, objects);
    } else if InChangeReads(p) {
      hide StepProg, OwnMove;
      ChangeReadsMoves(sys, c, objects);
    } else if InChangePublishes(p) {
      hide StepProg, OwnMove;
      ChangePublishesMoves(sys, c, objects);
    } else if InChangeCommits(p) {
      hide StepProg, OwnMove;
      ChangeCommitsMoves(sys, c, objects);
    }
  }

  lemma StepOwn(sys: Sys, c: nat, e: Event)
    requires AllOwn(sys)
    ensures AllOwn(Step(sys, c, e))
  {
    if c < |sys.slots| {
      hide AllOwn, StepProg, OwnSession;
      SlotOwn(sys, c);
      if e.Proceed? {
        ProgMoves(sys, c, e.objects);
      } else {
        EventMoves(sys, c, e);
      }
      OwnMoveKeeps(sys, Step(sys, c, e), c);
    }
  }

  lemma SlotOwn(sys: Sys, c: nat)
    requires AllOwn(sys) && c < |sys.slots|
    ensures OwnSession(sys.repo, sys.slots[c])
  {
  }

  lemma EventMoves(sys: Sys, c: nat, e: Event)
    requires c < |sys.slots| && OwnSession(sys.repo, sys.slots[c]) && !e.Proceed?
    ensures OwnMove(sys, Step(sys, c, e), c)
  {
  }

  lemma {:induction false} RunOwn(sys: Sys, schedule: seq<(nat, Event)>)
    requires AllOwn(sys)
    ensures AllOwn(Run(sys, schedule)) && Run(sys, schedule).repo == sys.repo
    decreases |schedule|
  {
    hide AllOwn, Step;
    if schedule != [] {
      StepOwn(sys, schedule[0].0, schedule[0].1);
      StepRepo(sys, schedule[0].0, schedule[0].1);
      RunOwn(Step(sys, schedule[0].0, schedule[0].1), schedule[1..]);
    }
  }

  lemma StepRepo(sys: Sys, c: nat, e: Event)
    ensures Step(sys, c, e).repo == sys.repo
  {
    hide LoadCurrent, LoadTrusted, ImportPack, PackContract, Reseal, Insert, InsertAll, Recipients, MembersExcept;
  }

  /** In every interleaving every committed manifest states the repository's own id and its committer,
      and carries that client's signature; the live roster states that id too. */
  lemma CommitsNameTheRepository(sys: Sys, schedule: seq<(nat, Event)>)
    requires sys.log == [] && Named(sys.s, sys.repo) && forall slot | slot in sys.slots :: IsIdle(slot.prog)
    ensures var sys' := Run(sys, schedule);
      && (sys'.s.roster.Some? && sys'.s.roster.value.text.RosterText? ==>
            sys'.s.roster.value.text.roster.body.repo == sys.repo)
      && forall k | k in sys'.log ::
        && k.client < |sys'.slots| && k.text.ManifestText?
        && k.text.manifest.body.repo == sys.repo
        && k.text.manifest.body.pusher == sys'.slots[k.client].id
        && k.text.manifest.sig == Signature(sys'.slots[k.client].id.ed, SignedManifest(k.text.manifest.body))
  {
    hide Run;
    RunOwn(sys, schedule);
    var sys' := Run(sys, schedule);
    assert forall k | k in sys'.log :: OwnCommit(sys', k);
  }
}
