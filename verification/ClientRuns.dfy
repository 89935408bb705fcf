/** Runs in which every client works with the local state it has saved: which keys it holds, and so
    what it can read. */
module ClientRuns {
  import opened Wrappers
  import opened Documents
  import opened Protocol
  import opened Packs
  import opened Membership
  import opened Saves
  import Runs

  /** The store, the next random draw, each client's identity and saved state, and as a history
      variable for each client the keys that were current when it acted. */
  datatype World = World(s: Store, next: nat, ids: seq<Identity>, states: seq<State>, met: seq<set<Key>>)

  datatype Op =
    | PushOp(c: nat, git: Git, wants: map<string, Object>, objects: Option<set<Object>>)
    | FetchOp(c: nat, git: Git, order: seq<string>)
    | AddOp(c: nat, member: Member, fingerprint: Option<Identity>)
    | RemoveOp(c: nat, target: Identity)
    | RekeyOp(c: nat)

  datatype Done = Done(s: Store, st: State, passed: bool, draws: nat)

  /** The operation on the client's saved state. */
  function Does(repo: RepoId, w: World, op: Op): Done
    requires op.c < |w.ids| == |w.states|
  {
    var id, st := w.ids[op.c], w.states[op.c];
    match op
    case PushOp(_, git, wants, objects) =>
      var p := Push(id, repo, st, git, w.s, wants, objects, w.next);
      Done(p.s, p.st, p.outcome.Pass?, 2)
    case FetchOp(_, git, order) =>
      var f := Fetch(id, repo, st, git, w.s, order);
      Done(w.s, f.st, f.result.Ok?, 0)
    case AddOp(_, member, fingerprint) =>
      var c := AddMember(id, repo, st, w.s, member, fingerprint, w.next);
      Done(c.s, c.st, c.outcome.Pass?, 2)
    case RemoveOp(_, target) =>
      var c := RemoveMember(id, repo, st, w.s, target, w.next);
      Done(c.s, c.st, c.outcome.Pass?, 3)
    case RekeyOp(_) =>
      var c := FullRekey(id, repo, st, w.s, w.next);
      Done(c.s, c.st, c.outcome.Pass?, 3 + |LivePacks(w.s)|)
  }

  /** The key of the keyfile, for whom it is wrapped to. */
  function KeyFor(s: Store, id: Identity): set<Key> {
    if s.keyfile.Some? && id.x in s.keyfile.value.recipients then {s.keyfile.value.key} else {}
  }

  function CurrentKey(s: Store): set<Key> {
    if s.keyfile.Some? then {s.keyfile.value.key} else {}
  }

  /** A client meets the key that is wrapped to it when it acts, and the one it leaves if it succeeds. */
  function Meets(s: Store, id: Identity, d: Done): set<Key> {
    KeyFor(s, id) + if d.passed then CurrentKey(d.s) else {}
  }

  function Step(repo: RepoId, w: World, op: Op): World
    requires op.c < |w.ids| == |w.states| == |w.met|
  {
    var d := Does(repo, w, op);
    World(d.s, w.next + d.draws, w.ids, w.states[op.c := d.st],
          w.met[op.c := w.met[op.c] + Meets(w.s, w.ids[op.c], d)])
  }

  ghost predicate Legal(w: World, op: Op) {
    && op.c < |w.ids| == |w.states| == |w.met|
    && (op.PushOp? && op.objects.Some? ==> PackContract(op.wants.Values, LiveRefs(w.s).Values, op.objects.value))
  }

  ghost predicate LegalRun(repo: RepoId, w: World, ops: seq<Op>)
    decreases |ops|
  {
    ops == [] || (Legal(w, ops[0]) && LegalRun(repo, Step(repo, w, ops[0]), ops[1..]))
  }

  ghost function Run(repo: RepoId, w: World, ops: seq<Op>): World
    requires LegalRun(repo, w, ops)
    decreases |ops|
  {
    if ops == [] then w else Run(repo, Step(repo, w, ops[0]), ops[1..])
  }

  // ---- each run is one of the runs with arbitrary local states ----

  function AsOp(w: World, op: Op): Runs.Op
    requires op.c < |w.ids| == |w.states|
  {
    var id, st := w.ids[op.c], w.states[op.c];
    match op
    case PushOp(_, git, wants, objects) => Runs.PushOp(id, st, git, wants, objects)
    case FetchOp(_, _, _) => Runs.FetchOp(id, st)
    case AddOp(_, member, fingerprint) => Runs.AddOp(id, st, member, fingerprint)
    case RemoveOp(_, target) => Runs.RemoveOp(id, st, target)
    case RekeyOp(_) => Runs.RekeyOp(id, st)
  }

  lemma StepIsStep(repo: RepoId, w: World, op: Op, rotations: nat)
    requires op.c < |w.ids| == |w.states| == |w.met|
    ensures var t := Runs.Step(repo, Runs.World(w.s, w.next, rotations), AsOp(w, op));
      t.s == Step(repo, w, op).s && t.next == Step(repo, w, op).next
  {
    hide Push, Fetch, AddMember, RemoveMember, FullRekey;
  }

  // ---- keys ----

  ghost predicate Inv(repo: RepoId, w: World) {
    && |w.ids| == |w.states| == |w.met|
    && Consistent(w.s, repo) && Runs.Stored(w.s, repo, w.next)
    && (forall st | st in w.states :: PinOk(st))
    && (forall c | 0 <= c < |w.states| :: forall k | k in w.met[c] :: k in w.states[c].keys)
  }

  /** What one operation adds to the saved keys, and that it forgets none. */
  lemma DoesKeepsKeys(repo: RepoId, w: World, op: Op)
    requires Inv(repo, w) && Legal(w, op)
    ensures var d := Does(repo, w, op);
      && PinOk(d.st) && w.states[op.c].keys <= d.st.keys
      && (forall k | k in Meets(w.s, w.ids[op.c], d) :: k in d.st.keys)
  {
    hide Push, Fetch, AddMember, RemoveMember, FullRekey, Consistent, Runs.Stored;
    var id, st := w.ids[op.c], w.states[op.c];
    assert st in w.states;
    match op
    case PushOp(_, git, wants, objects) => PushKeeps(id, repo, st, git, w.s, wants, objects, w.next);
    case FetchOp(_, git, order) => FetchKeeps(id, repo, st, git, w.s, order);
    case AddOp(_, member, fingerprint) => AddKeeps(id, repo, st, w.s, member, fingerprint, w.next);
    case RemoveOp(_, target) => RemoveKeeps(id, repo, st, w.s, target, w.next);
    case RekeyOp(_) => RekeyKeeps(id, repo, st, w.s, w.next);
  }

  /** The saved state keeps all keys, and has the one it met in the keyfile, and after a success the
      one the keyfile has now. */
  ghost predicate KeysMet(id: Identity, st: State, st': State, s: Store, t: Store, passed: bool) {
    && PinOk(st') && st.keys <= st'.keys
    && (forall k | k in KeyFor(s, id) :: k in st'.keys)
    && (passed ==> forall k | k in CurrentKey(t) :: k in st'.keys)
  }

  lemma PushKeeps(
      id: Identity, repo: RepoId, st: State, git: Git, s: Store, wants: map<string, Object>,
      objects: Option<set<Object>>, draw: nat)
    requires Consistent(s, repo) && PinOk(st)
    ensures var p := Push(id, repo, st, git, s, wants, objects, draw);
      KeysMet(id, st, p.st, s, p.s, p.outcome.Pass?)
  {
    hide Enter, LoadCurrent, ImportPacks, NewPack, PushText, Consistent;
    PushConsistent(id, repo, st, git, s, wants, objects, draw);
    EnterKeeps(id, repo, st, s);
    ConsistentRoster(s, repo);
    EnterExactly(id, repo, st, s);
  }

  lemma FetchKeeps(id: Identity, repo: RepoId, st: State, git: Git, s: Store, order: seq<string>)
    requires Consistent(s, repo) && PinOk(st)
    ensures var f := Fetch(id, repo, st, git, s, order);
      KeysMet(id, st, f.st, s, s, f.result.Ok?)
  {
    hide Enter, Judge, ImportPacks, UpdateRefs, Consistent;
    EnterKeeps(id, repo, st, s);
    ConsistentRoster(s, repo);
    EnterExactly(id, repo, st, s);
  }

  lemma AddKeeps(
      id: Identity, repo: RepoId, st: State, s: Store, member: Member, fingerprint: Option<Identity>, draw: nat)
    requires Consistent(s, repo) && PinOk(st)
    ensures var c := AddMember(id, repo, st, s, member, fingerprint, draw);
      KeysMet(id, st, c.st, s, c.s, c.outcome.Pass?)
  {
    AddConsistent(id, repo, st, s, member, fingerprint, draw);
    if AddMember(id, repo, st, s, member, fingerprint, draw).outcome.Pass? {
      hide AddMember, Consistent;
      AddSaves(id, repo, st, s, member, fingerprint, draw);
    } else {
      hide AddMember, Enter, Consistent;
      EnterKeeps(id, repo, st, s);
      FailedChangeSavesNothing(id, repo, st, s, member, fingerprint, id, draw);
    }
  }

  lemma RemoveKeeps(id: Identity, repo: RepoId, st: State, s: Store, target: Identity, draw: nat)
    requires Consistent(s, repo) && PinOk(st)
    ensures var c := RemoveMember(id, repo, st, s, target, draw);
      KeysMet(id, st, c.st, s, c.s, c.outcome.Pass?)
  {
    RemoveConsistent(id, repo, st, s, target, draw);
    if RemoveMember(id, repo, st, s, target, draw).outcome.Pass? {
      hide RemoveMember, Consistent;
      RemoveSaves(id, repo, st, s, target, draw);
    } else {
      hide RemoveMember, Enter, Consistent;
      EnterKeeps(id, repo, st, s);
      FailedChangeSavesNothing(id, repo, st, s, Member("", 0, 0), None, target, draw);
    }
  }

  lemma RekeyKeeps(id: Identity, repo: RepoId, st: State, s: Store, draw: nat)
    requires Consistent(s, repo) && PinOk(st)
    ensures var c := FullRekey(id, repo, st, s, draw);
      KeysMet(id, st, c.st, s, c.s, c.outcome.Pass?)
  {
    RekeyConsistent(id, repo, st, s, draw);
    if FullRekey(id, repo, st, s, draw).outcome.Pass? {
      hide FullRekey, Consistent;
      RekeySaves(id, repo, st, s, draw);
    } else {
      hide FullRekey, Enter, Consistent;
      EnterKeeps(id, repo, st, s);
      FailedRekeySavesNothing(id, repo, st, s, draw);
    }
  }

  lemma StepInv(repo: RepoId, w: World, op: Op)
    requires Inv(repo, w) && Legal(w, op)
    ensures Inv(repo, Step(repo, w, op))
  {
    hide Does, Consistent, Runs.Stored, PinOk, Meets, Runs.Step;
    var gen := KeyfileGen(repo, w.s);
    assert w.states[op.c] in w.states;
    LegalAsOp(w, op);
    RunsInv(repo, w, gen);
    Runs.StepInv(repo, Runs.World(w.s, w.next, gen - 1), AsOp(w, op));
    StepIsStep(repo, w, op, gen - 1);
    DoesKeepsKeys(repo, w, op);
    var w' := Step(repo, w, op);
    forall c | 0 <= c < |w'.states|
      ensures forall k | k in w'.met[c] :: k in w'.states[c].keys
    {
    }
  }

  lemma LegalAsOp(w: World, op: Op)
    requires Legal(w, op) && forall st | st in w.states :: PinOk(st)
    ensures Runs.Legal(AsOp(w, op), w.s)
  {
    assert w.states[op.c] in w.states;
  }

  lemma KeyfileGen(repo: RepoId, s: Store) returns (gen: nat)
    requires Consistent(s, repo)
    ensures gen >= 1 && s.keyfile.Some? && s.keyfile.value.gen == gen
  {
    gen := s.keyfile.value.gen;
  }

  lemma RunsInv(repo: RepoId, w: World, gen: nat)
    requires Inv(repo, w) && gen >= 1 && w.s.keyfile.Some? && w.s.keyfile.value.gen == gen
    ensures Runs.Inv(Runs.World(w.s, w.next, gen - 1), repo)
  {
  }

  lemma {:induction false} RunInv(repo: RepoId, w: World, ops: seq<Op>)
    requires Inv(repo, w) && LegalRun(repo, w, ops)
    ensures Inv(repo, Run(repo, w, ops)) && Run(repo, w, ops).ids == w.ids
    decreases |ops|
  {
    hide Inv, Does;
    if ops != [] {
      StepInv(repo, w, ops[0]);
      RunInv(repo, Step(repo, w, ops[0]), ops[1..]);
    }
  }

  /** A repository made by the founder, and any clients with empty local state. */
  function Start(repo: RepoId, founder: Identity, name: string, key: Key, ids: seq<Identity>): World {
    World(Init(EMPTY_STORE, founder, name, repo, key, key).s, key + 1, ids,
          seq(|ids|, i requires 0 <= i < |ids| => EMPTY_STATE), seq(|ids|, i requires 0 <= i < |ids| => {}))
  }

  lemma StartInv(repo: RepoId, founder: Identity, name: string, key: Key, ids: seq<Identity>)
    ensures Inv(repo, Start(repo, founder, name, key, ids))
  {
    Runs.InitInv(repo, founder, name, key, key + 1);
    assert Runs.Inv(Runs.World(Start(repo, founder, name, key, ids).s, key + 1, 0), repo);
  }

  /** In every run from Init a client still holds every key that was wrapped to it when it acted, and
      every key that was current when an operation of its own succeeded. */
  lemma ClientsHoldTheirKeys(repo: RepoId, founder: Identity, name: string, key: Key, ids: seq<Identity>, ops: seq<Op>)
    requires LegalRun(repo, Start(repo, founder, name, key, ids), ops)
    ensures var w := Run(repo, Start(repo, founder, name, key, ids), ops);
      && |w.states| == |w.met| == |ids|
      && forall c | 0 <= c < |ids| :: forall k | k in w.met[c] :: k in w.states[c].keys
  {
    hide Start, Run, LegalRun;
    StartInv(repo, founder, name, key, ids);
    RunInv(repo, Start(repo, founder, name, key, ids), ops);
    assert Start(repo, founder, name, key, ids).ids == ids by { StartIds(repo, founder, name, key, ids); }
  }

  lemma StartIds(repo: RepoId, founder: Identity, name: string, key: Key, ids: seq<Identity>)
    ensures Start(repo, founder, name, key, ids).ids == ids
  {
  }

  /** The keys of the packs it misses are current, or were when it acted. */
  ghost predicate MetPacks(w: World, c: nat)
    requires c < |w.states| == |w.met|
  {
    && w.s.keyfile.Some?
    && forall p | p in LivePacks(w.s) && p !in w.states[c].imported ::
         p.ShaBlob? && (p.blob.key == w.s.keyfile.value.key || p.blob.key in w.met[c])
  }

  /** So in every run from Init a member with current pins can fetch if the packs it misses are under
      the current key or under keys that were current when it acted; it then has everything. */
  lemma WhoActedCanFetch(
      repo: RepoId, founder: Identity, name: string, key: Key, ids: seq<Identity>, ops: seq<Op>,
      c: nat, git: Git, order: seq<string>)
    requires LegalRun(repo, Start(repo, founder, name, key, ids), ops) && c < |ids|
    requires var w := Run(repo, Start(repo, founder, name, key, ids), ops);
      && |w.ids| == |w.states| == |w.met| == |ids| && w.s.roster.Some? && w.s.roster.value.text.RosterText?
      && LiveRoster(w.s).body.Has(w.ids[c]) && PinCurrent(w.states[c], w.s) && Runs.ManifestPinCurrent(w.states[c], w.s)
      && MetPacks(w, c) && ImportedLocal(w.states[c].imported, git) && Enumerates(order, LiveRefs(w.s))
    ensures var w := Run(repo, Start(repo, founder, name, key, ids), ops);
      var f := Fetch(w.ids[c], repo, w.states[c], git, w.s, order);
      f.result.Ok? && (f.result.value.Advance? ==> ReachSet(LiveRefs(w.s).Values) <= f.git.objects)
  {
    hide Start, Run, LegalRun, Fetch;
    StartInv(repo, founder, name, key, ids);
    RunInv(repo, Start(repo, founder, name, key, ids), ops);
    var w := Run(repo, Start(repo, founder, name, key, ids), ops);
    HoldsMet(repo, w, c);
    MemberIsRecipient(LiveRoster(w.s).body, w.ids[c]);
    assert w.states[c] in w.states;
    Runs.FetchExactly(w.ids[c], repo, w.states[c], git, w.s, w.next, order);
  }

  lemma HoldsMet(repo: RepoId, w: World, c: nat)
    requires Inv(repo, w) && c < |w.states| && MetPacks(w, c)
    ensures Runs.HoldsPacks(w.s, w.states[c])
  {
  }
}
