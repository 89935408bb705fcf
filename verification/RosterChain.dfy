/** The rosters one client trusts while the store serves whatever it likes and signers only sign
    what the membership operations make. */
module RosterChain {
  import opened Wrappers
  import opened Documents
  import opened Protocol
  import opened Membership

  // ---- what honest signers sign ----

  predicate Added(t: RosterBody, b: RosterBody) {
    b.gen == t.gen && exists m | m in b.members :: !t.Has(m.Fingerprint()) && b.members == t.members + {m}
  }

  predicate Removed(t: RosterBody, b: RosterBody) {
    b.gen == t.gen + 1 && b.members != {}
    && exists m | m in t.members ::
         m.Fingerprint() != b.author && b.members == MembersExcept(t.members, m.Fingerprint())
  }

  predicate Rekeyed(t: RosterBody, b: RosterBody) {
    b.gen == t.gen + 1 && b.members == t.members
  }

  /** One membership operation by a member of `t` leads from `t` to `b`. */
  predicate Successor(t: RosterBody, b: RosterBody) {
    b.version == t.version + 1 && t.Has(b.author) && (Added(t, b) || Removed(t, b) || Rekeyed(t, b))
  }

  predicate HonestBody(b: RosterBody) {
    b.prev.Some? ==> b.prev.value.Sha? && b.prev.value.text.RosterText? && Successor(b.prev.value.text.roster.body, b)
  }

  /** A served roster that carries its author's signature is one an honest author made. */
  predicate HonestRoster(s: Store) {
    s.roster.Some? && s.roster.value.text.RosterText? ==>
      var r := s.roster.value.text.roster;
      r.Verify(r.body.author.ed) ==> HonestBody(r.body)
  }

  /** The opened roster is the one the recorded hash is of. */
  predicate OpenedWell(o: Opened) {
    o.hash.Sha? && o.hash.text.RosterText? && o.hash.text.roster == o.trusted
  }

  lemma EnterOpensWell(id: Identity, repo: RepoId, st: State, s: Store)
    requires PinOk(st)
    ensures var (st', r) := Enter(id, repo, st, s);
      && PinOk(st')
      && (r.Ok? ==>
            && OpenedWell(r.value) && st'.rosterPinned && st'.rosterHash == r.value.hash
            && r.value.ses.id == id && r.value.ses.gen == r.value.trusted.body.gen)
  {
  }

  /** The three membership operations sign nothing but honest rosters. */
  lemma OperationsSignHonestly(o: Opened, member: Member, target: Identity)
    requires OpenedWell(o) && o.trusted.body.Has(o.ses.id)
    ensures !o.trusted.body.Has(member.Fingerprint()) ==>
      HonestBody(RosterSuccessor(o, o.trusted.body.members + {member}, o.trusted.body.gen))
    ensures o.trusted.body.Has(target) && target != o.ses.id ==>
      HonestBody(RosterSuccessor(o, MembersExcept(o.trusted.body.members, target), o.trusted.body.gen + 1))
    ensures HonestBody(RosterSuccessor(o, o.trusted.body.members, o.trusted.body.gen + 1))
  {
    var t := o.trusted.body;
    if !t.Has(member.Fingerprint()) {
      assert member in RosterSuccessor(o, t.members + {member}, t.gen).members;
    }
    if t.Has(target) && target != o.ses.id {
      var m :| m in t.members && m.Fingerprint() == target;
      var me :| me in t.members && me.Fingerprint() == o.ses.id;
      assert me in MembersExcept(t.members, target);
    }
  }

  // ---- a client's run ----

  /** Anything a client can do that touches its roster pin.  Push and Fetch are visits. */
  datatype Action =
    | Visit(s: Store)
    | Add(s: Store, member: Member, fingerprint: Option<Identity>, draw: nat)
    | Remove(s: Store, target: Identity, draw: nat)
    | Rekey(s: Store, draw: nat)

  function Act(id: Identity, repo: RepoId, st: State, a: Action): State {
    match a
    case Visit(s) => Enter(id, repo, st, s).0
    case Add(s, member, fingerprint, draw) => AddMember(id, repo, st, s, member, fingerprint, draw).st
    case Remove(s, target, draw) => RemoveMember(id, repo, st, s, target, draw).st
    case Rekey(s, draw) => FullRekey(id, repo, st, s, draw).st
  }

  predicate SamePin(st: State, st': State) {
    && st'.rosterPinned == st.rosterPinned && st'.rosterVersion == st.rosterVersion
    && st'.rosterHash == st.rosterHash && st'.trusted == st.trusted
  }

  lemma PushVisits(
      id: Identity, repo: RepoId, st: State, git: Git, s: Store, wants: map<string, Object>,
      objects: Option<set<Object>>, draw: nat)
    ensures SamePin(Enter(id, repo, st, s).0, Push(id, repo, st, git, s, wants, objects, draw).st)
  {
    hide Enter, LoadCurrent, ImportPacks, NewPack, PushText;
  }

  lemma FetchVisits(id: Identity, repo: RepoId, st: State, git: Git, s: Store, order: seq<string>)
    ensures SamePin(Enter(id, repo, st, s).0, Fetch(id, repo, st, git, s, order).st)
  {
    hide Enter, Judge, ImportPacks, UpdateRefs;
  }

  /** The trusted roster texts after entering an action and after finishing it. */
  function PinNow(st: State): seq<Text> {
    if st.rosterPinned then [st.trusted] else []
  }

  function Trail(id: Identity, repo: RepoId, st: State, acts: seq<Action>): seq<Text>
    decreases |acts|
  {
    if acts == [] then PinNow(st)
    else
      PinNow(st) + PinNow(Enter(id, repo, st, acts[0].s).0) + Trail(id, repo, Act(id, repo, st, acts[0]), acts[1..])
  }

  /** The generation of every keyfile the client accepted, in order. */
  function Generations(id: Identity, repo: RepoId, st: State, acts: seq<Action>): seq<nat>
    decreases |acts|
  {
    if acts == [] then []
    else
      var r := Enter(id, repo, st, acts[0].s).1;
      (if r.Ok? then [r.value.ses.gen] else []) + Generations(id, repo, Act(id, repo, st, acts[0]), acts[1..])
  }

  predicate Honest(acts: seq<Action>) {
    forall a | a in acts :: HonestRoster(a.s)
  }

  /** The next trusted roster is hash-linked to this one, signed by one of its members, and made
      from it by one membership operation. */
  predicate Links(x: Text, y: Text) {
    && x.RosterText? && y.RosterText?
    && (x == y
        || (y.roster.body.prev == Some(Sha(x)) && y.roster.Verify(y.roster.body.author.ed)
            && Successor(x.roster.body, y.roster.body)))
  }

  predicate Linked(xs: seq<Text>) {
    && (forall x | x in xs :: x.RosterText?)
    && (forall i | 0 < i < |xs| :: Links(xs[i - 1], xs[i]))
  }

  /** The pin only stays or moves along a link. */
  predicate Advances(st: State, st': State) {
    PinOk(st') && (st.rosterPinned ==> st'.rosterPinned && Links(st.trusted, st'.trusted))
  }

  lemma EnterAdvances(id: Identity, repo: RepoId, st: State, s: Store)
    requires PinOk(st) && HonestRoster(s)
    ensures Advances(st, Enter(id, repo, st, s).0)
  {
  }

  lemma ActAdvances(id: Identity, repo: RepoId, st: State, a: Action)
    requires PinOk(st) && HonestRoster(a.s)
    ensures Advances(Enter(id, repo, st, a.s).0, Act(id, repo, st, a))
  {
    hide Enter, LoadCurrent, ResealAll, DeleteAll, InsertAll;
    EnterOpensWell(id, repo, st, a.s);
    EnterAdvances(id, repo, st, a.s);
    var (st1, r) := Enter(id, repo, st, a.s);
    if r.Ok? && r.value.trusted.body.Has(id) {
      match a
      case Visit(_) =>
      case Add(s, member, fingerprint, draw) => OperationsSignHonestly(r.value, member, id);
      case Remove(s, target, draw) => OperationsSignHonestly(r.value, Member("", 0, 0), target);
      case Rekey(s, draw) =>
        OperationsSignHonestly(r.value, Member("", 0, 0), id);
    }
  }

  lemma LinkedAppend(xs: seq<Text>, ys: seq<Text>)
    requires Linked(xs) && Linked(ys)
    requires xs != [] && ys != [] ==> Links(xs[|xs| - 1], ys[0])
    ensures Linked(xs + ys)
  {
    forall i | 0 < i < |xs + ys|
      ensures Links((xs + ys)[i - 1], (xs + ys)[i])
    {
      if i > |xs| {
        assert Links(ys[i - |xs| - 1], ys[i - |xs|]);
      }
    }
  }

  /** Whatever the store serves, the rosters a client trusts form one chain. */
  lemma {:induction false} TrailLinked(id: Identity, repo: RepoId, st: State, acts: seq<Action>)
    requires PinOk(st) && Honest(acts)
    ensures Linked(Trail(id, repo, st, acts))
    ensures st.rosterPinned ==> Trail(id, repo, st, acts) != [] && Trail(id, repo, st, acts)[0] == st.trusted
    decreases |acts|
  {
    if acts != [] {
      assert acts[0] in acts;
      var st1, st2 := Enter(id, repo, st, acts[0].s).0, Act(id, repo, st, acts[0]);
      EnterAdvances(id, repo, st, acts[0].s);
      ActAdvances(id, repo, st, acts[0]);
      TrailLinked(id, repo, st2, acts[1..]);
      LinkedAppend(PinNow(st), PinNow(st1));
      LinkedAppend(PinNow(st) + PinNow(st1), Trail(id, repo, st2, acts[1..]));
    }
  }

  predicate Rising(gs: seq<nat>) {
    forall i, j | 0 <= i < j < |gs| :: gs[i] <= gs[j]
  }

  lemma RisingCons(g: nat, gs: seq<nat>)
    requires Rising(gs) && forall h | h in gs :: g <= h
    ensures Rising([g] + gs)
  {
    forall i, j | 0 <= i < j < |gs| + 1
      ensures ([g] + gs)[i] <= ([g] + gs)[j]
    {
      assert ([g] + gs)[j] == gs[j - 1] && gs[j - 1] in gs;
      if i > 0 {
        assert ([g] + gs)[i] == gs[i - 1];
      }
    }
  }

  /** One action moves the trusted generation up or nowhere, and an accepted keyfile is in between. */
  lemma ActRises(id: Identity, repo: RepoId, st: State, a: Action)
    requires PinOk(st) && HonestRoster(a.s)
    ensures var (st1, r) := Enter(id, repo, st, a.s);
      var st2 := Act(id, repo, st, a);
      && PinOk(st2)
      && (st.rosterPinned ==> st2.rosterPinned && st.trusted.roster.body.gen <= st2.trusted.roster.body.gen)
      && (r.Ok? ==> st2.rosterPinned && r.value.ses.gen <= st2.trusted.roster.body.gen)
      && (r.Ok? && st.rosterPinned ==> st.trusted.roster.body.gen <= r.value.ses.gen)
  {
    hide Enter, Act;
    EnterAdvances(id, repo, st, a.s);
    EnterOpensWell(id, repo, st, a.s);
    EnterKeepsPin(id, repo, st, a.s);
    ActAdvances(id, repo, st, a);
  }

  /** ... and the generation of the keyfiles it accepts never goes down. */
  lemma {:induction false} GenerationsRise(id: Identity, repo: RepoId, st: State, acts: seq<Action>)
    requires PinOk(st) && Honest(acts)
    ensures var gs := Generations(id, repo, st, acts);
      && (forall g | g in gs :: st.rosterPinned ==> st.trusted.roster.body.gen <= g)
      && Rising(gs)
    decreases |acts|
  {
    hide Enter, Act, Rising, PinOk, HonestRoster;
    if acts == [] {
      RisingEmpty();
    } else {
      assert acts[0] in acts;
      ActRises(id, repo, st, acts[0]);
      var r := Enter(id, repo, st, acts[0].s).1;
      var st2 := Act(id, repo, st, acts[0]);
      GenerationsRise(id, repo, st2, acts[1..]);
      var rest := Generations(id, repo, st2, acts[1..]);
      if r.Ok? {
        assert Generations(id, repo, st, acts) == [r.value.ses.gen] + rest;
        RisingCons(r.value.ses.gen, rest);
      } else {
        assert Generations(id, repo, st, acts) == [] + rest == rest;
      }
    }
  }

  lemma RisingEmpty()
    ensures Rising([])
  {
  }

  // ---- removal, whatever the store serves ----

  predicate LacksKey(b: RosterBody, ed: nat) {
    forall m | m in b.members :: m.ed != ed
  }

  /** No honest roster later than version `since` adds a member with this signing key.  Earlier
      ones may be served again. */
  predicate NeverAdds(acts: seq<Action>, ed: nat, since: nat) {
    forall a | a in acts :: DoesNotAdd(a, ed, since)
  }

  predicate DoesNotAdd(a: Action, ed: nat, since: nat) {
    && (a.Add? ==> a.member.ed != ed)
    && (a.s.roster.Some? && a.s.roster.value.text.RosterText? ==>
          RosterDoesNotAdd(a.s.roster.value.text.roster, ed, since))
  }

  predicate RosterDoesNotAdd(r: Roster, ed: nat, since: nat) {
    r.body.version > since && r.Verify(r.body.author.ed) ==> !BringsBack(r.body, ed)
  }

  /** The roster lists the key and the one before it does not. */
  predicate BringsBack(b: RosterBody, ed: nat) {
    b.prev.Some? && b.prev.value.Sha? && b.prev.value.text.RosterText?
    && LacksKey(b.prev.value.text.roster.body, ed) && !LacksKey(b, ed)
  }

  /** The client has a roster pin, from that version or later, without the key. */
  predicate PinLacks(st: State, ed: nat, since: nat) {
    && PinOk(st) && st.rosterPinned && st.rosterVersion >= since && LacksKey(st.trusted.roster.body, ed)
  }

  lemma EnterStillLacks(id: Identity, repo: RepoId, st: State, a: Action, ed: nat, since: nat)
    requires PinLacks(st, ed, since) && HonestRoster(a.s) && DoesNotAdd(a, ed, since)
    ensures var (st', r) := Enter(id, repo, st, a.s);
      && PinLacks(st', ed, since)
      && (r.Ok? ==> r.value.trusted == st'.trusted.roster)
  {
    EnterKeepsPin(id, repo, st, a.s);
    EnterAdvances(id, repo, st, a.s);
  }

  lemma ActStillLacks(id: Identity, repo: RepoId, st: State, a: Action, ed: nat, since: nat)
    requires PinLacks(st, ed, since) && HonestRoster(a.s) && DoesNotAdd(a, ed, since)
    ensures PinLacks(Act(id, repo, st, a), ed, since)
  {
    EnterStillLacks(id, repo, st, a, ed, since);
    ActAdvances(id, repo, st, a);
  }

  /** A client whose trusted roster lacks a signing key accepts no manifest signed with it, now
      or at any later point of a run in which nobody adds that key to a later roster. */
  lemma {:induction false} RemovedSignerRejected(
      id: Identity, repo: RepoId, st: State, acts: seq<Action>, s: Store, ed: nat, since: nat)
    requires PinLacks(st, ed, since)
    requires Honest(acts) && NeverAdds(acts, ed, since)
    requires HonestRoster(s) && DoesNotAdd(Visit(s), ed, since)
    ensures var r := Enter(id, repo, Finish(id, repo, st, acts), s).1;
      r.Ok? ==>
        var m := OpenManifest(r.value.ses, r.value.trusted, s.manifest);
        m.Ok? ==> m.value.sig.Signature? && m.value.sig.ed != ed
    decreases |acts|
  {
    if acts == [] {
      EnterStillLacks(id, repo, st, Visit(s), ed, since);
    } else {
      assert acts[0] in acts;
      ActStillLacks(id, repo, st, acts[0], ed, since);
      RemovedSignerRejected(id, repo, Act(id, repo, st, acts[0]), acts[1..], s, ed, since);
    }
  }

  function Finish(id: Identity, repo: RepoId, st: State, acts: seq<Action>): State
    decreases |acts|
  {
    if acts == [] then st else Finish(id, repo, Act(id, repo, st, acts[0]), acts[1..])
  }
}
