/** Any number of clients over a store that answers anything it likes, except that it cannot sign:
    a valid signature on what it serves is one that a client has made in the same run. */
module ClosedRuns {
  import opened Wrappers
  import opened Documents
  import opened Protocol
  import opened Membership
  import opened RosterChain
  import ForkConsistency

  /** Each client's identity and saved state, and every signature made so far. */
  datatype World = World(ids: seq<Identity>, states: seq<State>, signed: set<Signature>)

  /** Client c acts on what it is served, and sends documents with these signatures. */
  datatype Event = Event(c: nat, act: Action, sent: set<Signature>)

  // ---- what a client signs ----

  /** In a push, over whatever it has read and whatever packs it has made. */
  ghost predicate PushSigns(o: Opened, sig: Signature) {
    exists cur, wants, packs :: sig == SignManifest(PushBody(o.ses, o.trusted, cur, wants, packs), o.ses.id).sig
  }

  /** In a membership change: the new roster, and the manifest it has read re-issued under it. */
  ghost predicate ChangeSigns(o: Opened, members: set<Member>, gen: nat, sig: Signature) {
    || sig == RosterDocument(o, members, gen).roster.sig
    || exists cur: Current, packs ::
         cur.Current? && sig == Reissued(o, cur, packs, RosterSuccessor(o, members, gen)).manifest.sig
  }

  /** The signatures a client may make in an action, whatever the store answers on the way. */
  ghost predicate MaySign(id: Identity, repo: RepoId, st: State, a: Action, sig: Signature) {
    var r := Enter(id, repo, st, a.s).1;
    && r.Ok? && r.value.trusted.body.Has(id)
    && var o, t := r.value, r.value.trusted.body;
    match a
    case Visit(_) => PushSigns(o, sig)
    case Add(_, member, _, _) => !t.Has(member.Fingerprint()) && ChangeSigns(o, t.members + {member}, t.gen, sig)
    case Remove(_, target, _) =>
      target != id && t.Has(target) && ChangeSigns(o, MembersExcept(t.members, target), t.gen + 1, sig)
    case Rekey(_, _) => ChangeSigns(o, t.members, t.gen + 1, sig)
  }

  /** Every valid signature in what is served has been made. */
  predicate Serves(signed: set<Signature>, s: Store) {
    && (s.roster.Some? && s.roster.value.text.RosterText? ==>
          var r := s.roster.value.text.roster;
          r.Verify(r.body.author.ed) ==> r.sig in signed)
    && (s.manifest.Some? && s.manifest.value.text.ManifestText? ==>
          var m := s.manifest.value.text.manifest;
          m.sig.Signature? && m.Verify(m.sig.ed) ==> m.sig in signed)
  }

  // ---- runs ----

  ghost predicate Legal(w: World, repo: RepoId, e: Event) {
    && e.c < |w.ids| == |w.states| && Serves(w.signed, e.act.s)
    && forall sig | sig in e.sent :: MaySign(w.ids[e.c], repo, w.states[e.c], e.act, sig)
  }

  function Step(w: World, repo: RepoId, e: Event): World
    requires e.c < |w.ids| == |w.states|
  {
    w.(states := w.states[e.c := Act(w.ids[e.c], repo, w.states[e.c], e.act)], signed := w.signed + e.sent)
  }

  ghost predicate LegalRun(w: World, repo: RepoId, es: seq<Event>)
    decreases |es|
  {
    es == [] || (Legal(w, repo, es[0]) && LegalRun(Step(w, repo, es[0]), repo, es[1..]))
  }

  ghost function Run(w: World, repo: RepoId, es: seq<Event>): World
    requires LegalRun(w, repo, es)
    decreases |es|
  {
    if es == [] then w else Run(Step(w, repo, es[0]), repo, es[1..])
  }

  /** The clients' pins are their own and only genesis rosters have been signed. */
  predicate Initial(w: World) {
    && |w.ids| == |w.states| && (forall st | st in w.states :: PinOk(st))
    && forall sig | sig in w.signed && sig.Signature? :: sig.signed.SignedRoster? && sig.signed.roster.prev.None?
  }

  predicate SignedWell(signed: set<Signature>) {
    forall sig | sig in signed && sig.Signature? ::
      match sig.signed
      case SignedRoster(b) => HonestBody(b)
      case SignedManifest(b) => b.version >= 1
  }

  predicate Inv(w: World) {
    |w.ids| == |w.states| && (forall st | st in w.states :: PinOk(st)) && SignedWell(w.signed)
  }

  // ---- what is served is honest ----

  lemma SignsWell(id: Identity, repo: RepoId, st: State, a: Action, sig: Signature)
    requires PinOk(st) && MaySign(id, repo, st, a, sig)
    ensures SignedWell({sig})
  {
    hide Enter, HonestBody;
    EnterOpensWell(id, repo, st, a.s);
    var o := Enter(id, repo, st, a.s).1.value;
    match a
    case Visit(_) =>
    case Add(_, member, _, _) => OperationsSignHonestly(o, member, id);
    case Remove(_, target, _) => OperationsSignHonestly(o, Member("", 0, 0), target);
    case Rekey(_, _) => OperationsSignHonestly(o, Member("", 0, 0), id);
  }

  lemma ServedIsHonest(signed: set<Signature>, s: Store)
    requires SignedWell(signed) && Serves(signed, s)
    ensures HonestRoster(s) && ForkConsistency.SignedPositive(s)
  {
    hide HonestBody;
  }

  lemma StepInv(w: World, repo: RepoId, e: Event)
    requires Inv(w) && Legal(w, repo, e)
    ensures Inv(Step(w, repo, e)) && HonestRoster(e.act.s) && ForkConsistency.SignedPositive(e.act.s)
  {
    hide Act, PinOk, Serves, MaySign, HonestRoster, HonestBody;
    ServedIsHonest(w.signed, e.act.s);
    assert w.states[e.c] in w.states;
    ActAdvances(w.ids[e.c], repo, w.states[e.c], e.act);
    forall sig | sig in e.sent
      ensures SignedWell({sig})
    {
      SignsWell(w.ids[e.c], repo, w.states[e.c], e.act, sig);
    }
    assert forall sig | sig in e.sent :: sig in {sig};
  }

  /** Whatever a store without keys serves in a run, its signed rosters are ones an honest author
      made and its signed manifests have version 1 or more. */
  lemma {:induction false} EverythingServedIsHonest(w: World, repo: RepoId, es: seq<Event>)
    requires Inv(w) && LegalRun(w, repo, es)
    ensures Inv(Run(w, repo, es))
    ensures forall e | e in es :: HonestRoster(e.act.s) && ForkConsistency.SignedPositive(e.act.s)
    decreases |es|
  {
    hide Inv, Legal, HonestRoster, ForkConsistency.SignedPositive, Step;
    if es != [] {
      LegalStep(w, repo, es[0]);
      StepInv(w, repo, es[0]);
      EverythingServedIsHonest(Step(w, repo, es[0]), repo, es[1..]);
      assert forall e | e in es :: e == es[0] || e in es[1..];
    }
  }

  lemma LegalStep(w: World, repo: RepoId, e: Event)
    requires Legal(w, repo, e)
    ensures e.c < |w.ids| == |w.states|
  {
  }

  lemma InitialInv(w: World)
    requires Initial(w)
    ensures Inv(w)
  {
  }

  // ---- one client in the run ----

  function ActsOf(es: seq<Event>, c: nat): seq<Action>
    decreases |es|
  {
    if es == [] then [] else (if es[0].c == c then [es[0].act] else []) + ActsOf(es[1..], c)
  }

  lemma {:induction false} ActsOfMembers(es: seq<Event>, c: nat)
    ensures forall a | a in ActsOf(es, c) :: exists e :: e in es && e.act == a
    decreases |es|
  {
    if es != [] {
      ActsOfMembers(es[1..], c);
      forall a | a in ActsOf(es, c)
        ensures exists e :: e in es && e.act == a
      {
        if a in ActsOf(es[1..], c) {
          var e :| e in es[1..] && e.act == a;
          assert e in es;
        } else {
          assert es[0] in es;
        }
      }
    }
  }

  /** A client's state after the run is that of its own actions. */
  lemma {:induction false} RunProjects(w: World, repo: RepoId, es: seq<Event>, c: nat)
    requires LegalRun(w, repo, es) && c < |w.ids| == |w.states|
    ensures var w' := Run(w, repo, es);
      && |w'.states| == |w.states| && w'.ids == w.ids
      && w'.states[c] == Finish(w.ids[c], repo, w.states[c], ActsOf(es, c))
    decreases |es|
  {
    hide Legal, Act;
    if es != [] {
      LegalStep(w, repo, es[0]);
      RunProjects(Step(w, repo, es[0]), repo, es[1..], c);
      if es[0].c == c {
        assert ([es[0].act] + ActsOf(es[1..], c))[1..] == ActsOf(es[1..], c);
      } else {
        assert [] + ActsOf(es[1..], c) == ActsOf(es[1..], c);
      }
    }
  }

  lemma ActsHonest(w: World, repo: RepoId, es: seq<Event>, c: nat)
    requires Initial(w) && LegalRun(w, repo, es)
    ensures Honest(ActsOf(es, c))
  {
    hide Inv, LegalRun, HonestRoster, Initial;
    InitialInv(w);
    EverythingServedIsHonest(w, repo, es);
    ActsOfMembers(es, c);
  }

  /** In every run every client's trusted rosters form one chain, and the generations of the
      keyfiles it accepts never go down. */
  lemma ClosedTrails(w: World, repo: RepoId, es: seq<Event>, c: nat)
    requires Initial(w) && LegalRun(w, repo, es) && c < |w.ids|
    ensures Linked(Trail(w.ids[c], repo, w.states[c], ActsOf(es, c)))
    ensures Rising(Generations(w.ids[c], repo, w.states[c], ActsOf(es, c)))
  {
    hide LegalRun, Honest, Linked, Rising;
    ActsHonest(w, repo, es, c);
    assert w.states[c] in w.states;
    TrailLinked(w.ids[c], repo, w.states[c], ActsOf(es, c));
    GenerationsRise(w.ids[c], repo, w.states[c], ActsOf(es, c));
  }

  // ---- fetches in the run ----

  ghost predicate ServedIn(es: seq<Event>, vs: seq<ForkConsistency.Serving>) {
    forall v | v in vs :: exists e :: e in es && e.act.s == v.s
  }

  /** Two clients that fetch from what is served in a run fork for good or not at all. */
  lemma ClosedForks(
      w: World, repo: RepoId, es: seq<Event>, c: ForkConsistency.Client, d: ForkConsistency.Client,
      vs: seq<ForkConsistency.Serving>, ws: seq<ForkConsistency.Serving>)
    requires Initial(w) && LegalRun(w, repo, es) && ServedIn(es, vs) && ServedIn(es, ws)
    requires ForkConsistency.PinnedWell(c.st) && ForkConsistency.PinnedWell(d.st)
    ensures ForkConsistency.AgreeBefore(ForkConsistency.Pinned(repo, c, vs), ForkConsistency.Pinned(repo, d, ws))
    ensures ForkConsistency.NeverRejoin(ForkConsistency.Pinned(repo, c, vs), ForkConsistency.Pinned(repo, d, ws))
  {
    hide LegalRun, Initial, Inv, HonestRoster, ForkConsistency.SignedPositive;
    InitialInv(w);
    EverythingServedIsHonest(w, repo, es);
    ForkConsistency.ForkConsistent(repo, c, d, vs, ws);
  }

  // ---- removal in the run ----

  predicate NobodyAdds(es: seq<Event>, ed: nat) {
    forall e | e in es :: e.act.Add? ==> e.act.member.ed != ed
  }

  /** No signed roster after that version brings the signing key back. */
  predicate SignedLacks(signed: set<Signature>, ed: nat, since: nat) {
    forall sig | sig in signed && sig.Signature? && sig.signed.SignedRoster? && sig.signed.roster.version > since ::
      !BringsBack(sig.signed.roster, ed)
  }

  lemma SignsLacking(id: Identity, repo: RepoId, st: State, a: Action, sig: Signature, ed: nat)
    requires PinOk(st) && MaySign(id, repo, st, a, sig) && (a.Add? ==> a.member.ed != ed)
    ensures SignedLacks({sig}, ed, 0)
  {
    hide Enter;
    EnterOpensWell(id, repo, st, a.s);
  }

  lemma StepLacks(w: World, repo: RepoId, e: Event, ed: nat, since: nat)
    requires Inv(w) && Legal(w, repo, e) && SignedLacks(w.signed, ed, since) && (e.act.Add? ==> e.act.member.ed != ed)
    ensures SignedLacks(Step(w, repo, e).signed, ed, since) && DoesNotAdd(e.act, ed, since)
  {
    hide Act, PinOk, MaySign, LacksKey, SignedWell, BringsBack;
    assert w.states[e.c] in w.states;
    forall sig | sig in e.sent
      ensures SignedLacks({sig}, ed, 0)
    {
      SignsLacking(w.ids[e.c], repo, w.states[e.c], e.act, sig, ed);
    }
    assert forall sig | sig in e.sent :: sig in {sig};
  }

  lemma {:induction false} RunLacks(w: World, repo: RepoId, es: seq<Event>, ed: nat, since: nat)
    requires Inv(w) && LegalRun(w, repo, es) && SignedLacks(w.signed, ed, since) && NobodyAdds(es, ed)
    ensures forall e | e in es :: DoesNotAdd(e.act, ed, since)
    ensures SignedLacks(Run(w, repo, es).signed, ed, since)
    decreases |es|
  {
    hide Inv, Legal, DoesNotAdd, SignedLacks, Step;
    if es != [] {
      LegalStep(w, repo, es[0]);
      StepInv(w, repo, es[0]);
      assert es[0] in es;
      StepLacks(w, repo, es[0], ed, since);
      RunLacks(Step(w, repo, es[0]), repo, es[1..], ed, since);
      assert forall e | e in es :: e == es[0] || e in es[1..];
    }
  }

  /** Take any run, and at its end a client whose trusted roster lacks a signing key which no
      signed roster later than that one brings back.  In whatever follows, as long as nobody adds
      the key, the client accepts no manifest signed with it; the store may replay all that is old. */
  lemma ClosedRejection(
      w: World, repo: RepoId, past: seq<Event>, es: seq<Event>, c: nat, s: Store, ed: nat)
    requires Initial(w) && LegalRun(w, repo, past) && c < |w.ids|
    requires var now := Run(w, repo, past);
      && |now.ids| == |now.states| == |w.ids|
      && now.states[c].rosterPinned && now.states[c].trusted.RosterText?
      && LacksKey(now.states[c].trusted.roster.body, ed)
      && SignedLacks(now.signed, ed, now.states[c].rosterVersion)
      && LegalRun(now, repo, es) && NobodyAdds(es, ed) && Serves(Run(now, repo, es).signed, s)
    ensures var w' := Run(Run(w, repo, past), repo, es);
      && c < |w'.ids| == |w'.states|
      && var r := Enter(w'.ids[c], repo, w'.states[c], s).1;
      r.Ok? ==>
        var m := OpenManifest(r.value.ses, r.value.trusted, s.manifest);
        m.Ok? ==> m.value.sig.Signature? && m.value.sig.ed != ed
  {
    hide LegalRun, Run, Initial, Serves, Enter, OpenManifest, LacksKey, SignedLacks;
    InitialInv(w);
    EverythingServedIsHonest(w, repo, past);
    RejectionFrom(Run(w, repo, past), repo, es, c, s, ed);
  }

  lemma RejectionFrom(w: World, repo: RepoId, es: seq<Event>, c: nat, s: Store, ed: nat)
    requires Inv(w) && LegalRun(w, repo, es) && c < |w.ids| && NobodyAdds(es, ed)
    requires w.states[c].rosterPinned && w.states[c].trusted.RosterText?
    requires LacksKey(w.states[c].trusted.roster.body, ed) && SignedLacks(w.signed, ed, w.states[c].rosterVersion)
    requires Serves(Run(w, repo, es).signed, s)
    ensures var w' := Run(w, repo, es);
      && c < |w'.ids| == |w'.states|
      && var r := Enter(w'.ids[c], repo, w'.states[c], s).1;
      r.Ok? ==>
        var m := OpenManifest(r.value.ses, r.value.trusted, s.manifest);
        m.Ok? ==> m.value.sig.Signature? && m.value.sig.ed != ed
  {
    hide LegalRun, Enter, OpenManifest, LacksKey, HonestRoster;
    var since := w.states[c].rosterVersion;
    EverythingServedIsHonest(w, repo, es);
    RunLacks(w, repo, es, ed, since);
    ServedIsHonest(Run(w, repo, es).signed, s);
    ActsOfMembers(es, c);
    RunProjects(w, repo, es, c);
    assert w.states[c] in w.states;
    RemovedSignerRejected(w.ids[c], repo, w.states[c], ActsOf(es, c), s, ed, since);
  }

  // ---- the operations send only what they may sign ----

  /** The signed documents the operation has written to the store. */
  predicate Sent(s: Store, t: Store, sig: Signature) {
    || (t.roster != s.roster && t.roster.Some? && t.roster.value.text.RosterText?
          && sig == t.roster.value.text.roster.sig)
    || (t.manifest != s.manifest && t.manifest.Some? && t.manifest.value.text.ManifestText?
        && sig == t.manifest.value.text.manifest.sig)
  }

  lemma PublishSends(o: Opened, members: set<Member>, gen: nat, key: Key, nonce: nat, s: Store, st: State,
    sig: Signature)
    requires Sent(s, PublishChange(o, members, gen, key, nonce, s, st).s, sig)
    ensures ChangeSigns(o, members, gen, sig)
  {
    var t := PublishChange(o, members, gen, key, nonce, s, st).s;
    if sig != RosterDocument(o, members, gen).roster.sig {
      var cur := LoadCurrent(o.ses, o.trusted, s).value;
      assert sig == Reissued(o, cur, cur.Packs(), RosterSuccessor(o, members, gen)).manifest.sig;
    }
  }

  lemma RekeySends(o: Opened, s: Store, st: State, draw: nat, sig: Signature)
    requires Sent(s, RekeyOpened(o, s, st, draw).s, sig)
    ensures ChangeSigns(o, o.trusted.body.members, o.trusted.body.gen + 1, sig)
  {
    hide ResealAll, DeleteAll, InsertAll, Recipients;
    if sig != RosterDocument(o, o.trusted.body.members, o.trusted.body.gen + 1).roster.sig {
      var cur := LoadCurrent(o.ses, o.trusted, s).value;
      var re := ResealAll(o.ses, cur.Packs(), s.blobs, draw, draw + 1, []);
      var body := RosterSuccessor(o, o.trusted.body.members, o.trusted.body.gen + 1);
      assert sig == Reissued(o, cur, re.packs, body).manifest.sig;
    }
  }

  lemma PushSends(
      o: Opened, st: State, git: Git, s: Store, wants: map<string, Object>, objects: Option<set<Object>>, draw: nat,
      sig: Signature)
    requires Sent(s, PushAttempt(o, st, git, s, wants, objects, draw).s, sig)
    ensures PushSigns(o, sig)
  {
    hide ImportPacks;
    var cur := LoadCurrent(o.ses, o.trusted, s).value;
    var packs := cur.Packs() + NewPack(o.ses, objects.value, draw);
    assert sig == SignManifest(PushBody(o.ses, o.trusted, cur, wants, packs), o.ses.id).sig;
  }

  /** Whatever an operation changes in the store carries a signature it may make. */
  lemma AddSends(
      id: Identity, repo: RepoId, st: State, s: Store, member: Member, fingerprint: Option<Identity>, draw: nat,
      sig: Signature)
    requires Sent(s, AddMember(id, repo, st, s, member, fingerprint, draw).s, sig)
    ensures MaySign(id, repo, st, Add(s, member, fingerprint, draw), sig)
  {
    hide Enter, PublishChange, ChangeSigns;
    var (st1, r) := Enter(id, repo, st, s);
    var o := r.value;
    PublishSends(o, o.trusted.body.members + {member}, o.trusted.body.gen, o.ses.key, draw, s, st1, sig);
  }

  lemma RemoveSends(id: Identity, repo: RepoId, st: State, s: Store, target: Identity, draw: nat, sig: Signature)
    requires Sent(s, RemoveMember(id, repo, st, s, target, draw).s, sig)
    ensures MaySign(id, repo, st, Remove(s, target, draw), sig)
  {
    hide Enter, PublishChange, ChangeSigns;
    var (st1, r) := Enter(id, repo, st, s);
    var o := r.value;
    PublishSends(
      o, MembersExcept(o.trusted.body.members, target), o.trusted.body.gen + 1, draw, draw + 1, s, st1, sig);
  }

  lemma FullRekeySends(id: Identity, repo: RepoId, st: State, s: Store, draw: nat, sig: Signature)
    requires Sent(s, FullRekey(id, repo, st, s, draw).s, sig)
    ensures MaySign(id, repo, st, Rekey(s, draw), sig)
  {
    hide Enter, RekeyOpened, ChangeSigns;
    var (st1, r) := Enter(id, repo, st, s);
    RekeySends(r.value, s, st1, draw, sig);
  }

  lemma WholePushSends(
      id: Identity, repo: RepoId, st: State, git: Git, s: Store, wants: map<string, Object>,
      objects: Option<set<Object>>, draw: nat, sig: Signature)
    requires Sent(s, Push(id, repo, st, git, s, wants, objects, draw).s, sig)
    ensures MaySign(id, repo, st, Visit(s), sig)
  {
    hide Enter, PushAttempt, PushSigns;
    var (st1, r) := Enter(id, repo, st, s);
    PushSends(r.value, st1, git, s, wants, objects, draw, sig);
  }
}
