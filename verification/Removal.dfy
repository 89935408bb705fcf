/** What a removal takes away: the keyfile, and the right to sign.  Both follow the keys and not the
    member, so a remaining member who shares one of the two keys keeps it in use. */
module Removal {
  import opened Wrappers
  import opened Documents
  import opened Protocol
  import opened Membership
  import RosterChain
  import Runs

  /** A removal takes the signing key away exactly when no remaining member lists it. */
  lemma RemovalSilencesExactly(id: Identity, repo: RepoId, st: State, s: Store, target: Identity, draw: nat)
    requires Consistent(s, repo) && PinOk(st)
    requires RemoveMember(id, repo, st, s, target, draw).outcome.Pass?
    ensures var t := RemoveMember(id, repo, st, s, target, draw).s;
      && Consistent(t, repo)
      && (RosterChain.LacksKey(LiveRoster(t).body, target.ed)
          <==> forall m :: m in LiveRoster(s).body.members && m.Fingerprint() != target ==> m.ed != target.ed)
  {
    hide RemoveMember, Consistent;
    assert RosterConsistent(s, repo) by { ConsistentRoster(s, repo); }
    RemoveConsistent(id, repo, st, s, target, draw);
    var t := RemoveMember(id, repo, st, s, target, draw).s;
    ConsistentRoster(t, repo);
    assert LiveRoster(t).body.members == MembersExcept(LiveRoster(s).body.members, target);
  }

  lemma ConsistentRoster(s: Store, repo: RepoId)
    requires Consistent(s, repo)
    ensures RosterConsistent(s, repo)
  {
  }

  predicate SignedWith(m: Manifest, ed: nat) {
    m.sig.Signature? && m.sig.ed == ed
  }

  /** No manifest signed with the key opens under a trusted roster exactly when the roster lacks it. */
  lemma RejectedExactly(ses: Session, trusted: Roster, ed: nat)
    ensures RosterChain.LacksKey(trusted.body, ed)
       <==> forall blob | OpenManifest(ses, trusted, blob).Ok? ::
         !SignedWith(OpenManifest(ses, trusted, blob).value, ed)
  {
    if !RosterChain.LacksKey(trusted.body, ed) {
      var m :| m in trusted.body.members && m.ed == ed;
      var body := ManifestBody(ses.repo, 1, None, map[], [], m.Fingerprint(), ShaRosterBody(trusted.body));
      var forged := SignManifest(body, m.Fingerprint());
      var blob := Some(ses.Seal(ManifestText(forged, 0), 0));
      assert OpenManifest(ses, trusted, blob) == Ok(forged);
    }
  }

  /** After a removal that leaves nobody with the signing key, a client pinned to the new roster
      accepts no manifest signed with it, now or later in a run that does not add the key to a later roster. */
  lemma RemovedMemberIsRejected(
      id: Identity, repo: RepoId, st: State, s: Store, target: Identity, draw: nat,
      reader: Identity, pinned: State, acts: seq<RosterChain.Action>, served: Store)
    requires Consistent(s, repo) && PinOk(st)
    requires RemoveMember(id, repo, st, s, target, draw).outcome.Pass?
    requires forall m :: m in LiveRoster(s).body.members && m.Fingerprint() != target ==> m.ed != target.ed
    requires PinOk(pinned) && pinned.rosterPinned
    requires RemoveMember(id, repo, st, s, target, draw).s.roster.Some?
             && pinned.trusted == RemoveMember(id, repo, st, s, target, draw).s.roster.value.text
    requires RosterChain.Honest(acts) && RosterChain.NeverAdds(acts, target.ed, pinned.rosterVersion)
    requires RosterChain.HonestRoster(served)
             && RosterChain.DoesNotAdd(RosterChain.Visit(served), target.ed, pinned.rosterVersion)
    ensures var r := Enter(reader, repo, RosterChain.Finish(reader, repo, pinned, acts), served).1;
      r.Ok? ==>
        var m := OpenManifest(r.value.ses, r.value.trusted, served.manifest);
        m.Ok? ==> m.value.sig.Signature? && m.value.sig.ed != target.ed
  {
    hide RemoveMember, Enter, Consistent;
    RemovalSilencesExactly(id, repo, st, s, target, draw);
    ConsistentRoster(RemoveMember(id, repo, st, s, target, draw).s, repo);
    RosterChain.RemovedSignerRejected(reader, repo, pinned, acts, served, target.ed, pinned.rosterVersion);
  }

  // ---- shared keys, by operations that all succeed ----

  function Founder(): Identity {
    Identity(0, 0)
  }

  /** The founder adds a and b, and removes a. */
  function AddTwoRemoveFirst(a: Member, b: Member): seq<Runs.Op> {
    [Runs.AddOp(Founder(), EMPTY_STATE, a, Some(a.Fingerprint())),
     Runs.AddOp(Founder(), EMPTY_STATE, b, Some(b.Fingerprint())),
     Runs.RemoveOp(Founder(), EMPTY_STATE, a.Fingerprint())]
  }

  function Start(repo: RepoId): Runs.World {
    Runs.World(Init(EMPTY_STORE, Founder(), "", repo, 0, 0).s, 1, 0)
  }

  lemma MembersAfter(repo: RepoId, a: Member, b: Member)
    requires a.Fingerprint() != b.Fingerprint()
    requires a.Fingerprint() != Founder() && b.Fingerprint() != Founder()
    ensures var w := Runs.Run(repo, Start(repo), AddTwoRemoveFirst(a, b));
      && Runs.Inv(w, repo)
      && LiveRoster(w.s).body.members == {Member("", 0, 0), b}
  {
    hide AddMember, RemoveMember, Runs.Inv, Init, Runs.Run, Runs.Step;
    GenesisMembers(repo);
    var w1 := AddStep(repo, Start(repo), a);
    var w2 := AddStep(repo, w1, b);
    var w3 := RemoveStep(repo, w2, a.Fingerprint());
    var ops := AddTwoRemoveFirst(a, b);
    RunThree(repo, Start(repo), ops[0], ops[1], ops[2]);
    assert MembersExcept({Member("", 0, 0)} + {a} + {b}, a.Fingerprint()) == {Member("", 0, 0), b};
  }

  lemma RunThree(repo: RepoId, w: Runs.World, o1: Runs.Op, o2: Runs.Op, o3: Runs.Op)
    ensures Runs.Run(repo, w, [o1, o2, o3]) == Runs.Step(repo, Runs.Step(repo, Runs.Step(repo, w, o1), o2), o3)
  {
    hide Runs.Step;
    var w1 := Runs.Step(repo, w, o1);
    var w2 := Runs.Step(repo, w1, o2);
    assert [o1, o2, o3][1..] == [o2, o3] && [o2, o3][1..] == [o3] && [o3][1..] == [];
    assert Runs.Run(repo, w2, [o3]) == Runs.Run(repo, Runs.Step(repo, w2, o3), []);
    assert Runs.Run(repo, w1, [o2, o3]) == Runs.Run(repo, w2, [o3]);
  }

  lemma RemoveStep(repo: RepoId, w: Runs.World, target: Identity) returns (t: Runs.World)
    requires Runs.Inv(w, repo) && Member("", 0, 0) in LiveRoster(w.s).body.members
    requires target != Founder() && LiveRoster(w.s).body.Has(target)
    ensures t == Runs.Step(repo, w, Runs.RemoveOp(Founder(), EMPTY_STATE, target))
    ensures Runs.Inv(t, repo)
    ensures LiveRoster(t.s).body.members == MembersExcept(LiveRoster(w.s).body.members, target)
  {
    hide RemoveMember, Runs.Stored;
    var op := Runs.RemoveOp(Founder(), EMPTY_STATE, target);
    t := Runs.Step(repo, w, op);
    Runs.StepInv(repo, w, op);
    RemoveExactly(Founder(), repo, EMPTY_STATE, w.s, target, w.next);
    RemoveConsistent(Founder(), repo, EMPTY_STATE, w.s, target, w.next);
  }

  lemma GenesisMembers(repo: RepoId)
    ensures Runs.Inv(Start(repo), repo)
    ensures LiveRoster(Start(repo).s).body.members == {Member("", 0, 0)}
  {
    Runs.InitInv(repo, Founder(), "", 0, 1);
  }

  lemma AddStep(repo: RepoId, w: Runs.World, m: Member) returns (t: Runs.World)
    requires Runs.Inv(w, repo) && Member("", 0, 0) in LiveRoster(w.s).body.members
    requires !LiveRoster(w.s).body.Has(m.Fingerprint())
    ensures t == Runs.Step(repo, w, Runs.AddOp(Founder(), EMPTY_STATE, m, Some(m.Fingerprint())))
    ensures Runs.Inv(t, repo) && LiveRoster(t.s).body.members == LiveRoster(w.s).body.members + {m}
  {
    hide AddMember, Runs.Stored;
    var op := Runs.AddOp(Founder(), EMPTY_STATE, m, Some(m.Fingerprint()));
    t := Runs.Step(repo, w, op);
    Runs.StepInv(repo, w, op);
    AddExactly(Founder(), repo, EMPTY_STATE, w.s, m, Some(m.Fingerprint()), w.next);
    AddConsistent(Founder(), repo, EMPTY_STATE, w.s, m, Some(m.Fingerprint()), w.next);
  }

  /** With a shared X25519 key the removed identity still opens the keyfile. */
  lemma SharedKeyStillOpens(repo: RepoId)
    ensures var a, b := Member("a", 1, 1), Member("b", 1, 2);
      var w := Runs.Run(repo, Start(repo), AddTwoRemoveFirst(a, b));
      && Runs.Inv(w, repo) && !LiveRoster(w.s).body.Has(a.Fingerprint())
      && Refresh(a.Fingerprint(), repo, EMPTY_STATE, w.s.keyfile).Ok?
  {
    hide Runs.Run, Runs.Stored;
    var a, b := Member("a", 1, 1), Member("b", 1, 2);
    MembersAfter(repo, a, b);
    assert b.x in Recipients({Member("", 0, 0), b});
  }

  /** With a shared signing key the removed identity's signature is still accepted. */
  lemma SharedKeyStillSigns(repo: RepoId, ses: Session)
    ensures var a, b := Member("a", 1, 1), Member("b", 2, 1);
      var w := Runs.Run(repo, Start(repo), AddTwoRemoveFirst(a, b));
      && Runs.Inv(w, repo) && !LiveRoster(w.s).body.Has(a.Fingerprint())
      && exists blob :: OpenManifest(ses, LiveRoster(w.s), blob).Ok?
                        && SignedWith(OpenManifest(ses, LiveRoster(w.s), blob).value, a.ed)
  {
    hide Runs.Run, Runs.Stored, OpenManifest;
    var a, b := Member("a", 1, 1), Member("b", 2, 1);
    MembersAfter(repo, a, b);
    var w := Runs.Run(repo, Start(repo), AddTwoRemoveFirst(a, b));
    assert b in LiveRoster(w.s).body.members && b.ed == a.ed;
    RejectedExactly(ses, LiveRoster(w.s), a.ed);
  }
}
