/** An operation that stops half way: at which of its store calls the other members are still able
    to enter and to read the live manifest. */
module Crashes {
  import opened Wrappers
  import opened Documents
  import opened Protocol
  import opened Membership
  import opened Interleaving
  import opened Alone

  /** A client with these local files gets past the preamble and reads the live manifest, if any. */
  predicate Readable(id: Identity, repo: RepoId, st: State, s: Store) {
    var r := Enter(id, repo, st, s).1;
    r.Ok? && LoadCurrent(r.value.ses, r.value.trusted, s).Ok?
  }

  /** The points at which a dead process leaves the others in the dark; `live` says whether there
      is a manifest.  The new key has then been used for one of the three documents but not yet
      for all, or the roster has been replaced and the manifest still names the old one. */
  predicate Dark(p: Prog, live: bool) {
    match p
    case ChangePutKeyfile(ch) => live || ch.gen != ch.o.trusted.body.gen
    case ChangeGetManifest(_) => live
    case ChangeCasManifest(_, _) => live
    case RekeyPutKeyfile(_, _, _) => live
    case RekeyCasRoster(_, _, _) => true
    case _ => false
  }

  // ---- how far the operation has come ----

  /** Opened on the live documents of s. */
  predicate OpenedOn(s: Store, repo: RepoId, o: Opened)
    requires RosterConsistent(s, repo)
  {
    && o.ses.repo == repo && o.ses.key == s.keyfile.value.key && o.trusted == LiveRoster(s)
    && o.hash == Sha(s.roster.value.text)
  }

  predicate CurrentOf(s: Store, repo: RepoId, cur: Current)
    requires Consistent(s, repo)
  {
    cur == if s.mver == 0 then NoManifest else Current(LiveManifest(s), s.mver, Sha(s.manifest.value.text))
  }

  /** A legal change of the membership which keeps the X25519 key `keep` among the recipients, and
      uses a fresh key exactly when it moves to a new generation. */
  predicate ChangeOk(s: Store, repo: RepoId, keep: nat, unused: Key, o: Opened, members: set<Member>, gen: nat,
    key: Key)
    requires RosterConsistent(s, repo)
  {
    && OpenedOn(s, repo, o) && keep in Recipients(members) && DistinctFingerprints(members)
    && o.trusted.body.Has(o.ses.id) && RosterSuccessor(o, members, gen).Has(o.ses.id)
    && (if gen == o.trusted.body.gen then key == s.keyfile.value.key
          else gen == o.trusted.body.gen + 1 && key >= unused)
  }

  predicate ChOk(s: Store, repo: RepoId, keep: nat, unused: Key, ch: Change)
    requires RosterConsistent(s, repo)
  {
    ChangeOk(s, repo, keep, unused, ch.o, ch.members, ch.gen, ch.key)
  }

  predicate RkOk(s: Store, repo: RepoId, keep: nat, unused: Key, rk: Rekey)
    requires Consistent(s, repo)
  {
    && CurrentOf(s, repo, rk.cur)
    && ChangeOk(s, repo, keep, unused, rk.o, rk.o.trusted.body.members, rk.o.trusted.body.gen + 1, rk.key)
  }

  predicate SameRoster(s: Store, t: Store) {
    s.roster == t.roster && s.rver == t.rver
  }

  predicate SameManifest(s: Store, t: Store) {
    s.manifest == t.manifest && s.mver == t.mver
  }

  predicate RosterMoved(s: Store, repo: RepoId, o: Opened, members: set<Member>, gen: nat, key: Key) {
    && s.roster.Some? && s.roster.value.repo == repo && s.roster.value.key == key
    && s.roster.value.text == RosterDocument(o, members, gen) && s.rver == o.trusted.body.version + 1
  }

  predicate KeyfileMoved(s: Store, members: set<Member>, gen: nat, key: Key) {
    s.keyfile == Some(Keyfile(gen, key, Recipients(members)))
  }

  /** The manifest of s, if there is one, has been re-issued under the new key and roster. */
  predicate ManifestMoved(s: Store, t: Store, repo: RepoId, o: Opened, members: set<Member>, gen: nat, key: Key) {
    if s.mver == 0 then SameManifest(s, t) && s.manifest.None?
    else
      && t.mver == s.mver + 1 && HasManifest(t) && t.manifest.value.repo == repo && t.manifest.value.key == key
      && var m := LiveManifest(t);
      && m.body.version == t.mver && m.body.rosterHash == ShaRosterBody(RosterSuccessor(o, members, gen))
      && m.body.pusher == o.ses.id && m.Verify(o.ses.id.ed)
  }

  /** All three pointers are consistent, under the roster of s or one made from it. */
  predicate Settled(s: Store, repo: RepoId, keep: nat, t: Store)
    requires RosterConsistent(s, repo)
  {
    && Consistent(t, repo) && keep in Recipients(LiveRoster(t).body.members)
    && (SameRoster(s, t)
        || var b := LiveRoster(t).body;
           b.version == LiveRoster(s).body.version + 1 && b.prev == Some(Sha(s.roster.value.text))
           && LiveRoster(s).body.Has(b.author))
  }

  predicate SessionOn(s: Store, repo: RepoId, slot: Slot, ses: Session)
    requires RosterConsistent(s, repo)
  {
    ses == Session(slot.id, repo, s.keyfile.value.key, s.keyfile.value.gen, slot.st.keys)
  }

  /** Where the client is decides what it has replaced of the documents of s. */
  predicate Phase(s: Store, repo: RepoId, keep: nat, unused: Key, slot: Slot, t: Store)
    requires Consistent(s, repo)
  {
    match slot.prog
    case AddGetKeyfile(_, _) => SamePointers(s, t) && PinOk(slot.st)
    case AddGetRoster(_, _, ses) => SamePointers(s, t) && PinOk(slot.st) && SessionOn(s, repo, slot, ses)
    case RemoveGetKeyfile(target) => SamePointers(s, t) && PinOk(slot.st) && Remains(s, keep, target)
    case RemoveGetRoster(target, ses) =>
      SamePointers(s, t) && PinOk(slot.st) && SessionOn(s, repo, slot, ses) && Remains(s, keep, target)
    case RekeyGetKeyfile => SamePointers(s, t) && PinOk(slot.st)
    case RekeyGetRoster(ses) => SamePointers(s, t) && PinOk(slot.st) && SessionOn(s, repo, slot, ses)
    case ChangeCasRoster(ch) => SamePointers(s, t) && ChOk(s, repo, keep, unused, ch)
    case ChangePutKeyfile(ch) =>
      && ChOk(s, repo, keep, unused, ch) && RosterMoved(t, repo, ch.o, ch.members, ch.gen, ch.key)
      && t.keyfile == s.keyfile && SameManifest(s, t)
    case ChangeGetManifest(ch) =>
      && ChOk(s, repo, keep, unused, ch) && RosterMoved(t, repo, ch.o, ch.members, ch.gen, ch.key)
      && KeyfileMoved(t, ch.members, ch.gen, ch.key) && SameManifest(s, t)
    case ChangeCasManifest(ch, cur) =>
      && ChOk(s, repo, keep, unused, ch) && RosterMoved(t, repo, ch.o, ch.members, ch.gen, ch.key)
      && KeyfileMoved(t, ch.members, ch.gen, ch.key) && SameManifest(s, t) && s.mver > 0 && CurrentOf(s, repo, cur)
    case RekeyGetManifest(o) => SamePointers(s, t) && OpenedOn(s, repo, o) && o.trusted.body.Has(o.ses.id)
    case RekeyGetBlob(rk, _) => SamePointers(s, t) && s.mver > 0 && RkOk(s, repo, keep, unused, rk)
    case RekeyPutBlob(rk, _, _) => SamePointers(s, t) && s.mver > 0 && RkOk(s, repo, keep, unused, rk)
    case RekeyCasManifest(rk, _) => SamePointers(s, t) && s.mver > 0 && RkOk(s, repo, keep, unused, rk)
    case RekeyPutKeyfile(rk, _, _) =>
      && RkOk(s, repo, keep, unused, rk) && SameRoster(s, t) && t.keyfile == s.keyfile
      && ManifestMoved(s, t, repo, rk.o, rk.o.trusted.body.members, rk.o.trusted.body.gen + 1, rk.key)
    case RekeyCasRoster(rk, _, _) =>
      && RkOk(s, repo, keep, unused, rk) && SameRoster(s, t)
      && KeyfileMoved(t, rk.o.trusted.body.members, rk.o.trusted.body.gen + 1, rk.key)
      && ManifestMoved(s, t, repo, rk.o, rk.o.trusted.body.members, rk.o.trusted.body.gen + 1, rk.key)
    case RekeyDeleteBlob(_, _, _) => Settled(s, repo, keep, t)
    case Idle => Settled(s, repo, keep, t)
    case _ => false
  }

  /** Removing the target leaves the X25519 key with another member. */
  predicate Remains(s: Store, keep: nat, target: Identity)
    requires s.roster.Some? && s.roster.value.text.RosterText?
  {
    keep in Recipients(MembersExcept(LiveRoster(s).body.members, target))
  }

  // ---- every call keeps it ----

  predicate Keeps(sys: Sys, sys': Sys, c: nat, s: Store, keep: nat, unused: Key)
    requires Consistent(s, sys.repo)
  {
    && sys'.repo == sys.repo && sys'.next >= sys.next && c < |sys'.slots|
    && Phase(s, sys.repo, keep, unused, sys'.slots[c], sys'.s)
  }

  lemma SameIsSettled(s: Store, repo: RepoId, keep: nat, t: Store)
    requires Consistent(s, repo) && SamePointers(s, t) && keep in Recipients(LiveRoster(s).body.members)
    ensures Settled(s, repo, keep, t)
  {
  }

  /** All three documents replaced: settled again. */
  lemma MovedIsSettled(
      s: Store, repo: RepoId, keep: nat, unused: Key, o: Opened, members: set<Member>, gen: nat, key: Key, t: Store)
    requires Consistent(s, repo) && ChangeOk(s, repo, keep, unused, o, members, gen, key)
    requires RosterMoved(t, repo, o, members, gen, key) && KeyfileMoved(t, members, gen, key)
    requires ManifestMoved(s, t, repo, o, members, gen, key)
    ensures Settled(s, repo, keep, t)
  {
  }

  lemma RefreshPhase(sys: Sys, c: nat, s: Store, keep: nat, unused: Key)
    requires Consistent(s, sys.repo) && c < |sys.slots| && keep in Recipients(LiveRoster(s).body.members)
    requires var p := sys.slots[c].prog; p.AddGetKeyfile? || p.RemoveGetKeyfile? || p.RekeyGetKeyfile?
    requires Phase(s, sys.repo, keep, unused, sys.slots[c], sys.s)
    ensures Keeps(sys, StepRefresh(sys, c), c, s, keep, unused)
  {
    hide Consistent, Settled;
    SameIsSettled(s, sys.repo, keep, sys.s);
  }

  /** The rest of the preamble opens the live documents. */
  lemma OpeningOn(sys: Sys, slot: Slot, ses: Session, s: Store)
    requires RosterConsistent(s, sys.repo) && SamePointers(s, sys.s) && PinOk(slot.st)
      && SessionOn(s, sys.repo, slot, ses)
    ensures var r := Opening(sys, slot, ses).1;
      r.Ok? ==> OpenedOn(s, sys.repo, r.value) && r.value.ses.id == slot.id
  {
  }

  lemma AddOpenPhase(sys: Sys, c: nat, s: Store, keep: nat, unused: Key)
    requires Consistent(s, sys.repo) && c < |sys.slots| && keep in Recipients(LiveRoster(s).body.members)
    requires sys.slots[c].prog.AddGetRoster? && sys.next >= unused
    requires Phase(s, sys.repo, keep, unused, sys.slots[c], sys.s)
    ensures Keeps(sys, StepAddOpen(sys, c), c, s, keep, unused)
  {
    hide Settled, Opening;
    SameIsSettled(s, sys.repo, keep, sys.s);
    var slot := sys.slots[c];
    OpeningOn(sys, slot, slot.prog.ses, s);
    var r := Opening(sys, slot, slot.prog.ses).1;
    if r.Ok? && r.value.trusted.body.Has(slot.id) {
      var o := r.value;
      var me :| me in o.trusted.body.members && me.Fingerprint() == slot.id;
      assert me in RosterSuccessor(o, o.trusted.body.members + {slot.prog.member}, o.trusted.body.gen).members;
    }
  }

  lemma RemoveOpenPhase(sys: Sys, c: nat, s: Store, keep: nat, unused: Key)
    requires Consistent(s, sys.repo) && c < |sys.slots| && keep in Recipients(LiveRoster(s).body.members)
    requires sys.slots[c].prog.RemoveGetRoster? && sys.next >= unused
    requires Phase(s, sys.repo, keep, unused, sys.slots[c], sys.s)
    ensures Keeps(sys, StepRemoveOpen(sys, c), c, s, keep, unused)
  {
    hide Settled, Opening;
    SameIsSettled(s, sys.repo, keep, sys.s);
    var slot := sys.slots[c];
    OpeningOn(sys, slot, slot.prog.ses, s);
    var r := Opening(sys, slot, slot.prog.ses).1;
    var target := slot.prog.target;
    if r.Ok? && r.value.trusted.body.Has(slot.id) && target != slot.id {
      var o := r.value;
      var me :| me in o.trusted.body.members && me.Fingerprint() == slot.id;
      assert me in RosterSuccessor(o, MembersExcept(o.trusted.body.members, target), o.trusted.body.gen + 1).members;
    }
  }

  lemma RekeyOpenPhase(sys: Sys, c: nat, s: Store, keep: nat, unused: Key)
    requires Consistent(s, sys.repo) && c < |sys.slots| && keep in Recipients(LiveRoster(s).body.members)
    requires sys.slots[c].prog.RekeyGetRoster? && sys.next >= unused
    requires Phase(s, sys.repo, keep, unused, sys.slots[c], sys.s)
    ensures Keeps(sys, StepRekeyOpen(sys, c), c, s, keep, unused)
  {
    hide Settled, Opening;
    SameIsSettled(s, sys.repo, keep, sys.s);
    var slot := sys.slots[c];
    OpeningOn(sys, slot, slot.prog.ses, s);
  }

  lemma ChangePointersPhase(sys: Sys, c: nat, objects: Option<set<Object>>, s: Store, keep: nat, unused: Key)
    requires Consistent(s, sys.repo) && c < |sys.slots|
    requires sys.slots[c].prog.ChangeCasRoster? || sys.slots[c].prog.ChangePutKeyfile?
    requires Phase(s, sys.repo, keep, unused, sys.slots[c], sys.s)
    ensures Keeps(sys, StepProg(sys, c, objects), c, s, keep, unused)
  {
    hide Settled;
  }

  lemma ChangeReadPhase(sys: Sys, c: nat, s: Store, keep: nat, unused: Key)
    requires Consistent(s, sys.repo) && c < |sys.slots| && sys.slots[c].prog.ChangeGetManifest?
    requires Phase(s, sys.repo, keep, unused, sys.slots[c], sys.s)
    ensures Keeps(sys, StepChangeRead(sys, c), c, s, keep, unused)
  {
    hide Settled, LoadCurrent, Insert;
    var ch := sys.slots[c].prog.change;
    LoadCurrentMoved(ch.o, sys.repo, s, sys.s);
    if s.mver == 0 {
      MovedIsSettled(s, sys.repo, keep, unused, ch.o, ch.members, ch.gen, ch.key, sys.s);
    }
  }

  lemma ChangeCommitPhase(sys: Sys, c: nat, s: Store, keep: nat, unused: Key)
    requires Consistent(s, sys.repo) && c < |sys.slots|
    requires sys.slots[c].prog.ChangeCasManifest? && sys.slots[c].prog.cur.Current?
    requires Phase(s, sys.repo, keep, unused, sys.slots[c], sys.s)
    ensures Keeps(sys, StepChangeCommit(sys, c), c, s, keep, unused)
  {
    hide Settled, Insert;
    var ch := sys.slots[c].prog.change;
    MovedIsSettled(
      s, sys.repo, keep, unused, ch.o, ch.members, ch.gen, ch.key, StepChangeCommit(sys, c).s);
  }

  /** The live manifest still opens for whoever had opened the documents before. */
  lemma LoadCurrentMoved(o: Opened, repo: RepoId, s: Store, t: Store)
    requires Consistent(s, repo) && OpenedOn(s, repo, o) && SameManifest(s, t)
    ensures LoadCurrent(o.ses, o.trusted, t).Ok? && CurrentOf(s, repo, LoadCurrent(o.ses, o.trusted, t).value)
  {
  }

  lemma RekeyReadPhase(sys: Sys, c: nat, s: Store, keep: nat, unused: Key)
    requires Consistent(s, sys.repo) && c < |sys.slots| && keep in Recipients(LiveRoster(s).body.members)
    requires var p := sys.slots[c].prog; p.RekeyGetManifest?
    requires Phase(s, sys.repo, keep, unused, sys.slots[c], sys.s) && sys.next >= unused
    ensures Keeps(sys, StepRekeyRead(sys, c), c, s, keep, unused)
  {
    hide Settled, LoadCurrent, Reseal, PutBlob, InsertAll;
    var sys' := StepRekeyRead(sys, c);
    var o := sys.slots[c].prog.o;
    LoadCurrentMoved(o, sys.repo, s, sys.s);
    SuccessorHas(o, o.ses.id);
  }

  lemma RekeyPacksPhase(sys: Sys, c: nat, objects: Option<set<Object>>, s: Store, keep: nat, unused: Key)
    requires Consistent(s, sys.repo) && c < |sys.slots| && keep in Recipients(LiveRoster(s).body.members)
    requires var p := sys.slots[c].prog; p.RekeyGetBlob? || p.RekeyPutBlob?
    requires Phase(s, sys.repo, keep, unused, sys.slots[c], sys.s) && sys.next >= unused
    ensures Keeps(sys, StepProg(sys, c, objects), c, s, keep, unused)
  {
    hide Settled, Reseal, PutBlob, RkOk;
    var sys' := StepProg(sys, c, objects);
    if sys'.slots[c].prog.Idle? {
      SameIsSettled(s, sys.repo, keep, sys'.s);
    }
  }

  lemma RekeyCommitPhase(sys: Sys, c: nat, objects: Option<set<Object>>, s: Store, keep: nat, unused: Key)
    requires Consistent(s, sys.repo) && c < |sys.slots| && keep in Recipients(LiveRoster(s).body.members)
    requires var p := sys.slots[c].prog; p.RekeyCasManifest?
    requires Phase(s, sys.repo, keep, unused, sys.slots[c], sys.s) && sys.next >= unused
    ensures Keeps(sys, StepProg(sys, c, objects), c, s, keep, unused)
  {
    hide Settled, InsertAll;
  }

  lemma RekeyWrapPhase(sys: Sys, c: nat, s: Store, keep: nat, unused: Key)
    requires Consistent(s, sys.repo) && c < |sys.slots| && keep in Recipients(LiveRoster(s).body.members)
    requires var p := sys.slots[c].prog; p.RekeyPutKeyfile?
    requires Phase(s, sys.repo, keep, unused, sys.slots[c], sys.s) && sys.next >= unused
    ensures Keeps(sys, StepRekeyWrap(sys, c), c, s, keep, unused)
  {
    hide Settled, ManifestMoved, RkOk;
    var rk, t := sys.slots[c].prog.rekey, StepRekeyWrap(sys, c).s;
    var members, gen := rk.o.trusted.body.members, rk.o.trusted.body.gen + 1;
    SomeRecipient(s, sys.repo, keep, unused, rk);
    SameManifestMoved(s, sys.s, t, sys.repo, rk.o, members, gen, rk.key);
  }

  lemma SomeRecipient(s: Store, repo: RepoId, keep: nat, unused: Key, rk: Rekey)
    requires Consistent(s, repo) && RkOk(s, repo, keep, unused, rk)
    ensures keep in Recipients(rk.o.trusted.body.members)
  {
  }

  lemma SameManifestMoved(
      s: Store, t: Store, t': Store, repo: RepoId, o: Opened, members: set<Member>, gen: nat, key: Key)
    requires ManifestMoved(s, t, repo, o, members, gen, key) && SameManifest(t, t')
    ensures ManifestMoved(s, t', repo, o, members, gen, key)
  {
  }

  lemma RekeyRosterPhase(sys: Sys, c: nat, s: Store, keep: nat, unused: Key)
    requires Consistent(s, sys.repo) && c < |sys.slots| && keep in Recipients(LiveRoster(s).body.members)
    requires var p := sys.slots[c].prog; p.RekeyCasRoster?
    requires Phase(s, sys.repo, keep, unused, sys.slots[c], sys.s) && sys.next >= unused
    ensures Keeps(sys, StepRekeyCasRoster(sys, c), c, s, keep, unused)
  {
    hide Settled;
    var sys' := StepRekeyCasRoster(sys, c);
    var rk := sys.slots[c].prog.rekey;
    MovedIsSettled(
      s, sys.repo, keep, unused, rk.o, rk.o.trusted.body.members, rk.o.trusted.body.gen + 1, rk.key, sys'.s);
  }

  lemma RekeyDeletePhase(sys: Sys, c: nat, s: Store, keep: nat, unused: Key)
    requires Consistent(s, sys.repo) && c < |sys.slots| && keep in Recipients(LiveRoster(s).body.members)
    requires var p := sys.slots[c].prog; p.RekeyDeleteBlob?
    requires Phase(s, sys.repo, keep, unused, sys.slots[c], sys.s) && sys.next >= unused
    ensures Keeps(sys, StepRekeyDelete(sys, c), c, s, keep, unused)
  {
    hide Settled, Insert;
    var sys' := StepRekeyDelete(sys, c);
    SettledPointers(s, sys.repo, keep, sys.s, sys'.s);
  }

  lemma SuccessorHas(o: Opened, id: Identity)
    requires o.trusted.body.Has(id)
    ensures RosterSuccessor(o, o.trusted.body.members, o.trusted.body.gen + 1).Has(id)
  {
    var me :| me in o.trusted.body.members && me.Fingerprint() == id;
    assert me in RosterSuccessor(o, o.trusted.body.members, o.trusted.body.gen + 1).members;
  }

  lemma SettledPointers(s: Store, repo: RepoId, keep: nat, t: Store, t': Store)
    requires RosterConsistent(s, repo) && Settled(s, repo, keep, t) && SamePointers(t, t')
    ensures Settled(s, repo, keep, t')
  {
  }

  lemma CurrentIsLive(s: Store, repo: RepoId, cur: Current)
    requires Consistent(s, repo) && CurrentOf(s, repo, cur)
    ensures cur.Current? <==> s.mver > 0
  {
  }

  lemma StepPhase(sys: Sys, c: nat, objects: Option<set<Object>>, s: Store, keep: nat, unused: Key)
    requires Consistent(s, sys.repo) && c < |sys.slots| && keep in Recipients(LiveRoster(s).body.members)
    requires Phase(s, sys.repo, keep, unused, sys.slots[c], sys.s) && sys.next >= unused
    ensures Keeps(sys, StepProg(sys, c, objects), c, s, keep, unused)
  {
    hide Consistent, Settled, ChOk, RkOk, SamePointers, PinOk, RosterMoved, KeyfileMoved, ManifestMoved, OpenedOn;
    hide SameManifest, SameRoster, SessionOn, Remains, CurrentOf, Recipients;
    hide StepAddOpen, StepRemoveOpen, StepChangeCasRoster, StepChangePutKeyfile, StepChangeRead, StepChangeCommit;
    hide StepRekeyOpen, StepRekeyRead, StepRekeyGet, StepRekeyPut, StepRekeyCommit, StepRekeyWrap;
    hide StepRekeyCasRoster, StepRekeyDelete, StepRefresh;
    match sys.slots[c].prog
    case AddGetKeyfile(_, _) => RefreshPhase(sys, c, s, keep, unused);
    case RemoveGetKeyfile(_) => RefreshPhase(sys, c, s, keep, unused);
    case RekeyGetKeyfile => RefreshPhase(sys, c, s, keep, unused);
    case AddGetRoster(_, _, _) => AddOpenPhase(sys, c, s, keep, unused);
    case RemoveGetRoster(_, _) => RemoveOpenPhase(sys, c, s, keep, unused);
    case RekeyGetRoster(_) => RekeyOpenPhase(sys, c, s, keep, unused);
    case ChangeCasRoster(_) => ChangePointersPhase(sys, c, objects, s, keep, unused);
    case ChangePutKeyfile(_) => ChangePointersPhase(sys, c, objects, s, keep, unused);
    case ChangeGetManifest(_) => ChangeReadPhase(sys, c, s, keep, unused);
    case ChangeCasManifest(_, cur) =>
      CurrentIsLive(s, sys.repo, cur);
      ChangeCommitPhase(sys, c, s, keep, unused);
    case RekeyGetManifest(_) => RekeyReadPhase(sys, c, s, keep, unused);
    case RekeyGetBlob(_, _) => RekeyPacksPhase(sys, c, objects, s, keep, unused);
    case RekeyPutBlob(_, _, _) => RekeyPacksPhase(sys, c, objects, s, keep, unused);
    case RekeyCasManifest(_, _) => RekeyCommitPhase(sys, c, objects, s, keep, unused);
    case RekeyPutKeyfile(_, _, _) => RekeyWrapPhase(sys, c, s, keep, unused);
    case RekeyCasRoster(_, _, _) => RekeyRosterPhase(sys, c, s, keep, unused);
    case RekeyDeleteBlob(_, _, _) => RekeyDeletePhase(sys, c, s, keep, unused);
    case _ =>
  }

  lemma {:induction false} CallsPhase(
      sys: Sys, c: nat, objects: Option<set<Object>>, n: nat, s: Store, keep: nat, unused: Key)
    requires Consistent(s, sys.repo) && c < |sys.slots| && keep in Recipients(LiveRoster(s).body.members)
    requires Phase(s, sys.repo, keep, unused, sys.slots[c], sys.s) && sys.next >= unused
    ensures var sys' := Calls(sys, c, objects, n);
      c < |sys'.slots| && Phase(s, sys.repo, keep, unused, sys'.slots[c], sys'.s)
    decreases n
  {
    hide Phase, Consistent, StepProg;
    if n > 0 {
      StepPhase(sys, c, objects, s, keep, unused);
      CallsPhase(StepProg(sys, c, objects), c, objects, n - 1, s, keep, unused);
    }
  }

  // ---- who can read then ----

  /** A client that can read s, with its pin absent or on the live roster, and no unused key. */
  predicate Reader(s: Store, repo: RepoId, id: Identity, st: State, unused: Key)
    requires RosterConsistent(s, repo)
  {
    && id.x in Recipients(LiveRoster(s).body.members) && PinOk(st)
    && (st.rosterPinned ==> st.rosterVersion == s.rver && st.rosterHash == Sha(s.roster.value.text))
    && s.keyfile.value.key < unused && forall k | k in st.keys :: k < unused
  }

  lemma SettledReadable(s: Store, repo: RepoId, id: Identity, st: State, unused: Key, t: Store)
    requires RosterConsistent(s, repo) && Reader(s, repo, id, st, unused) && Settled(s, repo, id.x, t)
    ensures Readable(id, repo, st, t)
  {
    hide Enter;
    EnterExactly(id, repo, st, t);
    LoadCurrentConsistent(Enter(id, repo, st, t).1.value, repo, t);
  }

  lemma PhaseReadable(s: Store, repo: RepoId, id: Identity, st: State, unused: Key, slot: Slot, t: Store)
    requires Consistent(s, repo) && Reader(s, repo, id, st, unused) && Phase(s, repo, id.x, unused, slot, t)
    ensures Readable(id, repo, st, t) <==> !Dark(slot.prog, s.mver > 0)
  {
    hide Readable, Settled, ChOk, RkOk, SamePointers, PinOk, RosterMoved, KeyfileMoved, ManifestMoved, OpenedOn;
    match slot.prog
    case ChangePutKeyfile(ch) => PutKeyfileReadable(s, repo, id, st, unused, ch, t);
    case ChangeGetManifest(ch) => ReissueReadable(s, repo, id, st, unused, ch, t);
    case ChangeCasManifest(ch, _) => ReissueReadable(s, repo, id, st, unused, ch, t);
    case RekeyPutKeyfile(rk, _, _) => WrapReadable(s, repo, id, st, unused, rk, t);
    case RekeyCasRoster(rk, _, _) => LastRosterUnreadable(s, repo, id, st, unused, rk, t);
    case RekeyDeleteBlob(_, _, _) => SettledReadable(s, repo, id, st, unused, t);
    case Idle => SettledReadable(s, repo, id, st, unused, t);
    case _ =>
      SameIsSettled(s, repo, id.x, t);
      SettledReadable(s, repo, id, st, unused, t);
  }

  lemma PutKeyfileReadable(s: Store, repo: RepoId, id: Identity, st: State, unused: Key, ch: Change, t: Store)
    requires Consistent(s, repo) && Reader(s, repo, id, st, unused) && ChOk(s, repo, id.x, unused, ch)
    requires RosterMoved(t, repo, ch.o, ch.members, ch.gen, ch.key) && t.keyfile == s.keyfile && SameManifest(s, t)
    ensures Readable(id, repo, st, t) <==> s.mver == 0 && ch.gen == ch.o.trusted.body.gen
  {
  }

  lemma ReissueReadable(s: Store, repo: RepoId, id: Identity, st: State, unused: Key, ch: Change, t: Store)
    requires Consistent(s, repo) && Reader(s, repo, id, st, unused) && ChOk(s, repo, id.x, unused, ch)
    requires RosterMoved(t, repo, ch.o, ch.members, ch.gen, ch.key)
    requires KeyfileMoved(t, ch.members, ch.gen, ch.key) && SameManifest(s, t)
    ensures Readable(id, repo, st, t) <==> s.mver == 0
  {
  }

  lemma WrapReadable(s: Store, repo: RepoId, id: Identity, st: State, unused: Key, rk: Rekey, t: Store)
    requires Consistent(s, repo) && Reader(s, repo, id, st, unused) && RkOk(s, repo, id.x, unused, rk)
    requires SameRoster(s, t) && t.keyfile == s.keyfile
    requires ManifestMoved(s, t, repo, rk.o, rk.o.trusted.body.members, rk.o.trusted.body.gen + 1, rk.key)
    ensures Readable(id, repo, st, t) <==> s.mver == 0
  {
  }

  lemma LastRosterUnreadable(s: Store, repo: RepoId, id: Identity, st: State, unused: Key, rk: Rekey, t: Store)
    requires Consistent(s, repo) && Reader(s, repo, id, st, unused) && RkOk(s, repo, id.x, unused, rk)
    requires SameRoster(s, t)
    requires KeyfileMoved(t, rk.o.trusted.body.members, rk.o.trusted.body.gen + 1, rk.key)
    ensures !Readable(id, repo, st, t)
  {
  }

  // ---- the theorem ----

  /** About to start a membership operation which leaves the reader a recipient. */
  predicate Starts(slot: Slot, s: Store, keep: nat)
    requires s.roster.Some? && s.roster.value.text.RosterText?
  {
    slot.prog.AddGetKeyfile? || slot.prog.RekeyGetKeyfile?
      || (slot.prog.RemoveGetKeyfile? && Remains(s, keep, slot.prog.target))
  }

  /** A process that adds, removes or rekeys and is killed after any number of its calls leaves the
      others able to enter and to read the live manifest exactly if it was not killed at a dark point. */
  lemma CrashPoints(sys: Sys, c: nat, objects: Option<set<Object>>, n: nat, id: Identity, st: State)
    requires c < |sys.slots| && Consistent(sys.s, sys.repo) && PinOk(sys.slots[c].st)
    requires Starts(sys.slots[c], sys.s, id.x) && Reader(sys.s, sys.repo, id, st, sys.next)
    ensures var sys' := Calls(sys, c, objects, n);
      && c < |sys'.slots| && Step(sys', c, Crash).slots[c] == sys'.slots[c].(prog := Idle)
      && (Readable(id, sys.repo, st, Step(sys', c, Crash).s) <==> !Dark(sys'.slots[c].prog, sys.s.mver > 0))
  {
    hide Readable, StepProg;
    CallsPhase(sys, c, objects, n, sys.s, id.x, sys.next);
    var sys' := Calls(sys, c, objects, n);
    PhaseReadable(sys.s, sys.repo, id, st, sys.next, sys'.slots[c], sys'.s);
  }
}
