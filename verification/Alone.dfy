/** A client whose operation nobody disturbs: the store calls of `Interleaving`, one after the
    other, come to exactly what `Protocol` says of the whole operation. */
module Alone {
  import opened Wrappers
  import opened Documents
  import opened Protocol
  import opened Interleaving

  /** Client c makes its next n calls. */
  ghost function Calls(sys: Sys, c: nat, objects: Option<set<Object>>, n: nat): Sys
    decreases n
  {
    if n == 0 then sys else Calls(Step(sys, c, Proceed(objects)), c, objects, n - 1)
  }

  /** Some number of calls leads from one to the other. */
  ghost predicate Leads(sys: Sys, c: nat, objects: Option<set<Object>>, sys': Sys) {
    exists n: nat :: Calls(sys, c, objects, n) == sys'
  }

  /** They lead to this store, with the client like this and all others as they are. */
  ghost predicate EndsIn(sys: Sys, c: nat, objects: Option<set<Object>>, s: Store, slot: Slot) {
    c < |sys.slots| && exists sys' :: Leads(sys, c, objects, sys') && sys'.s == s && sys'.slots == sys.slots[c := slot]
  }

  predicate OthersStay(sys: Sys, sys': Sys, c: nat) {
    c < |sys.slots| == |sys'.slots| && sys'.slots == sys.slots[c := sys'.slots[c]]
  }

  lemma {:induction false} CallsAdd(sys: Sys, c: nat, objects: Option<set<Object>>, m: nat, n: nat)
    ensures Calls(sys, c, objects, m + n) == Calls(Calls(sys, c, objects, m), c, objects, n)
    decreases m
  {
    hide Step;
    if m > 0 {
      CallsAdd(Step(sys, c, Proceed(objects)), c, objects, m - 1, n);
    }
  }

  lemma Stays(sys: Sys, c: nat, objects: Option<set<Object>>)
    ensures Leads(sys, c, objects, sys)
  {
    assert Calls(sys, c, objects, 0) == sys;
  }

  lemma OneCall(sys: Sys, c: nat, objects: Option<set<Object>>)
    requires c < |sys.slots|
    ensures Leads(sys, c, objects, StepProg(sys, c, objects))
  {
    hide StepProg;
    var next := Step(sys, c, Proceed(objects));
    assert Calls(next, c, objects, 0) == next;
    assert Calls(sys, c, objects, 1) == Calls(next, c, objects, 0);
  }

  lemma Then(sys: Sys, c: nat, objects: Option<set<Object>>, mid: Sys, sys': Sys)
    requires Leads(sys, c, objects, mid) && Leads(mid, c, objects, sys')
    ensures Leads(sys, c, objects, sys')
  {
    var m: nat :| Calls(sys, c, objects, m) == mid;
    var n: nat :| Calls(mid, c, objects, n) == sys';
    CallsAdd(sys, c, objects, m, n);
  }

  /** What leads to an end after some calls, ends. */
  lemma ThenEnds(sys: Sys, c: nat, objects: Option<set<Object>>, mid: Sys, s: Store, slot: Slot)
    requires Leads(sys, c, objects, mid) && EndsIn(mid, c, objects, s, slot)
    requires OthersStay(sys, mid, c)
    ensures EndsIn(sys, c, objects, s, slot)
  {
    var sys' :| Leads(mid, c, objects, sys') && sys'.s == s && sys'.slots == mid.slots[c := slot];
    Then(sys, c, objects, mid, sys');
    assert sys'.slots == sys.slots[c := slot];
  }

  lemma EndsHere(sys: Sys, c: nat, objects: Option<set<Object>>)
    requires c < |sys.slots|
    ensures EndsIn(sys, c, objects, sys.s, sys.slots[c])
  {
    Stays(sys, c, objects);
    assert sys.slots == sys.slots[c := sys.slots[c]];
  }

  /** One call, and then an end. */
  lemma CallEnds(sys: Sys, c: nat, objects: Option<set<Object>>, next: Sys, s: Store, slot: Slot)
    requires OthersStay(sys, next, c) && next == StepProg(sys, c, objects) && EndsIn(next, c, objects, s, slot)
    ensures EndsIn(sys, c, objects, s, slot)
  {
    hide StepProg, EndsIn;
    OneCall(sys, c, objects);
    ThenEnds(sys, c, objects, next, s, slot);
  }

  // ---- membership changes ----

  lemma CommitChangeAlone(sys: Sys, c: nat, objects: Option<set<Object>>, ch: Change, cur: Current)
    requires c < |sys.slots| && sys.slots[c].prog == ChangeCasManifest(ch, cur) && cur.Current?
    requires ch.o.ses.repo == sys.repo && sys.s.mver == cur.seen
    ensures var text := Reissued(ch.o, cur, cur.Packs(), ch.Body());
      var s := sys.s.(manifest := Some(Cipher(ch.key, sys.repo, sys.next, text)), mver := cur.seen + 1);
      EndsIn(sys, c, objects, s,
        ChangeDone(sys.slots[c].(st := sys.slots[c].st.(version := cur.seen + 1, hash := Sha(text))), ch))
  {
    var next := StepChangeCommit(sys, c);
    hide EndsIn;
    EndsHere(next, c, objects);
    CallEnds(sys, c, objects, next, next.s, next.slots[c]);
  }

  /** What publishing leaves: the store and the saved state. */
  function AfterPublish(r: Changed, slot: Slot): Slot {
    slot.(st := r.st, prog := Idle)
  }

  lemma RepublishAlone(sys: Sys, c: nat, objects: Option<set<Object>>, ch: Change)
    requires c < |sys.slots| && sys.slots[c].prog == ChangeGetManifest(ch) && ch.o.ses.repo == sys.repo
    ensures var re := Republish(ch.o, ch.Body(), ch.key, sys.next, sys.s, sys.slots[c].st);
      EndsIn(sys, c, objects, re.s,
        if re.outcome.Fail? then Stop(sys.slots[c]) else ChangeDone(sys.slots[c].(st := re.st), ch))
  {
    var next := StepChangeRead(sys, c);
    hide EndsIn;
    var r := LoadCurrent(ch.o.ses, ch.o.trusted, sys.s);
    if r.Ok? && r.value.Current? {
      CommitChangeAlone(next, c, objects, ch, r.value);
    } else {
      EndsHere(next, c, objects);
    }
    var re := Republish(ch.o, ch.Body(), ch.key, sys.next, sys.s, sys.slots[c].st);
    CallEnds(sys, c, objects, next, re.s,
      if re.outcome.Fail? then Stop(sys.slots[c]) else ChangeDone(sys.slots[c].(st := re.st), ch));
  }

  lemma PublishAlone(sys: Sys, c: nat, objects: Option<set<Object>>, ch: Change)
    requires c < |sys.slots| && sys.slots[c].prog == ChangeCasRoster(ch) && ch.o.ses.repo == sys.repo
    ensures var r := PublishChange(ch.o, ch.members, ch.gen, ch.key, sys.next, sys.s, sys.slots[c].st);
      EndsIn(sys, c, objects, r.s, AfterPublish(r, sys.slots[c]))
  {
    hide EndsIn, Republish;
    var r := PublishChange(ch.o, ch.members, ch.gen, ch.key, sys.next, sys.s, sys.slots[c].st);
    var one := StepChangeCasRoster(sys, c);
    if one.slots[c].prog.ChangePutKeyfile? {
      var two := StepChangePutKeyfile(one, c);
      if two.slots[c].prog.ChangeGetManifest? {
        RepublishAlone(two, c, objects, ch);
      } else {
        EndsHere(two, c, objects);
      }
      CallEnds(one, c, objects, two, r.s, AfterPublish(r, sys.slots[c]));
    } else {
      EndsHere(one, c, objects);
    }
    CallEnds(sys, c, objects, one, r.s, AfterPublish(r, sys.slots[c]));
  }

  /** An addition alone leaves exactly the store and saved state of the whole operation. */
  lemma AddAlone(sys: Sys, c: nat, objects: Option<set<Object>>)
    requires c < |sys.slots| && sys.slots[c].prog.AddGetKeyfile?
    ensures var slot := sys.slots[c];
      var r := AddMember(slot.id, sys.repo, slot.st, sys.s, slot.prog.member, slot.prog.fingerprint, sys.next);
      EndsIn(sys, c, objects, r.s, AfterPublish(r, slot))
  {
    hide EndsIn, PublishChange, LoadTrusted;
    var slot := sys.slots[c];
    var r := AddMember(slot.id, sys.repo, slot.st, sys.s, slot.prog.member, slot.prog.fingerprint, sys.next);
    var one := StepRefresh(sys, c);
    if one.slots[c].prog.AddGetRoster? {
      var two := StepAddOpen(one, c);
      if two.slots[c].prog.ChangeCasRoster? {
        PublishAlone(two, c, objects, two.slots[c].prog.change);
      } else {
        EndsHere(two, c, objects);
      }
      CallEnds(one, c, objects, two, r.s, AfterPublish(r, slot));
    } else {
      EndsHere(one, c, objects);
    }
    CallEnds(sys, c, objects, one, r.s, AfterPublish(r, slot));
  }

  /** ... and so does a removal. */
  lemma RemoveAlone(sys: Sys, c: nat, objects: Option<set<Object>>)
    requires c < |sys.slots| && sys.slots[c].prog.RemoveGetKeyfile?
    ensures var slot := sys.slots[c];
      var r := RemoveMember(slot.id, sys.repo, slot.st, sys.s, slot.prog.target, sys.next);
      EndsIn(sys, c, objects, r.s, AfterPublish(r, slot))
  {
    hide EndsIn, PublishChange, LoadTrusted;
    var slot := sys.slots[c];
    var r := RemoveMember(slot.id, sys.repo, slot.st, sys.s, slot.prog.target, sys.next);
    var one := StepRefresh(sys, c);
    if one.slots[c].prog.RemoveGetRoster? {
      var two := StepRemoveOpen(one, c);
      if two.slots[c].prog.ChangeCasRoster? {
        PublishAlone(two, c, objects, two.slots[c].prog.change);
      } else {
        EndsHere(two, c, objects);
      }
      CallEnds(one, c, objects, two, r.s, AfterPublish(r, slot));
    } else {
      EndsHere(one, c, objects);
    }
    CallEnds(sys, c, objects, one, r.s, AfterPublish(r, slot));
  }

  // ---- full rekey ----

  /** The same client, at another point of its operation. */
  function At(sys: Sys, c: nat, prog: Prog): Sys
    requires c < |sys.slots|
  {
    sys.(slots := sys.slots[c := sys.slots[c].(prog := prog)])
  }

  lemma {:induction false} DeletesAlone(
      sys: Sys, c: nat, objects: Option<set<Object>>, rk: Rekey, stale: seq<Digest>, saving: State)
    requires c < |sys.slots| && sys.slots[c].prog == RekeyDeleteBlob(rk, stale, saving)
    ensures EndsIn(sys, c, objects, sys.s.(blobs := DeleteAll(sys.s.blobs, stale)),
      Stop(sys.slots[c].(st :=
        PinRoster(saving.(keys := Insert(saving.keys, rk.key)), rk.Body().version, RekeyRosterText(rk)))))
    decreases |stale|
  {
    hide EndsIn, Insert;
    var next := StepRekeyDelete(sys, c);
    if stale == [] {
      EndsHere(next, c, objects);
      assert sys.s == sys.s.(blobs := sys.s.blobs);
    } else {
      DeletesAlone(next, c, objects, rk, stale[1..], saving);
    }
    CallEnds(sys, c, objects, next, sys.s.(blobs := DeleteAll(sys.s.blobs, stale)),
      Stop(sys.slots[c].(st :=
        PinRoster(saving.(keys := Insert(saving.keys, rk.key)), rk.Body().version, RekeyRosterText(rk)))));
  }

  lemma FinishAlone(sys: Sys, c: nat, objects: Option<set<Object>>, rk: Rekey, stale: seq<Digest>, saving: State)
    requires c < |sys.slots| && sys.slots[c].prog == RekeyPutKeyfile(rk, stale, saving) && rk.o.ses.repo == sys.repo
    ensures var r := FinishRekey(rk.o, rk.key, sys.next, stale, sys.s, sys.slots[c].st, saving);
      EndsIn(sys, c, objects, r.s, AfterPublish(r, sys.slots[c]))
  {
    hide EndsIn, DeleteAll, Insert;
    var slot := sys.slots[c];
    var r := FinishRekey(rk.o, rk.key, sys.next, stale, sys.s, slot.st, saving);
    var one := StepRekeyWrap(sys, c);
    if one.slots[c].prog.RekeyCasRoster? {
      var two := StepRekeyCasRoster(one, c);
      if two.slots[c].prog.RekeyDeleteBlob? {
        DeletesAlone(two, c, objects, rk, stale, saving);
      } else {
        EndsHere(two, c, objects);
      }
      CallEnds(one, c, objects, two, r.s, AfterPublish(r, slot));
    } else {
      EndsHere(one, c, objects);
    }
    CallEnds(sys, c, objects, one, r.s, AfterPublish(r, slot));
  }

  /** Where re-encrypting the packs after the first |done| leads, if none fails. */
  function AfterReseal(sys: Sys, c: nat, rk: Rekey, done: seq<Digest>, re: Resealed): Sys
    requires c < |sys.slots| && |done| <= |rk.cur.Packs()|
  {
    At(sys, c, RekeyCasManifest(rk, re.packs))
      .(s := sys.s.(blobs := re.blobs), next := sys.next + |rk.cur.Packs()| - |done|)
  }

  lemma ResealOneAlone(sys: Sys, c: nat, objects: Option<set<Object>>, rk: Rekey, done: seq<Digest>)
    requires c < |sys.slots| && sys.slots[c].prog == RekeyGetBlob(rk, done) && |done| < |rk.cur.Packs()|
    ensures var id := rk.cur.Packs()[|done|];
      var r := Reseal(rk.o.ses, id, Lookup(sys.s.blobs, id), rk.key, sys.next);
      && (r.Err? ==> EndsIn(sys, c, objects, sys.s, Stop(sys.slots[c])))
      && (r.Ok? ==> Leads(sys, c, objects,
            At(sys, c, RekeyGetBlob(rk, done + [ShaBlob(r.value)]))
              .(s := sys.s.(blobs := PutBlob(sys.s.blobs, r.value)), next := sys.next + 1)))
  {
    hide EndsIn, Leads, Reseal, PutBlob;
    var id := rk.cur.Packs()[|done|];
    var r := Reseal(rk.o.ses, id, Lookup(sys.s.blobs, id), rk.key, sys.next);
    var one := StepRekeyGet(sys, c);
    OneCall(sys, c, objects);
    if r.Err? {
      EndsHere(one, c, objects);
      CallEnds(sys, c, objects, one, sys.s, Stop(sys.slots[c]));
    } else {
      OneCall(one, c, objects);
      var two := StepRekeyPut(one, c);
      assert two.slots == At(sys, c, RekeyGetBlob(rk, done + [ShaBlob(r.value)])).slots;
      Then(sys, c, objects, one, two);
    }
  }

  lemma {:induction false} ResealsAlone(sys: Sys, c: nat, objects: Option<set<Object>>, rk: Rekey, done: seq<Digest>)
    requires c < |sys.slots| && sys.slots[c].prog == RekeyGetBlob(rk, done) && |done| <= |rk.cur.Packs()|
    ensures var re := ResealAll(rk.o.ses, rk.cur.Packs()[|done|..], sys.s.blobs, rk.key, sys.next, done);
      && (re.outcome.Fail? ==> EndsIn(sys, c, objects, sys.s.(blobs := re.blobs), Stop(sys.slots[c])))
      && (re.outcome.Pass? ==> Leads(sys, c, objects, AfterReseal(sys, c, rk, done, re)))
    decreases |rk.cur.Packs()| - |done|
  {
    hide EndsIn, Leads, Reseal, PutBlob, Lookup;
    var packs := rk.cur.Packs();
    var re := ResealAll(rk.o.ses, packs[|done|..], sys.s.blobs, rk.key, sys.next, done);
    if |done| == |packs| {
      OneCall(sys, c, objects);
      assert StepRekeyGet(sys, c) == AfterReseal(sys, c, rk, done, re);
    } else {
      hide StepProg;
      assert packs[|done|..][0] == packs[|done|] && packs[|done|..][1..] == packs[|done| + 1..];
      var r := Reseal(rk.o.ses, packs[|done|], Lookup(sys.s.blobs, packs[|done|]), rk.key, sys.next);
      ResealOneAlone(sys, c, objects, rk, done);
      if r.Ok? {
        var more := done + [ShaBlob(r.value)];
        var two := At(sys, c, RekeyGetBlob(rk, more))
          .(s := sys.s.(blobs := PutBlob(sys.s.blobs, r.value)), next := sys.next + 1);
        ResealsAlone(two, c, objects, rk, more);
        if re.outcome.Fail? {
          ThenEnds(sys, c, objects, two, sys.s.(blobs := re.blobs), Stop(sys.slots[c]));
        } else {
          assert AfterReseal(two, c, rk, more, re) == AfterReseal(sys, c, rk, done, re);
          Then(sys, c, objects, two, AfterReseal(sys, c, rk, done, re));
        }
      } else {
        assert sys.s == sys.s.(blobs := re.blobs);
      }
    }
  }

  lemma RekeyManifestAlone(sys: Sys, c: nat, objects: Option<set<Object>>, rk: Rekey)
    requires c < |sys.slots| && sys.slots[c].prog == RekeyGetBlob(rk, []) && rk.cur.Current?
    requires rk.o.ses.repo == sys.repo && rk.key + 1 == sys.next && sys.s.mver == rk.cur.seen
    ensures var r := RekeyManifest(rk.o, rk.cur, sys.s, sys.slots[c].st, rk.key);
      EndsIn(sys, c, objects, r.s, AfterPublish(r, sys.slots[c]))
  {
    hide EndsIn, Leads, ResealAll, InsertAll, FinishRekey, RosterSuccessor, Reissued;
    var slot := sys.slots[c];
    var r := RekeyManifest(rk.o, rk.cur, sys.s, slot.st, rk.key);
    var packs := rk.cur.Packs();
    assert packs[0..] == packs;
    ResealsAlone(sys, c, objects, rk, []);
    var re := ResealAll(rk.o.ses, packs, sys.s.blobs, rk.key, sys.next, []);
    if re.outcome.Pass? {
      var mid := AfterReseal(sys, c, rk, [], re);
      var next := StepRekeyCommit(mid, c);
      FinishAlone(next, c, objects, rk, packs, next.slots[c].prog.saving);
      CallEnds(mid, c, objects, next, r.s, AfterPublish(r, slot));
      ThenEnds(sys, c, objects, mid, r.s, AfterPublish(r, slot));
    }
  }

  lemma RekeyReadAlone(sys: Sys, c: nat, objects: Option<set<Object>>, o: Opened)
    requires c < |sys.slots| && sys.slots[c].prog == RekeyGetManifest(o) && o.ses.repo == sys.repo
    ensures var r := RekeyOpened(o, sys.s, sys.slots[c].st, sys.next);
      EndsIn(sys, c, objects, r.s, AfterPublish(r, sys.slots[c]))
  {
    hide EndsIn, RekeyManifest, FinishRekey;
    var slot := sys.slots[c];
    var r := RekeyOpened(o, sys.s, slot.st, sys.next);
    var next := StepRekeyRead(sys, c);
    if next.slots[c].prog.RekeyGetBlob? {
      RekeyManifestAlone(next, c, objects, next.slots[c].prog.rekey);
    } else if next.slots[c].prog.RekeyPutKeyfile? {
      FinishAlone(next, c, objects, next.slots[c].prog.rekey, [], slot.st);
    } else {
      EndsHere(next, c, objects);
    }
    CallEnds(sys, c, objects, next, r.s, AfterPublish(r, slot));
  }

  /** A rekey alone leaves exactly the store and saved state of the whole operation. */
  lemma RekeyAlone(sys: Sys, c: nat, objects: Option<set<Object>>)
    requires c < |sys.slots| && sys.slots[c].prog.RekeyGetKeyfile?
    ensures var slot := sys.slots[c];
      var r := FullRekey(slot.id, sys.repo, slot.st, sys.s, sys.next);
      EndsIn(sys, c, objects, r.s, AfterPublish(r, slot))
  {
    hide EndsIn, RekeyOpened, LoadTrusted;
    var slot := sys.slots[c];
    var r := FullRekey(slot.id, sys.repo, slot.st, sys.s, sys.next);
    var one := StepRefresh(sys, c);
    if one.slots[c].prog.RekeyGetRoster? {
      var two := StepRekeyOpen(one, c);
      if two.slots[c].prog.RekeyGetManifest? {
        RekeyReadAlone(two, c, objects, two.slots[c].prog.o);
      } else {
        EndsHere(two, c, objects);
      }
      CallEnds(one, c, objects, two, r.s, AfterPublish(r, slot));
    } else {
      EndsHere(one, c, objects);
    }
    CallEnds(sys, c, objects, one, r.s, AfterPublish(r, slot));
  }

  // ---- push ----

  lemma {:induction false} ImportsAlone(
      sys: Sys, c: nat, objects: Option<set<Object>>, rd: Round, todo: seq<Digest>)
    requires c < |sys.slots| && sys.slots[c].prog == PushGetBlob(rd, todo)
    ensures var imp := ImportPacks(rd.job.o.ses, sys.slots[c].git, rd.imported, todo, sys.s.blobs);
      && (imp.outcome.Fail? ==> EndsIn(sys, c, objects, sys.s, Stop(sys.slots[c].(git := imp.git))))
      && (imp.outcome.Pass? ==> Leads(sys, c, objects, AfterImports(sys, c, rd, imp)))
    decreases |todo|
  {
    hide EndsIn, Leads, ImportPack, Lookup;
    var imp := ImportPacks(rd.job.o.ses, sys.slots[c].git, rd.imported, todo, sys.s.blobs);
    var one := StepPushImport(sys, c);
    OneCall(sys, c, objects);
    if todo == [] {
      assert one.slots == AfterImports(sys, c, rd, imp).slots;
    } else if one.slots[c].prog.PushGetBlob? {
      hide StepProg;
      var rd' := one.slots[c].prog.round;
      ImportsAlone(one, c, objects, rd', todo[1..]);
      if imp.outcome.Pass? {
        assert AfterImports(one, c, rd', imp).slots == AfterImports(sys, c, rd, imp).slots;
        Then(sys, c, objects, one, AfterImports(sys, c, rd, imp));
      } else {
        ThenEnds(sys, c, objects, one, sys.s, Stop(sys.slots[c].(git := imp.git)));
      }
    } else {
      EndsHere(one, c, objects);
      CallEnds(sys, c, objects, one, sys.s, Stop(sys.slots[c].(git := imp.git)));
    }
  }

  function AfterImports(sys: Sys, c: nat, rd: Round, imp: Imported): Sys
    requires c < |sys.slots|
  {
    sys.(slots := sys.slots[c := sys.slots[c].(git := imp.git, prog := PushPack(rd.(imported := imp.imported)))])
  }

  /** How a push ends when nobody disturbs it. */
  function AfterPush(r: Pushed, slot: Slot, job: Job): Slot {
    slot.(st := r.st, git := r.git, prog := if r.outcome.Pass? then PushSucceeded(job, r.st.version) else Idle)
  }

  lemma RebasedAlone(sys: Sys, c: nat, objects: Option<set<Object>>, rd: Round)
    requires c < |sys.slots| && sys.slots[c].prog == PushPack(rd) && rd.job.o.ses.repo == sys.repo
    requires sys.s.mver == rd.cur.Version()
    requires objects.Some? ==> PackContract(rd.job.wants.Values, rd.cur.Refs().Values, objects.value)
    ensures var slot := sys.slots[c];
      var r := PushRebased(
        rd.job.o, slot.st, rd.imported, slot.git, sys.s, rd.cur, rd.job.wants, objects, sys.next);
      EndsIn(sys, c, objects, r.s, AfterPush(r, slot, rd.job))
  {
    hide EndsIn, PackContract, Insert, PutBlob;
    var slot := sys.slots[c];
    var r := PushRebased(rd.job.o, slot.st, rd.imported, slot.git, sys.s, rd.cur, rd.job.wants, objects, sys.next);
    var one := StepPushPack(sys, c, objects);
    if objects.None? {
      EndsHere(one, c, objects);
    } else if objects.value == {} {
      CasAlone(one, c, objects, one.slots[c].prog.round, []);
    } else {
      var two := StepPushPut(one, c);
      CasAlone(two, c, objects, two.slots[c].prog.round, two.slots[c].prog.more);
      CallEnds(one, c, objects, two, r.s, AfterPush(r, slot, rd.job));
    }
    CallEnds(sys, c, objects, one, r.s, AfterPush(r, slot, rd.job));
  }

  lemma CasAlone(sys: Sys, c: nat, objects: Option<set<Object>>, rd: Round, more: seq<Digest>)
    requires c < |sys.slots| && sys.slots[c].prog == PushCasManifest(rd, more) && rd.job.o.ses.repo == sys.repo
    requires sys.s.mver == rd.cur.Version()
    ensures var slot, version := sys.slots[c], rd.cur.Version() + 1;
      var text := PushText(rd.job.o, rd.cur, rd.job.wants, more);
      EndsIn(sys, c, objects, sys.s.(manifest := Some(rd.job.o.ses.Seal(text, sys.next)), mver := version),
        slot.(st := slot.st.(imported := rd.imported, version := version, hash := Sha(text)),
              prog := PushSucceeded(rd.job, version)))
  {
    hide EndsIn;
    var next := StepPushCas(sys, c);
    EndsHere(next, c, objects);
    CallEnds(sys, c, objects, next, next.s, next.slots[c]);
  }

  lemma ReadAlone(sys: Sys, c: nat, objects: Option<set<Object>>, job: Job)
    requires c < |sys.slots| && sys.slots[c].prog == PushGetManifest(job, 0) && job.o.ses.repo == sys.repo
    requires var cur := LoadCurrent(job.o.ses, job.o.trusted, sys.s);
      cur.Ok? && objects.Some? ==> PackContract(job.wants.Values, cur.value.Refs().Values, objects.value)
    ensures var slot := sys.slots[c];
      var r := PushAttempt(job.o, slot.st, slot.git, sys.s, job.wants, objects, sys.next);
      EndsIn(sys, c, objects, r.s, AfterPush(r, slot, job))
  {
    hide EndsIn, Leads, PackContract, ImportPacks, PushRebased;
    var slot := sys.slots[c];
    var r := PushAttempt(job.o, slot.st, slot.git, sys.s, job.wants, objects, sys.next);
    var one := StepPushRead(sys, c);
    var cur := LoadCurrent(job.o.ses, job.o.trusted, sys.s);
    if cur.Ok? {
      var rd := one.slots[c].prog.round;
      ImportsAlone(one, c, objects, rd, cur.value.Packs());
      var imp := ImportPacks(job.o.ses, slot.git, slot.st.imported, cur.value.Packs(), sys.s.blobs);
      if imp.outcome.Pass? {
        var two := AfterImports(one, c, rd, imp);
        RebasedAlone(two, c, objects, rd.(imported := imp.imported));
        ThenEnds(one, c, objects, two, r.s, AfterPush(r, slot, job));
      }
    } else {
      EndsHere(one, c, objects);
    }
    CallEnds(sys, c, objects, one, r.s, AfterPush(r, slot, job));
  }

  /** The objects the live refs name: what git is told the receiver has. */
  function Have(s: Store): set<Object> {
    if s.mver > 0 && s.manifest.Some? && s.manifest.value.text.ManifestText?
    then s.manifest.value.text.manifest.body.refs.Values else {}
  }

  lemma HaveIsRead(o: Opened, s: Store)
    ensures var cur := LoadCurrent(o.ses, o.trusted, s);
      cur.Ok? ==> cur.value.Refs().Values == Have(s)
  {
    var none: map<string, Object> := map[];
    assert none.Values == {};
  }

  /** The client at the end of a push that nobody disturbed. */
  ghost function PushEnd(sys: Sys, slot: Slot, wants: map<string, Object>, began: nat, r: Pushed): Slot {
    match Enter(slot.id, sys.repo, slot.st, sys.s).1
    case Ok(o) => AfterPush(r, slot, Job(o, wants, began))
    case Err(_) => Stop(slot.(st := r.st))
  }

  /** A push alone: on any store and from any local files its calls leave exactly the store, saved
      state and git directory of the whole operation, and it succeeds exactly when that does. */
  lemma PushAlone(sys: Sys, c: nat, objects: Option<set<Object>>)
    requires c < |sys.slots| && sys.slots[c].prog.PushGetKeyfile?
    requires objects.Some? ==> PackContract(sys.slots[c].prog.wants.Values, Have(sys.s), objects.value)
    ensures var slot := sys.slots[c];
      var r := Push(slot.id, sys.repo, slot.st, slot.git, sys.s, slot.prog.wants, objects, sys.next);
      EndsIn(sys, c, objects, r.s, PushEnd(sys, slot, slot.prog.wants, slot.prog.began, r))
  {
    hide EndsIn, PushAttempt, PackContract, LoadTrusted;
    var slot := sys.slots[c];
    var wants, began := slot.prog.wants, slot.prog.began;
    var r := Push(slot.id, sys.repo, slot.st, slot.git, sys.s, wants, objects, sys.next);
    var end := PushEnd(sys, slot, wants, began, r);
    var one := StepRefresh(sys, c);
    if one.slots[c].prog.PushGetRoster? {
      var two := StepPushOpen(one, c);
      if two.slots[c].prog.PushGetManifest? {
        HaveIsRead(two.slots[c].prog.job.o, sys.s);
        ReadAlone(two, c, objects, two.slots[c].prog.job);
      } else {
        EndsHere(two, c, objects);
      }
      CallEnds(one, c, objects, two, r.s, end);
    } else {
      EndsHere(one, c, objects);
    }
    CallEnds(sys, c, objects, one, r.s, end);
  }
}
