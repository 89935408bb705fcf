/** Any number of clients run Push, AddMember, RemoveMember and FullRekey on one honest store,
    interleaved at every store call; any of them may stop at any call. */
module Interleaving {
  import opened Wrappers
  import opened Documents
  import opened Protocol

  /** maxPushRetries. */
  const MAX_ATTEMPTS := 16

  /** A push past its preamble; `began` is how many manifests had been committed when it began. */
  datatype Job = Job(o: Opened, wants: map<string, Object>, began: nat)

  /** One round of its retry loop: what it has read, and the packs imported by then, which are
      recorded when the round ends and not before. */
  datatype Round = Round(job: Job, attempt: nat, cur: Current, imported: seq<Digest>)

  /** A membership change past its checks. */
  datatype Change = Change(o: Opened, members: set<Member>, gen: nat, key: Key) {
    function Body(): RosterBody {
      RosterSuccessor(o, members, gen)
    }
  }

  /** A full rekey past its checks, with the live manifest it read. */
  datatype Rekey = Rekey(o: Opened, key: Key, cur: Current) {
    function Body(): RosterBody {
      RosterSuccessor(o, o.trusted.body.members, o.trusted.body.gen + 1)
    }
  }

  /** Where an operation is: each constructor but the last three is about to make the store call
      it is named after (PushPack calls git instead). */
  datatype Prog =
    | PushGetKeyfile(wants: map<string, Object>, began: nat)
    | PushGetRoster(wants: map<string, Object>, began: nat, ses: Session)
    | PushGetManifest(job: Job, attempt: nat)
    | PushGetBlob(round: Round, todo: seq<Digest>)
    | PushPack(round: Round)
    | PushPutBlob(round: Round, pack: Cipher)
    | PushCasManifest(round: Round, more: seq<Digest>)
    | AddGetKeyfile(member: Member, fingerprint: Option<Identity>)
    | AddGetRoster(member: Member, fingerprint: Option<Identity>, ses: Session)
    | RemoveGetKeyfile(target: Identity)
    | RemoveGetRoster(target: Identity, ses: Session)
    | ChangeCasRoster(change: Change)
    | ChangePutKeyfile(change: Change)
    | ChangeGetManifest(change: Change)
    | ChangeCasManifest(change: Change, cur: Current)
    | RekeyGetKeyfile
    | RekeyGetRoster(ses: Session)
    | RekeyGetManifest(o: Opened)
    | RekeyGetBlob(rekey: Rekey, done: seq<Digest>)
    | RekeyPutBlob(rekey: Rekey, done: seq<Digest>, pack: Cipher)
    | RekeyCasManifest(rekey: Rekey, done: seq<Digest>)
    | RekeyPutKeyfile(rekey: Rekey, stale: seq<Digest>, saving: State)
    | RekeyCasRoster(rekey: Rekey, stale: seq<Digest>, saving: State)
    | RekeyDeleteBlob(rekey: Rekey, stale: seq<Digest>, saving: State)
    | Idle
    | PushSucceeded(job: Job, version: nat)
    | PushGaveUp(began: nat)

  /** One client: who it is, its local files, and its running operation. */
  datatype Slot = Slot(id: Identity, st: State, git: Git, prog: Prog)

  datatype Kind = PushKind(wants: map<string, Object>) | ReissueKind | RekeyKind

  /** A committed manifest: which client committed it, by which operation, and its text. */
  datatype Commit = Commit(client: nat, kind: Kind, text: Text)

  /** The store, the next random draw, the clients; and as history variables the manifests
      committed so far and the ids of packs a rekey has replaced. */
  datatype Sys = Sys(repo: RepoId, s: Store, next: nat, slots: seq<Slot>, log: seq<Commit>, retired: set<Digest>)

  /** What a scheduler can do with a client: start an operation in it, let it make its next call
      (git's answer to a push is given), kill it, or change its local files, as a fetch does
      (how its last operation ended is then forgotten). */
  datatype Event =
    | Begin(prog: Prog)
    | Proceed(objects: Option<set<Object>>)
    | Crash
    | Local(st: State, git: Git)

  function Stop(slot: Slot): Slot {
    slot.(prog := Idle)
  }

  /** The client is now `slot`. */
  function Quiet(sys: Sys, c: nat, slot: Slot): Sys
    requires c < |sys.slots|
  {
    sys.(slots := sys.slots[c := slot])
  }

  /** ... and it has drawn one random number. */
  function Draw(sys: Sys, c: nat, slot: Slot): Sys
    requires c < |sys.slots|
  {
    Quiet(sys, c, slot).(next := sys.next + 1)
  }

  function LivePacks(sys: Sys): seq<Digest> {
    if sys.log != [] && sys.log[|sys.log| - 1].text.ManifestText?
    then sys.log[|sys.log| - 1].text.manifest.body.packs else []
  }

  /** CASManifest of `text` over version `expected`; on success the client becomes `won`, on a
      conflict `lost`. */
  function TryCommit(sys: Sys, c: nat, expected: nat, key: Key, text: Text, kind: Kind, won: Slot, lost: Slot): Sys
    requires c < |sys.slots| && text.ManifestText?
  {
    match CasManifest(sys.s, expected, Cipher(key, sys.repo, sys.next, text), expected + 1)
    case Err(_) => Draw(sys, c, lost)
    case Ok(s) =>
      Draw(sys, c, won).(
        s := s, log := sys.log + [Commit(c, kind, text)],
        retired := sys.retired + set id | id in LivePacks(sys) && id !in text.manifest.body.packs)
  }

  // ---- push ----

  function Opening(sys: Sys, slot: Slot, ses: Session): (State, Result<Opened, Error>) {
    match LoadTrusted(ses, slot.st, sys.s.roster)
    case Err(e) => (slot.st, Err(e))
    case Ok(t) =>
      (t.st, if GenerationMatches(ses, t.roster) then Ok(Opened(ses, t.roster, t.hash)) else Err(BadGeneration))
  }

  function StepPushOpen(sys: Sys, c: nat): Sys
    requires c < |sys.slots| && sys.slots[c].prog.PushGetRoster?
  {
    var slot := sys.slots[c];
    var (st, r) := Opening(sys, slot, slot.prog.ses);
    if r.Err? || !r.value.trusted.body.Has(slot.id) || slot.prog.wants == map[] then
      Quiet(sys, c, Stop(slot.(st := st)))
    else Quiet(sys, c, slot.(st := st, prog := PushGetManifest(Job(r.value, slot.prog.wants, slot.prog.began), 0)))
  }

  function StepPushRead(sys: Sys, c: nat): Sys
    requires c < |sys.slots| && sys.slots[c].prog.PushGetManifest?
  {
    var slot := sys.slots[c];
    var p := slot.prog;
    match LoadCurrent(p.job.o.ses, p.job.o.trusted, sys.s)
    case Err(_) => Quiet(sys, c, Stop(slot))
    case Ok(cur) => Quiet(sys, c, slot.(prog :=
      PushGetBlob(Round(p.job, p.attempt, cur, slot.st.imported), cur.Packs())))
  }

  function StepPushImport(sys: Sys, c: nat): Sys
    requires c < |sys.slots| && sys.slots[c].prog.PushGetBlob?
  {
    var slot := sys.slots[c];
    var rd, todo := slot.prog.round, slot.prog.todo;
    if todo == [] then Quiet(sys, c, slot.(prog := PushPack(rd)))
    else if todo[0] in rd.imported then Quiet(sys, c, slot.(prog := PushGetBlob(rd, todo[1..])))
    else
      match ImportPack(rd.job.o.ses, slot.git, todo[0], Lookup(sys.s.blobs, todo[0]))
      case Err(_) => Quiet(sys, c, Stop(slot))
      case Ok(git) =>
        Quiet(sys, c, slot.(git := git, prog := PushGetBlob(rd.(imported := Insert(rd.imported, todo[0])), todo[1..])))
  }

  ghost function StepPushPack(sys: Sys, c: nat, objects: Option<set<Object>>): Sys
    requires c < |sys.slots| && sys.slots[c].prog.PushPack?
  {
    var slot := sys.slots[c];
    var rd := slot.prog.round;
    if objects.None? || !PackContract(rd.job.wants.Values, rd.cur.Refs().Values, objects.value) then
      Quiet(sys, c, Stop(slot))
    else if objects.value == {} then Draw(sys, c, slot.(prog := PushCasManifest(rd, [])))
    else Draw(sys, c, slot.(prog := PushPutBlob(rd, rd.job.o.ses.Seal(PackText(objects.value), sys.next))))
  }

  function StepPushPut(sys: Sys, c: nat): Sys
    requires c < |sys.slots| && sys.slots[c].prog.PushPutBlob?
  {
    var slot := sys.slots[c];
    var rd, pack := slot.prog.round, slot.prog.pack;
    var id := ShaBlob(pack);
    Quiet(sys, c, slot.(prog := PushCasManifest(rd.(imported := Insert(rd.imported, id)), [id])))
      .(s := sys.s.(blobs := PutBlob(sys.s.blobs, pack)))
  }

  function StepPushCas(sys: Sys, c: nat): Sys
    requires c < |sys.slots| && sys.slots[c].prog.PushCasManifest?
  {
    var slot := sys.slots[c];
    var rd, more := slot.prog.round, slot.prog.more;
    var version := rd.cur.Version() + 1;
    var text := PushText(rd.job.o, rd.cur, rd.job.wants, more);
    var st := slot.st.(imported := rd.imported);
    var won := slot.(st := st.(version := version, hash := Sha(text)), prog := PushSucceeded(rd.job, version));
    var lost := slot.(st := st, prog :=
      if rd.attempt + 1 < MAX_ATTEMPTS then PushGetManifest(rd.job, rd.attempt + 1) else PushGaveUp(rd.job.began));
    TryCommit(sys, c, rd.cur.Version(), rd.job.o.ses.key, text, PushKind(rd.job.wants), won, lost)
  }

  // ---- membership changes ----

  function StepAddOpen(sys: Sys, c: nat): Sys
    requires c < |sys.slots| && sys.slots[c].prog.AddGetRoster?
  {
    var slot := sys.slots[c];
    var p := slot.prog;
    var (st, r) := Opening(sys, slot, p.ses);
    if r.Err? || !r.value.trusted.body.Has(slot.id) || p.fingerprint != Some(p.member.Fingerprint())
       || r.value.trusted.body.Has(p.member.Fingerprint())
    then Quiet(sys, c, Stop(slot.(st := st)))
    else
      var o := r.value;
      Quiet(sys, c, slot.(st := st, prog :=
        ChangeCasRoster(Change(o, o.trusted.body.members + {p.member}, o.trusted.body.gen, o.ses.key))))
  }

  function StepRemoveOpen(sys: Sys, c: nat): Sys
    requires c < |sys.slots| && sys.slots[c].prog.RemoveGetRoster?
  {
    var slot := sys.slots[c];
    var p := slot.prog;
    var (st, r) := Opening(sys, slot, p.ses);
    if r.Err? || !r.value.trusted.body.Has(slot.id) || p.target == slot.id || !r.value.trusted.body.Has(p.target)
       || MembersExcept(r.value.trusted.body.members, p.target) == {}
    then Quiet(sys, c, Stop(slot.(st := st)))
    else
      var o := r.value;
      Draw(sys, c, slot.(st := st, prog :=
        ChangeCasRoster(Change(o, MembersExcept(o.trusted.body.members, p.target), o.trusted.body.gen + 1, sys.next))))
  }

  function ChangeText(change: Change): Text {
    RosterText(SignRoster(change.Body(), change.o.ses.id), 0)
  }

  function StepChangeCasRoster(sys: Sys, c: nat): Sys
    requires c < |sys.slots| && sys.slots[c].prog.ChangeCasRoster?
  {
    var slot := sys.slots[c];
    var ch := slot.prog.change;
    var blob := Cipher(ch.key, sys.repo, sys.next, ChangeText(ch));
    match CasRoster(sys.s, ch.o.trusted.body.version, blob, ch.Body().version)
    case Err(_) => Quiet(sys, c, Stop(slot))
    case Ok(s) => Draw(sys, c, slot.(prog := ChangePutKeyfile(ch))).(s := s)
  }

  function StepChangePutKeyfile(sys: Sys, c: nat): Sys
    requires c < |sys.slots| && sys.slots[c].prog.ChangePutKeyfile?
  {
    var slot := sys.slots[c];
    var ch := slot.prog.change;
    if Recipients(ch.members) == {} then Quiet(sys, c, Stop(slot))
    else
      Quiet(sys, c, slot.(prog := ChangeGetManifest(ch)))
        .(s := sys.s.(keyfile := Some(Keyfile(ch.gen, ch.key, Recipients(ch.members)))))
  }

  /** The end of a change: pin the new roster and go idle. */
  function ChangeDone(slot: Slot, ch: Change): Slot {
    var st := slot.st.(keys := Insert(slot.st.keys, ch.key));
    slot.(st := PinRoster(st, ch.Body().version, ChangeText(ch)), prog := Idle)
  }

  function StepChangeRead(sys: Sys, c: nat): Sys
    requires c < |sys.slots| && sys.slots[c].prog.ChangeGetManifest?
  {
    var slot := sys.slots[c];
    var ch := slot.prog.change;
    match LoadCurrent(ch.o.ses, ch.o.trusted, sys.s)
    case Err(_) => Quiet(sys, c, Stop(slot))
    case Ok(NoManifest) => Quiet(sys, c, ChangeDone(slot, ch))
    case Ok(cur) => Quiet(sys, c, slot.(prog := ChangeCasManifest(ch, cur)))
  }

  function StepChangeCommit(sys: Sys, c: nat): Sys
    requires c < |sys.slots| && sys.slots[c].prog.ChangeCasManifest? && sys.slots[c].prog.cur.Current?
  {
    var slot := sys.slots[c];
    var ch, cur := slot.prog.change, slot.prog.cur;
    var text := Reissued(ch.o, cur, cur.Packs(), ch.Body());
    var won := ChangeDone(slot.(st := slot.st.(version := cur.seen + 1, hash := Sha(text))), ch);
    TryCommit(sys, c, cur.seen, ch.key, text, ReissueKind, won, Stop(slot))
  }

  // ---- full rekey ----

  function StepRekeyOpen(sys: Sys, c: nat): Sys
    requires c < |sys.slots| && sys.slots[c].prog.RekeyGetRoster?
  {
    var slot := sys.slots[c];
    var (st, r) := Opening(sys, slot, slot.prog.ses);
    if r.Err? || !r.value.trusted.body.Has(slot.id) then Quiet(sys, c, Stop(slot.(st := st)))
    else Quiet(sys, c, slot.(st := st, prog := RekeyGetManifest(r.value)))
  }

  function StepRekeyRead(sys: Sys, c: nat): Sys
    requires c < |sys.slots| && sys.slots[c].prog.RekeyGetManifest?
  {
    var slot := sys.slots[c];
    var o := slot.prog.o;
    match LoadCurrent(o.ses, o.trusted, sys.s)
    case Err(_) => Quiet(sys, c, Stop(slot))
    case Ok(NoManifest) => Draw(sys, c, slot.(prog := RekeyPutKeyfile(Rekey(o, sys.next, NoManifest), [], slot.st)))
    case Ok(cur) => Draw(sys, c, slot.(prog := RekeyGetBlob(Rekey(o, sys.next, cur), [])))
  }

  function StepRekeyGet(sys: Sys, c: nat): Sys
    requires c < |sys.slots| && sys.slots[c].prog.RekeyGetBlob?
  {
    var slot := sys.slots[c];
    var rk, done := slot.prog.rekey, slot.prog.done;
    if |done| >= |rk.cur.Packs()| then Quiet(sys, c, slot.(prog := RekeyCasManifest(rk, done)))
    else
      var id := rk.cur.Packs()[|done|];
      match Reseal(rk.o.ses, id, Lookup(sys.s.blobs, id), rk.key, sys.next)
      case Err(_) => Quiet(sys, c, Stop(slot))
      case Ok(pack) => Draw(sys, c, slot.(prog := RekeyPutBlob(rk, done, pack)))
  }

  function StepRekeyPut(sys: Sys, c: nat): Sys
    requires c < |sys.slots| && sys.slots[c].prog.RekeyPutBlob?
  {
    var slot := sys.slots[c];
    var p := slot.prog;
    Quiet(sys, c, slot.(prog := RekeyGetBlob(p.rekey, p.done + [ShaBlob(p.pack)])))
      .(s := sys.s.(blobs := PutBlob(sys.s.blobs, p.pack)))
  }

  function RekeyText(rk: Rekey, done: seq<Digest>): Text
    requires rk.cur.Current?
  {
    Reissued(rk.o, rk.cur, done, rk.Body())
  }

  /** The manifest pin and the new packs are recorded when the operation ends, not before. */
  function StepRekeyCommit(sys: Sys, c: nat): Sys
    requires c < |sys.slots| && sys.slots[c].prog.RekeyCasManifest? && sys.slots[c].prog.rekey.cur.Current?
  {
    var slot := sys.slots[c];
    var rk, done := slot.prog.rekey, slot.prog.done;
    var text := RekeyText(rk, done);
    var imported := InsertAll(slot.st.imported, done);
    var saving := slot.st.(imported := imported, version := rk.cur.seen + 1, hash := Sha(text));
    TryCommit(sys, c, rk.cur.seen, rk.key, text, RekeyKind,
      slot.(prog := RekeyPutKeyfile(rk, rk.cur.Packs(), saving)), Stop(slot))
  }

  function StepRekeyWrap(sys: Sys, c: nat): Sys
    requires c < |sys.slots| && sys.slots[c].prog.RekeyPutKeyfile?
  {
    var slot := sys.slots[c];
    var p := slot.prog;
    var body := p.rekey.Body();
    if Recipients(body.members) == {} then Quiet(sys, c, Stop(slot))
    else
      Quiet(sys, c, slot.(prog := RekeyCasRoster(p.rekey, p.stale, p.saving)))
        .(s := sys.s.(keyfile := Some(Keyfile(body.gen, p.rekey.key, Recipients(body.members)))))
  }

  function RekeyRosterText(rk: Rekey): Text {
    RosterText(SignRoster(rk.Body(), rk.o.ses.id), 0)
  }

  function StepRekeyCasRoster(sys: Sys, c: nat): Sys
    requires c < |sys.slots| && sys.slots[c].prog.RekeyCasRoster?
  {
    var slot := sys.slots[c];
    var p := slot.prog;
    var rk := p.rekey;
    var blob := Cipher(rk.key, sys.repo, sys.next, RekeyRosterText(rk));
    match CasRoster(sys.s, rk.o.trusted.body.version, blob, rk.Body().version)
    case Err(_) => Quiet(sys, c, Stop(slot))
    case Ok(s) => Draw(sys, c, slot.(prog := RekeyDeleteBlob(rk, p.stale, p.saving))).(s := s)
  }

  function StepRekeyDelete(sys: Sys, c: nat): Sys
    requires c < |sys.slots| && sys.slots[c].prog.RekeyDeleteBlob?
  {
    var slot := sys.slots[c];
    var p := slot.prog;
    if p.stale == [] then
      var st := p.saving.(keys := Insert(p.saving.keys, p.rekey.key));
      Quiet(sys, c, Stop(slot.(st := PinRoster(st, p.rekey.Body().version, RekeyRosterText(p.rekey)))))
    else
      Quiet(sys, c, slot.(prog := p.(stale := p.stale[1..]))).(s := sys.s.(blobs := sys.s.blobs - {p.stale[0]}))
  }

  // ---- one step ----

  /** The preamble's first call: the keyfile. */
  function StepRefresh(sys: Sys, c: nat): Sys
    requires c < |sys.slots|
  {
    var slot := sys.slots[c];
    match Refresh(slot.id, sys.repo, slot.st, sys.s.keyfile)
    case Err(_) => Quiet(sys, c, Stop(slot))
    case Ok((ses, st)) =>
      Quiet(sys, c, slot.(st := st, prog :=
        match slot.prog
        case PushGetKeyfile(wants, began) => PushGetRoster(wants, began, ses)
        case AddGetKeyfile(member, fingerprint) => AddGetRoster(member, fingerprint, ses)
        case RemoveGetKeyfile(target) => RemoveGetRoster(target, ses)
        case RekeyGetKeyfile => RekeyGetRoster(ses)
        case _ => Idle))
  }

  ghost function StepProg(sys: Sys, c: nat, objects: Option<set<Object>>): Sys
    requires c < |sys.slots|
  {
    match sys.slots[c].prog
    case PushGetKeyfile(_, _) => StepRefresh(sys, c)
    case AddGetKeyfile(_, _) => StepRefresh(sys, c)
    case RemoveGetKeyfile(_) => StepRefresh(sys, c)
    case RekeyGetKeyfile => StepRefresh(sys, c)
    case PushGetRoster(_, _, _) => StepPushOpen(sys, c)
    case PushGetManifest(_, _) => StepPushRead(sys, c)
    case PushGetBlob(_, _) => StepPushImport(sys, c)
    case PushPack(_) => StepPushPack(sys, c, objects)
    case PushPutBlob(_, _) => StepPushPut(sys, c)
    case PushCasManifest(_, _) => StepPushCas(sys, c)
    case AddGetRoster(_, _, _) => StepAddOpen(sys, c)
    case RemoveGetRoster(_, _) => StepRemoveOpen(sys, c)
    case ChangeCasRoster(_) => StepChangeCasRoster(sys, c)
    case ChangePutKeyfile(_) => StepChangePutKeyfile(sys, c)
    case ChangeGetManifest(_) => StepChangeRead(sys, c)
    case ChangeCasManifest(_, cur) => if cur.Current? then StepChangeCommit(sys, c) else sys
    case RekeyGetRoster(_) => StepRekeyOpen(sys, c)
    case RekeyGetManifest(_) => StepRekeyRead(sys, c)
    case RekeyGetBlob(_, _) => StepRekeyGet(sys, c)
    case RekeyPutBlob(_, _, _) => StepRekeyPut(sys, c)
    case RekeyCasManifest(rk, _) => if rk.cur.Current? then StepRekeyCommit(sys, c) else sys
    case RekeyPutKeyfile(_, _, _) => StepRekeyWrap(sys, c)
    case RekeyCasRoster(_, _, _) => StepRekeyCasRoster(sys, c)
    case RekeyDeleteBlob(_, _, _) => StepRekeyDelete(sys, c)
    case _ => sys
  }

  predicate IsIdle(p: Prog) {
    p.Idle? || p.PushSucceeded? || p.PushGaveUp?
  }

  predicate IsStart(p: Prog, committed: nat) {
    (p.PushGetKeyfile? && p.began == committed) || p.AddGetKeyfile? || p.RemoveGetKeyfile? || p.RekeyGetKeyfile?
  }

  ghost function Step(sys: Sys, c: nat, e: Event): Sys {
    if c >= |sys.slots| then sys
    else
      var slot := sys.slots[c];
      match e
      case Begin(p) => if IsIdle(slot.prog) && IsStart(p, |sys.log|) then Quiet(sys, c, slot.(prog := p)) else sys
      case Proceed(objects) => StepProg(sys, c, objects)
      case Crash => Quiet(sys, c, Stop(slot))
      case Local(st, git) => if IsIdle(slot.prog) then Quiet(sys, c, Stop(slot.(st := st, git := git))) else sys
  }

  /** A schedule: which client does what next. */
  ghost function Run(sys: Sys, schedule: seq<(nat, Event)>): Sys
    decreases |schedule|
  {
    if schedule == [] then sys else Run(Step(sys, schedule[0].0, schedule[0].1), schedule[1..])
  }
}
