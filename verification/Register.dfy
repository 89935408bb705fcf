/** The two files of a pointer as several processes use them at once: compare-and-swap holds a
    lock for its three steps (compare, write the blob, write the version), reads take no lock and
    read the two files in two steps.  Without a crash between the two writes the pair of files
    acts as one register for everyone who swaps what he read. */
module Register {
  import opened Wrappers

  type Client = nat
  /** A document; `number` is the version it states inside. */
  datatype Blob = Blob(number: nat, content: nat)

  /** What a client has read.  A manifest reader takes the version first, a roster reader the blob. */
  datatype Read =
    | Nothing
    | VersionFirst(v: nat)
    | BlobFirst(blob: Option<Blob>)
    | Pair(v: nat, blob: Option<Blob>)
    | BackwardPair(v: nat, blob: Option<Blob>)

  /** What a client asks for: the blob, from the expected version to the next one. */
  datatype Request = Request(expected: nat, next: nat, blob: Blob) {
    /** Swaps go one version up, except the genesis of a roster, which leaves version 0 at 0. */
    predicate Legal() {
      next == expected + 1 || (expected == 0 && next == 0)
    }
  }

  /** Where a client is in its compare-and-swap. */
  datatype Swap =
    | Idle
    | Locked(req: Request)
    | Compared(req: Request)
    | BlobWritten(req: Request)
    | VersionWritten(req: Request)
    | Conflict(req: Request)

  datatype Slot = Slot(read: Read, swap: Swap)

  /** The files, the lock, the clients, and the blobs committed so far: genesis at version 0, and
      then log[v - 1] at version v. */
  datatype Sys = Sys(
    version: nat, blob: Option<Blob>, holder: Option<Client>, slots: map<Client, Slot>, genesis: seq<Blob>,
    log: seq<Blob>)

  datatype Event =
    | ReadVersion(c: Client)
    | ReadBlob(c: Client)
    | Lock(c: Client, req: Request)
    | Compare(c: Client)
    | WriteBlob(c: Client)
    | WriteVersion(c: Client)
    | Unlock(c: Client)
    | Crash(c: Client)

  const FRESH := Slot(Nothing, Idle)

  function SlotOf(s: Sys, c: Client): Slot {
    if c in s.slots then s.slots[c] else FRESH
  }

  function Put(s: Sys, c: Client, slot: Slot): Sys {
    s.(slots := s.slots[c := slot])
  }

  function ReadVersionStep(s: Sys, c: Client): Option<Sys> {
    var slot := SlotOf(s, c);
    if !slot.swap.Idle? then None
    else match slot.read
    case BlobFirst(b) => Some(Put(s, c, slot.(read := BackwardPair(if b.None? then 0 else s.version, b))))
    case _ => Some(Put(s, c, slot.(read := VersionFirst(s.version))))
  }

  function ReadBlobStep(s: Sys, c: Client): Option<Sys> {
    var slot := SlotOf(s, c);
    if !slot.swap.Idle? then None
    else match slot.read
    case VersionFirst(v) => Some(Put(s, c, slot.(read := Pair(v, if v == 0 then None else s.blob))))
    case _ => Some(Put(s, c, slot.(read := BlobFirst(s.blob))))
  }

  function LockStep(s: Sys, c: Client, req: Request): Option<Sys> {
    var slot := SlotOf(s, c);
    if s.holder.Some? || !slot.swap.Idle? || !req.Legal() then None
    else Some(Put(s, c, slot.(swap := Locked(req))).(holder := Some(c)))
  }

  function CompareStep(s: Sys, c: Client): Option<Sys> {
    var slot := SlotOf(s, c);
    match slot.swap
    case Locked(req) =>
      var compared := if s.version == req.expected then Compared(req) else Conflict(req);
      Some(Put(s, c, slot.(swap := compared)))
    case _ => None
  }

  function WriteBlobStep(s: Sys, c: Client): Option<Sys> {
    var slot := SlotOf(s, c);
    match slot.swap
    case Compared(req) => Some(Put(s, c, slot.(swap := BlobWritten(req))).(blob := Some(req.blob)))
    case _ => None
  }

  function WriteVersionStep(s: Sys, c: Client): Option<Sys> {
    var slot := SlotOf(s, c);
    match slot.swap
    case BlobWritten(req) =>
      var t := Put(s, c, slot.(swap := VersionWritten(req))).(version := req.next);
      Some(if req.next == 0 then t.(genesis := s.genesis + [req.blob]) else t.(log := s.log + [req.blob]))
    case _ => None
  }

  function UnlockStep(s: Sys, c: Client): Option<Sys> {
    var slot := SlotOf(s, c);
    match slot.swap
    case VersionWritten(_) => Some(Put(s, c, slot.(swap := Idle)).(holder := None))
    case Conflict(_) => Some(Put(s, c, slot.(swap := Idle)).(holder := None))
    case _ => None
  }

  /** The operating system releases the lock of a process that dies. */
  function CrashStep(s: Sys, c: Client): Option<Sys> {
    Some(Put(s, c, FRESH).(holder := if s.holder == Some(c) then None else s.holder))
  }

  function Step(s: Sys, e: Event): Option<Sys> {
    match e
    case ReadVersion(c) => ReadVersionStep(s, c)
    case ReadBlob(c) => ReadBlobStep(s, c)
    case Lock(c, req) => LockStep(s, c, req)
    case Compare(c) => CompareStep(s, c)
    case WriteBlob(c) => WriteBlobStep(s, c)
    case WriteVersion(c) => WriteVersionStep(s, c)
    case Unlock(c) => UnlockStep(s, c)
    case Crash(c) => CrashStep(s, c)
  }

  const EMPTY := Sys(0, None, None, map[], [], [])

  function RunFrom(s: Sys, es: seq<Event>): Option<Sys> {
    if es == [] then Some(s)
    else match RunFrom(s, es[..|es| - 1])
      case None => None
      case Some(t) => Step(t, es[|es| - 1])
  }

  function Run(es: seq<Event>): Option<Sys> {
    RunFrom(EMPTY, es)
  }

  /** No process dies between the two writes. */
  predicate NoTornCrash(es: seq<Event>) {
    forall i | 0 <= i < |es| ::
      es[i].Crash? ==> match Run(es[..i])
                       case None => true
                       case Some(s) => !SlotOf(s, es[i].c).swap.BlobWritten?
  }

  // ---- the register ----

  function Last(log: seq<Blob>): Option<Blob> {
    if log == [] then None else Some(log[|log| - 1])
  }

  /** The blob committed last. */
  function Live(s: Sys): Option<Blob> {
    if s.log != [] then Last(s.log) else Last(s.genesis)
  }

  /** At a positive version one blob has been committed. */
  function At(log: seq<Blob>, v: nat): Option<Blob> {
    if 0 < v <= |log| then Some(log[v - 1]) else None
  }

  predicate Writing(s: Sys) {
    s.holder.Some? && SlotOf(s, s.holder.value).swap.BlobWritten?
  }

  /** The swap has passed its comparison. */
  predicate Won(swap: Swap) {
    swap.Compared? || swap.BlobWritten? || swap.VersionWritten?
  }

  predicate SwapOk(s: Sys, c: Client) {
    var swap := SlotOf(s, c).swap;
    && (s.holder == Some(c) <==> !swap.Idle?)
    && (!swap.Idle? ==> swap.req.Legal())
    && (swap.Compared? || swap.BlobWritten? ==> swap.req.expected == |s.log|)
    && (swap.BlobWritten? ==> s.blob == Some(swap.req.blob))
    && (swap.VersionWritten? ==> |s.log| == swap.req.next && Live(s) == Some(swap.req.blob))
    && (swap.VersionWritten? && swap.req.next == 0 ==> s.genesis != [])
  }

  /** The client's read is good enough for its own swap. */
  predicate WonOnCommitted(s: Sys, c: Client) {
    var slot := SlotOf(s, c);
    && (Won(slot.swap) && slot.read.Pair? && slot.read.v == slot.swap.req.expected ==>
          slot.read.blob == At(s.log, slot.read.v))
    && (Won(slot.swap) && slot.read.BlobFirst? && slot.read.blob.Some? ==> Done(s, slot.read.blob.value))
    && (Won(slot.swap) && slot.read.BackwardPair? && slot.read.blob.Some? ==> Done(s, slot.read.blob.value))
  }

  /** A pair read while version v lasts is the committed one, or a writer is about to end version v. */
  predicate ReadOk(s: Sys, c: Client) {
    match SlotOf(s, c).read
    case VersionFirst(v) => v <= |s.log|
    case Pair(v, b) => v <= |s.log| && (b == At(s.log, v) || (0 < v && (v < |s.log| || Writing(s))))
    case BlobFirst(b) => Committed(s, b)
    case BackwardPair(v, b) => Committed(s, b)
    case Nothing => true
  }

  predicate Done(s: Sys, b: Blob) {
    b in s.genesis || b in s.log
  }

  /** The blob has been committed, or is about to be. */
  predicate Committed(s: Sys, b: Option<Blob>) {
    b.None? || Done(s, b.value) || (Writing(s) && b == s.blob)
  }

  predicate ClientOk(s: Sys, c: Client) {
    SwapOk(s, c) && ReadOk(s, c) && WonOnCommitted(s, c)
  }

  ghost predicate Inv(s: Sys) {
    && s.version == |s.log|
    && (s.blob == Live(s) || Writing(s))
    && forall c: Client :: ClientOk(s, c)
  }

  lemma ReadKeeps(s: Sys, c: Client, r: Read)
    requires Inv(s) && SlotOf(s, c).swap.Idle?
    ensures var t := Put(s, c, SlotOf(s, c).(read := r));
            && Writing(t) == Writing(s)
            && SwapOk(t, c) && WonOnCommitted(t, c)
            && forall d: Client | d != c :: ClientOk(t, d)
  {
    var t := Put(s, c, SlotOf(s, c).(read := r));
    assert ClientOk(s, c);
    forall d: Client | d != c
      ensures ClientOk(t, d)
    {
      assert ClientOk(s, d);
    }
  }

  lemma ReadVersionInv(s: Sys, c: Client)
    requires Inv(s) && ReadVersionStep(s, c).Some?
    ensures Inv(ReadVersionStep(s, c).value)
  {
    var t := ReadVersionStep(s, c).value;
    ReadKeeps(s, c, SlotOf(t, c).read);
    assert ClientOk(s, c);
    assert ReadOk(t, c);
    hide SwapOk, ReadOk, WonOnCommitted;
    assert forall d: Client :: ClientOk(t, d);
  }

  lemma ReadBlobInv(s: Sys, c: Client)
    requires Inv(s) && ReadBlobStep(s, c).Some?
    ensures Inv(ReadBlobStep(s, c).value)
  {
    var t := ReadBlobStep(s, c).value;
    ReadKeeps(s, c, SlotOf(t, c).read);
    assert ClientOk(s, c);
    assert ReadOk(t, c);
    hide SwapOk, ReadOk, WonOnCommitted;
    assert forall d: Client :: ClientOk(t, d);
  }

  lemma LockInv(s: Sys, c: Client, req: Request)
    requires Inv(s) && LockStep(s, c, req).Some?
    ensures Inv(LockStep(s, c, req).value)
  {
    var t := LockStep(s, c, req).value;
    assert ClientOk(s, c);
    forall d: Client
      ensures ClientOk(t, d)
    {
      assert ClientOk(s, d);
    }
  }

  lemma CompareInv(s: Sys, c: Client)
    requires Inv(s) && CompareStep(s, c).Some?
    ensures Inv(CompareStep(s, c).value)
  {
    var t := CompareStep(s, c).value;
    assert ClientOk(s, c);
    forall d: Client
      ensures ClientOk(t, d)
    {
      assert ClientOk(s, d);
    }
  }

  lemma WriteBlobInv(s: Sys, c: Client)
    requires Inv(s) && WriteBlobStep(s, c).Some?
    ensures Inv(WriteBlobStep(s, c).value)
  {
    var t := WriteBlobStep(s, c).value;
    assert ClientOk(s, c);
    forall d: Client
      ensures ClientOk(t, d)
    {
      assert ClientOk(s, d);
    }
  }

  lemma WriteVersionInv(s: Sys, c: Client)
    requires Inv(s) && WriteVersionStep(s, c).Some?
    ensures Inv(WriteVersionStep(s, c).value)
  {
    var t := WriteVersionStep(s, c).value;
    assert ClientOk(s, c);
    forall d: Client
      ensures ClientOk(t, d)
    {
      assert ClientOk(s, d);
    }
  }

  lemma UnlockInv(s: Sys, c: Client)
    requires Inv(s) && UnlockStep(s, c).Some?
    ensures Inv(UnlockStep(s, c).value)
  {
    var t := UnlockStep(s, c).value;
    assert ClientOk(s, c);
    forall d: Client
      ensures ClientOk(t, d)
    {
      assert ClientOk(s, d);
    }
  }

  lemma CrashInv(s: Sys, c: Client)
    requires Inv(s) && CrashStep(s, c).Some? && !SlotOf(s, c).swap.BlobWritten?
    ensures Inv(CrashStep(s, c).value)
  {
    var t := CrashStep(s, c).value;
    assert ClientOk(s, c);
    forall d: Client
      ensures ClientOk(t, d)
    {
      assert ClientOk(s, d);
    }
  }

  lemma StepInv(s: Sys, e: Event)
    requires Inv(s) && Step(s, e).Some?
    requires e.Crash? ==> !SlotOf(s, e.c).swap.BlobWritten?
    ensures Inv(Step(s, e).value)
  {
    hide Inv;
    match e
    case ReadVersion(c) => ReadVersionInv(s, c);
    case ReadBlob(c) => ReadBlobInv(s, c);
    case Lock(c, req) => LockInv(s, c, req);
    case Compare(c) => CompareInv(s, c);
    case WriteBlob(c) => WriteBlobInv(s, c);
    case WriteVersion(c) => WriteVersionInv(s, c);
    case Unlock(c) => UnlockInv(s, c);
    case Crash(c) => CrashInv(s, c);
  }

  lemma {:induction false} RunInv(es: seq<Event>)
    requires NoTornCrash(es) && Run(es).Some?
    ensures Inv(Run(es).value)
  {
    if es != [] {
      var n := |es| - 1;
      Shorter(es, n);
      RunInv(es[..n]);
      StepInv(Run(es[..n]).value, es[n]);
    } else {
      EmptyInv();
    }
  }

  lemma EmptyInv()
    ensures Inv(EMPTY)
  {
  }

  lemma Shorter(es: seq<Event>, n: nat)
    requires NoTornCrash(es) && n <= |es|
    ensures NoTornCrash(es[..n])
  {
    forall i | 0 <= i < n
      ensures es[..n][..i] == es[..i]
    {
    }
  }

  // ---- the pair of files is one register ----

  /** The register (version, blob) changes only by a swap that names its current version, and then
      to the next version and the swapped-in blob; a swap is refused only if it names another. */
  lemma StepIsRegister(s: Sys, e: Event)
    requires Inv(s) && Step(s, e).Some?
    ensures var t := Step(s, e).value;
            if e.WriteVersion? then
              var swap := SlotOf(s, e.c).swap;
              && swap.BlobWritten? && swap.req.expected == |s.log| == s.version && swap.req.Legal()
              && Live(t) == Some(swap.req.blob) && t.version == swap.req.next == |t.log|
              && (if swap.req.next == 0 then t.log == s.log && t.genesis == s.genesis + [swap.req.blob]
                  else t.log == s.log + [swap.req.blob] && t.genesis == s.genesis)
            else t.log == s.log && t.genesis == s.genesis && t.version == s.version
    ensures e.Compare? ==>
              (SlotOf(Step(s, e).value, e.c).swap.Conflict? <==> SlotOf(s, e.c).swap.req.expected != |s.log|)
  {
    assert ClientOk(s, e.c);
  }

  /** Manifest readers: in a run without a torn crash, a client whose swap from version e succeeded
      after it read (e, b) in two steps had read the blob committed at e, and its own blob followed
      directly, whatever other clients did in between. */
  lemma SwapWonOnWhatWasRead(es: seq<Event>, c: Client)
    requires NoTornCrash(es) && Run(es).Some? && SlotOf(Run(es).value, c).swap.VersionWritten?
    ensures var s, slot := Run(es).value, SlotOf(Run(es).value, c);
            && |s.log| == slot.swap.req.next && Live(s) == Some(slot.swap.req.blob)
            && (slot.read.Pair? && slot.read.v == slot.swap.req.expected ==> slot.read.blob == At(s.log, slot.read.v))
  {
    RunInv(es);
    assert ClientOk(Run(es).value, c);
  }

  /** Writers publish documents that state the version they are published at. */
  predicate Numbered(es: seq<Event>) {
    forall i | 0 <= i < |es| :: es[i].Lock? ==> es[i].req.blob.number == es[i].req.next
  }

  predicate SwapNumbered(swap: Swap) {
    !swap.Idle? ==> swap.req.blob.number == swap.req.next
  }

  predicate CommitsNumbered(s: Sys) {
    && (forall k | 0 <= k < |s.log| :: s.log[k].number == k + 1)
    && (forall b | b in s.genesis :: b.number == 0)
  }

  lemma {:induction false} LogNumbered(es: seq<Event>)
    requires NoTornCrash(es) && Numbered(es) && Run(es).Some?
    ensures CommitsNumbered(Run(es).value)
    ensures forall c: Client :: SwapNumbered(SlotOf(Run(es).value, c).swap)
  {
    if es != [] {
      var n := |es| - 1;
      Shorter(es, n);
      LogNumbered(es[..n]);
      RunInv(es[..n]);
      StepNumbered(Run(es[..n]).value, es[n]);
    }
  }

  lemma StepNumbered(s: Sys, e: Event)
    requires Inv(s) && Step(s, e).Some? && (e.Lock? ==> e.req.blob.number == e.req.next)
    requires CommitsNumbered(s)
    requires forall c: Client :: SwapNumbered(SlotOf(s, c).swap)
    ensures CommitsNumbered(Step(s, e).value)
    ensures forall c: Client :: SwapNumbered(SlotOf(Step(s, e).value, c).swap)
  {
    var t := Step(s, e).value;
    assert ClientOk(s, e.c) && SwapNumbered(SlotOf(s, e.c).swap);
    forall c: Client
      ensures SwapNumbered(SlotOf(t, c).swap)
    {
      assert SwapNumbered(SlotOf(s, c).swap);
    }
  }

  /** The blob that a successful swap one version up has replaced. */
  function Replaced(s: Sys, req: Request): Option<Blob> {
    if req.expected == 0 then Last(s.genesis) else At(s.log, req.expected)
  }

  /** Roster readers take the blob first and swap from the version the document states: the swap
      has replaced that very document, or it was one genesis and another one was replaced. */
  lemma RosterSwapWon(es: seq<Event>, c: Client, b: Blob)
    requires NoTornCrash(es) && Numbered(es) && Run(es).Some? && SlotOf(Run(es).value, c).swap.VersionWritten?
    requires var read := SlotOf(Run(es).value, c).read;
             read == BlobFirst(Some(b)) || (read.BackwardPair? && read.blob == Some(b))
    requires var req := SlotOf(Run(es).value, c).swap.req;
             b.number == req.expected && req.next == req.expected + 1
    ensures var s := Run(es).value;
            var replaced := Replaced(s, SlotOf(s, c).swap.req);
            && replaced.Some? && replaced.value.number == b.number
            && (b.number > 0 ==> replaced == Some(b))
            && (b.number == 0 ==> b in s.genesis && replaced.value in s.genesis)
            && (|s.genesis| <= 1 ==> replaced == Some(b))
  {
    RunInv(es);
    LogNumbered(es);
    assert ClientOk(Run(es).value, c);
  }

  // ---- what does not hold ----

  /** What a client does to replace the manifest it has read. */
  function ReadAndSwap(d: Client, e: nat, blob: Blob): seq<Event> {
    [ReadVersion(d), ReadBlob(d), Lock(d, Request(e, e + 1, blob)), Compare(d), WriteBlob(d), WriteVersion(d)]
  }

  /** Every crash between the two writes breaks it: the next client to read and swap succeeds with
      a blob that was never committed. */
  lemma TornCrashBreaks(s: Sys, c: Client, d: Client, blob: Blob)
    requires Inv(s) && SlotOf(s, c).swap.BlobWritten? && d != c && d !in s.slots
    requires s.log != [] && Some(SlotOf(s, c).swap.req.blob) != Last(s.log)
    ensures var e := |s.log|;
            var after := RunFrom(s, [Crash(c)] + ReadAndSwap(d, e, blob));
            && after.Some?
            && SlotOf(after.value, d).swap == VersionWritten(Request(e, e + 1, blob))
            && SlotOf(after.value, d).read == Pair(e, Some(SlotOf(s, c).swap.req.blob))
            && At(after.value.log, e) != Some(SlotOf(s, c).swap.req.blob)
  {
    var e := |s.log|;
    var torn := CrashStep(s, c).value;
    assert ClientOk(s, c);
    AfterTornCrash(torn, d, blob);
    assert Step(s, Crash(c)) == Some(torn);
    hide Step;
    First(s, torn, Crash(c), ReadAndSwap(d, e, blob));
  }

  /** Running one event and then others. */
  lemma {:induction false} First(s: Sys, t: Sys, e: Event, es: seq<Event>)
    requires Step(s, e) == Some(t)
    ensures RunFrom(s, [e] + es) == RunFrom(t, es)
  {
    if es == [] {
      assert ([e] + es)[..0] == [];
    } else {
      First(s, t, e, es[..|es| - 1]);
      assert ([e] + es)[..|es|] == [e] + es[..|es| - 1];
    }
  }

  lemma AfterTornCrash(s: Sys, d: Client, blob: Blob)
    requires s.holder.None? && d !in s.slots && s.blob.Some? && s.version == |s.log| > 0 && s.blob != Last(s.log)
    ensures var e := |s.log|;
            var after := RunFrom(s, ReadAndSwap(d, e, blob));
            && after.Some?
            && SlotOf(after.value, d).swap == VersionWritten(Request(e, e + 1, blob))
            && SlotOf(after.value, d).read == Pair(e, s.blob)
            && At(after.value.log, e) != s.blob
  {
    var e := |s.log|;
    var req := Request(e, e + 1, blob);
    var t1 := ReadVersionStep(s, d).value;
    var t2 := ReadBlobStep(t1, d).value;
    var rest := [Lock(d, req), Compare(d), WriteBlob(d), WriteVersion(d)];
    SwapSteps(t2, d, req);
    assert Step(s, ReadVersion(d)) == Some(t1) && Step(t1, ReadBlob(d)) == Some(t2);
    hide Step;
    First(s, t1, ReadVersion(d), [ReadBlob(d)] + rest);
    First(t1, t2, ReadBlob(d), rest);
    assert ReadAndSwap(d, e, blob) == [ReadVersion(d)] + ([ReadBlob(d)] + rest);
  }

  lemma SwapSteps(s: Sys, c: Client, req: Request)
    requires s.holder.None? && SlotOf(s, c).swap.Idle? && s.version == req.expected && req.next == req.expected + 1
    ensures var after := RunFrom(s, [Lock(c, req), Compare(c), WriteBlob(c), WriteVersion(c)]);
            && after.Some? && after.value.log == s.log + [req.blob]
            && SlotOf(after.value, c) == SlotOf(s, c).(swap := VersionWritten(req))
  {
    var t1 := LockStep(s, c, req).value;
    var t2 := CompareStep(t1, c).value;
    var t3 := WriteBlobStep(t2, c).value;
    var t4 := WriteVersionStep(t3, c).value;
    Four(s, t1, t2, t3, t4, Lock(c, req), Compare(c), WriteBlob(c), WriteVersion(c));
  }

  lemma Four(s: Sys, t1: Sys, t2: Sys, t3: Sys, t4: Sys, e1: Event, e2: Event, e3: Event, e4: Event)
    requires Step(s, e1) == Some(t1) && Step(t1, e2) == Some(t2) && Step(t2, e3) == Some(t3) && Step(t3, e4) == Some(t4)
    ensures RunFrom(s, [e1, e2, e3, e4]) == Some(t4)
  {
    hide Step;
    First(s, t1, e1, [e2, e3, e4]);
    First(t1, t2, e2, [e3, e4]);
    First(t2, t3, e3, [e4]);
    First(t3, t4, e4, []);
    assert [e1] + [e2, e3, e4] == [e1, e2, e3, e4];
    assert [e2] + [e3, e4] == [e2, e3, e4];
    assert [e3] + [e4] == [e3, e4];
  }

  /** A client's whole swap, undisturbed. */
  function Whole(c: Client, req: Request): seq<Event> {
    [Lock(c, req), Compare(c), WriteBlob(c), WriteVersion(c), Unlock(c)]
  }

  function Swapped(s: Sys, c: Client, req: Request): Sys {
    s.(version := req.next, blob := Some(req.blob), slots := s.slots[c := SlotOf(s, c)],
       genesis := if req.next == 0 then s.genesis + [req.blob] else s.genesis,
       log := if req.next == 0 then s.log else s.log + [req.blob])
  }

  lemma WholeSwap(s: Sys, c: Client, req: Request, es: seq<Event>)
    requires s.holder.None? && SlotOf(s, c).swap.Idle? && s.version == req.expected && req.Legal()
    ensures RunFrom(s, Whole(c, req) + es) == RunFrom(Swapped(s, c, req), es)
  {
    var t1 := LockStep(s, c, req).value;
    var t2 := CompareStep(t1, c).value;
    var t3 := WriteBlobStep(t2, c).value;
    var t4 := WriteVersionStep(t3, c).value;
    var t5 := UnlockStep(t4, c).value;
    assert t5.slots == s.slots[c := SlotOf(s, c)];
    assert t5 == Swapped(s, c, req);
    Five(s, t1, t2, t3, t4, t5, Lock(c, req), Compare(c), WriteBlob(c), WriteVersion(c), Unlock(c), es);
  }

  lemma Five(s: Sys, t1: Sys, t2: Sys, t3: Sys, t4: Sys, t5: Sys, e1: Event, e2: Event, e3: Event, e4: Event,
             e5: Event, es: seq<Event>)
    requires Step(s, e1) == Some(t1) && Step(t1, e2) == Some(t2) && Step(t2, e3) == Some(t3)
    requires Step(t3, e4) == Some(t4) && Step(t4, e5) == Some(t5)
    ensures RunFrom(s, [e1, e2, e3, e4, e5] + es) == RunFrom(t5, es)
  {
    hide Step;
    First(s, t1, e1, [e2, e3, e4, e5] + es);
    First(t1, t2, e2, [e3, e4, e5] + es);
    First(t2, t3, e3, [e4, e5] + es);
    First(t3, t4, e4, [e5] + es);
    First(t4, t5, e5, es);
    assert [e1] + ([e2, e3, e4, e5] + es) == [e1, e2, e3, e4, e5] + es;
    assert [e2] + ([e3, e4, e5] + es) == [e2, e3, e4, e5] + es;
    assert [e3] + ([e4, e5] + es) == [e3, e4, e5] + es;
    assert [e4] + ([e5] + es) == [e4, e5] + es;
  }

  /** The version a roster read returns would not do in place of the number in the document: when
      another swap falls between the two steps of the read, a swap from that version succeeds
      although the blob that was read is not the one committed at it. */
  lemma RosterVersionMisleads(s: Sys, c: Client, d: Client, next: Blob, last: Blob)
    requires Inv(s) && s.log != [] && s.holder.None? && c != d && c !in s.slots && d !in s.slots
    requires Last(s.log) != Some(next)
    ensures var e := |s.log|;
            var one, two := Whole(c, Request(e, e + 1, next)), Whole(d, Request(e + 1, e + 2, last));
            var after := RunFrom(s, [ReadBlob(d)] + (one + ([ReadVersion(d)] + (two + []))));
            && after.Some?
            && after.value.log == s.log + [next, last]
            && SlotOf(after.value, d).read == BackwardPair(e + 1, Last(s.log))
            && At(after.value.log, e + 1) != Last(s.log)
  {
    var e := |s.log|;
    assert s.blob == Last(s.log);
    var t := ReadBlobStep(s, d).value;
    var one, two := Request(e, e + 1, next), Request(e + 1, e + 2, last);
    var u := Swapped(t, c, one);
    var w := ReadVersionStep(u, d).value;
    var rest := Whole(d, two) + [];
    assert Step(s, ReadBlob(d)) == Some(t) && Step(u, ReadVersion(d)) == Some(w);
    WholeSwap(t, c, one, [ReadVersion(d)] + rest);
    WholeSwap(w, d, two, []);
    hide Step;
    First(s, t, ReadBlob(d), Whole(c, one) + ([ReadVersion(d)] + rest));
    First(u, w, ReadVersion(d), rest);
  }

  /** Nor does version 0 alone name a document: a repository that is initialised again while a client
      holds its genesis roster gets a second one, and the client's swap replaces that unseen. */
  lemma SecondGenesisLost(s: Sys, c: Client, d: Client, again: Blob, last: Blob)
    requires Inv(s) && s.log == [] && s.genesis != [] && s.holder.None? && c != d && c !in s.slots && d !in s.slots
    requires Last(s.genesis) != Some(again)
    ensures var one, two := Request(0, 0, again), Request(0, 1, last);
            var after := RunFrom(s, [ReadBlob(d)] + (Whole(c, one) + (Whole(d, two) + [])));
            && after.Some?
            && SlotOf(after.value, d).read == BlobFirst(Last(s.genesis))
            && after.value.log == [last] && Replaced(after.value, two) == Some(again)
            && Replaced(after.value, two) != SlotOf(after.value, d).read.blob
  {
    var t := ReadBlobStep(s, d).value;
    var one, two := Request(0, 0, again), Request(0, 1, last);
    var u := Swapped(t, c, one);
    var rest := Whole(d, two) + [];
    assert Step(s, ReadBlob(d)) == Some(t);
    WholeSwap(t, c, one, rest);
    WholeSwap(u, d, two, []);
    hide Step;
    First(s, t, ReadBlob(d), Whole(c, one) + rest);
  }
}
