/** Runs of login requests: failed checks on one username, or from one address, are paced by the
    backoff windows although the table prunes itself, exactly when the grace time is long enough. */
module Pacing {
  import opened Backoff
  import opened Throttle

  function After(rows: Rows, rs: seq<Request>, cfg: Config): Rows {
    if rs == [] then rows else Attempt(After(rows, rs[..|rs| - 1], cfg), rs[|rs| - 1], cfg)
  }

  /** A failed password check on a username or from an address: when it happened, and the count it was given. */
  datatype Failure = Failure(at: int, count: nat)

  /** The request is for this username or from this address. */
  predicate Touches(r: Request, key: Key) {
    key == User(r.user) || key == Ip(r.ip)
  }

  predicate Fails(rows: Rows, r: Request, key: Key, cfg: Config) {
    Touches(r, key) && r.verdict.Rejected? && Open(rows, r, cfg)
  }

  function Failures(rows: Rows, rs: seq<Request>, key: Key, cfg: Config): seq<Failure> {
    if rs == [] then []
    else
      var before, r := rs[..|rs| - 1], rs[|rs| - 1];
      var table := After(rows, before, cfg);
      if Fails(table, r, key, cfg) then
        Failures(rows, before, key, cfg)
        + [Failure(r.now, Count(Pruned(table, r.now, cfg.grace), key) + 1)]
      else Failures(rows, before, key, cfg)
  }

  predicate Succeeds(rows: Rows, r: Request, key: Key, cfg: Config) {
    Touches(r, key) && r.verdict.Accepted? && Open(rows, r, cfg)
  }

  predicate NoSuccess(rows: Rows, rs: seq<Request>, key: Key, cfg: Config) {
    forall i | 0 <= i < |rs| :: !Succeeds(After(rows, rs[..i], cfg), rs[i], key, cfg)
  }

  predicate ClockRuns(rs: seq<Request>) {
    forall i, j | 0 <= i < j < |rs| :: rs[i].now <= rs[j].now
  }

  function B(n: int, cfg: Config): nat
    requires cfg.Sane()
  {
    Window(n, cfg.base, cfg.max)
  }

  /** The first n windows together. */
  function Windows(n: nat, cfg: Config): nat
    requires cfg.Sane()
  {
    if n == 0 then 0 else Windows(n - 1, cfg) + B(n, cfg)
  }

  /** How much the windows from the n-th on fall short of the ceiling, all together. */
  function Deficit(n: nat, cfg: Config): nat
    requires cfg.Sane() && cfg.base > 0 && n >= 1
    decreases if Scaled(cfg.base, n - 1) < cfg.max then cfg.max - Scaled(cfg.base, n - 1) else 0
  {
    if Scaled(cfg.base, n - 1) >= cfg.max then 0
    else
      DoublingGrows(cfg.base, n);
      WindowAtMost(n, cfg);
      Ceiling(cfg) - B(n, cfg) + Deficit(n + 1, cfg)
  }

  function Ceiling(cfg: Config): nat
    requires cfg.Sane()
  {
    cfg.max / SECOND
  }

  lemma DoublingGrows(base: nat, n: nat)
    requires base > 0 && n >= 1
    ensures Scaled(base, n) > Scaled(base, n - 1)
  {
  }

  lemma DivMonotone(x: nat, y: nat)
    requires x <= y
    ensures x / SECOND <= y / SECOND
  {
  }

  lemma WindowAtMost(n: int, cfg: Config)
    requires cfg.Sane()
    ensures B(n, cfg) <= Ceiling(cfg)
  {
    if n >= 1 {
      DivMonotone(Min(cfg.max, Scaled(cfg.base, n - 1)), cfg.max);
    }
  }

  lemma WindowMonotone(m: nat, n: nat, cfg: Config)
    requires cfg.Sane() && m <= n
    ensures B(m, cfg) <= B(n, cfg)
  {
    if m >= 1 {
      Grows(cfg.base, m - 1, n - 1);
      DivMonotone(Min(cfg.max, Scaled(cfg.base, m - 1)), Min(cfg.max, Scaled(cfg.base, n - 1)));
    }
  }

  /** One window more costs its own shortfall, also where the deficit has run out. */
  lemma DeficitStep(n: nat, cfg: Config)
    requires cfg.Sane() && cfg.base > 0 && n >= 1
    ensures Deficit(n, cfg) + B(n, cfg) >= Ceiling(cfg) + Deficit(n + 1, cfg)
  {
    if Scaled(cfg.base, n - 1) >= cfg.max {
      DoublingGrows(cfg.base, n);
    }
  }

  /** How far the failures lag behind the windows they should have waited for. */
  function Slack(fs: seq<Failure>, cfg: Config): int
    requires cfg.Sane() && fs != []
  {
    fs[|fs| - 1].at - fs[0].at - Windows(|fs| - 1, cfg)
  }

  /** Between requests: the row of the username or address is the one its last failure left, unless it was
      pruned, which takes the grace time; and the count is at least the number of failures, or the
      time won by waiting for a pruning makes up for all windows that are now too short. */
  predicate Pace(rows: Rows, fs: seq<Failure>, last: int, key: Key, cfg: Config)
    requires cfg.Sane() && cfg.base > 0
  {
    fs != [] ==>
      var f := fs[|fs| - 1];
      && f.count >= 1
      && (if key in rows then rows[key] == Row(f.count, f.at + B(f.count, cfg), f.at)
          else last > f.at + B(f.count, cfg) + cfg.grace)
      && Enough(fs, cfg)
  }

  predicate Enough(fs: seq<Failure>, cfg: Config)
    requires cfg.Sane() && cfg.base > 0 && fs != []
  {
    var count := fs[|fs| - 1].count;
    count >= 1 && ((count >= |fs| && Slack(fs, cfg) >= 0) || Slack(fs, cfg) >= Deficit(count, cfg))
  }

  /** The grace time makes up for all the windows that are too short after a pruning. */
  predicate Forgiving(cfg: Config)
    requires cfg.Sane() && cfg.base > 0
  {
    Deficit(1, cfg) <= cfg.grace + 1
  }

  /** The next failure comes after the window of the last one. */
  lemma NextInTime(fs: seq<Failure>, f: Failure, cfg: Config)
    requires cfg.Sane() && cfg.base > 0 && fs != [] && Enough(fs, cfg)
    requires f.count == fs[|fs| - 1].count + 1 && f.at >= fs[|fs| - 1].at + B(fs[|fs| - 1].count, cfg)
    ensures Enough(fs + [f], cfg)
  {
    var k, count := |fs|, fs[|fs| - 1].count;
    var gs := fs + [f];
    assert Windows(k, cfg) == Windows(k - 1, cfg) + B(k, cfg);
    assert Slack(gs, cfg) >= Slack(fs, cfg) + B(count, cfg) - B(k, cfg);
    if count >= k && Slack(fs, cfg) >= 0 {
      WindowMonotone(k, count, cfg);
    } else {
      DeficitStep(count, cfg);
      WindowAtMost(k, cfg);
    }
  }

  /** The next failure comes after a pruning, and counting starts again. */
  lemma NextAfterPruning(fs: seq<Failure>, f: Failure, cfg: Config)
    requires cfg.Sane() && cfg.base > 0 && Forgiving(cfg) && fs != [] && Enough(fs, cfg)
    requires f.count == 1 && f.at > fs[|fs| - 1].at + B(fs[|fs| - 1].count, cfg) + cfg.grace
    ensures Enough(fs + [f], cfg)
  {
    var k, count := |fs|, fs[|fs| - 1].count;
    assert Windows(k, cfg) == Windows(k - 1, cfg) + B(k, cfg);
    if count >= k && Slack(fs, cfg) >= 0 {
      WindowMonotone(k, count, cfg);
    } else {
      DeficitStep(count, cfg);
      WindowAtMost(k, cfg);
    }
  }

  lemma PaceStep(rows: Rows, fs: seq<Failure>, last: int, r: Request, key: Key, cfg: Config)
    requires cfg.Sane() && cfg.base > 0 && Forgiving(cfg) && Pace(rows, fs, last, key, cfg) && last <= r.now
    requires !Succeeds(rows, r, key, cfg)
    ensures var pruned := Pruned(rows, r.now, cfg.grace);
            var gs := if Fails(rows, r, key, cfg) then fs + [Failure(r.now, Count(pruned, key) + 1)] else fs;
            Pace(Attempt(rows, r, cfg), gs, r.now, key, cfg)
  {
    SafeBackoff(Count(Pruned(rows, r.now, cfg.grace), key) + 1, cfg.base, cfg.max);
    AttemptExactly(rows, r, cfg, key);
    OpenFor(rows, r, key, cfg);
    hide Window, Seconds, Deficit, Windows, Safe, Attempt, Open;
    var pruned := Pruned(rows, r.now, cfg.grace);
    if Fails(rows, r, key, cfg) {
      var f := Failure(r.now, Count(pruned, key) + 1);
      if fs == [] {
        FirstFailure(f, cfg);
      } else if key in pruned {
        NextInTime(fs, f, cfg);
      } else {
        NextAfterPruning(fs, f, cfg);
      }
    }
  }

  /** A request that is let through falls in no window of its username or its address. */
  lemma OpenFor(rows: Rows, r: Request, key: Key, cfg: Config)
    ensures Open(rows, r, cfg) && Touches(r, key) && key in Pruned(rows, r.now, cfg.grace) ==> rows[key].until <= r.now
  {
  }

  lemma FirstFailure(f: Failure, cfg: Config)
    requires cfg.Sane() && cfg.base > 0 && f.count >= 1
    ensures Enough([f], cfg)
  {
  }

  lemma {:induction false} PaceKept(rows: Rows, rs: seq<Request>, key: Key, cfg: Config)
    requires cfg.Sane() && cfg.base > 0 && Forgiving(cfg) && rs != [] && ClockRuns(rs) && NoSuccess(rows, rs, key, cfg)
    ensures Pace(After(rows, rs, cfg), Failures(rows, rs, key, cfg), rs[|rs| - 1].now, key, cfg)
  {
    hide Attempt, Fails, Succeeds, Pruned, Forgiving, Safe;
    var n := |rs| - 1;
    var before := rs[..n];
    assert rs[..n] == before;
    forall i | 0 <= i < n
      ensures before[..i] == rs[..i]
    {
    }
    if before == [] {
      PaceStep(rows, [], rs[0].now, rs[0], key, cfg);
    } else {
      PaceKept(rows, before, key, cfg);
      PaceStep(After(rows, before, cfg), Failures(rows, before, key, cfg), before[n - 1].now, rs[n], key, cfg);
    }
  }

  /** n failures take at least the first n - 1 windows. */
  predicate Paced(fs: seq<Failure>, cfg: Config)
    requires cfg.Sane()
  {
    fs != [] ==> fs[|fs| - 1].at - fs[0].at >= Windows(|fs| - 1, cfg)
  }

  /** Brute-force pacing: from any state of the table, however requests for other names and from
      other addresses fall in between and although pruning may reset the count, n failed checks on one
      username, or from one address, without a success take at least the first n - 1 windows. */
  lemma AllPaced(rows: Rows, rs: seq<Request>, key: Key, cfg: Config)
    requires cfg.Sane() && (cfg.base == 0 || Forgiving(cfg)) && ClockRuns(rs) && NoSuccess(rows, rs, key, cfg)
    ensures Paced(Failures(rows, rs, key, cfg), cfg)
  {
    hide Failures, NoSuccess, ClockRuns, After;
    if cfg.base == 0 {
      FailuresAscend(rows, rs, key, cfg);
      NoWindows(|Failures(rows, rs, key, cfg)|, cfg);
    } else if rs != [] {
      hide Paced, Slack, Deficit;
      PaceKept(rows, rs, key, cfg);
      PaceMeansPaced(After(rows, rs, cfg), Failures(rows, rs, key, cfg), rs[|rs| - 1].now, key, cfg);
    } else {
      NoFailures(rows, key, cfg);
    }
  }

  lemma NoFailures(rows: Rows, key: Key, cfg: Config)
    ensures Failures(rows, [], key, cfg) == []
  {
  }

  lemma PaceMeansPaced(rows: Rows, fs: seq<Failure>, last: int, key: Key, cfg: Config)
    requires cfg.Sane() && cfg.base > 0 && Pace(rows, fs, last, key, cfg)
    ensures Paced(fs, cfg)
  {
  }

  lemma {:induction false} NoWindows(n: nat, cfg: Config)
    requires cfg.Sane() && cfg.base == 0
    ensures Windows(n, cfg) == 0 && (n > 0 ==> Windows(n - 1, cfg) == 0)
  {
    if n > 0 {
      NoWindows(n - 1, cfg);
      ScaledZero(n - 1);
    }
  }

  lemma {:induction false} FailuresAscend(rows: Rows, rs: seq<Request>, key: Key, cfg: Config)
    requires ClockRuns(rs)
    ensures var fs := Failures(rows, rs, key, cfg);
            fs != [] ==> rs != [] && fs[0].at <= fs[|fs| - 1].at <= rs[|rs| - 1].now
  {
    hide Fails, After;
    if rs != [] {
      FailuresAscend(rows, rs[..|rs| - 1], key, cfg);
    }
  }

  // ---- and no less grace will do ----

  /** Failures as fast as the windows allow. */
  function Burst(at: int, n: nat, ip: string, user: string, cfg: Config): (rs: seq<Request>)
    requires cfg.Sane()
    ensures |rs| == n
  {
    seq(n, i requires 0 <= i => Request(at + Windows(i, cfg), ip, user, Rejected))
  }

  function BurstFailures(at: int, n: nat, cfg: Config): (fs: seq<Failure>)
    requires cfg.Sane()
    ensures |fs| == n
  {
    seq(n, i requires 0 <= i => Failure(at + Windows(i, cfg), i + 1))
  }

  /** The table after the n-th of them. */
  function BurstRows(at: int, n: nat, ip: string, user: string, cfg: Config): Rows
    requires cfg.Sane() && n >= 1
  {
    var row := Row(n, at + Windows(n, cfg), at + Windows(n - 1, cfg));
    map[Ip(ip) := row, User(user) := row]
  }

  lemma {:induction false} BurstFails(rows: Rows, at: nat, n: nat, key: Key, ip: string, user: string, cfg: Config)
    requires key == Ip(ip) || key == User(user)
    requires cfg.Sane() && cfg.grace >= 0 && Pruned(rows, at, cfg.grace) == map[]
    ensures Failures(rows, Burst(at, n, ip, user, cfg), key, cfg) == BurstFailures(at, n, cfg)
    ensures n >= 1 ==> After(rows, Burst(at, n, ip, user, cfg), cfg) == BurstRows(at, n, ip, user, cfg)
  {
    hide Attempt, Fails, Pruned, Seconds, Window, Windows, Safe;
    if n > 0 {
      BurstFails(rows, at, n - 1, key, ip, user, cfg);
      var rs := Burst(at, n, ip, user, cfg);
      assert rs[..n - 1] == Burst(at, n - 1, ip, user, cfg);
      SafeBackoff(n, cfg.base, cfg.max);
      if n == 1 {
        BurstStep(rows, at, n, key, ip, user, cfg);
      } else {
        BurstStep(BurstRows(at, n - 1, ip, user, cfg), at, n, key, ip, user, cfg);
      }
    }
  }

  lemma RejectedIsNoSuccess(rows: Rows, rs: seq<Request>, key: Key, cfg: Config)
    requires forall r | r in rs :: r.verdict.Rejected?
    ensures NoSuccess(rows, rs, key, cfg)
  {
  }

  lemma BurstStep(rows: Rows, at: nat, n: nat, key: Key, ip: string, user: string, cfg: Config)
    requires key == Ip(ip) || key == User(user)
    requires cfg.Sane() && cfg.grace >= 0 && n >= 1 && Seconds(n, cfg.base, cfg.max) == B(n, cfg)
    requires if n == 1 then Pruned(rows, at, cfg.grace) == map[] else rows == BurstRows(at, n - 1, ip, user, cfg)
    ensures var r := Request(at + Windows(n - 1, cfg), ip, user, Rejected);
            && Fails(rows, r, key, cfg)
            && Count(Pruned(rows, r.now, cfg.grace), key) == n - 1
            && Attempt(rows, r, cfg) == BurstRows(at, n, ip, user, cfg)
  {
    hide Window, Seconds;
    var r := Request(at + Windows(n - 1, cfg), ip, user, Rejected);
    var pruned := Pruned(rows, r.now, cfg.grace);
    if n > 1 {
      assert pruned == rows;
    }
    assert Open(rows, r, cfg);
  }

  lemma {:induction false} FailuresAppend(rows: Rows, rs: seq<Request>, qs: seq<Request>, key: Key, cfg: Config)
    ensures After(rows, rs + qs, cfg) == After(After(rows, rs, cfg), qs, cfg)
    ensures Failures(rows, rs + qs, key, cfg)
         == Failures(rows, rs, key, cfg) + Failures(After(rows, rs, cfg), qs, key, cfg)
    decreases |qs|
  {
    hide Attempt, Fails, Pruned;
    if qs == [] {
      assert rs + qs == rs;
    } else {
      FailuresAppend(rows, rs, qs[..|qs| - 1], key, cfg);
      assert (rs + qs)[..|rs + qs| - 1] == rs + qs[..|qs| - 1];
    }
  }

  lemma {:induction false} WindowsAscend(m: nat, n: nat, cfg: Config)
    requires cfg.Sane() && m <= n
    ensures Windows(m, cfg) <= Windows(n, cfg)
  {
    if m < n {
      WindowsAscend(m, n - 1, cfg);
    }
  }

  /** n windows at the ceiling. */
  function Ceilings(n: nat, cfg: Config): nat
    requires cfg.Sane()
  {
    if n == 0 then 0 else Ceilings(n - 1, cfg) + Ceiling(cfg)
  }

  /** The deficit written out: k windows at the ceiling against the first k, where all later ones
      are at the ceiling. */
  lemma {:induction false} DeficitAt(n: nat, cfg: Config) returns (k: nat)
    requires cfg.Sane() && cfg.base > 0 && n >= 1
    ensures k >= n - 1 && Scaled(cfg.base, k) >= cfg.max
    ensures Deficit(n, cfg) == Ceilings(k, cfg) - Ceilings(n - 1, cfg) - Windows(k, cfg) + Windows(n - 1, cfg)
    decreases if Scaled(cfg.base, n - 1) < cfg.max then cfg.max - Scaled(cfg.base, n - 1) else 0
  {
    hide Window, Safe;
    if Scaled(cfg.base, n - 1) >= cfg.max {
      k := n - 1;
    } else {
      DoublingGrows(cfg.base, n);
      k := DeficitAt(n + 1, cfg);
    }
  }

  lemma {:induction false} AtCeiling(k: nat, j: nat, cfg: Config)
    requires cfg.Sane() && Scaled(cfg.base, k) >= cfg.max
    ensures Windows(k + j, cfg) == Windows(k, cfg) + Ceilings(j, cfg)
  {
    if j > 0 {
      AtCeiling(k, j - 1, cfg);
      Grows(cfg.base, k, k + j - 1);
    }
  }

  /** Failing as fast as the windows allow, waiting for the pruning, and failing again. */
  function TwoBursts(k: nat, ip: string, user: string, cfg: Config): seq<Request>
    requires cfg.Sane()
  {
    Burst(0, k, ip, user, cfg) + Burst(Windows(k, cfg) + cfg.grace + 1, k + 1, ip, user, cfg)
  }

  lemma TwoBurstsFail(k: nat, key: Key, ip: string, user: string, cfg: Config)
    requires key == Ip(ip) || key == User(user)
    requires cfg.Sane() && cfg.grace >= 0 && k >= 1
    ensures var rs := TwoBursts(k, ip, user, cfg);
            && ClockRuns(rs) && NoSuccess(map[], rs, key, cfg)
            && Failures(map[], rs, key, cfg)
               == BurstFailures(0, k, cfg) + BurstFailures(Windows(k, cfg) + cfg.grace + 1, k + 1, cfg)
  {
    hide Windows, Window, Safe, After, Failures, ClockRuns, NoSuccess;
    var at := Windows(k, cfg) + cfg.grace + 1;
    BurstClock(k, at, ip, user, cfg);
    RejectedIsNoSuccess(map[], TwoBursts(k, ip, user, cfg), key, cfg);
    assert Pruned(map[], 0, cfg.grace) == map[];
    BurstFails(map[], 0, k, key, ip, user, cfg);
    PrunedAfterBurst(0, k, ip, user, cfg);
    BurstFails(BurstRows(0, k, ip, user, cfg), at, k + 1, key, ip, user, cfg);
    FailuresAppend(map[], Burst(0, k, ip, user, cfg), Burst(at, k + 1, ip, user, cfg), key, cfg);
  }

  lemma PrunedAfterBurst(at: int, n: nat, ip: string, user: string, cfg: Config)
    requires cfg.Sane() && n >= 1
    ensures Pruned(BurstRows(at, n, ip, user, cfg), at + Windows(n, cfg) + cfg.grace + 1, cfg.grace) == map[]
  {
    hide Windows, Safe;
    var rows, now := BurstRows(at, n, ip, user, cfg), at + Windows(n, cfg) + cfg.grace + 1;
    forall k | k in rows
      ensures k !in Pruned(rows, now, cfg.grace)
    {
      assert rows[k].until == at + Windows(n, cfg);
    }
  }

  lemma ShortOfGrace(cfg: Config) returns (k: nat)
    requires cfg.Sane() && cfg.base > 0 && cfg.grace >= 0 && Deficit(1, cfg) > cfg.grace + 1
    ensures k >= 1 && Windows(k, cfg) + cfg.grace + 1 + Windows(k, cfg) < Windows(k + k, cfg)
  {
    hide Safe, Deficit, Window;
    k := DeficitAt(1, cfg);
    assert Windows(0, cfg) == 0 && Ceilings(0, cfg) == 0;
    AtCeiling(k, k, cfg);
  }

  /** This is too fast when the grace time is too short. */
  lemma TooLittleGrace(key: Key, ip: string, user: string, cfg: Config) returns (rs: seq<Request>)
    requires key == Ip(ip) || key == User(user)
    requires cfg.Sane() && cfg.base > 0 && cfg.grace >= 0 && !Forgiving(cfg)
    ensures ClockRuns(rs) && NoSuccess(map[], rs, key, cfg)
    ensures !Paced(Failures(map[], rs, key, cfg), cfg)
  {
    assert Deficit(1, cfg) > cfg.grace + 1;
    hide *;
    var k := ShortOfGrace(cfg);
    TwoBurstsTooFast(k, key, ip, user, cfg);
    rs := TwoBursts(k, ip, user, cfg);
  }

  lemma TwoBurstsTooFast(k: nat, key: Key, ip: string, user: string, cfg: Config)
    requires key == Ip(ip) || key == User(user)
    requires cfg.Sane() && cfg.grace >= 0 && k >= 1
    requires Windows(k, cfg) + cfg.grace + 1 + Windows(k, cfg) < Windows(k + k, cfg)
    ensures var rs := TwoBursts(k, ip, user, cfg);
            ClockRuns(rs) && NoSuccess(map[], rs, key, cfg) && !Paced(Failures(map[], rs, key, cfg), cfg)
  {
    hide *;
    TwoBurstsFail(k, key, ip, user, cfg);
    var at := Windows(k, cfg) + cfg.grace + 1;
    TooFast(k, at, cfg);
  }

  lemma TooFast(k: nat, at: int, cfg: Config)
    requires cfg.Sane() && k >= 1
    requires at + Windows(k, cfg) < Windows(k + k, cfg)
    ensures !Paced(BurstFailures(0, k, cfg) + BurstFailures(at, k + 1, cfg), cfg)
  {
    var fs := BurstFailures(0, k, cfg) + BurstFailures(at, k + 1, cfg);
    assert |fs| == 2 * k + 1 && fs[0].at == Windows(0, cfg) == 0 && fs[2 * k].at == at + Windows(k, cfg);
  }

  lemma BurstClock(k: nat, at: int, ip: string, user: string, cfg: Config)
    requires cfg.Sane() && at >= Windows(k, cfg)
    ensures ClockRuns(Burst(0, k, ip, user, cfg) + Burst(at, k + 1, ip, user, cfg))
  {
    var rs := Burst(0, k, ip, user, cfg) + Burst(at, k + 1, ip, user, cfg);
    forall i, j | 0 <= i < j < |rs|
      ensures rs[i].now <= rs[j].now
    {
      if j < k {
        WindowsAscend(i, j, cfg);
      } else if i >= k {
        WindowsAscend(i - k, j - k, cfg);
      } else {
        WindowsAscend(i, k, cfg);
      }
    }
  }

  /** Pacing holds in all runs exactly when the grace time covers the deficit. */
  lemma PacingExactly(key: Key, cfg: Config)
    requires cfg.Sane() && cfg.base > 0 && cfg.grace >= 0
    ensures Forgiving(cfg)
       <==> forall rows, rs | ClockRuns(rs) && NoSuccess(rows, rs, key, cfg) ::
              Paced(Failures(rows, rs, key, cfg), cfg)
  {
    if Forgiving(cfg) {
      forall rows, rs | ClockRuns(rs) && NoSuccess(rows, rs, key, cfg)
        ensures Paced(Failures(rows, rs, key, cfg), cfg)
      {
        AllPaced(rows, rs, key, cfg);
      }
    } else {
      var rs := TooLittleGrace(key, if key.Ip? then key.ip else "", if key.User? then key.user else "", cfg);
      assert !Paced(Failures(map[], rs, key, cfg), cfg);
    }
  }

  /** The built-in configuration: one second, sixty seconds, an hour. */
  const DEFAULT := Config(SECOND, 60 * SECOND, 3600)

  lemma DefaultIsForgiving()
    ensures DEFAULT.Sane() && Forgiving(DEFAULT) && Deficit(1, DEFAULT) == 297
  {
    DefaultIsSane();
    assert Scaled(SECOND, 3) == 8 * SECOND;
    assert Scaled(SECOND, 6) == 64 * SECOND;
    assert Deficit(7, DEFAULT) == 0;
    assert Deficit(6, DEFAULT) == 28;
    assert Deficit(5, DEFAULT) == 72;
    assert Deficit(4, DEFAULT) == 124;
    assert Deficit(3, DEFAULT) == 180;
    assert Deficit(2, DEFAULT) == 238;
  }

  lemma DefaultIsSane()
    ensures DEFAULT.Sane()
  {
    forall j: nat | Scaled(SECOND, j) < 60 * SECOND
      ensures Scaled(SECOND, j) <= HALF
    {
    }
  }

  /** With it a count is forgotten an hour after the end of its window and not before. */
  lemma DefaultGrace(rows: Rows, now: int, key: Key)
    ensures key in Pruned(rows, now, DEFAULT.grace) <==> key in rows && now <= rows[key].until + 3600
  {
  }

  /** With it the windows are 1, 2, 4, 8, 16 and 32 seconds, and then a minute. */
  lemma DefaultWindows(n: Int64)
    ensures Seconds(1, DEFAULT.base, DEFAULT.max) == 1 && Seconds(2, DEFAULT.base, DEFAULT.max) == 2
    ensures Seconds(3, DEFAULT.base, DEFAULT.max) == 4 && Seconds(4, DEFAULT.base, DEFAULT.max) == 8
    ensures Seconds(5, DEFAULT.base, DEFAULT.max) == 16 && Seconds(6, DEFAULT.base, DEFAULT.max) == 32
    ensures n >= 7 ==> Seconds(n, DEFAULT.base, DEFAULT.max) == 60
    ensures n <= 0 ==> Seconds(n, DEFAULT.base, DEFAULT.max) == 0
  {
    DefaultIsSane();
    hide Seconds;
    SafeBackoff(1, DEFAULT.base, DEFAULT.max);
    SafeBackoff(2, DEFAULT.base, DEFAULT.max);
    SafeBackoff(3, DEFAULT.base, DEFAULT.max);
    SafeBackoff(4, DEFAULT.base, DEFAULT.max);
    SafeBackoff(5, DEFAULT.base, DEFAULT.max);
    SafeBackoff(6, DEFAULT.base, DEFAULT.max);
    SafeBackoff(n, DEFAULT.base, DEFAULT.max);
    assert Scaled(SECOND, 3) == 8 * SECOND;
    assert Scaled(SECOND, 6) == 64 * SECOND;
    if n >= 7 {
      Grows(SECOND, 6, n - 1);
    }
  }
}
