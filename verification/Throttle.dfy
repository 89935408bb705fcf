/** The persistent login backoff: a table of failures per address and per username that prunes
    itself. */
module Throttle {
  import opened Backoff

  // ---- the table ----

  datatype Key = Ip(ip: string) | User(user: string)

  datatype Row = Row(fails: nat, until: int, updated: int)

  type Rows = map<Key, Row>

  /** Durations in nanoseconds, the pruning grace in seconds. */
  datatype Config = Config(base: Int64, max: Int64, grace: int) {
    /** No negative durations, and the doubling stays in range. */
    ghost predicate Sane() {
      0 <= max && Safe(base, max)
    }
  }

  function Pruned(rows: Rows, now: int, grace: int): Rows {
    map k | k in rows && rows[k].until >= now - grace :: rows[k]
  }

  function Until(rows: Rows, k: Key): int {
    if k in rows then rows[k].until else 0
  }

  function BlockedUntil(rows: Rows, ip: string, user: string): int {
    var a, b := Until(rows, Ip(ip)), Until(rows, User(user));
    var m := if b > a then b else a;
    if m > 0 then m else 0
  }

  function Count(rows: Rows, k: Key): nat {
    if k in rows then rows[k].fails else 0
  }

  function Bumped(rows: Rows, now: int, k: Key, cfg: Config): Rows {
    var n := Count(rows, k) + 1;
    rows[k := Row(n, now + Seconds(n, cfg.base, cfg.max), now)]
  }

  function Failed(rows: Rows, now: int, ip: string, user: string, cfg: Config): Rows {
    Bumped(Bumped(rows, now, Ip(ip), cfg), now, User(user), cfg)
  }

  function Cleared(rows: Rows, ip: string, user: string): Rows {
    rows - {Ip(ip), User(user)}
  }

  /** What became of a request that no window holds back: no slot for the password hash, a
      failed check, an error that is no failed check, or success. */
  datatype Verdict = Saturated | Rejected | Broken | Accepted

  datatype Request = Request(now: int, ip: string, user: string, verdict: Verdict)

  predicate Open(rows: Rows, r: Request, cfg: Config) {
    BlockedUntil(Pruned(rows, r.now, cfg.grace), r.ip, r.user) <= r.now
  }

  /** The table after one login request. */
  function Attempt(rows: Rows, r: Request, cfg: Config): Rows {
    var pruned := Pruned(rows, r.now, cfg.grace);
    if !Open(rows, r, cfg) then pruned
    else match r.verdict
      case Rejected => Failed(pruned, r.now, r.ip, r.user, cfg)
      case Accepted => Cleared(pruned, r.ip, r.user)
      case _ => pruned
  }

  // ---- what the table decides and keeps ----

  /** Pruning opens no window: a request is let through exactly if neither the window of its address
      nor that of its username is still running. */
  lemma OpenExactly(rows: Rows, r: Request, cfg: Config)
    requires r.now >= 0 && cfg.grace >= 0
    ensures Open(rows, r, cfg)
       <==> && (Ip(r.ip) in rows ==> rows[Ip(r.ip)].until <= r.now)
            && (User(r.user) in rows ==> rows[User(r.user)].until <= r.now)
  {
  }

  /** Of a request that is let through a failed check counts one more failure on its address and on
      its username, each with the window of its own new count from now on; a success forgets both;
      nothing else touches a row that the grace time keeps. */
  lemma AttemptExactly(rows: Rows, r: Request, cfg: Config, k: Key)
    ensures var t, pruned := Attempt(rows, r, cfg), Pruned(rows, r.now, cfg.grace);
      && (k in pruned <==> k in rows && r.now <= rows[k].until + cfg.grace)
      && (k in pruned ==> pruned[k] == rows[k])
      && (Open(rows, r, cfg) && r.verdict.Rejected? && (k == Ip(r.ip) || k == User(r.user)) ==>
            && k in t && t[k].fails == (if k in pruned then rows[k].fails else 0) + 1
            && t[k].until == r.now + Seconds(t[k].fails, cfg.base, cfg.max) && t[k].updated == r.now)
      && (Open(rows, r, cfg) && r.verdict.Accepted? && (k == Ip(r.ip) || k == User(r.user)) ==> k !in t)
      && ((k != Ip(r.ip) && k != User(r.user)) || !Open(rows, r, cfg) || r.verdict.Saturated? || r.verdict.Broken? ==>
            (k in t <==> k in pruned) && (k in t ==> t[k] == rows[k]))
  {
    hide Seconds, Open;
  }

  class Table {
    var rows: Rows

    constructor ()
      ensures rows == map[]
    {
      rows := map[];
    }

    method Status(now: int, ip: string, user: string, grace: int) returns (until: int)
      modifies this
      ensures rows == Pruned(old(rows), now, grace)
      ensures until == BlockedUntil(rows, ip, user)
    {
      rows := Pruned(rows, now, grace);
      until := 0;
      if Ip(ip) in rows && rows[Ip(ip)].until > until {
        until := rows[Ip(ip)].until;
      }
      if User(user) in rows && rows[User(user)].until > until {
        until := rows[User(user)].until;
      }
    }

    method Fail(now: int, ip: string, user: string, cfg: Config)
      requires Count(rows, Ip(ip)) < INT64_MAX && Count(rows, User(user)) < INT64_MAX
      modifies this
      ensures rows == Failed(old(rows), now, ip, user, cfg)
    {
      Bump(now, Ip(ip), cfg);
      Bump(now, User(user), cfg);
    }

    method Bump(now: int, k: Key, cfg: Config)
      requires Count(rows, k) < INT64_MAX
      modifies this
      ensures rows == Bumped(old(rows), now, k, cfg)
    {
      var fails := 0;
      if k in rows {
        fails := rows[k].fails;
      }
      fails := fails + 1;
      var window := BackoffSeconds(fails, cfg.base, cfg.max);
      rows := rows[k := Row(fails, now + window, now)];
    }

    method Reset(ip: string, user: string)
      modifies this
      ensures rows == Cleared(old(rows), ip, user)
    {
      rows := rows - {Ip(ip), User(user)};
    }
  }
}
