/** The login handler: window, then hash slot, then password, then what is recorded. */
module Server {
  import opened Wrappers
  import opened Backoff
  import A = Accounts
  import T = Throttle

  datatype Response =
    | TooManyRequests(retryAfter: int)
    | Busy
    | Unauthorized
    | ServerError
    | LoggedIn(token: A.Token)

  /** What the tables say of a request that no window holds back. */
  function VerdictOn(db: A.Db, slotFree: bool, username: string, password: string, token: A.Token): T.Verdict
    requires A.UniqueNames(db)
  {
    if !slotFree then T.Saturated
    else match A.Checked(db, username, password)
      case Err(_) => T.Rejected
      case Ok(id) => if A.Issued(db, id, token, 0).Ok? then T.Accepted else T.Broken
  }

  class Handler {
    const table: T.Table
    const storage: A.Storage
    const cfg: T.Config

    constructor (cfg: T.Config)
      ensures this.cfg == cfg && fresh(table) && fresh(storage) && storage.Valid()
      ensures table.rows == map[] && storage.State() == A.EMPTY
    {
      this.cfg := cfg;
      table := new T.Table();
      storage := new A.Storage();
    }

    /** Inside a window, or without a free slot, nothing is hashed and the accounts are not looked
        at; otherwise a failed check and only a failed check is counted, a success clears both
        counts and stores the new token, and unknown, disabled and wrong look the same.  `hashed`
        says whether the password hash was computed. */
    method HandleLogin(now: int, ip: string, username: string, password: string, slotFree: bool,
                       token: A.Token, expiry: int)
      returns (response: Response, hashed: bool)
      requires storage.Valid()
      requires T.Count(table.rows, T.Ip(ip)) < INT64_MAX && T.Count(table.rows, T.User(username)) < INT64_MAX
      modifies table, storage`tokens
      ensures storage.Valid()
      ensures var verdict := VerdictOn(old(storage.State()), slotFree, username, password, token);
              var request := T.Request(now, ip, username, verdict);
              var open := T.Open(old(table.rows), request, cfg);
              && table.rows == T.Attempt(old(table.rows), request, cfg)
              && (hashed <==> open && slotFree)
              && (response.TooManyRequests? <==> !open)
              && (response.TooManyRequests? ==>
                    response.retryAfter
                      == T.BlockedUntil(T.Pruned(old(table.rows), now, cfg.grace), ip, username) - now)
              && (open ==> response == match verdict
                           case Saturated => Busy
                           case Rejected => Unauthorized
                           case Broken => ServerError
                           case Accepted => LoggedIn(token))
              && (response.LoggedIn? <==>
                    && T.BlockedUntil(T.Pruned(old(table.rows), now, cfg.grace), ip, username) <= now && slotFree
                    && A.Sha(token) !in old(storage.tokens)
                    && exists id :: A.Opens(old(storage.State()), id, username, password))
              && (response.Unauthorized? <==>
                    && T.BlockedUntil(T.Pruned(old(table.rows), now, cfg.grace), ip, username) <= now && slotFree
                    && forall id :: !A.Opens(old(storage.State()), id, username, password))
              && (response.Busy? <==>
                    T.BlockedUntil(T.Pruned(old(table.rows), now, cfg.grace), ip, username) <= now && !slotFree)
              && (response.Unauthorized? ==>
                    table.rows == T.Failed(T.Pruned(old(table.rows), now, cfg.grace), now, ip, username, cfg))
              && (response.LoggedIn? ==>
                    table.rows == T.Pruned(old(table.rows), now, cfg.grace) - {T.Ip(ip), T.User(username)})
              && (response.TooManyRequests? || response.Busy? || response.ServerError? ==>
                    table.rows == T.Pruned(old(table.rows), now, cfg.grace))
              && if response.LoggedIn? then
                   A.Issued(old(storage.State()), A.Checked(old(storage.State()), username, password).value, token,
                     expiry)
                   == Ok(storage.State())
                 else storage.State() == old(storage.State())
    {
      hide Seconds, A.UniqueNames;
      hashed := false;
      var blockedUntil := table.Status(now, ip, username, cfg.grace);
      if blockedUntil > now {
        return TooManyRequests(blockedUntil - now), false;
      }
      if !slotFree {
        return Busy, false;
      }
      hashed := true;
      var login := storage.Login(username, password, token, expiry);
      if login.Err? {
        if login.error.BadToken? {
          table.Fail(now, ip, username, cfg);
          return Unauthorized, true;
        }
        return ServerError, true;
      }
      table.Reset(ip, username);
      return LoggedIn(login.value), true;
    }
  }
}
