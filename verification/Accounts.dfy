/** The server's tables of accounts, tokens, invites and the bootstrap, as the storage operations
    change them.  Passwords and tokens stand for themselves: a stored hash is of one token, and a
    password verifies exactly if it is the stored one.  New tokens come from outside. */
module Accounts {
  import opened Wrappers

  type Token = nat

  datatype Hash = Sha(token: Token)

  datatype Role = Reader | Writer

  datatype Error = BadToken | UsedOrExpired | NotFound | LastAdmin | Conflict | Constraint

  datatype Account = Account(username: string, password: string, isAdmin: bool, disabled: bool)

  datatype Invite = Invite(repo: string, role: Role, expiry: int, used: bool)

  datatype ApiToken = ApiToken(account: nat, expiry: int)

  datatype Grant = Grant(account: nat, repo: string)

  datatype Identity = Identity(id: nat, isAdmin: bool)

  datatype Pointer = Pointer(version: nat, blob: seq<int>)

  /** The tables.  `bootstrap` says of each bootstrap token whether it has been used. */
  datatype Db = Db(
    accounts: map<nat, Account>, nextId: nat, access: map<Grant, Role>, invites: map<Hash, Invite>,
    tokens: map<Hash, ApiToken>, bootstrap: map<Hash, bool>)

  const EMPTY := Db(map[], 1, map[], map[], map[], map[])

  // ---- what each transaction does ----

  predicate HasUser(db: Db, username: string) {
    exists id | id in db.accounts :: db.accounts[id].username == username
  }

  /** The id of a username; names are unique. */
  function IdOf(db: Db, username: string): (id: nat)
    requires HasUser(db, username) && UniqueNames(db)
    ensures id in db.accounts && db.accounts[id].username == username
  {
    var id :| id in db.accounts && db.accounts[id].username == username;
    id
  }

  predicate UniqueNames(db: Db) {
    forall i, j | i in db.accounts && j in db.accounts :: db.accounts[i].username == db.accounts[j].username ==> i == j
  }

  function Admins(db: Db): set<nat> {
    set id | id in db.accounts && db.accounts[id].isAdmin
  }

  function UnusedBootstraps(db: Db): set<Hash> {
    set h | h in db.bootstrap && !db.bootstrap[h]
  }

  function InsertAccount(db: Db, username: string, password: string, isAdmin: bool): Result<Db, Error> {
    if HasUser(db, username) then Err(Constraint)
    else
      var account := Account(username, password, isAdmin, false);
      Ok(db.(accounts := db.accounts[db.nextId := account], nextId := db.nextId + 1))
  }

  function Ensured(db: Db, token: Token): Db {
    if Admins(db) != {} || UnusedBootstraps(db) != {} then db
    else db.(bootstrap := db.bootstrap[Sha(token) := false])
  }

  function Bootstrapped(db: Db, token: Token, username: string, password: string): Result<Db, Error> {
    if Sha(token) !in db.bootstrap || db.bootstrap[Sha(token)] then Err(BadToken)
    else InsertAccount(db.(bootstrap := db.bootstrap[Sha(token) := true]), username, password, true)
  }

  function Invited(db: Db, token: Token, repo: string, role: Role, expiry: int): Result<Db, Error> {
    if Sha(token) in db.invites then Err(Constraint)
    else Ok(db.(invites := db.invites[Sha(token) := Invite(repo, role, expiry, false)]))
  }

  function Redeemed(db: Db, token: Token, username: string, password: string, now: int): Result<Db, Error> {
    if Sha(token) !in db.invites || db.invites[Sha(token)].used || db.invites[Sha(token)].expiry <= now then
      Err(BadToken)
    else
      var invite := db.invites[Sha(token)];
      match InsertAccount(db.(invites := db.invites[Sha(token) := invite.(used := true)]), username, password, false)
      case Err(e) => Err(e)
      case Ok(next) =>
        if Grant(db.nextId, invite.repo) in db.access then Err(Constraint)
        else Ok(next.(access := next.access[Grant(db.nextId, invite.repo) := invite.role]))
  }

  /** The enabled account with that name and that stored password. */
  predicate Opens(db: Db, id: nat, username: string, password: string) {
    id in db.accounts && db.accounts[id] == Account(username, password, db.accounts[id].isAdmin, false)
  }

  /** The check of a login, up to the issue of a token. */
  function Checked(db: Db, username: string, password: string): Result<nat, Error>
    requires UniqueNames(db)
  {
    if !HasUser(db, username) then Err(BadToken)
    else
      var id := IdOf(db, username);
      if db.accounts[id].password != password || db.accounts[id].disabled then Err(BadToken) else Ok(id)
  }

  function Issued(db: Db, id: nat, token: Token, expiry: int): Result<Db, Error> {
    if Sha(token) in db.tokens then Err(Constraint)
    else Ok(db.(tokens := db.tokens[Sha(token) := ApiToken(id, expiry)]))
  }

  function Authenticated(db: Db, token: Token, now: int): Result<Identity, Error> {
    if Sha(token) !in db.tokens || db.tokens[Sha(token)].account !in db.accounts then Err(BadToken)
    else
      var row := db.tokens[Sha(token)];
      var account := db.accounts[row.account];
      if account.disabled then Err(BadToken)
      else if now >= row.expiry then Err(UsedOrExpired)
      else Ok(Identity(row.account, account.isAdmin))
  }

  function TokensOf(db: Db, id: nat): set<Hash> {
    set h | h in db.tokens && db.tokens[h].account == id
  }

  function Disabled(db: Db, username: string): Result<Db, Error>
    requires UniqueNames(db)
  {
    if !HasUser(db, username) then Err(NotFound)
    else
      var id := IdOf(db, username);
      var account := db.accounts[id];
      if account.isAdmin && !account.disabled && (forall o | o in Admins(db) && o != id :: db.accounts[o].disabled)
      then Err(LastAdmin)
      else Ok(db.(accounts := db.accounts[id := account.(disabled := true)], tokens := db.tokens - TokensOf(db, id)))
  }

  function Enabled(db: Db, username: string): Result<Db, Error>
    requires UniqueNames(db)
  {
    if !HasUser(db, username) then Err(NotFound)
    else
      var id := IdOf(db, username);
      Ok(db.(accounts := db.accounts[id := db.accounts[id].(disabled := false)]))
  }

  function Granted(db: Db, id: nat, repo: string, role: Role): Db {
    db.(access := db.access[Grant(id, repo) := role])
  }

  // ---- the storage ----

  class Storage {
    var accounts: map<nat, Account>
    var nextId: nat
    var access: map<Grant, Role>
    var invites: map<Hash, Invite>
    var tokens: map<Hash, ApiToken>
    var bootstrap: map<Hash, bool>
    var manifests: map<string, Pointer>
    var rosters: map<string, Pointer>

    function State(): Db
      reads this
    {
      Db(accounts, nextId, access, invites, tokens, bootstrap)
    }

    /** Usernames are unique and ids are handed out in order. */
    ghost predicate Valid()
      reads this
    {
      UniqueNames(State()) && forall id | id in accounts :: id < nextId
    }

    constructor ()
      ensures Valid() && State() == EMPTY && manifests == map[] && rosters == map[]
    {
      accounts, nextId, access, invites, tokens, bootstrap := map[], 1, map[], map[], map[], map[];
      manifests, rosters := map[], map[];
    }

    method EnsureBootstrap(token: Token) returns (printed: Option<Token>)
      requires Valid()
      modifies this`bootstrap
      ensures Valid() && State() == Ensured(old(State()), token)
      ensures printed.Some? <==> Admins(old(State())) == {} && UnusedBootstraps(old(State())) == {}
      ensures printed.Some? ==> printed.value == token
    {
      if Admins(State()) != {} {
        return None;
      }
      if UnusedBootstraps(State()) != {} {
        return None;
      }
      bootstrap := bootstrap[Sha(token) := false];
      return Some(token);
    }

    /** Claims the token, then makes the account; a failed insert gives the token back. */
    method ConsumeBootstrap(token: Token, username: string, password: string) returns (r: Outcome<Error>)
      requires Valid()
      modifies this`bootstrap, this`accounts, this`nextId
      ensures Valid() && Becomes(old(State()), Bootstrapped(old(State()), token, username, password), r, State())
    {
      if Sha(token) !in bootstrap || bootstrap[Sha(token)] {
        return Fail(BadToken);
      }
      var before := bootstrap;
      bootstrap := bootstrap[Sha(token) := true];
      r := Insert(username, password, true);
      if r.Fail? {
        bootstrap := before;
      }
    }

    method Insert(username: string, password: string, isAdmin: bool) returns (r: Outcome<Error>)
      requires Valid()
      modifies this`accounts, this`nextId
      ensures Valid() && Becomes(old(State()), InsertAccount(old(State()), username, password, isAdmin), r, State())
    {
      if HasUser(State(), username) {
        return Fail(Constraint);
      }
      accounts := accounts[nextId := Account(username, password, isAdmin, false)];
      nextId := nextId + 1;
      return Pass;
    }

    method CreateInvite(token: Token, repo: string, role: Role, expiry: int) returns (r: Outcome<Error>)
      requires Valid()
      modifies this`invites
      ensures Valid() && Becomes(old(State()), Invited(old(State()), token, repo, role, expiry), r, State())
    {
      if Sha(token) in invites {
        return Fail(Constraint);
      }
      invites := invites[Sha(token) := Invite(repo, role, expiry, false)];
      return Pass;
    }

    /** Claims the invite, makes the account and binds it to the invite's repository and role; if a
        later step fails everything is undone. */
    method ConsumeInvite(token: Token, username: string, password: string, now: int) returns (r: Outcome<Error>)
      requires Valid()
      modifies this`invites, this`accounts, this`nextId, this`access
      ensures Valid() && Becomes(old(State()), Redeemed(old(State()), token, username, password, now), r, State())
    {
      if Sha(token) !in invites || invites[Sha(token)].used || !(invites[Sha(token)].expiry > now) {
        return Fail(BadToken);
      }
      var before, invite, id := invites, invites[Sha(token)], nextId;
      var accountsBefore := accounts;
      invites := invites[Sha(token) := invite.(used := true)];
      r := Insert(username, password, false);
      if r.Fail? {
        invites := before;
        return;
      }
      if Grant(id, invite.repo) in access {
        invites, accounts, nextId := before, accountsBefore, id;
        return Fail(Constraint);
      }
      access := access[Grant(id, invite.repo) := invite.role];
    }

    method AccountByUsername(username: string) returns (id: Option<nat>)
      requires Valid()
      ensures id == if HasUser(State(), username) then Some(IdOf(State(), username)) else None
    {
      return if HasUser(State(), username) then Some(IdOf(State(), username)) else None;
    }

    /** The first half of a login: nothing is written yet. */
    method CheckPassword(username: string, password: string) returns (r: Result<nat, Error>)
      requires Valid()
      ensures r == Checked(State(), username, password)
    {
      var id := AccountByUsername(username);
      if id.None? {
        return Err(BadToken);
      }
      var ok := accounts[id.value].password == password;
      if !ok || accounts[id.value].disabled {
        return Err(BadToken);
      }
      return Ok(id.value);
    }

    /** The second half: another transaction. */
    method IssueToken(id: nat, token: Token, expiry: int) returns (r: Outcome<Error>)
      requires Valid()
      modifies this`tokens
      ensures Valid() && Becomes(old(State()), Issued(old(State()), id, token, expiry), r, State())
    {
      if Sha(token) in tokens {
        return Fail(Constraint);
      }
      tokens := tokens[Sha(token) := ApiToken(id, expiry)];
      return Pass;
    }

    /** Succeeds exactly if an enabled account has that name and that stored password and the token is
        new; then it stores the token for that account. */
    method Login(username: string, password: string, token: Token, expiry: int) returns (r: Result<Token, Error>)
      requires Valid()
      modifies this`tokens
      ensures Valid()
      ensures r.Ok? <==> Sha(token) !in old(tokens) && exists id :: Opens(old(State()), id, username, password)
      ensures r.Ok? ==> r.value == token && exists id :: Opens(old(State()), id, username, password)
                                                         && tokens == old(tokens)[Sha(token) := ApiToken(id, expiry)]
      ensures r.Err? ==> tokens == old(tokens)
      ensures r == Err(BadToken) <==> forall id :: !Opens(old(State()), id, username, password)
      ensures match Checked(old(State()), username, password)
              case Err(e) => r == Err(e) && State() == old(State())
              case Ok(id) => match Issued(old(State()), id, token, expiry)
                case Err(e) => r == Err(e) && State() == old(State())
                case Ok(next) => r == Ok(token) && State() == next
    {
      var checked := CheckPassword(username, password);
      if checked.Err? {
        assert forall id | Opens(State(), id, username, password) :: HasUser(State(), username);
        return Err(checked.error);
      }
      assert Opens(State(), checked.value, username, password);
      var issued := IssueToken(checked.value, token, expiry);
      return if issued.Fail? then Err(issued.error) else Ok(token);
    }

    method Authenticate(token: Token, now: int) returns (r: Result<Identity, Error>)
      ensures r == Authenticated(State(), token, now)
    {
      if Sha(token) !in tokens || tokens[Sha(token)].account !in accounts {
        return Err(BadToken);
      }
      var row := tokens[Sha(token)];
      if accounts[row.account].disabled {
        return Err(BadToken);
      }
      if now >= row.expiry {
        return Err(UsedOrExpired);
      }
      return Ok(Identity(row.account, accounts[row.account].isAdmin));
    }

    /** Refuses to disable the last admin; otherwise sets the flag and deletes the account's tokens. */
    method DisableAccount(username: string) returns (r: Outcome<Error>)
      requires Valid()
      modifies this`accounts, this`tokens
      ensures Valid() && Becomes(old(State()), Disabled(old(State()), username), r, State())
    {
      var found := AccountByUsername(username);
      if found.None? {
        return Fail(NotFound);
      }
      var id := found.value;
      if accounts[id].isAdmin && !accounts[id].disabled {
        var others := set o | o in accounts && accounts[o].isAdmin && !accounts[o].disabled && o != id;
        if others == {} {
          assert forall o | o in Admins(State()) && o != id :: o !in others;
          return Fail(LastAdmin);
        }
        var o :| o in others;
        assert o in Admins(State()) && o != id && !accounts[o].disabled;
      }
      accounts := accounts[id := accounts[id].(disabled := true)];
      tokens := map h | h in tokens && tokens[h].account != id :: tokens[h];
      assert tokens == old(tokens) - TokensOf(old(State()), id);
      return Pass;
    }

    method EnableAccount(username: string) returns (r: Outcome<Error>)
      requires Valid()
      modifies this`accounts
      ensures Valid() && Becomes(old(State()), Enabled(old(State()), username), r, State())
    {
      var found := AccountByUsername(username);
      if found.None? {
        return Fail(NotFound);
      }
      accounts := accounts[found.value := accounts[found.value].(disabled := false)];
      return Pass;
    }

    method GrantAccess(id: nat, repo: string, role: Role)
      requires Valid()
      modifies this`access
      ensures Valid() && State() == Granted(old(State()), id, repo, role)
    {
      access := access[Grant(id, repo) := role];
    }

    /** Swaps the manifest exactly from the expected version, an absent one counting as 0, to the next. */
    method CasManifest(repo: string, expected: nat, blob: seq<int>) returns (r: Result<nat, Error>)
      modifies this`manifests
      ensures r == if VersionIn(old(manifests), repo) == expected then Ok(expected + 1) else Err(Conflict)
      ensures manifests == if r.Ok? then old(manifests)[repo := Pointer(expected + 1, blob)] else old(manifests)
    {
      var cur := 0;
      if repo in manifests {
        cur := manifests[repo].version;
      }
      if cur != expected {
        return Err(Conflict);
      }
      manifests := manifests[repo := Pointer(expected + 1, blob)];
      return Ok(expected + 1);
    }

    method CasRoster(repo: string, expected: nat, next: nat, blob: seq<int>) returns (r: Outcome<Error>)
      modifies this`rosters
      ensures r == if VersionIn(old(rosters), repo) == expected then Pass else Fail(Conflict)
      ensures rosters == if r.Pass? then old(rosters)[repo := Pointer(next, blob)] else old(rosters)
    {
      var cur := 0;
      if repo in rosters {
        cur := rosters[repo].version;
      }
      if cur != expected {
        return Fail(Conflict);
      }
      rosters := rosters[repo := Pointer(next, blob)];
      return Pass;
    }
  }

  function VersionIn(pointers: map<string, Pointer>, repo: string): nat {
    if repo in pointers then pointers[repo].version else 0
  }

  /** A transaction that fails leaves everything as it was. */
  predicate Becomes(before: Db, wanted: Result<Db, Error>, r: Outcome<Error>, after: Db) {
    match wanted
    case Ok(next) => r.Pass? && after == next
    case Err(e) => r == Fail(e) && after == before
  }
}
