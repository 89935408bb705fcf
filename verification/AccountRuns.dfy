/** Runs of the storage transactions in any order: what the tables keep.  A login is two
    transactions, so others can fall between its check and the issue of its token. */
module AccountRuns {
  import opened Wrappers
  import opened Accounts

  type Session = nat

  datatype Op =
    | Ensure(token: Token)
    | Bootstrap(token: Token, username: string, password: string)
    | CreateInvite(token: Token, repo: string, role: Role, expiry: int)
    | Redeem(token: Token, username: string, password: string, now: int)
    | Check(session: Session, username: string, password: string)
    | Issue(session: Session, token: Token, expiry: int)
    | Disable(username: string)
    | Enable(username: string)
    | GrantTo(username: string, repo: string, role: Role)

  datatype Redemption = Redemption(account: nat, repo: string, role: Role)

  /** The tables, the logins whose password has been checked, and as history the tokens drawn so
      far, whether the bootstrap has been ensured, and what each redeemed invite gave. */
  datatype World = World(
    db: Db, sessions: map<Session, nat>, drawn: set<Token>, ensured: bool, redeemed: map<Hash, Redemption>)

  const START := World(EMPTY, map[], {}, false, map[])

  function OrSame(w: World, r: Result<Db, Error>): World {
    if r.Ok? then w.(db := r.value) else w
  }

  function Step(w: World, op: Op): World
    requires UniqueNames(w.db)
  {
    match op
    case Ensure(token) => EnsureStep(w, token)
    case Bootstrap(token, username, password) => BootstrapStep(w, token, username, password)
    case CreateInvite(token, repo, role, expiry) => CreateInviteStep(w, token, repo, role, expiry)
    case Redeem(token, username, password, now) => RedeemStep(w, token, username, password, now)
    case Check(session, username, password) => CheckStep(w, session, username, password)
    case Issue(session, token, expiry) => IssueStep(w, session, token, expiry)
    case Disable(username) => DisableStep(w, username)
    case Enable(username) => EnableStep(w, username)
    case GrantTo(username, repo, role) => GrantStep(w, username, repo, role)
  }

  function EnsureStep(w: World, token: Token): World {
    w.(db := Ensured(w.db, token), drawn := w.drawn + {token}, ensured := true)
  }

  function BootstrapStep(w: World, token: Token, username: string, password: string): World {
    OrSame(w, Bootstrapped(w.db, token, username, password))
  }

  function CreateInviteStep(w: World, token: Token, repo: string, role: Role, expiry: int): World {
    OrSame(w, Invited(w.db, token, repo, role, expiry)).(drawn := w.drawn + {token})
  }

  function CheckStep(w: World, session: Session, username: string, password: string): World
    requires UniqueNames(w.db)
  {
    match Checked(w.db, username, password)
    case Ok(id) => w.(sessions := w.sessions[session := id])
    case Err(_) => w
  }

  function DisableStep(w: World, username: string): World
    requires UniqueNames(w.db)
  {
    OrSame(w, Disabled(w.db, username))
  }

  function EnableStep(w: World, username: string): World
    requires UniqueNames(w.db)
  {
    OrSame(w, Enabled(w.db, username))
  }

  function GrantStep(w: World, username: string, repo: string, role: Role): World
    requires UniqueNames(w.db)
  {
    if HasUser(w.db, username) then w.(db := Granted(w.db, IdOf(w.db, username), repo, role)) else w
  }

  function RedeemStep(w: World, token: Token, username: string, password: string, now: int): World {
    match Redeemed(w.db, token, username, password, now)
    case Err(_) => w
    case Ok(next) =>
      var invite := next.invites[Sha(token)];
      w.(db := next, redeemed := w.redeemed[Sha(token) := Redemption(w.db.nextId, invite.repo, invite.role)])
  }

  function IssueStep(w: World, session: Session, token: Token, expiry: int): World {
    if session !in w.sessions then w.(drawn := w.drawn + {token})
    else OrSame(w, Issued(w.db, w.sessions[session], token, expiry))
         .(drawn := w.drawn + {token}, sessions := w.sessions - {session})
  }

  /** Tokens are drawn afresh. */
  predicate Fresh(w: World, op: Op) {
    op.Ensure? || op.CreateInvite? || op.Issue? ==> op.token !in w.drawn
  }

  // ---- the invariant ----

  predicate NamesOk(db: Db) {
    UniqueNames(db) && forall id | id in db.accounts :: id < db.nextId
  }

  predicate TokensDrawn(w: World) {
    && (forall h | h in w.db.tokens :: h.token in w.drawn)
    && (forall h | h in w.db.invites :: h.token in w.drawn)
    && (forall h | h in w.db.bootstrap :: h.token in w.drawn)
  }

  predicate OwnersExist(w: World) {
    && (forall h | h in w.db.tokens :: w.db.tokens[h].account in w.db.accounts)
    && (forall s | s in w.sessions :: w.sessions[s] in w.db.accounts)
    && (forall g | g in w.db.access :: g.account in w.db.accounts)
  }

  /** Either the one bootstrap token is still unused or it has become the one admin, who is enabled. */
  predicate OneAdminOrToken(w: World) {
    && |UnusedBootstraps(w.db)| + |Admins(w.db)| == (if w.ensured then 1 else 0)
    && forall id | id in Admins(w.db) :: !w.db.accounts[id].disabled
  }

  /** Used invites and invited accounts correspond one to one, each account to one invite. */
  predicate InvitesMatch(w: World) {
    && (forall h | h in w.redeemed :: h in w.db.invites && w.db.invites[h].used)
    && (forall h | h in w.db.invites && w.db.invites[h].used ::
          h in w.redeemed && w.redeemed[h].repo == w.db.invites[h].repo && w.redeemed[h].role == w.db.invites[h].role)
    && (forall h | h in w.redeemed :: w.redeemed[h].account in w.db.accounts
                                      && !w.db.accounts[w.redeemed[h].account].isAdmin)
    && (forall id | id in w.db.accounts && !w.db.accounts[id].isAdmin ::
          exists h | h in w.redeemed :: w.redeemed[h].account == id)
    && (forall g, h | g in w.redeemed && h in w.redeemed :: w.redeemed[g].account == w.redeemed[h].account ==> g == h)
  }

  predicate RowsOk(w: World) {
    TokensDrawn(w) && OwnersExist(w)
  }

  predicate Inv(w: World) {
    NamesOk(w.db) && RowsOk(w) && OneAdminOrToken(w) && InvitesMatch(w)
  }

  lemma OneElement<T>(s: set<T>, x: T)
    requires x in s && |s| <= 1
    ensures s == {x}
  {
    assert |s - {x}| == |s| - 1;
  }

  /** Accounts that differ at most in being disabled. */
  predicate SameAccounts(a: Db, b: Db) {
    && a.accounts.Keys == b.accounts.Keys && a.nextId == b.nextId
    && forall id | id in a.accounts ::
         a.accounts[id].isAdmin == b.accounts[id].isAdmin && a.accounts[id].username == b.accounts[id].username
  }

  lemma KeepsInvites(w: World, t: World)
    requires InvitesMatch(w) && SameAccounts(w.db, t.db) && t.redeemed == w.redeemed
    requires forall h | h in t.db.invites && t.db.invites[h].used ::
               h in w.db.invites && w.db.invites[h] == t.db.invites[h]
    requires forall h | h in w.db.invites && w.db.invites[h].used ::
               h in t.db.invites && w.db.invites[h] == t.db.invites[h]
    ensures InvitesMatch(t)
  {
  }

  lemma KeepsAdmins(w: World, t: World)
    requires OneAdminOrToken(w) && SameAccounts(w.db, t.db) && t.db.bootstrap == w.db.bootstrap
      && t.ensured == w.ensured
    requires forall id | id in w.db.accounts && w.db.accounts[id].isAdmin ::
               t.db.accounts[id].disabled ==> w.db.accounts[id].disabled
    ensures OneAdminOrToken(t)
  {
    assert Admins(t.db) == Admins(w.db) && UnusedBootstraps(t.db) == UnusedBootstraps(w.db);
  }

  lemma NamesUnique(db: Db)
    requires NamesOk(db)
    ensures UniqueNames(db)
  {
  }

  lemma SameNames(a: Db, b: Db)
    requires NamesOk(a) && b.accounts == a.accounts && b.nextId == a.nextId
    ensures NamesOk(b)
  {
  }

  lemma BootstrapNames(db: Db, token: Token, username: string, password: string)
    requires NamesOk(db)
    ensures var r := Bootstrapped(db, token, username, password); r.Ok? ==> NamesOk(r.value)
  {
  }

  lemma RedeemNames(db: Db, token: Token, username: string, password: string, now: int)
    requires NamesOk(db)
    ensures var r := Redeemed(db, token, username, password, now); r.Ok? ==> NamesOk(r.value)
  {
  }

  lemma EnsureRows(w: World, token: Token)
    requires UniqueNames(w.db) && RowsOk(w)
    ensures RowsOk(EnsureStep(w, token))
  {
    hide UniqueNames;
  }

  lemma CreateInviteRows(w: World, token: Token, repo: string, role: Role, expiry: int)
    requires UniqueNames(w.db) && RowsOk(w)
    ensures RowsOk(CreateInviteStep(w, token, repo, role, expiry))
  {
    hide UniqueNames;
  }

  lemma RedeemRows(w: World, token: Token, username: string, password: string, now: int)
    requires UniqueNames(w.db) && RowsOk(w)
    ensures RowsOk(RedeemStep(w, token, username, password, now))
  {
    hide UniqueNames;
  }

  lemma CheckRows(w: World, session: Session, username: string, password: string)
    requires UniqueNames(w.db) && RowsOk(w)
    ensures RowsOk(CheckStep(w, session, username, password))
  {
    hide UniqueNames;
  }

  lemma IssueRows(w: World, session: Session, token: Token, expiry: int)
    requires UniqueNames(w.db) && RowsOk(w)
    ensures RowsOk(IssueStep(w, session, token, expiry))
  {
    hide UniqueNames;
  }

  lemma DisableRows(w: World, username: string)
    requires UniqueNames(w.db) && RowsOk(w)
    ensures RowsOk(DisableStep(w, username))
  {
    hide UniqueNames;
  }

  lemma EnableRows(w: World, username: string)
    requires UniqueNames(w.db) && RowsOk(w)
    ensures RowsOk(EnableStep(w, username))
  {
    hide UniqueNames;
  }

  lemma GrantRows(w: World, username: string, repo: string, role: Role)
    requires UniqueNames(w.db) && RowsOk(w)
    ensures RowsOk(GrantStep(w, username, repo, role))
  {
    hide UniqueNames;
  }

  lemma BootstrapRows(w: World, token: Token, username: string, password: string)
    requires UniqueNames(w.db) && RowsOk(w)
    ensures RowsOk(BootstrapStep(w, token, username, password))
  {
    hide UniqueNames;
  }

  lemma InvHasRows(w: World)
    requires Inv(w)
    ensures RowsOk(w)
  {
  }

  /** Operations on tokens, logins and access leave the rest of the invariant alone. */
  lemma SameCore(w: World, t: World)
    requires Inv(w) && RowsOk(t)
    requires t.db.accounts == w.db.accounts && t.db.nextId == w.db.nextId && t.db.invites == w.db.invites
    requires t.db.bootstrap == w.db.bootstrap && t.ensured == w.ensured && t.redeemed == w.redeemed
    ensures Inv(t)
  {
    hide InvitesMatch, OneAdminOrToken, NamesOk, RowsOk;
    SameNames(w.db, t.db);
    KeepsInvites(w, t);
    KeepsAdmins(w, t);
  }

  lemma EnsureInv(w: World, token: Token)
    requires Inv(w) && token !in w.drawn
    ensures Inv(EnsureStep(w, token))
  {
    NamesUnique(w.db);
    EnsureRows(w, token);
    hide InvitesMatch, OneAdminOrToken, NamesOk, UniqueNames, RowsOk, HasUser, IdOf;
    var t := EnsureStep(w, token);
    SameNames(w.db, t.db);
    KeepsInvites(w, t);
    EnsureAdmins(w, token);
  }

  lemma EnsureAdmins(w: World, token: Token)
    requires NamesOk(w.db) && OneAdminOrToken(w)
    ensures OneAdminOrToken(EnsureStep(w, token))
  {
    var t := EnsureStep(w, token);
    assert Admins(t.db) == Admins(w.db);
    if Admins(w.db) == {} && UnusedBootstraps(w.db) == {} {
      assert UnusedBootstraps(t.db) == {Sha(token)};
    }
  }

  lemma BootstrapInv(w: World, token: Token, username: string, password: string)
    requires Inv(w)
    ensures Inv(BootstrapStep(w, token, username, password))
  {
    NamesUnique(w.db);
    BootstrapRows(w, token, username, password);
    hide InvitesMatch, OneAdminOrToken, NamesOk, UniqueNames, RowsOk;
    BootstrapNames(w.db, token, username, password);
    if Bootstrapped(w.db, token, username, password).Ok? {
      BootstrapInvites(w, token, username, password);
      BootstrapAdmins(w, token, username, password);
    }
  }

  lemma BootstrapAdmins(w: World, token: Token, username: string, password: string)
    requires NamesOk(w.db) && OneAdminOrToken(w) && Bootstrapped(w.db, token, username, password).Ok?
    ensures OneAdminOrToken(BootstrapStep(w, token, username, password))
  {
    hide HasUser;
    var t := BootstrapStep(w, token, username, password);
    assert Sha(token) in UnusedBootstraps(w.db);
    assert Admins(t.db) == Admins(w.db) + {w.db.nextId};
    assert UnusedBootstraps(t.db) == UnusedBootstraps(w.db) - {Sha(token)};
    assert w.db.nextId !in Admins(w.db);
    OneElement(UnusedBootstraps(w.db), Sha(token));
  }

  lemma BootstrapInvites(w: World, token: Token, username: string, password: string)
    requires NamesOk(w.db) && InvitesMatch(w) && Bootstrapped(w.db, token, username, password).Ok?
    ensures InvitesMatch(BootstrapStep(w, token, username, password))
  {
  }

  lemma CreateInviteInv(w: World, token: Token, repo: string, role: Role, expiry: int)
    requires Inv(w) && token !in w.drawn
    ensures Inv(CreateInviteStep(w, token, repo, role, expiry))
  {
    NamesUnique(w.db);
    CreateInviteRows(w, token, repo, role, expiry);
    hide InvitesMatch, OneAdminOrToken, NamesOk, UniqueNames, RowsOk;
    var t := CreateInviteStep(w, token, repo, role, expiry);
    SameNames(w.db, t.db);
    KeepsInvites(w, t);
    KeepsAdmins(w, t);
  }

  lemma RedeemInv(w: World, token: Token, username: string, password: string, now: int)
    requires Inv(w)
    ensures Inv(RedeemStep(w, token, username, password, now))
  {
    NamesUnique(w.db);
    RedeemRows(w, token, username, password, now);
    hide InvitesMatch, OneAdminOrToken, NamesOk, UniqueNames, RowsOk;
    var t := RedeemStep(w, token, username, password, now);
    RedeemNames(w.db, token, username, password, now);
    if Redeemed(w.db, token, username, password, now).Ok? {
      RedeemInvites(w, token, username, password, now);
      RedeemAdmins(w, token, username, password, now);
      }
  }

  lemma RedeemAdmins(w: World, token: Token, username: string, password: string, now: int)
    requires NamesOk(w.db) && OneAdminOrToken(w) && Redeemed(w.db, token, username, password, now).Ok?
    ensures OneAdminOrToken(RedeemStep(w, token, username, password, now))
  {
    hide HasUser;
    var t := RedeemStep(w, token, username, password, now);
    assert Admins(t.db) == Admins(w.db) && UnusedBootstraps(t.db) == UnusedBootstraps(w.db);
  }

  lemma RedeemInvites(w: World, token: Token, username: string, password: string, now: int)
    requires NamesOk(w.db) && InvitesMatch(w) && Redeemed(w.db, token, username, password, now).Ok?
    ensures InvitesMatch(RedeemStep(w, token, username, password, now))
  {
    var t := RedeemStep(w, token, username, password, now);
    assert Sha(token) !in w.redeemed;
    assert t.redeemed[Sha(token)].account == w.db.nextId;
    forall id | id in t.db.accounts && !t.db.accounts[id].isAdmin
      ensures exists h | h in t.redeemed :: t.redeemed[h].account == id
    {
      if id != w.db.nextId {
        var h :| h in w.redeemed && w.redeemed[h].account == id;
        assert t.redeemed[h].account == id;
      }
    }
  }

  lemma CheckInv(w: World, session: Session, username: string, password: string)
    requires Inv(w)
    ensures Inv(CheckStep(w, session, username, password))
  {
    NamesUnique(w.db);
    hide Inv, UniqueNames;
    InvHasRows(w);
    CheckRows(w, session, username, password);
    SameCore(w, CheckStep(w, session, username, password));
  }


  lemma IssueInv(w: World, session: Session, token: Token, expiry: int)
    requires Inv(w) && token !in w.drawn
    ensures Inv(IssueStep(w, session, token, expiry))
  {
    NamesUnique(w.db);
    hide Inv, UniqueNames;
    InvHasRows(w);
    IssueRows(w, session, token, expiry);
    SameCore(w, IssueStep(w, session, token, expiry));
  }


  /** Disabling succeeds on no admin, because there is one at most and he is enabled. */
  lemma DisableSparesAdmin(w: World, username: string)
    requires NamesOk(w.db) && OneAdminOrToken(w) && Disabled(w.db, username).Ok?
    ensures IdOf(w.db, username) !in Admins(w.db)
  {
    var id := IdOf(w.db, username);
    if id in Admins(w.db) {
      OneElement(Admins(w.db), id);
      assert false;
    }
  }

  lemma DisableInv(w: World, username: string)
    requires Inv(w)
    ensures Inv(DisableStep(w, username))
  {
    NamesUnique(w.db);
    DisableRows(w, username);
    hide InvitesMatch, OneAdminOrToken, NamesOk, UniqueNames, RowsOk;
    var t := DisableStep(w, username);
    if Disabled(w.db, username).Ok? {
      DisableSparesAdmin(w, username);
      DisableKeepsNames(w.db, username);
      KeepsInvites(w, t);
      KeepsAdmins(w, t);
    }
  }

  lemma DisableKeepsNames(db: Db, username: string)
    requires NamesOk(db) && Disabled(db, username).Ok?
    ensures NamesOk(Disabled(db, username).value) && SameAccounts(db, Disabled(db, username).value)
  {
  }

  lemma EnableInv(w: World, username: string)
    requires Inv(w)
    ensures Inv(EnableStep(w, username))
  {
    NamesUnique(w.db);
    EnableRows(w, username);
    hide InvitesMatch, OneAdminOrToken, NamesOk, UniqueNames, RowsOk;
    var t := EnableStep(w, username);
    if Enabled(w.db, username).Ok? {
      EnableKeepsNames(w.db, username);
      KeepsInvites(w, t);
      KeepsAdmins(w, t);
    }
  }

  lemma EnableKeepsNames(db: Db, username: string)
    requires NamesOk(db) && Enabled(db, username).Ok?
    ensures NamesOk(Enabled(db, username).value) && SameAccounts(db, Enabled(db, username).value)
  {
  }

  lemma GrantInv(w: World, username: string, repo: string, role: Role)
    requires Inv(w)
    ensures Inv(GrantStep(w, username, repo, role))
  {
    NamesUnique(w.db);
    hide Inv, UniqueNames;
    InvHasRows(w);
    GrantRows(w, username, repo, role);
    SameCore(w, GrantStep(w, username, repo, role));
  }


  lemma StepInv(w: World, op: Op)
    requires Inv(w) && Fresh(w, op)
    ensures Inv(Step(w, op))
  {
    hide Inv, NamesOk, UniqueNames, EnsureStep, BootstrapStep, CreateInviteStep, RedeemStep, CheckStep, IssueStep;
    hide DisableStep,
         EnableStep, GrantStep;
    match op
    case Ensure(token) => EnsureInv(w, token);
    case Bootstrap(token, username, password) => BootstrapInv(w, token, username, password);
    case CreateInvite(token, repo, role, expiry) => CreateInviteInv(w, token, repo, role, expiry);
    case Redeem(token, username, password, now) => RedeemInv(w, token, username, password, now);
    case Check(session, username, password) => CheckInv(w, session, username, password);
    case Issue(session, token, expiry) => IssueInv(w, session, token, expiry);
    case Disable(username) => DisableInv(w, username);
    case Enable(username) => EnableInv(w, username);
    case GrantTo(username, repo, role) => GrantInv(w, username, repo, role);
  }

  // ---- runs ----

  function Run(ops: seq<Op>): (w: World)
    ensures NamesOk(w.db)
  {
    if ops == [] then START
    else
      var w := Run(ops[..|ops| - 1]);
      NamesKept(w, ops[|ops| - 1]);
      Step(w, ops[|ops| - 1])
  }

  lemma NamesKept(w: World, op: Op)
    requires NamesOk(w.db)
    ensures NamesOk(Step(w, op).db)
  {
    NamesUnique(w.db);
    hide NamesOk, UniqueNames;
    match op
    case Bootstrap(token, username, password) => BootstrapNames(w.db, token, username, password);
    case Redeem(token, username, password, now) => RedeemNames(w.db, token, username, password, now);
    case Disable(username) => if Disabled(w.db, username).Ok? { DisableKeepsNames(w.db, username); }
    case Enable(username) => if Enabled(w.db, username).Ok? { EnableKeepsNames(w.db, username); }
    case _ => SameNames(w.db, Step(w, op).db);
  }

  /** Every drawn token is new. */
  predicate AllFresh(ops: seq<Op>) {
    forall i | 0 <= i < |ops| :: Fresh(Run(ops[..i]), ops[i])
  }

  lemma FreshPrefix(ops: seq<Op>, n: nat)
    requires AllFresh(ops) && n <= |ops|
    ensures AllFresh(ops[..n])
  {
    forall i | 0 <= i < n
      ensures ops[..n][..i] == ops[..i]
    {
    }
  }

  lemma StartInv()
    ensures Inv(START)
  {
    assert Admins(EMPTY) == {} && UnusedBootstraps(EMPTY) == {};
  }

  lemma {:induction false} RunInv(ops: seq<Op>)
    requires AllFresh(ops)
    ensures Inv(Run(ops))
  {
    hide Inv, Step, Fresh;
    if ops == [] {
      StartInv();
    } else {
      var n := |ops| - 1;
      FreshPrefix(ops, n);
      RunInv(ops[..n]);
      assert Fresh(Run(ops[..n]), ops[n]);
      StepInv(Run(ops[..n]), ops[n]);
    }
  }

  lemma {:induction false} EnsuredStays(ops: seq<Op>, i: nat)
    requires i < |ops| && ops[i].Ensure?
    ensures Run(ops).ensured
  {
    var n := |ops| - 1;
    if i < n {
      EnsuredStays(ops[..n], i);
    }
  }

  /** From the first EnsureBootstrap on, unused bootstrap tokens and admins together are always one,
      and an admin is never disabled. */
  lemma OneAdminOrTokenAlways(ops: seq<Op>, i: nat)
    requires AllFresh(ops) && i < |ops| && ops[i].Ensure?
    ensures |UnusedBootstraps(Run(ops).db)| + |Admins(Run(ops).db)| == 1
    ensures forall id | id in Admins(Run(ops).db) :: !Run(ops).db.accounts[id].disabled
  {
    RunInv(ops);
    EnsuredStays(ops, i);
  }

  /** What a redeemed invite gives is what it was created for, to a new account and only once. */
  lemma RedeemGivesInvited(ops: seq<Op>, token: Token, username: string, password: string, now: int)
    requires AllFresh(ops) && Redeemed(Run(ops).db, token, username, password, now).Ok?
    ensures var w := Run(ops);
            var t := Step(w, Redeem(token, username, password, now));
            && !w.db.invites[Sha(token)].used && t.db.invites[Sha(token)].used
            && w.db.nextId !in w.db.accounts
            && var i := w.db.invites[Sha(token)];
            && t.db.access == w.db.access[Grant(w.db.nextId, i.repo) := i.role]
            && t.redeemed[Sha(token)] == Redemption(w.db.nextId, i.repo, i.role)
            && (forall g | g in w.db.access :: g.account != w.db.nextId)
  {
    RunInv(ops);
  }

  /** After any run the used invites correspond one to one to the accounts that are no admins. */
  lemma InvitesMatchAlways(ops: seq<Op>)
    requires AllFresh(ops)
    ensures InvitesMatch(Run(ops))
  {
    RunInv(ops);
  }

  // ---- revocation ----

  /** The i-th operation stores the token for the account. */
  predicate IssuesAt(ops: seq<Op>, i: nat, token: Token, id: nat)
    requires i < |ops|
  {
    var w := Run(ops[..i]);
    ops[i].Issue? && ops[i].token == token && ops[i].session in w.sessions && w.sessions[ops[i].session] == id
  }

  /** The j-th operation disables the account. */
  predicate DisablesAt(ops: seq<Op>, j: nat, id: nat)
    requires j < |ops|
  {
    var w := Run(ops[..j]);
    ops[j].Disable? && HasUser(w.db, ops[j].username) && IdOf(w.db, ops[j].username) == id
    && Disabled(w.db, ops[j].username).Ok?
  }

  /** Issued to the account, which has not been disabled since. */
  ghost predicate Unrevoked(ops: seq<Op>, token: Token, id: nat) {
    exists i :: 0 <= i < |ops| && IssuesAt(ops, i, token, id) && forall j | i < j < |ops| :: !DisablesAt(ops, j, id)
  }

  predicate Stored(w: World, token: Token, id: nat) {
    Sha(token) in w.db.tokens && w.db.tokens[Sha(token)].account == id
  }

  lemma DrawnGrows(w: World, op: Op)
    requires UniqueNames(w.db)
    ensures w.drawn <= Step(w, op).drawn && (op.Issue? ==> op.token in Step(w, op).drawn)
  {
  }

  lemma {:induction false} IssuedIsDrawn(ops: seq<Op>, i: nat, token: Token, id: nat)
    requires i < |ops| && IssuesAt(ops, i, token, id)
    ensures token in Run(ops).drawn
  {
    hide Step;
    var n := |ops| - 1;
    DrawnGrows(Run(ops[..n]), ops[n]);
    if i < n {
      assert ops[..n][..i] == ops[..i];
      IssuedIsDrawn(ops[..n], i, token, id);
    }
  }

  lemma FreshIsUnissued(ops: seq<Op>, token: Token, id: nat)
    ensures token !in Run(ops).drawn ==> !Unrevoked(ops, token, id)
  {
    hide Run, IssuesAt, DisablesAt;
    if Unrevoked(ops, token, id) {
      var i :| 0 <= i < |ops| && IssuesAt(ops, i, token, id);
      IssuedIsDrawn(ops, i, token, id);
    }
  }

  lemma OthersKeepTokens(w: World, op: Op)
    requires UniqueNames(w.db) && !op.Issue? && !op.Disable?
    ensures Step(w, op).db.tokens == w.db.tokens
  {
    hide UniqueNames;
  }

  /** What one operation does to a stored token. */
  lemma StoredStep(w: World, op: Op, token: Token, id: nat)
    requires Inv(w) && Fresh(w, op)
    ensures Stored(Step(w, op), token, id) <==>
            || (op.Issue? && op.token == token && op.session in w.sessions && w.sessions[op.session] == id)
            || (Stored(w, token, id)
                && !(op.Disable? && HasUser(w.db, op.username) && IdOf(w.db, op.username) == id
                     && Disabled(w.db, op.username).Ok?))
  {
    NamesUnique(w.db);
    hide InvitesMatch, OneAdminOrToken, UniqueNames, NamesOk;
    if op.Issue? {
      IssueStores(w, op.session, op.token, op.expiry, token, id);
    } else if op.Disable? {
      DisableRemoves(w, op.username, token, id);
    } else {
      OthersKeepTokens(w, op);
      hide Step;
    }
  }

  lemma IssueStores(w: World, session: Session, drawn: Token, expiry: int, token: Token, id: nat)
    requires RowsOk(w) && drawn !in w.drawn
    ensures Stored(IssueStep(w, session, drawn, expiry), token, id) <==>
            (drawn == token && session in w.sessions && w.sessions[session] == id) || Stored(w, token, id)
  {
    assert Sha(drawn) !in w.db.tokens;
  }

  lemma DisableRemoves(w: World, username: string, token: Token, id: nat)
    requires UniqueNames(w.db)
    ensures Stored(DisableStep(w, username), token, id) <==>
            Stored(w, token, id)
            && !(HasUser(w.db, username) && IdOf(w.db, username) == id && Disabled(w.db, username).Ok?)
  {
    hide UniqueNames;
  }

  lemma UnrevokedStep(ops: seq<Op>, n: nat, token: Token, id: nat)
    requires |ops| == n + 1
    requires IssuesAt(ops, n, token, id) ==> !Unrevoked(ops[..n], token, id)
    ensures Unrevoked(ops, token, id)
       <==> IssuesAt(ops, n, token, id) || (Unrevoked(ops[..n], token, id) && !DisablesAt(ops, n, id))
  {
    hide Run, IssuesAt, DisablesAt;
    PrefixAgrees(ops, n, token, id);
    if Unrevoked(ops, token, id) {
      var i :| 0 <= i < |ops| && IssuesAt(ops, i, token, id) && forall j | i < j < |ops| :: !DisablesAt(ops, j, id);
      if i < n {
        assert IssuesAt(ops[..n], i, token, id);
      }
    }
    if !IssuesAt(ops, n, token, id) && Unrevoked(ops[..n], token, id) && !DisablesAt(ops, n, id) {
      var i :| 0 <= i < n && IssuesAt(ops[..n], i, token, id) && forall j | i < j < n :: !DisablesAt(ops[..n], j, id);
      assert IssuesAt(ops, i, token, id);
    }
  }

  lemma PrefixAgrees(ops: seq<Op>, n: nat, token: Token, id: nat)
    requires n <= |ops|
    ensures forall i | 0 <= i < n :: IssuesAt(ops[..n], i, token, id) == IssuesAt(ops, i, token, id)
    ensures forall i | 0 <= i < n :: DisablesAt(ops[..n], i, id) == DisablesAt(ops, i, id)
  {
    forall i | 0 <= i < n
      ensures ops[..n][..i] == ops[..i] && ops[..n][i] == ops[i]
    {
    }
  }

  lemma {:induction false} StoredExactly(ops: seq<Op>, token: Token, id: nat)
    requires AllFresh(ops)
    ensures Stored(Run(ops), token, id) <==> Unrevoked(ops, token, id)
  {
    if ops != [] {
      var n := |ops| - 1;
      var w := Run(ops[..n]);
      FreshPrefix(ops, n);
      RunInv(ops[..n]);
      StoredExactly(ops[..n], token, id);
      assert Fresh(w, ops[n]);
      hide Step, Inv, Disabled;
      StoredStep(w, ops[n], token, id);
      FreshIsUnissued(ops[..n], token, id);
      UnrevokedStep(ops, n, token, id);
    }
  }

  /** A token authenticates exactly if it was issued, its account was never disabled after that, is
      enabled now, and the token has not expired: enabling an account brings no old token back. */
  lemma AuthenticatesExactly(ops: seq<Op>, token: Token, now: int, id: nat)
    requires AllFresh(ops)
    ensures (exists admin :: Authenticated(Run(ops).db, token, now) == Ok(Identity(id, admin)))
       <==> && Unrevoked(ops, token, id)
            && Sha(token) in Run(ops).db.tokens && now < Run(ops).db.tokens[Sha(token)].expiry
            && id in Run(ops).db.accounts && !Run(ops).db.accounts[id].disabled
  {
    hide Run, Unrevoked;
    StoredExactly(ops, token, id);
    var db := Run(ops).db;
    if Stored(Run(ops), token, id) && id in db.accounts && !db.accounts[id].disabled
       && now < db.tokens[Sha(token)].expiry {
      assert Authenticated(db, token, now) == Ok(Identity(id, db.accounts[id].isAdmin));
    }
  }

  /** But a login whose check came before the disabling may still issue its token after it, and
      that token works once the account is enabled again. */
  lemma LoginRaceOutlivesDisable(ops: seq<Op>, session: Session, user: string, token: Token, expiry: int, now: int)
    requires AllFresh(ops) && session in Run(ops).sessions && token !in Run(ops).drawn && now < expiry
    requires HasUser(Run(ops).db, user) && IdOf(Run(ops).db, user) == Run(ops).sessions[session]
    requires IdOf(Run(ops).db, user) !in Admins(Run(ops).db)
    ensures Authenticated(Run(ops + [Disable(user), Issue(session, token, expiry), Enable(user)]).db, token, now)
         == Ok(Identity(Run(ops).sessions[session], false))
  {
    hide Inv, Run, AllFresh, Admins, HasUser, IdOf, Authenticated, NamesOk, UniqueNames, DisableStep, IssueStep,
      EnableStep;
    RunInv(ops);
    var e1, e2, e3 := Disable(user), Issue(session, token, expiry), Enable(user);
    RunOne(ops, e1);
    RunOne(ops + [e1], e2);
    RunOne(ops + [e1] + [e2], e3);
    assert ops + [e1] + [e2] + [e3] == ops + [e1, e2, e3];
    RaceSteps(Run(ops), session, user, token, expiry, now);
  }

  lemma RunOne(ops: seq<Op>, op: Op)
    ensures UniqueNames(Run(ops).db) && Run(ops + [op]) == Step(Run(ops), op)
  {
    hide Step;
    assert (ops + [op])[..|ops|] == ops;
  }

  lemma RaceSteps(w: World, session: Session, user: string, token: Token, expiry: int, now: int)
    requires Inv(w) && session in w.sessions && token !in w.drawn && now < expiry
    requires HasUser(w.db, user) && IdOf(w.db, user) == w.sessions[session] && w.sessions[session] !in Admins(w.db)
    ensures NamesOk(DisableStep(w, user).db) && NamesOk(IssueStep(DisableStep(w, user), session, token, expiry).db)
    ensures var t := EnableStep(IssueStep(DisableStep(w, user), session, token, expiry), user);
            Authenticated(t.db, token, now) == Ok(Identity(w.sessions[session], false))
  {
    hide InvitesMatch, OneAdminOrToken;
    var w1 := DisableStep(w, user);
    DisableKeepsNames(w.db, user);
    assert Sha(token) !in w1.db.tokens;
    var w2 := IssueStep(w1, session, token, expiry);
    SameNames(w1.db, w2.db);
    assert w2.db.tokens[Sha(token)] == ApiToken(w.sessions[session], expiry);
    var id := w.sessions[session];
    assert w2.db.accounts[id].username == user;
    assert HasUser(w2.db, user) && IdOf(w2.db, user) == id;
  }
}
