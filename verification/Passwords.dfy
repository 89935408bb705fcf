/** Logins said in terms of the tables: who gets in, who is kept out, and what every stored token
    goes back to. */
module Passwords {
  import opened Wrappers
  import opened Accounts
  import opened AccountRuns

  // ---- one transaction ----

  /** A password check passes exactly for the enabled account with that name and that password. */
  lemma CheckedExactly(db: Db, username: string, password: string)
    requires UniqueNames(db)
    ensures forall id: nat :: Checked(db, username, password) == Ok(id) <==> Opens(db, id, username, password)
    ensures Checked(db, username, password).Ok? || Checked(db, username, password) == Err(BadToken)
  {
    forall id: nat
      ensures Checked(db, username, password) == Ok(id) <==> Opens(db, id, username, password)
    {
      if Opens(db, id, username, password) {
        assert HasUser(db, username);
      }
    }
  }

  /** After a disabling no password opens the account and none of its tokens authenticates, while for
      everybody else nothing changes. */
  lemma DisabledShutsOut(db: Db, username: string)
    requires UniqueNames(db) && Disabled(db, username).Ok?
    ensures UniqueNames(Disabled(db, username).value)
    ensures var t := Disabled(db, username).value;
      exists id :: id in db.accounts && db.accounts[id].username == username
        && (forall password :: Checked(t, username, password) == Err(BadToken))
        && (forall token, now :: Authenticated(t, token, now).Ok? ==> Authenticated(t, token, now).value.id != id)
        && (forall token :: Sha(token) in db.tokens && db.tokens[Sha(token)].account == id ==> Sha(token) !in t.tokens)
        && (forall other | other in db.accounts && other != id ::
              other in t.accounts && t.accounts[other] == db.accounts[other])
        && (forall h | h in db.tokens && db.tokens[h].account != id :: h in t.tokens && t.tokens[h] == db.tokens[h])
  {
    var t := Disabled(db, username).value;
    var id := IdOf(db, username);
    assert forall i | i in t.accounts :: t.accounts[i].username == db.accounts[i].username;
    forall password
      ensures Checked(t, username, password) == Err(BadToken)
    {
      CheckedExactly(t, username, password);
      assert forall i :: Opens(t, i, username, password) ==> i == id;
    }
  }

  /** A disabling is refused exactly for an unknown name and for the last enabled admin. */
  lemma DisabledExactly(db: Db, username: string)
    requires UniqueNames(db)
    ensures Disabled(db, username).Ok?
       <==> exists id :: id in db.accounts && db.accounts[id].username == username
              && (db.accounts[id].isAdmin && !db.accounts[id].disabled ==>
                    exists other :: other in db.accounts && other != id && db.accounts[other].isAdmin
                                    && !db.accounts[other].disabled)
  {
    if HasUser(db, username) {
      var id := IdOf(db, username);
      var account := db.accounts[id];
      if account.isAdmin && !account.disabled && Disabled(db, username).Ok? {
        var other :| other in Admins(db) && other != id && !db.accounts[other].disabled;
        assert other in db.accounts && db.accounts[other].isAdmin;
      }
    }
  }

  /** Enabling lets the stored password in again, and no token. */
  lemma EnabledLetsIn(db: Db, username: string)
    requires UniqueNames(db)
    ensures Enabled(db, username).Ok? <==> HasUser(db, username)
    ensures Enabled(db, username).Ok? ==>
      var t := Enabled(db, username).value;
      && UniqueNames(t) && t.tokens == db.tokens && t.accounts.Keys == db.accounts.Keys
      && exists id :: id in db.accounts && db.accounts[id].username == username
           && Checked(t, username, db.accounts[id].password) == Ok(id)
           && forall other | other in db.accounts && other != id :: t.accounts[other] == db.accounts[other]
  {
    if HasUser(db, username) {
      var t, id := Enabled(db, username).value, IdOf(db, username);
      assert forall i | i in t.accounts :: t.accounts[i].username == db.accounts[i].username;
      CheckedExactly(t, username, db.accounts[id].password);
      assert Opens(t, id, username, db.accounts[id].password);
    }
  }

  /** An invite is redeemed exactly if it is known, unused and not expired and the name is free; then
      the account opens with the given password and is no admin, and the invite is used up. */
  lemma RedeemedExactly(db: Db, token: Token, username: string, password: string, now: int)
    requires NamesOk(db) && forall g | g in db.access :: g.account in db.accounts
    ensures var r := Redeemed(db, token, username, password, now);
      && (r.Ok? <==>
            && Sha(token) in db.invites && !db.invites[Sha(token)].used && now < db.invites[Sha(token)].expiry
            && forall id | id in db.accounts :: db.accounts[id].username != username)
      && (r.Ok? ==>
            && UniqueNames(r.value) && Opens(r.value, db.nextId, username, password)
            && !r.value.accounts[db.nextId].isAdmin && r.value.invites[Sha(token)].used
            && Redeemed(r.value, token, username, password, now) == Err(BadToken))
  {
  }

  /** A new invite can be redeemed by whoever takes a free name, up to the expiry it was given. */
  lemma InvitedExactly(db: Db, token: Token, repo: string, role: Role, expiry: int, username: string, password: string,
                       now: int)
    requires NamesOk(db) && forall g | g in db.access :: g.account in db.accounts
    ensures Invited(db, token, repo, role, expiry).Ok? <==> Sha(token) !in db.invites
    ensures Invited(db, token, repo, role, expiry).Ok? ==>
      var t := Invited(db, token, repo, role, expiry).value;
      var r := Redeemed(t, token, username, password, now);
      && (r.Ok? <==> now < expiry && forall id | id in db.accounts :: db.accounts[id].username != username)
      && (r.Ok? ==> r.value.access == db.access[Grant(db.nextId, repo) := role])
  {
    if Invited(db, token, repo, role, expiry).Ok? {
      RedeemedExactly(Invited(db, token, repo, role, expiry).value, token, username, password, now);
    }
  }

  /** Granting sets the role of that account in that repository and no other. */
  lemma GrantedExactly(db: Db, id: nat, repo: string, role: Role, g: Grant)
    ensures var t := Granted(db, id, repo, role);
      && (g in t.access <==> g in db.access || g == Grant(id, repo))
      && (g in t.access ==> t.access[g] == if g == Grant(id, repo) then role else db.access[g])
      && t.accounts == db.accounts && t.tokens == db.tokens && t.invites == db.invites && t.bootstrap == db.bootstrap
  {
  }

  /** The bootstrap token makes an admin exactly once, with the given password. */
  lemma BootstrappedExactly(db: Db, token: Token, username: string, password: string)
    requires NamesOk(db)
    ensures var r := Bootstrapped(db, token, username, password);
      && (r.Ok? <==>
            && Sha(token) in db.bootstrap && !db.bootstrap[Sha(token)]
            && forall id | id in db.accounts :: db.accounts[id].username != username)
      && (r.Ok? ==>
            && UniqueNames(r.value) && Opens(r.value, db.nextId, username, password)
            && r.value.accounts[db.nextId].isAdmin
            && Bootstrapped(r.value, token, username, password) == Err(BadToken))
  {
  }

  // ---- what a token goes back to ----

  /** The i-th operation made the account with that name and password. */
  predicate MadeAt(ops: seq<Op>, i: nat, id: nat, username: string, password: string)
    requires i < |ops|
  {
    && (ops[i].Bootstrap? || ops[i].Redeem?) && ops[i].username == username && ops[i].password == password
    && id !in Run(ops[..i]).db.accounts && id in Run(ops[..i + 1]).db.accounts
  }

  ghost predicate Made(ops: seq<Op>, id: nat, username: string, password: string) {
    exists i :: 0 <= i < |ops| && MadeAt(ops, i, id, username, password)
  }

  /** The account was made, and then the session presented its name and password. */
  ghost predicate Presented(ops: seq<Op>, id: nat, session: Session) {
    exists i, j :: 0 <= i < j < |ops| && ops[j].Check? && ops[j].session == session
                   && MadeAt(ops, i, id, ops[j].username, ops[j].password)
  }

  /** The account was made, then a session presented its name and password, then that session was
      issued the token. */
  ghost predicate Earned(ops: seq<Op>, id: nat, token: Token) {
    exists i, j, k ::
      && 0 <= i < j < k < |ops| && ops[k].Issue? && ops[k].token == token
      && ops[j].Check? && ops[j].session == ops[k].session
      && MadeAt(ops, i, id, ops[j].username, ops[j].password)
  }

  lemma MadeAtPrefix(ops: seq<Op>, n: nat, i: nat, id: nat, username: string, password: string)
    requires i < n <= |ops|
    ensures MadeAt(ops[..n], i, id, username, password) == MadeAt(ops, i, id, username, password)
  {
    assert ops[..n][..i] == ops[..i] && ops[..n][..i + 1] == ops[..i + 1];
  }

  /** No operation changes the name or the password of an account, and a new account has those of the
      operation that makes it. */
  lemma StepAccounts(w: World, op: Op)
    requires NamesOk(w.db)
    ensures forall id | id in w.db.accounts ::
      && id in Step(w, op).db.accounts && Step(w, op).db.accounts[id].username == w.db.accounts[id].username
      && Step(w, op).db.accounts[id].password == w.db.accounts[id].password
    ensures forall id | id in Step(w, op).db.accounts && id !in w.db.accounts ::
      && (op.Bootstrap? || op.Redeem?) && Step(w, op).db.accounts[id].username == op.username
      && Step(w, op).db.accounts[id].password == op.password
  {
  }

  lemma {:induction false} AccountsMade(ops: seq<Op>, id: nat)
    requires id in Run(ops).db.accounts
    ensures Made(ops, id, Run(ops).db.accounts[id].username, Run(ops).db.accounts[id].password)
  {
    hide Step, MadeAt;
    if ops != [] {
      var n := |ops| - 1;
      var w := Run(ops[..n]);
      StepAccounts(w, ops[n]);
      var a := Run(ops).db.accounts[id];
      if id in w.db.accounts {
        AccountsMade(ops[..n], id);
        var i :| 0 <= i < n && MadeAt(ops[..n], i, id, a.username, a.password);
        MadeAtPrefix(ops, n, i, id, a.username, a.password);
      } else {
        MadeNow(ops, id);
      }
    }
  }

  lemma MadeNow(ops: seq<Op>, id: nat)
    requires ops != [] && id in Run(ops).db.accounts && id !in Run(ops[..|ops| - 1]).db.accounts
    ensures var a := Run(ops).db.accounts[id]; MadeAt(ops, |ops| - 1, id, a.username, a.password)
  {
    hide Step;
    var n := |ops| - 1;
    StepAccounts(Run(ops[..n]), ops[n]);
    assert ops[..n + 1] == ops;
  }

  lemma PresentedExtends(ops: seq<Op>, n: nat, id: nat, session: Session)
    requires n <= |ops| && Presented(ops[..n], id, session)
    ensures Presented(ops, id, session)
  {
    hide MadeAt;
    var i, j :| 0 <= i < j < n && ops[..n][j].Check? && ops[..n][j].session == session
                && MadeAt(ops[..n], i, id, ops[..n][j].username, ops[..n][j].password);
    MadeAtPrefix(ops, n, i, id, ops[j].username, ops[j].password);
  }

  /** What one operation does to the sessions. */
  lemma StepSessions(w: World, op: Op)
    requires NamesOk(w.db)
    ensures forall s | s in Step(w, op).sessions ::
      || (s in w.sessions && Step(w, op).sessions[s] == w.sessions[s])
      || (op.Check? && op.session == s && Opens(w.db, Step(w, op).sessions[s], op.username, op.password))
  {
    hide Ensured, Bootstrapped, Invited, Redeemed, Issued, Disabled, Enabled, Granted;
    if op.Check? {
      CheckedExactly(w.db, op.username, op.password);
    }
  }

  lemma {:induction false} SessionsPresented(ops: seq<Op>, session: Session)
    requires session in Run(ops).sessions
    ensures Presented(ops, Run(ops).sessions[session], session)
  {
    hide Step, MadeAt;
    if ops != [] {
      var n := |ops| - 1;
      var w, id := Run(ops[..n]), Run(ops).sessions[session];
      StepSessions(w, ops[n]);
      if session in w.sessions && w.sessions[session] == id {
        SessionsPresented(ops[..n], session);
        PresentedExtends(ops, n, id, session);
      } else {
        AccountsMade(ops[..n], id);
        var i :| 0 <= i < n && MadeAt(ops[..n], i, id, ops[n].username, ops[n].password);
        MadeAtPrefix(ops, n, i, id, ops[n].username, ops[n].password);
      }
    }
  }

  lemma EarnedExtends(ops: seq<Op>, n: nat, id: nat, token: Token)
    requires n <= |ops| && Earned(ops[..n], id, token)
    ensures Earned(ops, id, token)
  {
    hide MadeAt;
    var p := ops[..n];
    var i, j, k :|
      && 0 <= i < j < k < n && p[k].Issue? && p[k].token == token
      && p[j].Check? && p[j].session == p[k].session
      && MadeAt(p, i, id, p[j].username, p[j].password);
    MadeAtPrefix(ops, n, i, id, ops[j].username, ops[j].password);
    assert ops[k] == p[k] && ops[j] == p[j];
  }

  /** What one operation does to the tokens. */
  lemma StepTokens(w: World, op: Op)
    requires NamesOk(w.db)
    ensures forall h | h in Step(w, op).db.tokens ::
      || (h in w.db.tokens && Step(w, op).db.tokens[h].account == w.db.tokens[h].account)
      || (op.Issue? && h == Sha(op.token) && op.session in w.sessions
          && Step(w, op).db.tokens[h].account == w.sessions[op.session])
  {
  }

  /** In every run each stored token was issued to a session that had presented the very name and
      password its account was made with. */
  lemma {:induction false} TokensAreEarned(ops: seq<Op>, token: Token)
    requires Sha(token) in Run(ops).db.tokens
    ensures Earned(ops, Run(ops).db.tokens[Sha(token)].account, token)
  {
    hide Step, MadeAt;
    if ops != [] {
      var n := |ops| - 1;
      var w, id := Run(ops[..n]), Run(ops).db.tokens[Sha(token)].account;
      StepTokens(w, ops[n]);
      if Sha(token) in w.db.tokens && w.db.tokens[Sha(token)].account == id {
        TokensAreEarned(ops[..n], token);
        EarnedExtends(ops, n, id, token);
      } else {
        SessionsPresented(ops[..n], ops[n].session);
        var p := ops[..n];
        var i, j :| 0 <= i < j < n && p[j].Check? && p[j].session == ops[n].session
                    && MadeAt(p, i, id, p[j].username, p[j].password);
        MadeAtPrefix(ops, n, i, id, ops[j].username, ops[j].password);
        assert ops[j] == p[j];
      }
    }
  }
}
