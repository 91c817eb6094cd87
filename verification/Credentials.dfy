/** Refresh-token rotation and single-use password resets.

    Every request runs alone: the code takes no row lock, so two requests that redeem one token at the
    same moment are outside this model. A token stands for its hash, and new tokens never repeat. */
module Credentials {
  import opened Wrappers
  import opened Text
  import opened Splitting

  type Email = string
  type Token = nat

  datatype User = User(password: Option<string>, googleSub: Option<string>)

  datatype RefreshRow = RefreshRow(user: Email, expires: int, revoked: Option<int>)

  datatype ResetRow = ResetRow(user: Email, expires: int, used: Option<int>)

  datatype Accounts = Accounts(
    users: map<Email, User>, refresh: map<Token, RefreshRow>, resets: map<Token, ResetRow>)

  datatype Lifetimes = Lifetimes(refresh: int, reset: int)

  datatype Request =
    | SignUp(email: string, password: string, token: Token, now: int)
    | SignIn(email: string, password: string, token: Token, now: int)
    | GoogleSignIn(account: Email, sub: string, token: Token, now: int)
    | Refresh(presented: Token, token: Token, now: int)
    | SignOut(presented: Token, now: int)
    | RequestReset(email: string, token: Token, now: int)
    | ResetPassword(presented: Token, password: string, now: int)

  datatype Reply = SignedIn(user: Email, token: Token) | PasswordSet(user: Email) | Silent | Refused

  function Normalize(email: string): Email {
    LowerAll(Strip(email))
  }

  predicate Expired(expires: int, now: int) {
    expires <= now
  }

  /** New tokens are never ones that the tables hold. */
  predicate Possible(db: Accounts, r: Request) {
    match r
    case SignUp(_, _, token, _) => token !in db.refresh
    case SignIn(_, _, token, _) => token !in db.refresh
    case GoogleSignIn(_, _, token, _) => token !in db.refresh
    case Refresh(_, token, _) => token !in db.refresh
    case SignOut(_, _) => true
    case RequestReset(_, token, _) => token !in db.resets
    case ResetPassword(_, _, _) => true
  }

  function WithSession(db: Accounts, life: Lifetimes, user: Email, token: Token, now: int): Accounts {
    db.(refresh := db.refresh[token := RefreshRow(user, now + life.refresh, None)])
  }

  function RevokeAll(refresh: map<Token, RefreshRow>, user: Email, now: int): map<Token, RefreshRow> {
    map t | t in refresh ::
      if refresh[t].user == user && refresh[t].revoked.None? then refresh[t].(revoked := Some(now)) else refresh[t]
  }

  function SpendAll(resets: map<Token, ResetRow>, user: Email, now: int): map<Token, ResetRow> {
    map t | t in resets ::
      if resets[t].user == user && resets[t].used.None? then resets[t].(used := Some(now)) else resets[t]
  }

  predicate Redeemable(db: Accounts, presented: Token, now: int) {
    && presented in db.refresh && db.refresh[presented].revoked.None?
    && !Expired(db.refresh[presented].expires, now) && db.refresh[presented].user in db.users
  }

  predicate ResetRedeemable(db: Accounts, presented: Token, now: int) {
    && presented in db.resets && db.resets[presented].used.None?
    && !Expired(db.resets[presented].expires, now) && db.resets[presented].user in db.users
  }

  /** A Google-only account has no password to reset. */
  predicate Resettable(db: Accounts, email: Email) {
    email in db.users && !(db.users[email].password.None? && db.users[email].googleSub.Some?)
  }

  function Handle(db: Accounts, life: Lifetimes, r: Request): (Accounts, Reply) {
    match r
    case SignUp(email, password, token, now) =>
      var user := Normalize(email);
      if user in db.users then (db, Refused)
      else (WithSession(db.(users := db.users[user := User(Some(password), None)]), life, user, token, now),
            SignedIn(user, token))
    case SignIn(email, password, token, now) =>
      var user := Normalize(email);
      if user in db.users && db.users[user].password == Some(password)
      then (WithSession(db, life, user, token, now), SignedIn(user, token))
      else (db, Refused)
    case GoogleSignIn(account, sub, token, now) =>
      var row := if account in db.users then db.users[account].(googleSub := Some(sub)) else User(None, Some(sub));
      (WithSession(db.(users := db.users[account := row]), life, account, token, now), SignedIn(account, token))
    case Refresh(presented, token, now) =>
      if !Redeemable(db, presented, now) then (db, Refused)
      else
        var row := db.refresh[presented];
        var revoked := db.(refresh := db.refresh[presented := row.(revoked := Some(now))]);
        (WithSession(revoked, life, row.user, token, now), SignedIn(row.user, token))
    case SignOut(presented, now) =>
      if presented in db.refresh && db.refresh[presented].revoked.None?
      then (db.(refresh := db.refresh[presented := db.refresh[presented].(revoked := Some(now))]), Silent)
      else (db, Silent)
    case RequestReset(email, token, now) =>
      var user := Normalize(email);
      if !Resettable(db, user) then (db, Silent)
      else (db.(resets := SpendAll(db.resets, user, now)[token := ResetRow(user, now + life.reset, None)]), Silent)
    case ResetPassword(presented, password, now) =>
      if !ResetRedeemable(db, presented, now) then (db, Refused)
      else
        var row := db.resets[presented];
        (Accounts(db.users[row.user := db.users[row.user].(password := Some(password))],
                  RevokeAll(db.refresh, row.user, now),
                  db.resets[presented := row.(used := Some(now))]),
         PasswordSet(row.user))
  }

  /** The account tables and the requests that change them. */
  class AuthStore {
    var users: map<Email, User>
    var refresh: map<Token, RefreshRow>
    var resets: map<Token, ResetRow>

    ghost function State(): Accounts
      reads this
    {
      Accounts(users, refresh, resets)
    }

    constructor ()
      ensures State() == Accounts(map[], map[], map[])
    {
      users, refresh, resets := map[], map[], map[];
    }

    method IssueSession(life: Lifetimes, user: Email, token: Token, now: int)
      modifies this`refresh
      ensures State() == WithSession(old(State()), life, user, token, now)
    {
      refresh := refresh[token := RefreshRow(user, now + life.refresh, None)];
    }

    method RefreshSession(life: Lifetimes, presented: Token, token: Token, now: int) returns (reply: Reply)
      modifies this
      ensures (State(), reply) == Handle(old(State()), life, Refresh(presented, token, now))
    {
      if presented !in refresh || refresh[presented].revoked.Some? || Expired(refresh[presented].expires, now) {
        return Refused;
      }
      var row := refresh[presented];
      if row.user !in users {
        return Refused;
      }
      refresh := refresh[presented := row.(revoked := Some(now))];
      IssueSession(life, row.user, token, now);
      return SignedIn(row.user, token);
    }

    method RevokeSession(presented: Token, now: int)
      modifies this`refresh
      ensures forall life :: State() == Handle(old(State()), life, SignOut(presented, now)).0
    {
      if presented in refresh && refresh[presented].revoked.None? {
        refresh := refresh[presented := refresh[presented].(revoked := Some(now))];
      }
    }

    method RequestPasswordReset(life: Lifetimes, email: string, token: Token, now: int)
      modifies this`resets
      ensures State() == Handle(old(State()), life, RequestReset(email, token, now)).0
    {
      var user := Normalize(email);
      if user !in users {
        return;
      }
      if users[user].password.None? && users[user].googleSub.Some? {
        return;
      }
      resets := map t | t in resets ::
        if resets[t].user == user && resets[t].used.None? then resets[t].(used := Some(now)) else resets[t];
      resets := resets[token := ResetRow(user, now + life.reset, None)];
    }

    method RedeemReset(life: Lifetimes, presented: Token, password: string, now: int) returns (reply: Reply)
      modifies this
      ensures (State(), reply) == Handle(old(State()), life, ResetPassword(presented, password, now))
    {
      if presented !in resets || resets[presented].used.Some? || Expired(resets[presented].expires, now) {
        return Refused;
      }
      var row := resets[presented];
      if row.user !in users {
        return Refused;
      }
      users := users[row.user := users[row.user].(password := Some(password))];
      resets := resets[presented := row.(used := Some(now))];
      refresh := map t | t in refresh ::
        if refresh[t].user == row.user && refresh[t].revoked.None? then refresh[t].(revoked := Some(now)) else refresh[t];
      return PasswordSet(row.user);
    }
  }

  // ---- Runs of requests ----

  ghost predicate Run(db: Accounts, life: Lifetimes, rs: seq<Request>)
    decreases |rs|
  {
    rs == [] || (Possible(db, rs[0]) && Run(Handle(db, life, rs[0]).0, life, rs[1..]))
  }

  ghost function After(db: Accounts, life: Lifetimes, rs: seq<Request>): Accounts
    decreases |rs|
  {
    if rs == [] then db else After(Handle(db, life, rs[0]).0, life, rs[1..])
  }

  /** The reply to request `i` of a run. */
  ghost function ReplyTo(db: Accounts, life: Lifetimes, rs: seq<Request>, i: nat): Reply
    requires i < |rs|
    decreases |rs|
  {
    if i == 0 then Handle(db, life, rs[0]).1 else ReplyTo(Handle(db, life, rs[0]).0, life, rs[1..], i - 1)
  }

  predicate Revoked(db: Accounts, t: Token) {
    t in db.refresh && db.refresh[t].revoked.Some?
  }

  predicate Spent(db: Accounts, t: Token) {
    t in db.resets && db.resets[t].used.Some?
  }

  /** A revoked session or a spent reset never works again, whatever follows. */
  lemma {:induction false} DeadTokensStayDead(db: Accounts, life: Lifetimes, rs: seq<Request>, i: nat)
    requires Run(db, life, rs) && i < |rs|
    ensures rs[i].Refresh? && Revoked(db, rs[i].presented) ==> ReplyTo(db, life, rs, i) == Refused
    ensures rs[i].ResetPassword? && Spent(db, rs[i].presented) ==> ReplyTo(db, life, rs, i) == Refused
    decreases |rs|
  {
    if i > 0 {
      StepKeepsDead(db, life, rs[0]);
      DeadTokensStayDead(Handle(db, life, rs[0]).0, life, rs[1..], i - 1);
    }
  }

  lemma {:induction false} StepKeepsDead(db: Accounts, life: Lifetimes, r: Request)
    requires Possible(db, r)
    ensures forall t :: Revoked(db, t) ==> Revoked(Handle(db, life, r).0, t)
    ensures forall t :: Spent(db, t) ==> Spent(Handle(db, life, r).0, t)
  {
  }

  /** A redeemed token was alive and unexpired and dies with the request, and so does a signed-out one. */
  lemma {:induction false} WhatAStepKills(db: Accounts, life: Lifetimes, r: Request)
    requires Possible(db, r)
    ensures var (after, reply) := Handle(db, life, r);
            && (r.Refresh? && reply != Refused ==>
                  Redeemable(db, r.presented, r.now) && Revoked(after, r.presented))
            && (r.SignOut? && r.presented in db.refresh ==> Revoked(after, r.presented))
            && (r.ResetPassword? && reply != Refused ==>
                  && ResetRedeemable(db, r.presented, r.now) && Spent(after, r.presented)
                  && r.now < db.resets[r.presented].expires)
  {
  }

  predicate Refreshes(r: Request, t: Token) {
    r.Refresh? && r.presented == t
  }

  predicate SignsOut(r: Request, t: Token) {
    r.SignOut? && r.presented == t
  }

  predicate Resets(r: Request, t: Token) {
    r.ResetPassword? && r.presented == t
  }

  /** In any run a refresh token and a reset token are each redeemed at most once, and a session that was
      signed out is never refreshed. */
  lemma {:induction false} TokensAreRedeemedOnce(
    db: Accounts, life: Lifetimes, rs: seq<Request>, i: nat, j: nat, t: Token)
    requires Run(db, life, rs) && i < j < |rs|
    ensures Refreshes(rs[i], t) && Refreshes(rs[j], t) && ReplyTo(db, life, rs, i) != Refused ==>
      ReplyTo(db, life, rs, j) == Refused
    ensures SignsOut(rs[i], t) && Refreshes(rs[j], t) && t in After(db, life, rs[..i]).refresh ==>
      ReplyTo(db, life, rs, j) == Refused
    ensures Resets(rs[i], t) && Resets(rs[j], t) && ReplyTo(db, life, rs, i) != Refused ==>
      ReplyTo(db, life, rs, j) == Refused
    decreases |rs|
  {
    if i == 0 {
      WhatAStepKills(db, life, rs[0]);
      DeadTokensStayDead(Handle(db, life, rs[0]).0, life, rs[1..], j - 1);
    } else {
      TokensAreRedeemedOnce(Handle(db, life, rs[0]).0, life, rs[1..], i - 1, j - 1, t);
      assert rs[..i][1..] == rs[1..][..i - 1];
    }
  }

  function UnrevokedTokens(db: Accounts, user: Email): set<Token> {
    set t | t in db.refresh && db.refresh[t].user == user && db.refresh[t].revoked.None?
  }

  /** What rotation does to the live tokens of its owner, and of anybody else. */
  lemma {:induction false} RotationSwapsToken(db: Accounts, life: Lifetimes, r: Request, user: Email)
    requires Possible(db, r) && r.Refresh? && Redeemable(db, r.presented, r.now)
    ensures var before, after := UnrevokedTokens(db, user), UnrevokedTokens(Handle(db, life, r).0, user);
            if user == db.refresh[r.presented].user
            then r.presented in before && r.token !in before && after == before - {r.presented} + {r.token}
            else after == before
  {
    var row, next := db.refresh[r.presented], Handle(db, life, r).0;
    assert next.refresh == db.refresh[r.presented := row.(revoked := Some(r.now))]
                                     [r.token := RefreshRow(row.user, r.now + life.refresh, None)];
  }

  /** Rotation trades one live token of a user for one new one, so their number stays the same. */
  lemma {:induction false} RotationPreservesSessions(db: Accounts, life: Lifetimes, r: Request, user: Email)
    requires Possible(db, r) && r.Refresh? && Handle(db, life, r).1 != Refused
    ensures var before, after := UnrevokedTokens(db, user), UnrevokedTokens(Handle(db, life, r).0, user);
            && |after| == |before|
            && (user == Handle(db, life, r).1.user ==>
                  r.presented in before && after == before - {r.presented} + {r.token})
            && (user != Handle(db, life, r).1.user ==> after == before)
  {
    RotationSwapsToken(db, life, r, user);
  }

  /** No user has two unspent reset tokens. */
  ghost predicate OneOpenReset(db: Accounts) {
    forall t, u :: t in db.resets && u in db.resets && t != u && db.resets[t].user == db.resets[u].user ==>
      db.resets[t].used.Some? || db.resets[u].used.Some?
  }

  lemma {:induction false} OneOpenResetKept(db: Accounts, life: Lifetimes, r: Request)
    requires Possible(db, r) && OneOpenReset(db)
    ensures OneOpenReset(Handle(db, life, r).0)
  {
  }

  lemma {:induction false} OneOpenResetAlways(db: Accounts, life: Lifetimes, rs: seq<Request>)
    requires Run(db, life, rs) && OneOpenReset(db)
    ensures OneOpenReset(After(db, life, rs))
    decreases |rs|
  {
    if rs != [] {
      OneOpenResetKept(db, life, rs[0]);
      OneOpenResetAlways(Handle(db, life, rs[0]).0, life, rs[1..]);
    }
  }

  /** A reset ends everything issued before it: all sessions of the user are revoked, all reset tokens of
      the user are spent, and the password is the new one. */
  lemma {:induction false} ResetEndsEverything(db: Accounts, life: Lifetimes, r: Request)
    requires Possible(db, r) && OneOpenReset(db) && r.ResetPassword? && Handle(db, life, r).1.PasswordSet?
    ensures var (after, reply) := Handle(db, life, r);
            && (forall t :: t in db.refresh && db.refresh[t].user == reply.user ==> Revoked(after, t))
            && (forall t :: t in db.resets && db.resets[t].user == reply.user ==> Spent(after, t))
            && reply.user in after.users && after.users[reply.user].password == Some(r.password)
            && UnrevokedTokens(after, reply.user) == {}
  {
  }

  /** After a reset at request `i`, no refresh token and no reset token that the user had before it works. */
  lemma {:induction false} NothingOldWorksAfterReset(db: Accounts, life: Lifetimes, rs: seq<Request>, i: nat, j: nat)
    requires Run(db, life, rs) && OneOpenReset(db) && i < j < |rs|
    requires rs[i].ResetPassword? && ReplyTo(db, life, rs, i).PasswordSet?
    ensures var (before, user) := (After(db, life, rs[..i]), ReplyTo(db, life, rs, i).user);
            && (rs[j].Refresh? && rs[j].presented in before.refresh && before.refresh[rs[j].presented].user == user ==>
                  ReplyTo(db, life, rs, j) == Refused)
            && (rs[j].ResetPassword? && rs[j].presented in before.resets && before.resets[rs[j].presented].user == user ==>
                  ReplyTo(db, life, rs, j) == Refused)
    decreases |rs|
  {
    if i == 0 {
      ResetEndsEverything(db, life, rs[0]);
      DeadTokensStayDead(Handle(db, life, rs[0]).0, life, rs[1..], j - 1);
    } else {
      OneOpenResetKept(db, life, rs[0]);
      NothingOldWorksAfterReset(Handle(db, life, rs[0]).0, life, rs[1..], i - 1, j - 1);
      assert rs[..i][1..] == rs[1..][..i - 1];
    }
  }

  /** Whoever is signed in gets a session that works until its expiry and not longer, and so does a reset
      token that is handed out; an address without a resettable account changes nothing. */
  lemma {:induction false} NewTokensWorkUntilExpiry(db: Accounts, life: Lifetimes, r: Request, later: int)
    requires Possible(db, r)
    ensures var (after, reply) := Handle(db, life, r);
            && (reply.SignedIn? ==>
                  && reply.token in after.refresh && after.refresh[reply.token].user == reply.user
                  && (Redeemable(after, reply.token, later) <==> later < r.now + life.refresh))
            && (r.RequestReset? && Resettable(db, Normalize(r.email)) ==>
                  && r.token in after.resets && after.resets[r.token].user == Normalize(r.email)
                  && (ResetRedeemable(after, r.token, later) <==> later < r.now + life.reset))
            && (r.RequestReset? && !Resettable(db, Normalize(r.email)) ==> after == db)
  {
  }

  lemma {:induction false} StepKeepsExpiry(db: Accounts, life: Lifetimes, r: Request)
    requires Possible(db, r)
    ensures var after := Handle(db, life, r).0;
            && (forall t :: t in db.refresh ==> t in after.refresh && after.refresh[t].expires == db.refresh[t].expires)
            && (forall t :: t in db.resets ==> t in after.resets && after.resets[t].expires == db.resets[t].expires)
  {
  }

  /** A token that the tables hold is redeemed, however much later, only before its expiry. */
  lemma {:induction false} RedeemedBeforeExpiry(db: Accounts, life: Lifetimes, rs: seq<Request>, j: nat, t: Token)
    requires Run(db, life, rs) && j < |rs| && ReplyTo(db, life, rs, j) != Refused
    ensures Refreshes(rs[j], t) && t in db.refresh ==> rs[j].now < db.refresh[t].expires
    ensures Resets(rs[j], t) && t in db.resets ==> rs[j].now < db.resets[t].expires
    decreases |rs|
  {
    if j > 0 {
      StepKeepsExpiry(db, life, rs[0]);
      RedeemedBeforeExpiry(Handle(db, life, rs[0]).0, life, rs[1..], j - 1, t);
    }
  }

  lemma {:induction false} IssuedWithLifetime(db: Accounts, life: Lifetimes, r: Request)
    requires Possible(db, r)
    ensures var (after, reply) := Handle(db, life, r);
            && (reply.SignedIn? ==> reply.token in after.refresh && after.refresh[reply.token].expires == r.now + life.refresh)
            && (r.RequestReset? && r.token in after.resets ==> after.resets[r.token].expires == r.now + life.reset)
  {
  }

  /** Never at or after expiry, in any run: a session token handed out at request i and redeemed at request j,
      and a reset token likewise, is redeemed less than its lifetime after it was handed out. */
  lemma {:induction false} RedeemedWithinLifetime(db: Accounts, life: Lifetimes, rs: seq<Request>, i: nat, j: nat)
    requires Run(db, life, rs) && i < j < |rs| && ReplyTo(db, life, rs, j) != Refused
    ensures ReplyTo(db, life, rs, i).SignedIn? && Refreshes(rs[j], ReplyTo(db, life, rs, i).token) ==>
      rs[j].now < rs[i].now + life.refresh
    ensures rs[i].RequestReset? && rs[i].token in After(db, life, rs[..i + 1]).resets && Resets(rs[j], rs[i].token) ==>
      rs[j].now < rs[i].now + life.reset
    decreases |rs|
  {
    var next := Handle(db, life, rs[0]).0;
    if i == 0 {
      IssuedWithLifetime(db, life, rs[0]);
      assert rs[..1][1..] == [];
      assert After(db, life, rs[..1]) == next;
      if rs[0].RequestReset? {
        RedeemedBeforeExpiry(next, life, rs[1..], j - 1, rs[0].token);
      }
      if ReplyTo(db, life, rs, 0).SignedIn? {
        RedeemedBeforeExpiry(next, life, rs[1..], j - 1, ReplyTo(db, life, rs, 0).token);
      }
    } else {
      RedeemedWithinLifetime(next, life, rs[1..], i - 1, j - 1);
      assert rs[..i + 1][1..] == rs[1..][..i];
    }
  }

  predicate SetsPassword(db: Accounts, life: Lifetimes, r: Request, user: Email, password: string) {
    || (r.SignUp? && r.password == password && Handle(db, life, r).1 == SignedIn(user, r.token))
    || (r.ResetPassword? && r.password == password && Handle(db, life, r).1 == PasswordSet(user))
  }

  lemma {:induction false} PasswordStays(db: Accounts, life: Lifetimes, rs: seq<Request>, user: Email)
    requires Run(db, life, rs) && user in db.users
    requires forall i :: 0 <= i < |rs| ==> ReplyTo(db, life, rs, i) != PasswordSet(user)
    ensures user in After(db, life, rs).users
    ensures After(db, life, rs).users[user].password == db.users[user].password
    decreases |rs|
  {
    if rs != [] {
      var next := Handle(db, life, rs[0]).0;
      assert ReplyTo(db, life, rs, 0) != PasswordSet(user);
      forall i | 0 <= i < |rs| - 1 ensures ReplyTo(next, life, rs[1..], i) != PasswordSet(user) {
        assert ReplyTo(db, life, rs, i + 1) != PasswordSet(user);
      }
      PasswordStays(next, life, rs[1..], user);
    }
  }

  /** From the request that sets a password until the next reset of that user, exactly that password
      signs the user in, whatever else happens in between. */
  lemma {:induction false} OnlyTheLatestPasswordSignsIn(
    db: Accounts, life: Lifetimes, rs: seq<Request>, user: Email, password: string, attempt: Request)
    requires Run(db, life, rs) && rs != [] && SetsPassword(db, life, rs[0], user, password)
    requires forall i :: 0 < i < |rs| ==> ReplyTo(db, life, rs, i) != PasswordSet(user)
    requires attempt.SignIn? && Normalize(attempt.email) == user
    ensures Handle(After(db, life, rs), life, attempt).1 ==
      if attempt.password == password then SignedIn(user, attempt.token) else Refused
  {
    var next := Handle(db, life, rs[0]).0;
    forall i | 0 <= i < |rs| - 1 ensures ReplyTo(next, life, rs[1..], i) != PasswordSet(user) {
      assert ReplyTo(db, life, rs, i + 1) != PasswordSet(user);
    }
    PasswordStays(next, life, rs[1..], user);
  }

  // ---- What a request leaves alone ----

  predicate Knows(db: Accounts, email: Email, password: string) {
    email in db.users && db.users[email].password == Some(password)
  }

  predicate AliveSession(db: Accounts, t: Token, now: int) {
    && t in db.refresh && db.refresh[t].revoked.None? && now < db.refresh[t].expires
    && db.refresh[t].user in db.users
  }

  predicate AliveReset(db: Accounts, t: Token, now: int) {
    && t in db.resets && db.resets[t].used.None? && now < db.resets[t].expires
    && db.resets[t].user in db.users
  }

  /** When each request is refused, and whom it signs in otherwise; a request for a reset and a sign-out say nothing. */
  lemma {:induction false} WhoIsLetIn(db: Accounts, life: Lifetimes, r: Request)
    ensures var reply := Handle(db, life, r).1;
            match r
            case SignUp(email, _, token, _) =>
              reply == if Normalize(email) in db.users then Refused else SignedIn(Normalize(email), token)
            case SignIn(email, password, token, _) =>
              reply == if Knows(db, Normalize(email), password) then SignedIn(Normalize(email), token) else Refused
            case GoogleSignIn(account, _, token, _) => reply == SignedIn(account, token)
            case Refresh(presented, token, now) =>
              reply == if AliveSession(db, presented, now) then SignedIn(db.refresh[presented].user, token) else Refused
            case ResetPassword(presented, _, now) =>
              reply == if AliveReset(db, presented, now) then PasswordSet(db.resets[presented].user) else Refused
            case _ => reply == Silent
  {
  }

  /** The account that a request is about, if it is about one. */
  function Subject(db: Accounts, r: Request): Option<Email> {
    match r
    case SignUp(email, _, _, _) => Some(Normalize(email))
    case SignIn(email, _, _, _) => Some(Normalize(email))
    case GoogleSignIn(account, _, _, _) => Some(account)
    case Refresh(presented, _, _) => if presented in db.refresh then Some(db.refresh[presented].user) else None
    case SignOut(presented, _) => if presented in db.refresh then Some(db.refresh[presented].user) else None
    case RequestReset(email, _, _) => Some(Normalize(email))
    case ResetPassword(presented, _, _) => if presented in db.resets then Some(db.resets[presented].user) else None
  }

  /** All that the tables hold of one account: its password and sign-in, its sessions, its reset tokens. */
  function Account(db: Accounts, user: Email): Accounts {
    Accounts(map u | u in db.users && u == user :: db.users[u],
             map t | t in db.refresh && db.refresh[t].user == user :: db.refresh[t],
             map t | t in db.resets && db.resets[t].user == user :: db.resets[t])
  }

  ghost predicate SameSessions(db: Accounts, after: Accounts, user: Email) {
    forall t :: SessionOf(db, t, user) == SessionOf(after, t, user)
  }

  ghost predicate SameResets(db: Accounts, after: Accounts, user: Email) {
    forall t :: ResetOf(db, t, user) == ResetOf(after, t, user)
  }

  function SessionOf(db: Accounts, t: Token, user: Email): Option<RefreshRow> {
    if t in db.refresh && db.refresh[t].user == user then Some(db.refresh[t]) else None
  }

  function ResetOf(db: Accounts, t: Token, user: Email): Option<ResetRow> {
    if t in db.resets && db.resets[t].user == user then Some(db.resets[t]) else None
  }

  lemma {:induction false} OtherSessionsKept(db: Accounts, life: Lifetimes, r: Request, user: Email)
    requires Possible(db, r) && Subject(db, r) != Some(user)
    ensures SameSessions(db, Handle(db, life, r).0, user)
  {
  }

  lemma {:induction false} OtherResetsKept(db: Accounts, life: Lifetimes, r: Request, user: Email)
    requires Possible(db, r) && Subject(db, r) != Some(user)
    ensures SameResets(db, Handle(db, life, r).0, user)
  {
  }

  lemma {:induction false} OtherUsersKept(db: Accounts, life: Lifetimes, r: Request, user: Email)
    requires Possible(db, r) && Subject(db, r) != Some(user)
    ensures var after := Handle(db, life, r).0;
            (user in after.users <==> user in db.users) && (user in db.users ==> after.users[user] == db.users[user])
  {
  }

  lemma {:induction false} SameAccount(db: Accounts, after: Accounts, user: Email)
    requires SameSessions(db, after, user) && SameResets(db, after, user)
    requires (user in after.users <==> user in db.users) && (user in db.users ==> after.users[user] == db.users[user])
    ensures Account(after, user) == Account(db, user)
  {
    var a, b := Account(after, user), Account(db, user);
    assert a.users == b.users;
    assert a.refresh == b.refresh by {
      forall t ensures (t in a.refresh <==> t in b.refresh) && (t in b.refresh ==> a.refresh[t] == b.refresh[t]) {
        assert SessionOf(db, t, user) == SessionOf(after, t, user);
      }
    }
    assert a.resets == b.resets by {
      forall t ensures (t in a.resets <==> t in b.resets) && (t in b.resets ==> a.resets[t] == b.resets[t]) {
        assert ResetOf(db, t, user) == ResetOf(after, t, user);
      }
    }
  }

  /** A request touches the account it is about and no other. */
  lemma {:induction false} OthersUntouched(db: Accounts, life: Lifetimes, r: Request, user: Email)
    requires Possible(db, r) && Subject(db, r) != Some(user)
    ensures Account(Handle(db, life, r).0, user) == Account(db, user)
  {
    OtherSessionsKept(db, life, r, user);
    OtherResetsKept(db, life, r, user);
    OtherUsersKept(db, life, r, user);
    SameAccount(db, Handle(db, life, r).0, user);
  }

  /** However many requests of others come in between, an account is left as it was. */
  lemma {:induction false} AccountsAreApart(db: Accounts, life: Lifetimes, rs: seq<Request>, user: Email)
    requires Run(db, life, rs)
    requires forall i: nat :: i < |rs| ==> Subject(After(db, life, rs[..i]), rs[i]) != Some(user)
    ensures Account(After(db, life, rs), user) == Account(db, user)
    decreases |rs|
  {
    if rs != [] {
      var next := Handle(db, life, rs[0]).0;
      assert rs[..0] == [];
      OthersUntouched(db, life, rs[0], user);
      forall i: nat | i < |rs| - 1 ensures Subject(After(next, life, rs[1..][..i]), rs[1..][i]) != Some(user) {
        assert rs[..i + 1][1..] == rs[1..][..i];
      }
      AccountsAreApart(next, life, rs[1..], user);
    }
  }

  // ---- How long a session and a reset token last ----

  /** What ends a live session of `user`: it is refreshed, it is signed out, or the user's password is reset. */
  predicate EndsSession(r: Request, reply: Reply, t: Token, user: Email) {
    || (r.Refresh? && r.presented == t && reply != Refused)
    || (r.SignOut? && r.presented == t)
    || (r.ResetPassword? && reply == PasswordSet(user))
  }

  predicate Open(db: Accounts, t: Token) {
    t in db.refresh && db.refresh[t].revoked.None?
  }

  lemma {:induction false} SessionStep(db: Accounts, life: Lifetimes, r: Request, t: Token)
    requires Possible(db, r) && Open(db, t)
    ensures var (after, reply) := Handle(db, life, r);
            && (Open(after, t) <==> !EndsSession(r, reply, t, db.refresh[t].user))
            && (Open(after, t) ==> after.refresh[t] == db.refresh[t])
            && (forall u :: u in db.users ==> u in after.users)
  {
  }

  /** In any run a session stays open, unchanged and redeemable until its expiry, exactly as long as no request
      ends it; above all, whatever happens to other users does not. */
  lemma {:induction false} SessionsLastUntilEnded(db: Accounts, life: Lifetimes, rs: seq<Request>, t: Token, now: int)
    requires Run(db, life, rs) && Open(db, t)
    ensures var after, user := After(db, life, rs), db.refresh[t].user;
            && (Open(after, t) <==> forall i :: 0 <= i < |rs| ==> !EndsSession(rs[i], ReplyTo(db, life, rs, i), t, user))
            && (Open(after, t) ==> after.refresh[t] == db.refresh[t])
            && (Open(after, t) && user in db.users ==> (AliveSession(after, t, now) <==> now < db.refresh[t].expires))
    decreases |rs|
  {
    if rs != [] {
      var next, user := Handle(db, life, rs[0]).0, db.refresh[t].user;
      SessionStep(db, life, rs[0], t);
      if Open(next, t) {
        SessionsLastUntilEnded(next, life, rs[1..], t, now);
        forall i | 0 <= i < |rs| - 1
          ensures ReplyTo(db, life, rs, i + 1) == ReplyTo(next, life, rs[1..], i) && rs[i + 1] == rs[1..][i]
        {
        }
        assert forall i :: 0 < i < |rs| ==> ReplyTo(db, life, rs, i) == ReplyTo(next, life, rs[1..], i - 1);
      } else {
        RevokedStays(next, life, rs[1..], t);
      }
    }
  }

  lemma {:induction false} RevokedStays(db: Accounts, life: Lifetimes, rs: seq<Request>, t: Token)
    requires Run(db, life, rs) && Revoked(db, t)
    ensures Revoked(After(db, life, rs), t)
    decreases |rs|
  {
    if rs != [] {
      StepKeepsDead(db, life, rs[0]);
      RevokedStays(Handle(db, life, rs[0]).0, life, rs[1..], t);
    }
  }

  predicate OpenReset(db: Accounts, t: Token) {
    t in db.resets && db.resets[t].used.None?
  }

  /** What ends an open reset token of `user`: it is redeemed, or a new one is asked for while the account
      is not one that only signs in with Google. */
  predicate EndsReset(db: Accounts, r: Request, reply: Reply, t: Token, user: Email) {
    || (r.ResetPassword? && r.presented == t && reply != Refused)
    || (r.RequestReset? && Normalize(r.email) == user && user in db.users
        && (db.users[user].password.Some? || db.users[user].googleSub.None?))
  }

  lemma {:induction false} ResetStep(db: Accounts, life: Lifetimes, r: Request, t: Token)
    requires Possible(db, r) && OpenReset(db, t)
    ensures var (after, reply) := Handle(db, life, r);
            && (OpenReset(after, t) <==> !EndsReset(db, r, reply, t, db.resets[t].user))
            && (OpenReset(after, t) ==> after.resets[t] == db.resets[t])
            && (forall u :: u in db.users ==> u in after.users)
  {
  }

  ghost predicate NeverEndsReset(db: Accounts, life: Lifetimes, rs: seq<Request>, t: Token, user: Email) {
    forall i: nat :: i < |rs| ==> !EndsResetAt(db, life, rs, i, t, user)
  }

  ghost predicate EndsResetAt(db: Accounts, life: Lifetimes, rs: seq<Request>, i: nat, t: Token, user: Email)
    requires i < |rs|
  {
    EndsReset(After(db, life, rs[..i]), rs[i], ReplyTo(db, life, rs, i), t, user)
  }

  lemma {:induction false} SameLater(
    db: Accounts, life: Lifetimes, rs: seq<Request>, next: Accounts, rest: seq<Request>, i: nat, t: Token, user: Email)
    requires rs != [] && rest == rs[1..] && next == Handle(db, life, rs[0]).0 && i < |rest|
    ensures EndsResetAt(db, life, rs, i + 1, t, user) <==> EndsResetAt(next, life, rest, i, t, user)
  {
    assert rs[..i + 1][1..] == rest[..i];
  }

  lemma {:induction false} NeverEndsLater(
    db: Accounts, life: Lifetimes, rs: seq<Request>, next: Accounts, rest: seq<Request>, t: Token, user: Email)
    requires rs != [] && rest == rs[1..] && next == Handle(db, life, rs[0]).0
    ensures NeverEndsReset(db, life, rs, t, user) <==>
      !EndsReset(db, rs[0], Handle(db, life, rs[0]).1, t, user) && NeverEndsReset(next, life, rest, t, user)
  {
    assert rs[..0] == [];
    forall i: nat | i < |rest|
      ensures EndsResetAt(db, life, rs, i + 1, t, user) <==> EndsResetAt(next, life, rest, i, t, user)
    {
      SameLater(db, life, rs, next, rest, i, t, user);
    }
    assert EndsResetAt(db, life, rs, 0, t, user) <==> EndsReset(db, rs[0], Handle(db, life, rs[0]).1, t, user);
    if i: nat :| i < |rs| && EndsResetAt(db, life, rs, i, t, user) {
      assert i > 0 ==> EndsResetAt(next, life, rest, i - 1, t, user);
    } else {
      forall i: nat | i < |rest| ensures !EndsResetAt(next, life, rest, i, t, user) {
        assert !EndsResetAt(db, life, rs, i + 1, t, user);
      }
    }
  }

  lemma {:induction false} SpentStays(db: Accounts, life: Lifetimes, rs: seq<Request>, t: Token)
    requires Run(db, life, rs) && Spent(db, t)
    ensures Spent(After(db, life, rs), t)
    decreases |rs|
  {
    if rs != [] {
      StepKeepsDead(db, life, rs[0]);
      SpentStays(Handle(db, life, rs[0]).0, life, rs[1..], t);
    }
  }

  /** In any run a reset token stays open, unchanged and redeemable until its expiry, exactly as long as no
      request ends it; what other users ask for or redeem does not. */
  lemma {:induction false} ResetsLastUntilEnded(db: Accounts, life: Lifetimes, rs: seq<Request>, t: Token, now: int)
    requires Run(db, life, rs) && OpenReset(db, t)
    ensures var after, user := After(db, life, rs), db.resets[t].user;
            && (OpenReset(after, t) <==> NeverEndsReset(db, life, rs, t, user))
            && (OpenReset(after, t) ==> after.resets[t] == db.resets[t])
            && (OpenReset(after, t) && user in db.users ==> (AliveReset(after, t, now) <==> now < db.resets[t].expires))
    decreases |rs|
  {
    if rs != [] {
      var next, user := Handle(db, life, rs[0]).0, db.resets[t].user;
      ResetStep(db, life, rs[0], t);
      NeverEndsLater(db, life, rs, next, rs[1..], t, user);
      if OpenReset(next, t) {
        ResetsLastUntilEnded(next, life, rs[1..], t, now);
      } else {
        SpentStays(next, life, rs[1..], t);
      }
    }
  }

  // ---- What changes in a row ----

  /** A session row is kept, or ended now; a new one is unrevoked and lasts its lifetime. */
  ghost predicate SessionRowsStep(db: Accounts, after: Accounts, life: Lifetimes, now: int) {
    && (forall t :: t in db.refresh ==> (t in after.refresh && (
          after.refresh[t] == db.refresh[t] ||
          (db.refresh[t].revoked.None? && after.refresh[t] == db.refresh[t].(revoked := Some(now))))))
    && (forall t :: t in after.refresh && t !in db.refresh ==>
          after.refresh[t].revoked.None? && after.refresh[t].expires == now + life.refresh)
  }

  /** A reset row is kept, or spent now; a new one is unspent and lasts its lifetime. */
  ghost predicate ResetRowsStep(db: Accounts, after: Accounts, life: Lifetimes, now: int) {
    && (forall t :: t in db.resets ==> (t in after.resets && (
          after.resets[t] == db.resets[t] ||
          (db.resets[t].used.None? && after.resets[t] == db.resets[t].(used := Some(now))))))
    && (forall t :: t in after.resets && t !in db.resets ==>
          after.resets[t].used.None? && after.resets[t].expires == now + life.reset)
  }

  lemma {:induction false} SessionRowsChange(db: Accounts, life: Lifetimes, r: Request)
    requires Possible(db, r)
    ensures SessionRowsStep(db, Handle(db, life, r).0, life, r.now)
  {
  }

  lemma {:induction false} ResetRowsChange(db: Accounts, life: Lifetimes, r: Request)
    requires Possible(db, r)
    ensures ResetRowsStep(db, Handle(db, life, r).0, life, r.now)
  {
  }

  /** A request changes a user's row in one way only: a reset sets the password, a Google sign-in links the
      Google account, and both leave the other column as it was. */
  lemma {:induction false} UserRowsChange(db: Accounts, life: Lifetimes, r: Request, user: Email)
    requires Possible(db, r) && user in db.users
    ensures var (after, reply) := Handle(db, life, r);
            && user in after.users
            && after.users[user].password
                 == (if r.ResetPassword? && reply == PasswordSet(user) then Some(r.password) else db.users[user].password)
            && after.users[user].googleSub
                 == (if r.GoogleSignIn? && r.account == user then Some(r.sub) else db.users[user].googleSub)
  {
  }

  /** A user comes into being by signing up with a password or by the first Google sign-in, and in no other way. */
  lemma {:induction false} NewUsers(db: Accounts, life: Lifetimes, r: Request, user: Email)
    requires Possible(db, r) && user !in db.users
    ensures var after := Handle(db, life, r).0;
            && (user in after.users <==>
                  (r.SignUp? && Normalize(r.email) == user) || (r.GoogleSignIn? && r.account == user))
            && (user in after.users ==>
                  after.users[user] == if r.SignUp? then User(Some(r.password), None) else User(None, Some(r.sub)))
  {
  }
}
