/**
 `BeaconClient`: authentication with the account-lock backoff, and the retry loop of
 `send_event` and `send_traffic`. The clock and every reply are arbitrary inputs of a
 call; ghost histories record the requests made and the time slept.
 */
module BeaconClient {
  import opened Wrappers

  const AUTH_BACKOFF := 30.0
  const MAX_ATTEMPTS := 3
  const LOCKED := 423

  /** `expires` is None when the token carries no readable expiry. */
  datatype Token = Token(expires: Option<real>)

  /** A login reply; `Broken` is a request that ends in an exception. */
  datatype LoginReply = LoginReply(status: int, token: Option<Token>) | Broken

  datatype Login = Login(start: real, finish: real, reply: LoginReply)

  datatype PostReply = Status(code: int) | NoReply

  datatype Post = Post(withToken: bool, reply: PostReply)

  predicate IsLock(l: Login) {
    l.reply.LoginReply? && l.reply.status == LOCKED
  }

  predicate Accepted(p: Post) {
    p.reply.Status? && (p.reply.code == 200 || p.reply.code == 201)
  }

  /** How long a login would take and how it would be answered. */
  datatype LoginStep = LoginStep(wait: real, reply: LoginReply)

  /** What one attempt of a send can meet: the time each step takes, on its own, and how each is answered. */
  datatype Attempt = Attempt(lockWait: real, refresh: LoginStep, registerWait: real, login: LoginStep,
                             postWait: real, post: PostReply, again: LoginStep)

  type Attempts = nat -> Attempt

  function Later(clock: real, wait: real): real {
    if wait > 0.0 then clock + wait else clock
  }

  function Backoff(attempt: nat): nat {
    if attempt == 0 then 1 else 2 * Backoff(attempt - 1)
  }

  /** What the backoff depends on, with every login and the number of agent registrations so far. */
  datatype AuthState = AuthState(token: Option<Token>, lastAuthFailure: real, clock: real,
                                 logins: seq<Login>, registrations: nat)

  predicate BackingOff(s: AuthState) {
    s.clock - s.lastAuthFailure < AUTH_BACKOFF
  }

  predicate Succeeds(reply: LoginReply) {
    reply.LoginReply? && reply.status in {200, 202}
  }

  /** What `_authenticate` returns. */
  predicate LogsIn(s: AuthState, step: LoginStep) {
    !BackingOff(s) && Succeeds(step.reply)
  }

  /** One `_authenticate` call. */
  function Authenticated(s: AuthState, step: LoginStep): AuthState {
    if BackingOff(s) then s
    else
      var finish := Later(s.clock, step.wait);
      var t := s.(clock := finish, logins := s.logins + [Login(s.clock, finish, step.reply)]);
      if Succeeds(step.reply) then t.(token := step.reply.token, lastAuthFailure := 0.0)
      else if step.reply.LoginReply? && step.reply.status == LOCKED then t.(lastAuthFailure := finish)
      else t
  }

  // ---- the account-lock backoff over whole runs ---------------------------

  /** Anything a client does between logins only lets time pass, drops the token or registers the agent. */
  datatype AuthEvent = Pass(wait: real) | DropToken | Register(wait: real) | TryLogin(step: LoginStep)

  function AuthStep(s: AuthState, e: AuthEvent): AuthState {
    match e
    case Pass(wait) => s.(clock := Later(s.clock, wait))
    case DropToken => s.(token := None)
    case Register(wait) => s.(clock := Later(s.clock, wait), registrations := s.registrations + 1)
    case TryLogin(step) => Authenticated(s, step)
  }

  function AuthRun(s: AuthState, es: seq<AuthEvent>): AuthState {
    if es == [] then s else AuthStep(AuthRun(s, es[..|es| - 1]), es[|es| - 1])
  }

  /** No login starts within 30 seconds after an earlier one was answered 423. */
  ghost predicate BackoffRespected(logins: seq<Login>) {
    forall i, j :: 0 <= i < j < |logins| && IsLock(logins[i]) ==>
      logins[j].start - logins[i].finish >= AUTH_BACKOFF
  }

  /** Each lock is either the failure remembered or over. */
  ghost predicate LocksRemembered(s: AuthState) {
    forall i :: 0 <= i < |s.logins| && IsLock(s.logins[i]) ==>
      s.logins[i].finish <= s.lastAuthFailure || s.logins[i].finish + AUTH_BACKOFF <= s.clock
  }

  ghost predicate AuthInv(s: AuthState) {
    BackoffRespected(s.logins) && LocksRemembered(s)
  }

  lemma AuthInvKept(s: AuthState, e: AuthEvent)
    requires AuthInv(s)
    ensures AuthInv(AuthStep(s, e)) && AuthStep(s, e).clock >= s.clock
  {
  }

  /** However replies and the time between calls turn out, the lock backoff is respected. */
  lemma {:induction false} BackoffHolds(s: AuthState, es: seq<AuthEvent>)
    requires s.logins == []
    ensures AuthInv(AuthRun(s, es))
  {
    if es != [] {
      BackoffHolds(s, es[..|es| - 1]);
      AuthInvKept(AuthRun(s, es[..|es| - 1]), es[|es| - 1]);
    }
  }

  // ---- one send -----------------------------------------------------------

  /** A client between steps, with every payload post and the seconds slept so far. */
  datatype Client = Client(auth: AuthState, posts: seq<Post>, slept: nat)

  predicate ExpiresSoon(s: AuthState, refreshBefore: real) {
    s.token.Some? && s.token.value.expires.Some? && s.clock >= s.token.value.expires.value - refreshBefore
  }

  /**
   A token about to expire is dropped before the login that is to replace it; a login
   that works is followed by a registration of the agent.
   */
  function Refreshed(s: AuthState, refreshBefore: real, step: LoginStep, registerWait: real): AuthState {
    if !ExpiresSoon(s, refreshBefore) then s
    else
      var dropped := s.(token := None);
      var t := Authenticated(dropped, step);
      if LogsIn(dropped, step) then AuthStep(t, Register(registerWait)) else t
  }

  /** The login state in which an attempt posts, if it has a token then. */
  function Prepared(s: AuthState, refreshBefore: real, a: Attempt): AuthState {
    var current := Refreshed(AuthStep(s, Pass(a.lockWait)), refreshBefore, a.refresh, a.registerWait);
    if current.token.None? then Authenticated(current, a.login) else current
  }

  function Paused(c: Client, attempt: nat): Client {
    c.(auth := c.auth.(clock := c.auth.clock + Backoff(attempt) as real), slept := c.slept + Backoff(attempt))
  }

  /** One turn of the retry loop. */
  function Tried(c: Client, refreshBefore: real, attempt: nat, a: Attempt): Client {
    var ready := Prepared(c.auth, refreshBefore, a);
    var posted := c.(auth := AuthStep(ready, Pass(a.postWait)),
                     posts := c.posts + [Post(ready.token.Some?, a.post)]);
    if ready.token.None? then Paused(c.(auth := ready), attempt)
    else if Accepted(Post(true, a.post)) then posted
    else if a.post == Status(401) then
      var dropped := AuthStep(posted.auth, DropToken);
      var again := posted.(auth := Authenticated(dropped, a.again));
      if LogsIn(dropped, a.again) then again else Paused(again, attempt)
    else Paused(posted, attempt)
  }

  predicate Delivered(before: Client, after: Client) {
    |after.posts| > |before.posts| && Accepted(after.posts[|after.posts| - 1])
  }

  /** One turn of the retry loop for given answers. */
  function Turn(refreshBefore: real, attempts: Attempts): (Client, nat) -> Client {
    (c: Client, attempt: nat) => Tried(c, refreshBefore, attempt, attempts(attempt))
  }

  /** The turns from `attempt` on, up to the first that delivers. */
  function Sending(c: Client, turn: (Client, nat) -> Client, attempt: nat): Client
    decreases MAX_ATTEMPTS - attempt
  {
    if attempt >= MAX_ATTEMPTS then c
    else
      var next := turn(c, attempt);
      if Delivered(c, next) then next else Sending(next, turn, attempt + 1)
  }

  // ---- which attempts post, by the clock and the replies alone ------------

  /** A login answered 200 or 202 that hands out a token. */
  predicate Grants(step: LoginStep) {
    step.reply.LoginReply? && (step.reply.status == 200 || step.reply.status == 202) && step.reply.token.Some?
  }

  /** A token that will not run out within `refreshBefore` seconds, or has no readable expiry. */
  predicate Fresh(token: Option<Token>, now: real, refreshBefore: real) {
    token.Some? && (token.value.expires.None? || now < token.value.expires.value - refreshBefore)
  }

  /**
   The attempt has a token to post with. Besides a fresh token or a login that grants one,
   not within 30 seconds of a lock, the token about to expire can be replaced in a second
   login: when the first one failed other than by a lock, or worked without a token, which
   clears the failure time.
   */
  predicate GetsToken(s: AuthState, refreshBefore: real, a: Attempt) {
    var now := Later(s.clock, a.lockWait);
    var rested := now - s.lastAuthFailure >= 30.0;
    if Fresh(s.token, now, refreshBefore) then true
    else if s.token.None? then rested && Grants(a.login)
    else
      && rested
      && (|| Grants(a.refresh)
          || (&& Grants(a.login)
              && !IsLock(Login(0.0, 0.0, a.refresh.reply))
              && (Succeeds(a.refresh.reply) ==>
                    Later(Later(now, a.refresh.wait), a.registerWait) >= 30.0)))
  }

  /** The failure time after a login: cleared by one that works, set by a lock. */
  function FailureAfter(before: real, reply: LoginReply, finish: real): real {
    if reply.Broken? then before
    else if reply.status == 200 || reply.status == 202 then 0.0
    else if reply.status == 423 then finish
    else before
  }

  /** One login: refused without a request within 30 seconds of the failure remembered, and made otherwise. */
  lemma LoginCases(s: AuthState, step: LoginStep)
    ensures s.clock - s.lastAuthFailure < 30.0 ==> !LogsIn(s, step) && Authenticated(s, step) == s
    ensures s.clock - s.lastAuthFailure >= 30.0 ==>
              var t := Authenticated(s, step);
              && (LogsIn(s, step) <==> step.reply.LoginReply? && step.reply.status in {200, 202})
              && t.clock == Later(s.clock, step.wait) && t.registrations == s.registrations
              && t.logins == s.logins + [Login(s.clock, t.clock, step.reply)]
              && t.lastAuthFailure == FailureAfter(s.lastAuthFailure, step.reply, t.clock)
              && t.token == if LogsIn(s, step) then step.reply.token else s.token
  {
  }

  /**
   The token, clock, failure time, logins and registrations an attempt posts with: a fresh
   token needs no login, a missing one is asked for once, and one about to expire is
   replaced by a refreshing login or, unless that was locked, by the one after it.
   */
  lemma PreparedCases(s: AuthState, refreshBefore: real, a: Attempt)
    ensures var now := Later(s.clock, a.lockWait);
            Fresh(s.token, now, refreshBefore) ==> Prepared(s, refreshBefore, a) == s.(clock := now)
    ensures var now := Later(s.clock, a.lockWait);
            !Fresh(s.token, now, refreshBefore) && now - s.lastAuthFailure < 30.0 ==>
              Prepared(s, refreshBefore, a) == s.(clock := now, token := None)
    ensures var now := Later(s.clock, a.lockWait);
            s.token.None? && now - s.lastAuthFailure >= 30.0 ==>
              var ready := Prepared(s, refreshBefore, a);
              && ready.logins == s.logins + [Login(now, ready.clock, a.login.reply)]
              && ready.clock == Later(now, a.login.wait) && ready.registrations == s.registrations
              && ready.lastAuthFailure == FailureAfter(s.lastAuthFailure, a.login.reply, ready.clock)
              && ready.token == if Grants(a.login) then a.login.reply.token else None
    ensures var now := Later(s.clock, a.lockWait);
            var first := Later(now, a.refresh.wait);
            s.token.Some? && !Fresh(s.token, now, refreshBefore) && now - s.lastAuthFailure >= 30.0 ==>
              var ready := Prepared(s, refreshBefore, a);
              var worked := a.refresh.reply.LoginReply? && a.refresh.reply.status in {200, 202};
              var free := if worked then Later(first, a.registerWait) else first;
              var second := !Grants(a.refresh) && !(a.refresh.reply.LoginReply? && a.refresh.reply.status == 423) &&
                            (worked ==> free >= 30.0);
              && ready.logins == s.logins + [Login(now, first, a.refresh.reply)] +
                                 (if second then [Login(free, ready.clock, a.login.reply)] else [])
              && ready.clock == (if second then Later(free, a.login.wait) else free)
              && (var failure := FailureAfter(s.lastAuthFailure, a.refresh.reply, first);
                  ready.lastAuthFailure ==
                  if second then FailureAfter(failure, a.login.reply, ready.clock) else failure)
              && ready.registrations == s.registrations + (if worked then 1 else 0)
              && ready.token == (if Grants(a.refresh) then a.refresh.reply.token
                                 else if second && Grants(a.login) then a.login.reply.token else None)
  {
  }

  /** An attempt posts, once, if and only if it has a token. */
  lemma PostsExactly(c: Client, refreshBefore: real, attempt: nat, a: Attempt)
    ensures Tried(c, refreshBefore, attempt, a).posts ==
            c.posts + if GetsToken(c.auth, refreshBefore, a) then [Post(true, a.post)] else []
  {
    PreparedCases(c.auth, refreshBefore, a);
  }

  /**
   What an attempt does once it is prepared. Without a token, or after an answer other than
   200, 201 and 401, it sleeps. After a 401 it drops the token and, 30 seconds after a lock
   at the earliest, logs in again; it sleeps unless that login works.
   */
  lemma AfterPreparing(c: Client, refreshBefore: real, attempt: nat, a: Attempt)
    requires attempt < 3
    ensures var ready := Prepared(c.auth, refreshBefore, a);
            var posted := ready.(clock := Later(ready.clock, a.postWait));
            var t := Tried(c, refreshBefore, attempt, a);
            var pause := [1, 2, 4][attempt];
            if !GetsToken(c.auth, refreshBefore, a) then
              t.slept == c.slept + pause && t.auth == ready.(clock := ready.clock + pause as real)
            else if a.post in {Status(200), Status(201)} then
              t.slept == c.slept && t.auth == posted
            else if a.post != Status(401) then
              t.slept == c.slept + pause && t.auth == posted.(clock := posted.clock + pause as real)
            else if posted.clock - ready.lastAuthFailure < 30.0 then
              && t.slept == c.slept + pause
              && t.auth == posted.(clock := posted.clock + pause as real, token := None)
            else
              var finish := Later(posted.clock, a.again.wait);
              var works := a.again.reply.LoginReply? && a.again.reply.status in {200, 202};
              && t.slept == c.slept + (if works then 0 else pause)
              && t.auth.logins == ready.logins + [Login(posted.clock, finish, a.again.reply)]
              && t.auth.token == (if works then a.again.reply.token else None)
              && t.auth.lastAuthFailure == FailureAfter(ready.lastAuthFailure, a.again.reply, finish)
              && t.auth.clock == finish + if works then 0.0 else pause as real
  {
    PostsExactly(c, refreshBefore, attempt, a);
    assert Backoff(2) == 2 * Backoff(1) == 4 * Backoff(0);
    assert Backoff(attempt) == [1, 2, 4][attempt];
  }

  /** The attempt gets a token and its post is accepted. */
  predicate Lands(c: Client, refreshBefore: real, a: Attempt) {
    GetsToken(c.auth, refreshBefore, a) && (a.post == Status(200) || a.post == Status(201))
  }

  lemma PauseKeepsInv(s: AuthState, attempt: nat)
    requires AuthInv(s)
    ensures AuthInv(s.(clock := s.clock + Backoff(attempt) as real))
  {
    AuthInvKept(s, Pass(Backoff(attempt) as real));
  }

  lemma RefreshKeepsInv(s: AuthState, refreshBefore: real, step: LoginStep, registerWait: real)
    requires AuthInv(s)
    ensures AuthInv(Refreshed(s, refreshBefore, step, registerWait))
  {
    var dropped := s.(token := None);
    AuthInvKept(s, DropToken);
    AuthInvKept(dropped, TryLogin(step));
    AuthInvKept(Authenticated(dropped, step), Register(registerWait));
  }

  lemma PreparedKeepsInv(s: AuthState, refreshBefore: real, a: Attempt)
    requires AuthInv(s)
    ensures AuthInv(Prepared(s, refreshBefore, a))
  {
    var waited := AuthStep(s, Pass(a.lockWait));
    AuthInvKept(s, Pass(a.lockWait));
    RefreshKeepsInv(waited, refreshBefore, a.refresh, a.registerWait);
    AuthInvKept(Refreshed(waited, refreshBefore, a.refresh, a.registerWait), TryLogin(a.login));
  }

  lemma TryKeepsInv(c: Client, refreshBefore: real, attempt: nat, a: Attempt)
    requires AuthInv(c.auth)
    ensures AuthInv(Tried(c, refreshBefore, attempt, a).auth)
  {
    var ready := Prepared(c.auth, refreshBefore, a);
    PreparedKeepsInv(c.auth, refreshBefore, a);
    PauseKeepsInv(ready, attempt);
    PostKeepsInv(ready, attempt, a);
  }

  lemma PostKeepsInv(ready: AuthState, attempt: nat, a: Attempt)
    requires AuthInv(ready)
    ensures var posted := AuthStep(ready, Pass(a.postWait));
            var again := Authenticated(AuthStep(posted, DropToken), a.again);
            && AuthInv(posted) && AuthInv(posted.(clock := posted.clock + Backoff(attempt) as real))
            && AuthInv(again) && AuthInv(again.(clock := again.clock + Backoff(attempt) as real))
  {
    var posted := AuthStep(ready, Pass(a.postWait));
    AuthInvKept(ready, Pass(a.postWait));
    AuthInvKept(posted, DropToken);
    AuthInvKept(AuthStep(posted, DropToken), TryLogin(a.again));
    PauseKeepsInv(posted, attempt);
    PauseKeepsInv(Authenticated(AuthStep(posted, DropToken), a.again), attempt);
  }

  ghost predicate Lawful(turn: (Client, nat) -> Client) {
    forall c: Client, k: nat :: AuthInv(c.auth) ==> AuthInv(turn(c, k).auth)
  }

  lemma {:induction false} TurnsKeepInv(c: Client, turn: (Client, nat) -> Client, attempt: nat)
    requires Lawful(turn) && AuthInv(c.auth)
    ensures AuthInv(Sending(c, turn, attempt).auth)
    decreases MAX_ATTEMPTS - attempt
  {
    if attempt < MAX_ATTEMPTS {
      TurnsKeepInv(turn(c, attempt), turn, attempt + 1);
    }
  }

  /** A whole send respects the lock backoff, whatever it meets. */
  lemma SendingKeepsInv(c: Client, refreshBefore: real, attempts: Attempts)
    requires AuthInv(c.auth)
    ensures AuthInv(Sending(c, Turn(refreshBefore, attempts), 0).auth)
  {
    var turn := Turn(refreshBefore, attempts);
    forall c: Client, k: nat | AuthInv(c.auth)
      ensures AuthInv(turn(c, k).auth)
    {
      TryKeepsInv(c, refreshBefore, k, attempts(k));
    }
    TurnsKeepInv(c, turn, 0);
  }

  /** From `c` to `t` so many posts at most, each with a token, none before the last accepted, and so much sleep. */
  ghost predicate Within(c: Client, t: Client, most: int, sleep: int) {
    && c.posts <= t.posts && |t.posts| - |c.posts| <= most
    && (forall i :: |c.posts| <= i < |t.posts| ==> t.posts[i].withToken)
    && (forall i :: |c.posts| <= i < |t.posts| - 1 ==> !Accepted(t.posts[i]))
    && t.slept - c.slept <= sleep
  }

  /** An attempt posts at most once, never without a token, and sleeps only when it delivers nothing. */
  lemma TryBounds(c: Client, refreshBefore: real, attempt: nat, a: Attempt)
    ensures var t := Tried(c, refreshBefore, attempt, a);
            && Within(c, t, 1, Backoff(attempt))
            && (Delivered(c, t) <==> Lands(c, refreshBefore, a))
            && (Delivered(c, t) ==> t.slept == c.slept)
  {
    PostsExactly(c, refreshBefore, attempt, a);
  }

  /** Nothing made since `start` has been accepted. */
  ghost predicate Extends(start: Client, c: Client) {
    start.posts <= c.posts && !Delivered(start, c)
  }

  lemma DeliveredOnTop(start: Client, c: Client, next: Client)
    requires Extends(start, c) && c.posts <= next.posts
    ensures Delivered(start, next) == Delivered(c, next)
  {
  }

  /** One attempt and, unless it delivered, what follows it. */
  lemma WithinComposes(c: Client, next: Client, last: Client, all: Client, most: nat, sleep: int, more: nat)
    requires Within(c, next, 1, sleep) && Within(next, last, most, more)
    requires all == if Delivered(c, next) then next else last
    ensures Within(c, all, most + 1, sleep + more)
  {
  }

  ghost predicate Modest(turn: (Client, nat) -> Client) {
    forall c: Client, k: nat :: Within(c, turn(c, k), 1, Backoff(k))
  }

  lemma {:induction false} SendingWithin(c: Client, turn: (Client, nat) -> Client, attempt: nat)
    requires Modest(turn) && attempt <= MAX_ATTEMPTS
    ensures Within(c, Sending(c, turn, attempt), MAX_ATTEMPTS - attempt, Backoff(MAX_ATTEMPTS) - Backoff(attempt))
    decreases MAX_ATTEMPTS - attempt
  {
    if attempt < MAX_ATTEMPTS {
      var next := turn(c, attempt);
      SendingWithin(next, turn, attempt + 1);
      BackoffGrows(attempt + 1, MAX_ATTEMPTS);
      var most, more := MAX_ATTEMPTS - attempt - 1, Backoff(MAX_ATTEMPTS) - Backoff(attempt + 1);
      var all, last := Sending(c, turn, attempt), Sending(next, turn, attempt + 1);
      WithinComposes(c, next, last, all, most, Backoff(attempt), more);
      assert Backoff(attempt) + more == Backoff(MAX_ATTEMPTS) - Backoff(attempt);
    }
  }

  lemma {:induction false} BackoffGrows(m: nat, n: nat)
    requires m <= n
    ensures Backoff(m) <= Backoff(n)
    decreases n - m
  {
    if m < n {
      BackoffGrows(m + 1, n);
    }
  }

  /**
   A send makes at most three posts, each with a token, none but the last accepted,
   and sleeps at most seven seconds.
   */
  lemma SendBounds(c: Client, refreshBefore: real, attempts: Attempts)
    ensures Within(c, Sending(c, Turn(refreshBefore, attempts), 0), 3, 7)
  {
    TurnBounds(refreshBefore, attempts);
    SendingWithin(c, Turn(refreshBefore, attempts), 0);
    assert Backoff(3) == 2 * Backoff(2) == 4 * Backoff(1) == 8 * Backoff(0);
  }

  /** Some turn from `attempt` on delivers, none before it having done so. */
  predicate SomeDelivers(c: Client, turn: (Client, nat) -> Client, attempt: nat)
    decreases MAX_ATTEMPTS - attempt
  {
    attempt < MAX_ATTEMPTS &&
    (Delivered(c, turn(c, attempt)) || SomeDelivers(turn(c, attempt), turn, attempt + 1))
  }

  /** The client before turn `k` if none of the turns from `attempt` on ended the loop. */
  function Before(c: Client, turn: (Client, nat) -> Client, attempt: nat, k: nat): Client
    decreases k - attempt
  {
    if attempt >= k then c else Before(turn(c, attempt), turn, attempt + 1, k)
  }

  lemma DeliveredNowOrLater(c: Client, next: Client, last: Client)
    requires c.posts <= next.posts <= last.posts
    ensures Delivered(c, if Delivered(c, next) then next else last) <==> Delivered(c, next) || Delivered(next, last)
  {
  }

  lemma {:induction false} DeliveredBySome(c: Client, turn: (Client, nat) -> Client, attempt: nat)
    requires Modest(turn) && attempt <= MAX_ATTEMPTS
    ensures Delivered(c, Sending(c, turn, attempt)) <==> SomeDelivers(c, turn, attempt)
    decreases MAX_ATTEMPTS - attempt
  {
    if attempt < MAX_ATTEMPTS {
      var next := turn(c, attempt);
      DeliveredBySome(next, turn, attempt + 1);
      SendingWithin(next, turn, attempt + 1);
      DeliveredNowOrLater(c, next, Sending(next, turn, attempt + 1));
    }
  }

  /** Turn `k`, reached from `attempt` without a delivery, delivers. */
  predicate DeliversAt(c: Client, turn: (Client, nat) -> Client, attempt: nat, k: nat) {
    Delivered(Before(c, turn, attempt, k), turn(Before(c, turn, attempt, k), k))
  }

  lemma DeliversAtUnfolds(c: Client, turn: (Client, nat) -> Client, attempt: nat, k: nat)
    requires attempt <= k
    ensures DeliversAt(c, turn, attempt, k) ==
            if k == attempt then Delivered(c, turn(c, attempt)) else DeliversAt(turn(c, attempt), turn, attempt + 1, k)
  {
  }

  lemma {:induction false} SomeDeliversAt(c: Client, turn: (Client, nat) -> Client, attempt: nat)
    ensures SomeDelivers(c, turn, attempt) <==>
            exists k: nat :: attempt <= k < MAX_ATTEMPTS && DeliversAt(c, turn, attempt, k)
    decreases MAX_ATTEMPTS - attempt
  {
    if attempt < MAX_ATTEMPTS {
      var next := turn(c, attempt);
      SomeDeliversAt(next, turn, attempt + 1);
      forall k: nat | attempt <= k
        ensures DeliversAt(c, turn, attempt, k) ==
                if k == attempt then Delivered(c, next) else DeliversAt(next, turn, attempt + 1, k)
      {
        DeliversAtUnfolds(c, turn, attempt, k);
      }
      if SomeDelivers(next, turn, attempt + 1) {
        var k: nat :| attempt + 1 <= k < MAX_ATTEMPTS && DeliversAt(next, turn, attempt + 1, k);
        assert DeliversAt(c, turn, attempt, k);
      }
      if Delivered(c, next) {
        assert DeliversAt(c, turn, attempt, attempt);
      }
    }
  }

  lemma TurnBounds(refreshBefore: real, attempts: Attempts)
    ensures Modest(Turn(refreshBefore, attempts))
    ensures forall c: Client, k: nat ::
              Delivered(c, Turn(refreshBefore, attempts)(c, k)) <==> Lands(c, refreshBefore, attempts(k))
  {
    forall c: Client, k: nat
      ensures Within(c, Turn(refreshBefore, attempts)(c, k), 1, Backoff(k))
      ensures Delivered(c, Turn(refreshBefore, attempts)(c, k)) <==> Lands(c, refreshBefore, attempts(k))
    {
      TryBounds(c, refreshBefore, k, attempts(k));
    }
  }

  /** The loop goes on until the first delivery. */
  lemma TurnStep(start: Client, c: Client, turn: (Client, nat) -> Client, attempt: nat)
    requires Modest(turn) && Extends(start, c) && attempt < MAX_ATTEMPTS
    ensures var next := turn(c, attempt);
            && Sending(c, turn, attempt) == (if Delivered(c, next) then next else Sending(next, turn, attempt + 1))
            && Delivered(c, next) == Delivered(start, next) && start.posts <= next.posts
  {
    DeliveredOnTop(start, c, turn(c, attempt));
  }

  /** A payload is delivered exactly when one of the attempts gets a token and sees its post accepted. */
  lemma DeliveredExactly(c: Client, refreshBefore: real, attempts: Attempts)
    ensures var turn := Turn(refreshBefore, attempts);
            Delivered(c, Sending(c, turn, 0)) <==>
            exists k: nat :: k < 3 && Lands(Before(c, turn, 0, k), refreshBefore, attempts(k))
  {
    var turn := Turn(refreshBefore, attempts);
    TurnBounds(refreshBefore, attempts);
    DeliveredBySome(c, turn, 0);
    SomeDeliversAt(c, turn, 0);
    forall k: nat
      ensures DeliversAt(c, turn, 0, k) <==> Lands(Before(c, turn, 0, k), refreshBefore, attempts(k))
    {
    }
  }

  /** A first attempt that lands is the only one: one post and no sleep. */
  lemma LandsAtOnce(c: Client, refreshBefore: real, attempts: Attempts)
    requires Lands(c, refreshBefore, attempts(0))
    ensures var t := Sending(c, Turn(refreshBefore, attempts), 0);
            t.posts == c.posts + [Post(true, attempts(0).post)] && t.slept == c.slept
  {
    TryBounds(c, refreshBefore, 0, attempts(0));
    PostsExactly(c, refreshBefore, 0, attempts(0));
  }

  lemma NoTokenPauses(c: Client, refreshBefore: real, attempts: Attempts, attempt: nat)
    requires attempt < MAX_ATTEMPTS && !GetsToken(c.auth, refreshBefore, attempts(attempt))
    ensures var turn := Turn(refreshBefore, attempts);
            var next := turn(c, attempt);
            && next.posts == c.posts && next.slept == c.slept + Backoff(attempt)
            && Sending(c, turn, attempt) == Sending(next, turn, attempt + 1)
  {
    PostsExactly(c, refreshBefore, attempt, attempts(attempt));
  }

  /** A send none of whose attempts gets a token posts nothing and sleeps 1 + 2 + 4 seconds. */
  lemma SendInVain(c: Client, refreshBefore: real, attempts: Attempts)
    requires var turn := Turn(refreshBefore, attempts);
             forall k: nat :: k < 3 ==> !GetsToken(Before(c, turn, 0, k).auth, refreshBefore, attempts(k))
    ensures var t := Sending(c, Turn(refreshBefore, attempts), 0);
            t.posts == c.posts && t.slept == c.slept + 7
  {
    var turn := Turn(refreshBefore, attempts);
    var first := turn(c, 0);
    var second := turn(first, 1);
    assert Before(c, turn, 0, 0) == c && Before(c, turn, 0, 1) == first && Before(c, turn, 0, 2) == second;
    NoTokenPauses(c, refreshBefore, attempts, 0);
    NoTokenPauses(first, refreshBefore, attempts, 1);
    NoTokenPauses(second, refreshBefore, attempts, 2);
    assert Backoff(2) == 2 * Backoff(1) == 4 * Backoff(0);
  }

  class BeaconClient {
    const refreshBefore: real
    var token: Option<Token>
    var lastAuthFailure: real
    var clock: real
    ghost var logins: seq<Login>
    ghost var registrations: nat
    ghost var posts: seq<Post>
    ghost var slept: nat

    constructor (refreshBefore: real, now: real)
      ensures Valid() && token.None? && logins == [] && registrations == 0 && posts == [] && slept == 0
    {
      this.refreshBefore := refreshBefore;
      token, lastAuthFailure, clock := None, 0.0, now;
      logins, registrations, posts, slept := [], 0, [], 0;
    }

    ghost function Auth(): AuthState
      reads this
    {
      AuthState(token, lastAuthFailure, clock, logins, registrations)
    }

    ghost function State(): Client
      reads this
    {
      Client(Auth(), posts, slept)
    }

    ghost predicate Valid()
      reads this
    {
      AuthInv(Auth())
    }

    method Wait(seconds: real)
      modifies this`clock
      ensures clock == Later(old(clock), seconds)
    {
      clock := Later(clock, seconds);
    }

    method Sleep(attempt: nat)
      modifies this`clock, this`slept
      ensures State() == Paused(old(State()), attempt)
      ensures attempt < 3 ==> slept == old(slept) + [1, 2, 4][attempt]
      ensures clock == old(clock) + (slept - old(slept)) as real
    {
      assert Backoff(2) == 2 * Backoff(1) == 4 * Backoff(0);
      clock := clock + Backoff(attempt) as real;
      slept := slept + Backoff(attempt);
    }

    /** True also when the server answers 200 or 202 without a token. */
    method Authenticate(step: LoginStep) returns (ok: bool)
      modifies this`token, this`lastAuthFailure, this`clock, this`logins
      ensures Auth() == Authenticated(old(Auth()), step)
      ensures ok == LogsIn(old(Auth()), step)
    {
      var now := clock;
      if now - lastAuthFailure < AUTH_BACKOFF {
        return false;
      }
      var reply := step.reply;
      clock := Later(clock, step.wait);
      logins := logins + [Login(now, clock, reply)];
      if reply.LoginReply? && reply.status in {200, 202} {
        token := reply.token;
        lastAuthFailure := 0.0;
        return true;
      }
      if reply.LoginReply? && reply.status == LOCKED {
        lastAuthFailure := clock;
      }
      ok := false;
    }

    method EnsureTokenFresh(step: LoginStep, registerWait: real)
      modifies this`token, this`lastAuthFailure, this`clock, this`logins, this`registrations
      ensures Auth() == Refreshed(old(Auth()), refreshBefore, step, registerWait)
    {
      if token.None? || token.value.expires.None? {
        return;
      }
      if clock >= token.value.expires.value - refreshBefore {
        token := None;
        var ok := Authenticate(step);
        if ok {
          Wait(registerWait);
          registrations := registrations + 1;
        }
      }
    }

    /** One turn of the retry loop; `sent` ends it. */
    method TryOnce(attempt: nat, a: Attempt) returns (sent: bool)
      modifies this
      ensures State() == Tried(old(State()), refreshBefore, attempt, a)
      ensures sent == Delivered(old(State()), State())
    {

      Wait(a.lockWait);
      EnsureTokenFresh(a.refresh, a.registerWait);
      if token.None? {
        var _ := Authenticate(a.login);
      }
      assert Auth() == Prepared(old(Auth()), refreshBefore, a);
      if token.None? {
        Sleep(attempt);
        return false;
      }
      posts := posts + [Post(token.Some?, a.post)];
      Wait(a.postWait);
      if a.post.NoReply? {
        Sleep(attempt);
        return false;
      }
      if a.post.code in {200, 201} {
        return true;
      }
      if a.post.code == 401 {
        token := None;
        var again := Authenticate(a.again);
        if again {
          return false;
        }
      }
      Sleep(attempt);
      sent := false;
    }

    /** One `send_event` or `send_traffic`; `ok` tells whether the last post it made was accepted. */
    method Send(attempts: Attempts) returns (ok: bool)
      requires Valid()
      modifies this
      ensures Valid() && State() == Sending(old(State()), Turn(refreshBefore, attempts), 0)
      ensures ok == Delivered(old(State()), State())
    {
      ghost var start := State();
      ghost var turn := Turn(refreshBefore, attempts);
      SendingKeepsInv(start, refreshBefore, attempts);
      TurnBounds(refreshBefore, attempts);
      for attempt := 0 to MAX_ATTEMPTS
        invariant Extends(start, State())
        invariant Sending(start, turn, 0) == Sending(State(), turn, attempt)
      {
        ghost var before := State();
        TurnStep(start, before, turn, attempt);
        var sent := TryOnce(attempt, attempts(attempt));
        assert State() == turn(before, attempt);
        if sent {
          return true;
        }
      }
      ok := false;
    }
  }
}
