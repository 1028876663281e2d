/**
 Token acquisition by any number of concurrent callers: the double-checked,
 per-environment single-flight refresh, as a transition system. One action is
 one atomic step of one caller, the passing of time, or a logout.
 */
module TokenRefresh {
  import opened Wrappers

  type Env = string
  type Id = nat      // one call of TokenContext or ForceRefreshContext
  type Mutex = nat

  const BUFFER := 60_000_000_000  // IsValid's 60 seconds, in nanoseconds

  datatype Token = Token(secret: string, expires: int)

  datatype Answer = Granted(secret: string) | Denied

  /** Where a caller is. From `Locked` to `Releasing` it holds the lock.
      `blind` means the re-check under the lock could not read the cache. */
  datatype Pc =
    | Missed
    | Queued(mutex: Mutex)
    | Locked(mutex: Mutex)
    | Ready(mutex: Mutex, blind: bool)
    | Posting(mutex: Mutex, blind: bool)
    | Storing(mutex: Mutex, blind: bool, token: Token)
    | Saving(mutex: Mutex, token: Token)
    | Releasing(mutex: Mutex, answer: Answer)
    | Returned(answer: Answer)

  datatype Caller = Caller(env: Env, forced: bool, pc: Pc)

  datatype Event =
    | PostStarted(id: Id, env: Env, forced: bool, cacheValid: bool)
    | Fetched(env: Env, token: Token)
    | RefreshFailed(env: Env)
    | Lapsed(envs: set<Env>)
    | Removed(env: Env)
    | BlindRecheck(env: Env)

  datatype Log = Empty | Add(rest: Log, last: Event)

  datatype State = State(
    callers: map<Id, Caller>,
    locks: map<Env, Mutex>,    // refreshLocks
    owner: map<Mutex, Id>,     // which mutexes are held, and by whom
    unused: Mutex,             // mutexes from here on were never allocated
    cache: map<Env, Token>,
    now: int,
    log: Log)

  datatype Action =
    | Arrive(id: Id, env: Env, forced: bool, readable: bool)
    | LoadOrStore(id: Id)
    | Lock(id: Id)
    | Recheck(id: Id, readable: bool)
    | GiveUp(id: Id)
    | StartPost(id: Id)
    | PostFails(id: Id)
    | PostAnswers(id: Id, token: Token)
    | SetToken(id: Id, ok: bool)
    | Save(id: Id, ok: bool)
    | Unlock(id: Id)
    | Tick(ns: nat)
    | RemoveToken(env: Env)

  /** A process starts with whatever tokens were saved earlier, and no callers. */
  predicate Initial(s: State) {
    s.callers == map[] && s.locks == map[] && s.owner == map[] && s.unused == 0 && s.log == Empty
  }

  predicate TokenValid(token: Token, now: int) {
    token.secret != "" && now + BUFFER < token.expires
  }

  predicate CacheValid(s: State, env: Env) {
    env in s.cache && TokenValid(s.cache[env], s.now)
  }

  predicate At(s: State, id: Id) { id in s.callers }

  function PcOf(s: State, id: Id): Pc
    requires id in s.callers
  {
    s.callers[id].pc
  }

  predicate Enabled(s: State, a: Action) {
    match a
    case Arrive(id, _, _, _) => !At(s, id)
    case LoadOrStore(id) => At(s, id) && PcOf(s, id).Missed?
    case Lock(id) => At(s, id) && PcOf(s, id).Queued? && PcOf(s, id).mutex !in s.owner
    case Recheck(id, _) => At(s, id) && PcOf(s, id).Locked?
    case GiveUp(id) => At(s, id) && PcOf(s, id).Ready?
    case StartPost(id) => At(s, id) && PcOf(s, id).Ready?
    case PostFails(id) => At(s, id) && PcOf(s, id).Posting?
    case PostAnswers(id, token) => At(s, id) && PcOf(s, id).Posting? && token.secret != ""
    case SetToken(id, _) => At(s, id) && PcOf(s, id).Storing?
    case Save(id, _) => At(s, id) && PcOf(s, id).Saving?
    case Unlock(id) => At(s, id) && PcOf(s, id).Releasing?
    case Tick(_) => true
    case RemoveToken(_) => true
  }

  function Goto(s: State, id: Id, pc: Pc): State
    requires id in s.callers
  {
    s.(callers := s.callers[id := s.callers[id].(pc := pc)])
  }

  function Note(s: State, e: Event): State { s.(log := Add(s.log, e)) }

  function Step(s: State, a: Action): State
    requires Enabled(s, a)
  {
    match a
    case Arrive(id, env, forced, readable) =>
      // A forced refresh skips the cache; otherwise an unreadable cache is an
      // error and a valid token is the answer.
      var pc := if forced then Missed
                else if !readable then Returned(Denied)
                else if CacheValid(s, env) then Returned(Granted(s.cache[env].secret))
                else Missed;
      s.(callers := s.callers[id := Caller(env, forced, pc)])
    case LoadOrStore(id) =>
      var env := s.callers[id].env;
      if env in s.locks then Goto(s, id, Queued(s.locks[env]))
      else Goto(s.(locks := s.locks[env := s.unused], unused := s.unused + 1), id, Queued(s.unused))
    case Lock(id) =>
      var m := PcOf(s, id).mutex;
      Goto(s.(owner := s.owner[m := id]), id, if s.callers[id].forced then Ready(m, false) else Locked(m))
    case Recheck(id, readable) =>
      var m, env := PcOf(s, id).mutex, s.callers[id].env;
      if readable && CacheValid(s, env) then Goto(s, id, Releasing(m, Granted(s.cache[env].secret)))
      else if readable then Goto(s, id, Ready(m, false))
      else Note(Goto(s, id, Ready(m, true)), BlindRecheck(env))
    case GiveUp(id) => Goto(s, id, Releasing(PcOf(s, id).mutex, Denied))
    case StartPost(id) =>
      var c := s.callers[id];
      Note(Goto(s, id, Posting(c.pc.mutex, c.pc.blind)), PostStarted(id, c.env, c.forced, CacheValid(s, c.env)))
    case PostFails(id) =>
      Note(Goto(s, id, Releasing(PcOf(s, id).mutex, Denied)), RefreshFailed(s.callers[id].env))
    case PostAnswers(id, token) =>
      Note(Goto(s, id, Storing(PcOf(s, id).mutex, PcOf(s, id).blind, token)), Fetched(s.callers[id].env, token))
    case SetToken(id, ok) =>
      var env, pc := s.callers[id].env, PcOf(s, id);
      if !ok then Note(Goto(s, id, Releasing(pc.mutex, Denied)), RefreshFailed(env))
      else
        var stored := Goto(s.(cache := s.cache[env := pc.token]), id, Saving(pc.mutex, pc.token));
        if TokenValid(pc.token, s.now) then stored else Note(stored, Lapsed({env}))
    case Save(id, ok) =>
      Goto(s, id, Releasing(PcOf(s, id).mutex, if ok then Granted(PcOf(s, id).token.secret) else Denied))
    case Unlock(id) =>
      Goto(s.(owner := s.owner - {PcOf(s, id).mutex}), id, Returned(PcOf(s, id).answer))
    case Tick(ns) =>
      var later := s.(now := s.now + ns);
      Note(later, Lapsed(set env | env in s.cache && CacheValid(s, env) && !CacheValid(later, env)))
    case RemoveToken(env) =>
      var gone := s.(cache := s.cache - {env});
      if CacheValid(s, env) then Note(gone, Removed(env)) else gone
  }

  /** Lists of actions, each enabled in the state the ones before it lead to. */
  predicate Legal(start: State, actions: seq<Action>)
    decreases |actions|, 0
  {
    if actions == [] then Initial(start)
    else
      var earlier := actions[..|actions| - 1];
      Legal(start, earlier) && Enabled(After(start, earlier), actions[|actions| - 1])
  }

  function After(start: State, actions: seq<Action>): State
    requires Legal(start, actions)
    decreases |actions|, 1
  {
    if actions == [] then start
    else Step(After(start, actions[..|actions| - 1]), actions[|actions| - 1])
  }

  // ----- Counting

  datatype Kind = TokenPost | Failure | Lapse | Removal | Blind

  predicate Counts(e: Event, env: Env, kind: Kind) {
    match e
    case PostStarted(_, at, forced, _) => kind == TokenPost && at == env && !forced
    case Fetched(_, _) => false
    case RefreshFailed(at) => kind == Failure && at == env
    case Lapsed(envs) => kind == Lapse && env in envs
    case Removed(at) => kind == Removal && at == env
    case BlindRecheck(at) => kind == Blind && at == env
  }

  function Count(log: Log, env: Env, kind: Kind): nat {
    if log.Empty? then 0
    else Count(log.rest, env, kind) + if Counts(log.last, env, kind) then 1 else 0
  }

  /** Reasons for which a token has to be fetched again. */
  function Reasons(log: Log, env: Env): nat {
    Count(log, env, Failure) + Count(log, env, Lapse) + Count(log, env, Removal) + Count(log, env, Blind)
  }

  // ----- Invariants

  predicate HasMutex(pc: Pc) { !pc.Missed? && !pc.Returned? }

  predicate Holds(pc: Pc) { HasMutex(pc) && !pc.Queued? }

  /** One mutex per environment, the same for all its callers. */
  predicate LocksAgree(s: State) {
    && (forall id | id in s.callers && HasMutex(s.callers[id].pc) ::
          s.callers[id].env in s.locks && s.callers[id].pc.mutex == s.locks[s.callers[id].env])
    && (forall env | env in s.locks :: s.locks[env] < s.unused)
    && (forall e1, e2 | e1 in s.locks && e2 in s.locks && e1 != e2 :: s.locks[e1] != s.locks[e2])
    && (forall m | m in s.owner :: m < s.unused)
  }

  predicate OwnersHold(s: State) {
    && (forall id | id in s.callers && Holds(s.callers[id].pc) ::
          s.callers[id].pc.mutex in s.owner && s.owner[s.callers[id].pc.mutex] == id)
    && (forall m | m in s.owner ::
          s.owner[m] in s.callers && Holds(s.callers[s.owner[m]].pc) && s.callers[s.owner[m]].pc.mutex == m)
  }

  predicate Fetching(pc: Pc) { pc.Ready? || pc.Posting? || pc.Storing? }

  /** A TokenContext caller past its re-check works on an invalid cache. */
  predicate FetchOnlyWhenInvalid(s: State) {
    forall id | id in s.callers && Fetching(s.callers[id].pc) ::
      !s.callers[id].forced && !s.callers[id].pc.blind ==> !CacheValid(s, s.callers[id].env)
  }

  /** A caller's own contribution to the count below: a POST under way counts
      one, a blind re-check not yet paid for counts minus one. */
  function Weight(c: Caller): int {
    if c.forced then 0
    else (if c.pc.Posting? || c.pc.Storing? then 1 else 0) - (if Fetching(c.pc) && c.pc.blind then 1 else 0)
  }

  /** The weight of whoever holds the environment's lock. */
  function HolderWeight(s: State, env: Env): int {
    if env in s.locks && s.locks[env] in s.owner && s.owner[s.locks[env]] in s.callers
    then Weight(s.callers[s.owner[s.locks[env]]]) else 0
  }

  /** POSTs started by TokenContext callers are paid for by failures, lapses,
      removals and blind re-checks, by the valid token now cached, or by the
      POST under way. */
  predicate PostsAreNeeded(s: State, env: Env) {
    Count(s.log, env, TokenPost)
      <= Reasons(s.log, env) + (if CacheValid(s, env) then 1 else 0) + HolderWeight(s, env)
  }

  /** No TokenContext POST started on a valid cache, unless its re-check could
      not read it. */
  predicate StartsInvalid(log: Log, env: Env) {
    log.Empty? || (StartsInvalid(log.rest, env) &&
      (log.last.PostStarted? && !log.last.forced && log.last.cacheValid && log.last.env == env ==>
         Count(log.rest, env, Blind) > 0))
  }

  predicate BlindIsNoted(s: State) {
    forall id | id in s.callers && Fetching(s.callers[id].pc) && s.callers[id].pc.blind ::
      Count(s.log, s.callers[id].env, Blind) > 0
  }

  predicate Inv(s: State) { LocksAgree(s) && OwnersHold(s) && FetchOnlyWhenInvalid(s) }

  /** `s2` differs from `s1` only in what the lock holder `id` does, and in the
      cache, clock and log. */
  predicate HolderMoves(s1: State, s2: State, id: Id) {
    && s2.locks == s1.locks && s2.owner == s1.owner && s2.unused == s1.unused
    && id in s1.callers && id in s2.callers && s2.callers == s1.callers[id := s2.callers[id]]
    && s2.callers[id].env == s1.callers[id].env && s2.callers[id].forced == s1.callers[id].forced
    && Holds(s1.callers[id].pc) && Holds(s2.callers[id].pc)
    && s2.callers[id].pc.mutex == s1.callers[id].pc.mutex
  }

  lemma HolderKeepsLocks(s1: State, s2: State, id: Id)
    requires HolderMoves(s1, s2, id) && LocksAgree(s1) && OwnersHold(s1)
    ensures LocksAgree(s2) && OwnersHold(s2)
  {
  }

  predicate IsHolderStep(a: Action) {
    a.Recheck? || a.GiveUp? || a.StartPost? || a.PostFails? || a.PostAnswers? || a.SetToken? || a.Save?
  }

  lemma RecheckSteps(s: State, a: Action)
    requires Enabled(s, a) && a.Recheck?
    ensures HolderMoves(s, Step(s, a), a.id)
  {
  }

  lemma SetTokenSteps(s: State, a: Action)
    requires Enabled(s, a) && a.SetToken?
    ensures HolderMoves(s, Step(s, a), a.id)
  {
  }

  lemma FetchSteps(s: State, a: Action)
    requires Enabled(s, a) && (a.GiveUp? || a.StartPost? || a.PostFails? || a.PostAnswers? || a.Save?)
    ensures HolderMoves(s, Step(s, a), a.id)
  {
  }

  lemma HolderSteps(s: State, a: Action)
    requires Enabled(s, a) && IsHolderStep(a)
    ensures HolderMoves(s, Step(s, a), a.id)
  {
    if a.Recheck? {
      RecheckSteps(s, a);
    } else if a.SetToken? {
      SetTokenSteps(s, a);
    } else {
      FetchSteps(s, a);
    }
  }

  lemma ArriveKeepsLocks(s: State, a: Action)
    requires LocksAgree(s) && OwnersHold(s) && Enabled(s, a) && a.Arrive?
    ensures LocksAgree(Step(s, a)) && OwnersHold(Step(s, a))
  {
  }

  lemma LoadKeepsLocks(s: State, a: Action)
    requires LocksAgree(s) && OwnersHold(s) && Enabled(s, a) && a.LoadOrStore?
    requires s.callers[a.id].env in s.locks
    ensures LocksAgree(Step(s, a)) && OwnersHold(Step(s, a))
  {
  }

  lemma StoreKeepsLocks(s: State, a: Action)
    requires LocksAgree(s) && OwnersHold(s) && Enabled(s, a) && a.LoadOrStore?
    requires s.callers[a.id].env !in s.locks
    ensures LocksAgree(Step(s, a)) && OwnersHold(Step(s, a))
  {
  }

  lemma LockKeepsLocks(s: State, a: Action)
    requires LocksAgree(s) && OwnersHold(s) && Enabled(s, a) && a.Lock?
    ensures LocksAgree(Step(s, a)) && OwnersHold(Step(s, a))
  {
  }

  lemma UnlockKeepsOwners(s: State, a: Action)
    requires LocksAgree(s) && OwnersHold(s) && Enabled(s, a) && a.Unlock?
    ensures OwnersHold(Step(s, a))
  {
    var s' := Step(s, a);
    forall id | id in s'.callers && Holds(s'.callers[id].pc)
      ensures s'.callers[id].pc.mutex in s'.owner && s'.owner[s'.callers[id].pc.mutex] == id
    {
      assert id != a.id && s'.callers[id] == s.callers[id];
    }
  }

  lemma UnlockKeepsLocks(s: State, a: Action)
    requires LocksAgree(s) && OwnersHold(s) && Enabled(s, a) && a.Unlock?
    ensures LocksAgree(Step(s, a)) && OwnersHold(Step(s, a))
  {
    UnlockKeepsOwners(s, a);
  }

  lemma StepKeepsLocks(s: State, a: Action)
    requires LocksAgree(s) && OwnersHold(s) && Enabled(s, a)
    ensures LocksAgree(Step(s, a)) && OwnersHold(Step(s, a))
  {
    match a
    case Arrive(_, _, _, _) => ArriveKeepsLocks(s, a);
    case LoadOrStore(id) =>
      if s.callers[id].env in s.locks { LoadKeepsLocks(s, a); } else { StoreKeepsLocks(s, a); }
    case Lock(_) => LockKeepsLocks(s, a);
    case Unlock(_) => UnlockKeepsLocks(s, a);
    case Tick(_) =>
    case RemoveToken(_) =>
    case _ => HolderSteps(s, a); HolderKeepsLocks(s, Step(s, a), a.id);
  }

  lemma CacheStepKeepsFetching(s: State, a: Action)
    requires Inv(s) && Enabled(s, a) && (a.Recheck? || a.SetToken?)
    ensures FetchOnlyWhenInvalid(Step(s, a))
  {
  }

  lemma StepKeepsFetching(s: State, a: Action)
    requires Inv(s) && Enabled(s, a)
    ensures FetchOnlyWhenInvalid(Step(s, a))
  {
    if a.Recheck? || a.SetToken? { CacheStepKeepsFetching(s, a); }
  }

  lemma HolderOf(s: State, id: Id)
    requires Inv(s) && id in s.callers && Holds(s.callers[id].pc)
    ensures HolderWeight(s, s.callers[id].env) == Weight(s.callers[id])
  {
  }

  lemma OtherHolder(s1: State, s2: State, id: Id, env: Env)
    requires HolderMoves(s1, s2, id) && Inv(s1) && s1.callers[id].env != env
    ensures HolderWeight(s2, env) == HolderWeight(s1, env)
  {
  }

  /** A step of the lock holder changes the weight of its own environment only. */
  lemma HolderStepWeight(s: State, a: Action, env: Env)
    requires Inv(s) && Enabled(s, a) && IsHolderStep(a)
    ensures HolderWeight(Step(s, a), env) - HolderWeight(s, env) ==
            if s.callers[a.id].env == env then Weight(Step(s, a).callers[a.id]) - Weight(s.callers[a.id]) else 0
  {
    var s' := Step(s, a);
    HolderSteps(s, a);
    HolderKeepsLocks(s, s', a.id);
    if s.callers[a.id].env == env {
      HolderOf(s, a.id);
      StepKeepsFetching(s, a);
      HolderOf(s', a.id);
    } else {
      OtherHolder(s, s', a.id, env);
    }
  }

  lemma OtherStepWeight(s: State, a: Action, env: Env)
    requires Inv(s) && Enabled(s, a) && !IsHolderStep(a)
    ensures HolderWeight(Step(s, a), env) == HolderWeight(s, env)
  {
    match a
    case LoadOrStore(id) => assert s.callers[id].env in s.locks || s.unused !in s.owner;
    case Lock(id) => assert s.callers[id].pc.mutex == s.locks[s.callers[id].env];
    case Unlock(id) => HolderOf(s, id);
    case _ =>
  }

  lemma RecheckKeepsPosts(s: State, a: Action, env: Env)
    requires Inv(s) && Enabled(s, a) && (a.Recheck?) && PostsAreNeeded(s, env)
    ensures PostsAreNeeded(Step(s, a), env)
  {
    HolderStepWeight(s, a, env);
  }

  lemma QuietKeepsPosts(s: State, a: Action, env: Env)
    requires Inv(s) && Enabled(s, a) && (a.GiveUp? || a.PostAnswers? || a.Save?) && PostsAreNeeded(s, env)
    ensures PostsAreNeeded(Step(s, a), env)
  {
    HolderStepWeight(s, a, env);
  }

  lemma PostKeepsPosts(s: State, a: Action, env: Env)
    requires Inv(s) && Enabled(s, a) && (a.StartPost? || a.PostFails?) && PostsAreNeeded(s, env)
    ensures PostsAreNeeded(Step(s, a), env)
  {
    HolderStepWeight(s, a, env);
  }

  lemma StoringKeepsPosts(s: State, a: Action, env: Env)
    requires Inv(s) && Enabled(s, a) && a.SetToken? && a.ok && PostsAreNeeded(s, env)
    ensures PostsAreNeeded(Step(s, a), env)
  {
    HolderStepWeight(s, a, env);
  }

  lemma SetTokenKeepsPosts(s: State, a: Action, env: Env)
    requires Inv(s) && Enabled(s, a) && a.SetToken? && PostsAreNeeded(s, env)
    ensures PostsAreNeeded(Step(s, a), env)
  {
    if a.ok { StoringKeepsPosts(s, a, env); } else { HolderStepWeight(s, a, env); }
  }

  lemma StepKeepsPosts(s: State, a: Action, env: Env)
    requires Inv(s) && Enabled(s, a) && PostsAreNeeded(s, env)
    ensures PostsAreNeeded(Step(s, a), env)
  {
    match a
    case Recheck(_, _) => RecheckKeepsPosts(s, a, env);
    case StartPost(_) => PostKeepsPosts(s, a, env);
    case PostFails(_) => PostKeepsPosts(s, a, env);
    case SetToken(_, _) => SetTokenKeepsPosts(s, a, env);
    case GiveUp(_) => QuietKeepsPosts(s, a, env);
    case PostAnswers(_, _) => QuietKeepsPosts(s, a, env);
    case Save(_, _) => QuietKeepsPosts(s, a, env);
    case _ => OtherStepWeight(s, a, env);
  }

  /** A POST for `env` was answered with a token of this secret. */
  predicate WasFetched(log: Log, env: Env, secret: string) {
    log.Add? && (WasFetched(log.rest, env, secret) ||
      (log.last.Fetched? && log.last.env == env && log.last.token.secret == secret))
  }

  /** The secret was saved for `env` before, or fetched for it since. */
  predicate IsOwn(start: State, s: State, env: Env, secret: string) {
    (env in start.cache && start.cache[env].secret == secret) || WasFetched(s.log, env, secret)
  }

  predicate CallerIsOwn(start: State, s: State, c: Caller) {
    match c.pc
    case Storing(_, _, token) => IsOwn(start, s, c.env, token.secret)
    case Saving(_, token) => IsOwn(start, s, c.env, token.secret)
    case Releasing(_, Granted(secret)) => IsOwn(start, s, c.env, secret)
    case Returned(Granted(secret)) => IsOwn(start, s, c.env, secret)
    case _ => true
  }

  /** Tokens never cross from one environment to another. */
  predicate NothingCrosses(start: State, s: State) {
    && (forall env | env in s.cache :: IsOwn(start, s, env, s.cache[env].secret))
    && (forall id | id in s.callers :: CallerIsOwn(start, s, s.callers[id]))
  }

  lemma LogGrows(s: State, a: Action)
    requires Enabled(s, a)
    ensures Step(s, a).log == s.log || (Step(s, a).log.Add? && Step(s, a).log.rest == s.log)
  {
  }

  lemma SecretStaysOwn(start: State, s: State, a: Action, env: Env, secret: string)
    requires IsOwn(start, s, env, secret) && Enabled(s, a)
    ensures IsOwn(start, Step(s, a), env, secret)
  {
    LogGrows(s, a);
  }

  lemma CacheStaysOwn(start: State, s: State, a: Action, env: Env)
    requires NothingCrosses(start, s) && Enabled(s, a) && env in Step(s, a).cache
    ensures IsOwn(start, Step(s, a), env, Step(s, a).cache[env].secret)
  {
    if a.SetToken? && a.ok && s.callers[a.id].env == env {
      assert CallerIsOwn(start, s, s.callers[a.id]);
      SecretStaysOwn(start, s, a, env, PcOf(s, a.id).token.secret);
    } else {
      SecretStaysOwn(start, s, a, env, s.cache[env].secret);
    }
  }

  lemma OwnStays(start: State, s: State, a: Action, c: Caller)
    requires CallerIsOwn(start, s, c) && Enabled(s, a)
    ensures CallerIsOwn(start, Step(s, a), c)
  {
    LogGrows(s, a);
  }

  lemma ActorStaysOwn(start: State, s: State, a: Action)
    requires NothingCrosses(start, s) && Enabled(s, a) && !a.Tick? && !a.RemoveToken?
    ensures CallerIsOwn(start, Step(s, a), Step(s, a).callers[a.id])
  {
    if a.id in s.callers { OwnStays(start, s, a, s.callers[a.id]); }
  }

  lemma OthersStay(s: State, a: Action, id: Id)
    requires Enabled(s, a) && id in Step(s, a).callers
    requires a.Tick? || a.RemoveToken? || a.id != id
    ensures id in s.callers && Step(s, a).callers[id] == s.callers[id]
  {
  }

  lemma CallersStayOwn(start: State, s: State, a: Action, id: Id)
    requires NothingCrosses(start, s) && Enabled(s, a) && id in Step(s, a).callers
    ensures CallerIsOwn(start, Step(s, a), Step(s, a).callers[id])
  {
    if !a.Tick? && !a.RemoveToken? && a.id == id {
      ActorStaysOwn(start, s, a);
    } else {
      OthersStay(s, a, id);
      OwnStays(start, s, a, s.callers[id]);
    }
  }

  lemma StepKeepsOwn(start: State, s: State, a: Action)
    requires NothingCrosses(start, s) && Enabled(s, a)
    ensures NothingCrosses(start, Step(s, a))
  {
    var s' := Step(s, a);
    forall env | env in s'.cache ensures IsOwn(start, s', env, s'.cache[env].secret) {
      CacheStaysOwn(start, s, a, env);
    }
    forall id | id in s'.callers ensures CallerIsOwn(start, s', s'.callers[id]) { CallersStayOwn(start, s, a, id); }
  }

  lemma RecheckKeepsBlind(s: State, a: Action)
    requires Enabled(s, a) && BlindIsNoted(s) && a.Recheck?
    ensures BlindIsNoted(Step(s, a))
  {
  }

  lemma HolderKeepsBlind(s: State, a: Action)
    requires Enabled(s, a) && BlindIsNoted(s) && IsHolderStep(a)
    ensures BlindIsNoted(Step(s, a))
  {
    if a.Recheck? { RecheckKeepsBlind(s, a); }
  }

  lemma StepKeepsBlind(s: State, a: Action)
    requires Enabled(s, a) && BlindIsNoted(s)
    ensures BlindIsNoted(Step(s, a))
  {
    if IsHolderStep(a) {
      HolderKeepsBlind(s, a);
    }
  }

  lemma StepKeepsStarts(s: State, a: Action, env: Env)
    requires Inv(s) && BlindIsNoted(s) && Enabled(s, a) && StartsInvalid(s.log, env)
    ensures StartsInvalid(Step(s, a).log, env)
  {
    if a.StartPost? {
      var c := s.callers[a.id];
      assert Fetching(c.pc);
    }
  }

  /** Everything above, in every state any interleaving reaches. */
  lemma {:induction false} Reachable(start: State, actions: seq<Action>, env: Env)
    requires Legal(start, actions)
    ensures var s := After(start, actions);
            Inv(s) && BlindIsNoted(s) && PostsAreNeeded(s, env) && StartsInvalid(s.log, env)
  {
    if actions != [] {
      var earlier := actions[..|actions| - 1];
      Reachable(start, earlier, env);
      var s, a := After(start, earlier), actions[|actions| - 1];
      StepKeepsLocks(s, a);
      StepKeepsFetching(s, a);
      StepKeepsPosts(s, a, env);
      StepKeepsBlind(s, a);
      StepKeepsStarts(s, a, env);
    }
  }

  // ----- What callers may rely on

  /** Two callers of one environment that reached the lock got the same mutex;
      callers of different environments got different ones. */
  lemma OneMutexPerEnv(start: State, actions: seq<Action>, id1: Id, id2: Id)
    requires Legal(start, actions)
    ensures var s := After(start, actions);
            At(s, id1) && At(s, id2) && HasMutex(PcOf(s, id1)) && HasMutex(PcOf(s, id2)) ==>
              (PcOf(s, id1).mutex == PcOf(s, id2).mutex <==> s.callers[id1].env == s.callers[id2].env)
  {
    Reachable(start, actions, "");
  }

  lemma {:induction false} RunKeepsOwn(start: State, actions: seq<Action>)
    requires Legal(start, actions)
    ensures NothingCrosses(start, After(start, actions))
  {
    if actions != [] {
      var earlier := actions[..|actions| - 1];
      RunKeepsOwn(start, earlier);
      StepKeepsOwn(start, After(start, earlier), actions[|actions| - 1]);
    }
  }

  /** The token a caller gets was saved or fetched for its own environment. */
  lemma AnswersAreOwnTokens(start: State, actions: seq<Action>, id: Id)
    requires Legal(start, actions) && At(After(start, actions), id)
    requires PcOf(After(start, actions), id).Returned? && PcOf(After(start, actions), id).answer.Granted?
    ensures var s := After(start, actions);
            IsOwn(start, s, s.callers[id].env, PcOf(s, id).answer.secret)
  {
    RunKeepsOwn(start, actions);
    assert CallerIsOwn(start, After(start, actions), After(start, actions).callers[id]);
  }

  /** At most one OAuth POST per environment is in flight, forced or not. */
  lemma SingleFlight(start: State, actions: seq<Action>, id1: Id, id2: Id)
    requires Legal(start, actions)
    ensures var s := After(start, actions);
            At(s, id1) && At(s, id2) && s.callers[id1].env == s.callers[id2].env ==>
              PcOf(s, id1).Posting? && PcOf(s, id2).Posting? ==> id1 == id2
  {
    Reachable(start, actions, "");
    var s := After(start, actions);
    if At(s, id1) && At(s, id2) && PcOf(s, id1).Posting? && PcOf(s, id2).Posting? {
      assert Holds(PcOf(s, id1)) && Holds(PcOf(s, id2));
    }
  }

  /** When a TokenContext caller starts a POST the cached token is invalid at
      that moment; with a readable cache there is no exception. */
  lemma PostsStartInvalid(start: State, actions: seq<Action>, a: Action)
    requires Legal(start, actions) && Enabled(After(start, actions), a) && a.StartPost?
    ensures var c := After(start, actions).callers[a.id];
            !c.forced && !c.pc.blind ==> !CacheValid(After(start, actions), c.env)
  {
    Reachable(start, actions, "");
    assert Fetching(PcOf(After(start, actions), a.id));
  }

  /** The POSTs TokenContext callers start for an environment number at most one
      plus the refreshes that failed, the tokens that lapsed or were removed,
      and the re-checks that could not read the cache. */
  lemma PostsAreBounded(start: State, actions: seq<Action>, env: Env)
    requires Legal(start, actions)
    ensures var log := After(start, actions).log;
            Count(log, env, TokenPost) <= 1 + Reasons(log, env)
  {
    Reachable(start, actions, env);
    var s := After(start, actions);
    if HolderWeight(s, env) > 0 {
      var id := s.owner[s.locks[env]];
      assert Holds(s.callers[id].pc) && s.callers[id].env in s.locks && s.callers[id].env == env;
      assert Fetching(s.callers[id].pc);
    }
  }

  /** The caller that has to move before `id` can: the lock holder it queues
      behind, or itself. */
  function Mover(s: State, id: Id): Id
    requires id in s.callers
  {
    var pc := PcOf(s, id);
    if pc.Queued? && pc.mutex in s.owner then s.owner[pc.mutex] else id
  }

  function Rank(pc: Pc): nat {
    match pc
    case Missed => 8
    case Queued(_) => 7
    case Locked(_) => 6
    case Ready(_, _) => 5
    case Posting(_, _) => 4
    case Storing(_, _, _) => 3
    case Saving(_, _) => 2
    case Releasing(_, _) => 1
    case Returned(_) => 0
  }

  /** What `id` does next when nothing goes wrong. */
  function NextAction(s: State, id: Id): Action
    requires id in s.callers
  {
    match PcOf(s, id)
    case Missed => LoadOrStore(id)
    case Queued(_) => Lock(id)
    case Locked(_) => Recheck(id, true)
    case Ready(_, _) => StartPost(id)
    case Posting(_, _) => PostFails(id)
    case Storing(_, _, _) => SetToken(id, true)
    case Saving(_, _) => Save(id, true)
    case Releasing(_, _) => Unlock(id)
    case Returned(_) => Tick(0)
  }

  /** A step of one caller, other than its arrival. */
  predicate IsMove(a: Action) { !a.Arrive? && !a.Tick? && !a.RemoveToken? }

  /** Every step a caller takes brings it closer to returning. */
  lemma MoveLowersRank(s: State, a: Action)
    requires Enabled(s, a) && IsMove(a)
    ensures At(s, a.id) && Rank(PcOf(Step(s, a), a.id)) < Rank(PcOf(s, a.id))
  {
  }

  lemma OthersKeepRank(s: State, a: Action, id: Id)
    requires Enabled(s, a) && At(Step(s, a), id) && !(IsMove(a) && a.id == id)
    ensures if At(s, id) then Rank(PcOf(Step(s, a), id)) == Rank(PcOf(s, id)) else Rank(PcOf(Step(s, a), id)) <= 8
  {
  }

  function RankOf(s: State, id: Id): nat { if At(s, id) then Rank(PcOf(s, id)) else 8 }

  lemma RankFalls(s: State, a: Action, id: Id)
    requires Enabled(s, a)
    ensures RankOf(Step(s, a), id) <= RankOf(s, id) - if IsMove(a) && a.id == id then 1 else 0
    ensures IsMove(a) && a.id == id ==> At(s, id)
  {
    if IsMove(a) && a.id == id {
      MoveLowersRank(s, a);
    } else if At(Step(s, a), id) {
      OthersKeepRank(s, a, id);
    }
  }

  /** How many steps `id` has taken since it arrived. */
  function Moves(actions: seq<Action>, id: Id): nat {
    if actions == [] then 0
    else
      var a := actions[|actions| - 1];
      Moves(actions[..|actions| - 1], id) + if IsMove(a) && a.id == id then 1 else 0
  }

  /** No caller takes more than eight steps, however the others interfere. */
  lemma {:induction false} MovesAreBounded(start: State, actions: seq<Action>, id: Id)
    requires Legal(start, actions)
    ensures Moves(actions, id) + RankOf(After(start, actions), id) <= 8
  {
    if actions != [] {
      var earlier := actions[..|actions| - 1];
      var s, a := After(start, earlier), actions[|actions| - 1];
      MovesAreBounded(start, earlier, id);
      RankFalls(s, a, id);
    }
  }

  lemma NextIsEnabled(s: State, id: Id)
    requires At(s, id) && !PcOf(s, id).Returned?
    requires PcOf(s, id).Queued? ==> PcOf(s, id).mutex !in s.owner
    ensures Enabled(s, NextAction(s, id)) && IsMove(NextAction(s, id)) && NextAction(s, id).id == id
  {
  }

  /** No deadlock: as long as a caller has not returned, it or the holder of the
      lock it waits for can take a step. */
  lemma NoDeadlock(start: State, actions: seq<Action>, id: Id)
    requires Legal(start, actions) && At(After(start, actions), id) && !PcOf(After(start, actions), id).Returned?
    ensures var s := After(start, actions);
            var m := Mover(s, id);
            && At(s, m) && s.callers[m].env == s.callers[id].env
            && Enabled(s, NextAction(s, m)) && IsMove(NextAction(s, m)) && NextAction(s, m).id == m
  {
    Reachable(start, actions, "");
    var s := After(start, actions);
    var m := Mover(s, id);
    if m != id {
      assert Holds(PcOf(s, m)) && PcOf(s, m).mutex == PcOf(s, id).mutex;
      assert HasMutex(PcOf(s, id)) && HasMutex(PcOf(s, m));
      OneMutexPerEnv(start, actions, id, m);
    }
    NextIsEnabled(s, m);
  }

  /** Everyone returns: callers can go on taking steps exactly as long as one of
      them has not returned, and no caller takes more than eight. */
  lemma EveryoneReturns(start: State, actions: seq<Action>)
    requires Legal(start, actions)
    ensures var s := After(start, actions);
            (exists a :: Enabled(s, a) && IsMove(a)) <==> (exists id :: At(s, id) && !PcOf(s, id).Returned?)
    ensures forall id :: Moves(actions, id) <= 8
  {
    var s := After(start, actions);
    if a :| Enabled(s, a) && IsMove(a) {
      MoveLowersRank(s, a);
      assert At(s, a.id) && !PcOf(s, a.id).Returned?;
    }
    if id :| At(s, id) && !PcOf(s, id).Returned? {
      NoDeadlock(start, actions, id);
      assert Enabled(s, NextAction(s, Mover(s, id)));
    }
    forall id ensures Moves(actions, id) <= 8 { MovesAreBounded(start, actions, id); }
  }
}
