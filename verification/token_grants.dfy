/** Which answers callers get from the token refresh, and what the count of POSTs
    is made of. */
module TokenGrants {
  import opened TokenRefresh

  /** A token still good for more than a minute. */
  predicate Usable(token: Token, now: int) { token.secret != "" && now + 60_000_000_000 < token.expires }

  predicate UsableCache(s: State, env: Env) { env in s.cache && Usable(s.cache[env], s.now) }

  predicate Answered(s: State, id: Id) { At(s, id) && (PcOf(s, id).Releasing? || PcOf(s, id).Returned?) }

  // ----- Single steps

  /** A caller may take its answer from the cache: it is not forced, could read
      the cache, and the token there is usable. */
  predicate Hits(s: State, a: Action) {
    match a
    case Arrive(_, env, forced, readable) => !forced && readable && UsableCache(s, env)
    case Recheck(id, readable) => At(s, id) && readable && UsableCache(s, s.callers[id].env)
    case _ => false
  }

  /** The steps that end without a token. */
  predicate Misses(a: Action) {
    match a
    case Arrive(_, _, forced, readable) => !forced && !readable
    case GiveUp(_) => true
    case PostFails(_) => true
    case SetToken(_, ok) => !ok
    case Save(_, ok) => !ok
    case _ => false
  }

  function EnvOf(s: State, a: Action): Env
    requires Enabled(s, a) && !a.Tick? && !a.RemoveToken?
  {
    if a.Arrive? then a.env else s.callers[a.id].env
  }

  /** A step gives its caller an answer if and only if it finds a usable token in
      the cache, saves the caller's own, or fails; and it gives that token. */
  lemma AnswersExactly(s: State, a: Action)
    requires Enabled(s, a) && !a.Tick? && !a.RemoveToken? && !Answered(s, a.id)
    ensures Answered(Step(s, a), a.id) <==> Hits(s, a) || Misses(a) || a.Save?
    ensures Answered(Step(s, a), a.id) ==>
              PcOf(Step(s, a), a.id).answer ==
              if Hits(s, a) then Granted(s.cache[EnvOf(s, a)].secret)
              else if Misses(a) then Denied
              else Granted(PcOf(s, a.id).token.secret)
  {
  }

  /** An answer once given stays. */
  lemma AnswersStay(s: State, a: Action, id: Id)
    requires Enabled(s, a) && Answered(s, id)
    ensures Answered(Step(s, a), id) && PcOf(Step(s, a), id).answer == PcOf(s, id).answer
  {
  }

  /** Others are not affected by a caller's step. */
  lemma OnlyOwnAnswer(s: State, a: Action, id: Id)
    requires Enabled(s, a) && Answered(Step(s, a), id) && !Answered(s, id)
    ensures !a.Tick? && !a.RemoveToken? && a.id == id
  {
  }

  /** The cache changes for one environment only: by storing a fetched token, whole,
      or by a removal; and time never goes back. */
  lemma CacheChangesExactly(s: State, a: Action, env: Env)
    requires Enabled(s, a)
    ensures var s' := Step(s, a);
            if a.SetToken? && a.ok && s.callers[a.id].env == env then
              env in s'.cache && s'.cache[env] == PcOf(s, a.id).token
            else if a == RemoveToken(env) then env !in s'.cache
            else (env in s'.cache <==> env in s.cache) && (env in s.cache ==> s'.cache[env] == s.cache[env])
    ensures Step(s, a).now == s.now + if a.Tick? then a.ns else 0
  {
  }

  // ----- Whole runs

  /** The own POST of `id` was answered with a token of this secret. */
  predicate OwnFetch(actions: seq<Action>, id: Id, secret: string) {
    exists i | 0 <= i < |actions| ::
      actions[i].PostAnswers? && actions[i].id == id && actions[i].token.secret == secret
  }

  predicate FetchedByItself(actions: seq<Action>, id: Id, c: Caller) {
    match c.pc
    case Storing(_, _, token) => token.secret != "" && OwnFetch(actions, id, token.secret)
    case Saving(_, token) => token.secret != "" && OwnFetch(actions, id, token.secret)
    case Locked(_) => !c.forced
    case Releasing(_, Granted(secret)) => c.forced ==> OwnFetch(actions, id, secret)
    case Returned(Granted(secret)) => c.forced ==> OwnFetch(actions, id, secret)
    case _ => true
  }

  lemma FetchStays(actions: seq<Action>, a: Action, id: Id, c: Caller)
    requires FetchedByItself(actions, id, c)
    ensures FetchedByItself(actions + [a], id, c)
  {
    forall secret | OwnFetch(actions, id, secret) ensures OwnFetch(actions + [a], id, secret) {
      var i :| 0 <= i < |actions| && actions[i].PostAnswers? && actions[i].id == id
               && actions[i].token.secret == secret;
      assert (actions + [a])[i] == actions[i];
    }
  }

  lemma FetchStep(s: State, actions: seq<Action>, a: Action)
    requires Enabled(s, a) && !a.Tick? && !a.RemoveToken?
    requires At(s, a.id) ==> FetchedByItself(actions, a.id, s.callers[a.id])
    ensures FetchedByItself(actions + [a], a.id, Step(s, a).callers[a.id])
  {
    assert (actions + [a])[|actions|] == a;
    if At(s, a.id) { FetchStays(actions, a, a.id, s.callers[a.id]); }
  }

  lemma {:induction false} RunsFetchOwn(start: State, actions: seq<Action>, id: Id)
    requires Legal(start, actions) && At(After(start, actions), id)
    ensures FetchedByItself(actions, id, After(start, actions).callers[id])
  {
    if actions != [] {
      var earlier, a := actions[..|actions| - 1], actions[|actions| - 1];
      var s := After(start, earlier);
      assert actions == earlier + [a];
      if At(s, id) { RunsFetchOwn(start, earlier, id); }
      if !a.Tick? && !a.RemoveToken? && a.id == id {
        FetchStep(s, earlier, a);
      } else {
        OthersStay(s, a, id);
        FetchStays(earlier, a, id, s.callers[id]);
      }
    }
  }

  /** Whoever is granted a token is granted a usable one of the cache, which a
      forced caller never is, or the one its own POST was answered with. */
  lemma GrantsAreUsable(start: State, actions: seq<Action>, a: Action, id: Id)
    requires Legal(start, actions) && Enabled(After(start, actions), a)
    requires var s := After(start, actions); Answered(Step(s, a), id) && !Answered(s, id)
    requires PcOf(Step(After(start, actions), a), id).answer.Granted?
    ensures var s := After(start, actions);
            var c := Step(s, a).callers[id];
            var secret := c.pc.answer.secret;
            || (!c.forced && c.env in s.cache && s.cache[c.env].secret == secret && secret != ""
                && s.now + 60_000_000_000 < s.cache[c.env].expires)
            || (secret != "" && a == Save(id, true) && OwnFetch(actions, id, secret))
  {
    var s := After(start, actions);
    OnlyOwnAnswer(s, a, id);
    AnswersExactly(s, a);
    if At(s, id) { RunsFetchOwn(start, actions, id); }
  }

  /** A forced caller only ever gets the token of its own POST. */
  lemma ForcedGetsItsOwn(start: State, actions: seq<Action>, id: Id)
    requires Legal(start, actions) && Answered(After(start, actions), id)
    requires var c := After(start, actions).callers[id]; c.forced && c.pc.answer.Granted?
    ensures OwnFetch(actions, id, PcOf(After(start, actions), id).answer.secret)
  {
    RunsFetchOwn(start, actions, id);
  }

  // ----- The count of POSTs

  function Added(s: State, a: Action, env: Env, kind: Kind): int
    requires Enabled(s, a)
  {
    Count(Step(s, a).log, env, kind) - Count(s.log, env, kind)
  }

  /** What PostsAreBounded counts: each kind of event exactly when it happens. */
  lemma PostsAndFailuresAreCounted(s: State, a: Action, env: Env)
    requires Enabled(s, a)
    ensures Added(s, a, env, TokenPost) ==
            if a.StartPost? && s.callers[a.id].env == env && !s.callers[a.id].forced then 1 else 0
    ensures Added(s, a, env, Failure) ==
            if (a.PostFails? || (a.SetToken? && !a.ok)) && s.callers[a.id].env == env then 1 else 0
    ensures Added(s, a, env, Blind) ==
            if a.Recheck? && !a.readable && s.callers[a.id].env == env then 1 else 0
  {
  }

  lemma LossesAreCounted(s: State, a: Action, env: Env)
    requires Enabled(s, a)
    ensures Added(s, a, env, Removal) == if a == RemoveToken(env) && UsableCache(s, env) then 1 else 0
    ensures Added(s, a, env, Lapse) ==
            if a.Tick? then (if UsableCache(s, env) && !UsableCache(Step(s, a), env) then 1 else 0)
            else if a.SetToken? && a.ok && s.callers[a.id].env == env && !Usable(PcOf(s, a.id).token, s.now) then 1
            else 0
  {
  }

  // ----- A fetch can succeed

  lemma OneMore(start: State, actions: seq<Action>, a: Action) returns (more: seq<Action>)
    requires Legal(start, actions) && Enabled(After(start, actions), a)
    ensures Legal(start, more) && After(start, more) == Step(After(start, actions), a)
  {
    more := actions + [a];
    assert more[..|more| - 1] == actions;
  }

  /** Caller `id`, alone, has got to `pc`. */
  predicate Alone(s: State, id: Id, env: Env, pc: Pc) {
    At(s, id) && s.callers[id] == Caller(env, false, pc)
  }

  lemma ReachPosting(start: State, id: Id, env: Env) returns (actions: seq<Action>)
    requires Initial(start) && !UsableCache(start, env)
    ensures Legal(start, actions) && Alone(After(start, actions), id, env, Posting(0, false))
    ensures After(start, actions).owner == map[0 := id]
  {
    actions := OneMore(start, [], Arrive(id, env, false, true));
    assert Alone(After(start, actions), id, env, Missed);
    actions := OneMore(start, actions, LoadOrStore(id));
    assert Alone(After(start, actions), id, env, Queued(0));
    actions := OneMore(start, actions, Lock(id));
    assert Alone(After(start, actions), id, env, Locked(0)) && After(start, actions).owner == map[0 := id];
    actions := OneMore(start, actions, Recheck(id, true));
    assert Alone(After(start, actions), id, env, Ready(0, false));
    actions := OneMore(start, actions, StartPost(id));
  }

  lemma SaveAndReturn(start: State, before: seq<Action>, id: Id, env: Env, token: Token) returns (actions: seq<Action>)
    requires Legal(start, before) && Alone(After(start, before), id, env, Saving(0, token))
    requires After(start, before).owner == map[0 := id]
    ensures Legal(start, actions) && After(start, actions).owner == map[]
    ensures Alone(After(start, actions), id, env, Returned(Granted(token.secret)))
    ensures After(start, actions).cache == After(start, before).cache
  {
    actions := OneMore(start, before, Save(id, true));
    assert Alone(After(start, actions), id, env, Releasing(0, Granted(token.secret)));
    actions := OneMore(start, actions, Unlock(id));
  }

  /** Against a server that grants one, a caller without a usable token in the cache
      gets a new one, leaves it in the cache and releases the lock. */
  lemma FetchSucceeds(start: State, id: Id, env: Env, token: Token) returns (actions: seq<Action>)
    requires Initial(start) && !UsableCache(start, env) && token.secret != ""
    ensures Legal(start, actions)
    ensures var s := After(start, actions);
            Alone(s, id, env, Returned(Granted(token.secret))) && s.owner == map[]
            && env in s.cache && s.cache[env] == token
  {
    actions := ReachPosting(start, id, env);
    actions := OneMore(start, actions, PostAnswers(id, token));
    assert Alone(After(start, actions), id, env, Storing(0, false, token));
    actions := OneMore(start, actions, SetToken(id, true));
    actions := SaveAndReturn(start, actions, id, env, token);
  }
}
