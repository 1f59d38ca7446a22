/** pkg/ratelimit: a Redis counter whose expiry is renewed by every call, and the limiters built on it. */
module RateLimit {
  import opened Common

  /** A stored counter, and when its expiry was last set. */
  datatype Counter = Counter(count: nat, touched: Time)

  /** How the counter call of a request went. A call that errs may have taken effect all the same. */
  datatype Outcome = Counted | Errored(applied: bool)

  datatype Request = Request(key: string, limit: int, at: Time, outcome: Outcome)

  /** INCR and EXPIRE in one transaction. A key is dead once `window` has passed since it was last touched. */
  function Bump(c: Option<Counter>, at: Time, window: int): Counter
  {
    if c.Some? && at < c.value.touched + window then Counter(c.value.count + 1, at) else Counter(1, at)
  }

  function Next(c: Option<Counter>, r: Request, window: int): Option<Counter>
  {
    if r.outcome == Errored(false) then c else Some(Bump(c, r.at, window))
  }

  predicate Refused(c: Option<Counter>, r: Request, window: int)
  {
    r.outcome.Counted? && Bump(c, r.at, window).count > r.limit
  }

  // ---- one key ----

  function After(c: Option<Counter>, trace: seq<Request>, window: int): Option<Counter>
  {
    if trace == [] then c
    else Next(After(c, trace[..|trace| - 1], window), trace[|trace| - 1], window)
  }

  predicate RefusedAt(c: Option<Counter>, trace: seq<Request>, i: nat, window: int)
    requires i < |trace|
  {
    Refused(After(c, trace[..i], window), trace[i], window)
  }

  predicate InOrder(trace: seq<Request>)
  {
    forall i, j | 0 <= i <= j < |trace| :: trace[i].at <= trace[j].at
  }

  /** How many of trace[i..j] are let through on the strength of a count. */
  function CountedIn(c: Option<Counter>, trace: seq<Request>, i: nat, j: nat, window: int): nat
    requires i <= j <= |trace|
  {
    if j == i then 0
    else
      CountedIn(c, trace, i, j - 1, window)
      + if trace[j - 1].outcome.Counted? && !RefusedAt(c, trace, j - 1, window) then 1 else 0
  }

  function AdmittedIn(c: Option<Counter>, trace: seq<Request>, i: nat, j: nat, window: int): nat
    requires i <= j <= |trace|
  {
    if j == i then 0
    else AdmittedIn(c, trace, i, j - 1, window) + if RefusedAt(c, trace, j - 1, window) then 0 else 1
  }

  function ErrorsIn(trace: seq<Request>, i: nat, j: nat): nat
    requires i <= j <= |trace|
  {
    if j == i then 0 else ErrorsIn(trace, i, j - 1) + if trace[j - 1].outcome.Counted? then 0 else 1
  }

  lemma AfterStep(c: Option<Counter>, trace: seq<Request>, i: nat, window: int)
    requires i < |trace|
    ensures After(c, trace[..i + 1], window) == Next(After(c, trace[..i], window), trace[i], window)
  {
    assert trace[..i + 1][..i] == trace[..i];
  }

  /**
   * Once something is admitted in a stretch shorter than the window, the counter stays alive through it and keeps the
   * tally.
   */
  lemma {:induction false} CounterKeepsTally(c: Option<Counter>, trace: seq<Request>, i: nat, j: nat, limit: nat,
                                             window: int)
    requires InOrder(trace) && i < j <= |trace|
    requires trace[j - 1].at - trace[i].at < window
    requires forall k | i <= k < j :: trace[k].limit <= limit
    ensures var n, c' := CountedIn(c, trace, i, j, window), After(c, trace[..j], window);
      n <= limit && (n > 0 ==> c'.Some? && c'.value.count >= n && trace[i].at <= c'.value.touched)
    decreases j
  {
    AfterStep(c, trace, j - 1, window);
    if j - 1 > i {
      CounterKeepsTally(c, trace, i, j - 1, limit, window);
    }
  }

  /**
   * The window bound. Whatever the counter held before, every stretch of requests shorter than the window lets
   * through at most `limit` by count, so at most `limit` plus the number of counter errors in it.
   */
  lemma {:induction false} WindowBound(c: Option<Counter>, trace: seq<Request>, i: nat, j: nat, limit: nat, window: int)
    requires InOrder(trace) && i < j <= |trace|
    requires trace[j - 1].at - trace[i].at < window
    requires forall k | i <= k < j :: trace[k].limit <= limit
    ensures CountedIn(c, trace, i, j, window) <= limit
    ensures AdmittedIn(c, trace, i, j, window) <= limit + ErrorsIn(trace, i, j)
  {
    CounterKeepsTally(c, trace, i, j, limit, window);
    AdmittedAreCountedOrErrors(c, trace, i, j, window);
  }

  lemma {:induction false} AdmittedAreCountedOrErrors(c: Option<Counter>, trace: seq<Request>, i: nat, j: nat,
                                                      window: int)
    requires i <= j <= |trace|
    ensures AdmittedIn(c, trace, i, j, window) == CountedIn(c, trace, i, j, window) + ErrorsIn(trace, i, j)
    decreases j
  {
    if i < j {
      AdmittedAreCountedOrErrors(c, trace, i, j - 1, window);
    }
  }

  // ---- without errors: exactly who is admitted ----

  predicate ErrorFree(trace: seq<Request>)
  {
    forall i | 0 <= i < |trace| :: trace[i].outcome.Counted?
  }

  /** s is where the burst holding request i begins: the last request at or before i that follows a silent gap. */
  ghost predicate BurstStart(trace: seq<Request>, s: nat, i: nat, window: int)
  {
    && s <= i < |trace|
    && (s == 0 || trace[s].at - trace[s - 1].at >= window)
    && forall k | s < k <= i :: trace[k].at - trace[k - 1].at < window
  }

  lemma {:induction false} CountIsPlaceInBurst(trace: seq<Request>, s: nat, i: nat, window: int)
    requires ErrorFree(trace) && BurstStart(trace, s, i, window)
    ensures After(None, trace[..i + 1], window) == Some(Counter(i - s + 1, trace[i].at))
    decreases i
  {
    AfterStep(None, trace, i, window);
    if s < i {
      CountIsPlaceInBurst(trace, s, i - 1, window);
    } else if s > 0 {
      LastTouch(trace, s - 1, window);
    }
  }

  lemma {:induction false} LastTouch(trace: seq<Request>, i: nat, window: int)
    requires ErrorFree(trace) && i < |trace|
    ensures var c := After(None, trace[..i + 1], window); c.Some? && c.value.touched == trace[i].at
  {
    AfterStep(None, trace, i, window);
  }

  /** Every request has a burst, and only one. */
  lemma {:induction false} BurstStartExists(trace: seq<Request>, i: nat, window: int) returns (s: nat)
    requires i < |trace|
    ensures BurstStart(trace, s, i, window)
    ensures forall t | BurstStart(trace, t, i, window) :: t == s
    decreases i
  {
    if i == 0 || trace[i].at - trace[i - 1].at >= window {
      s := i;
    } else {
      s := BurstStartExists(trace, i - 1, window);
      forall t | BurstStart(trace, t, i, window) ensures t == s {
        assert BurstStart(trace, t, i - 1, window);
      }
    }
  }

  /**
   * A request is admitted exactly when at most `limit` requests, itself included, have come since the last silent
   * gap.
   */
  lemma AdmittedIffEarlyInBurst(trace: seq<Request>, s: nat, i: nat, window: int)
    requires ErrorFree(trace) && BurstStart(trace, s, i, window)
    ensures !RefusedAt(None, trace, i, window) <==> i - s + 1 <= trace[i].limit
  {
    CountIsPlaceInBurst(trace, s, i, window);
    AfterStep(None, trace, i, window);
  }

  /** So a refused caller stays refused for as long as it keeps asking within the window. */
  lemma RefusedUntilSilent(trace: seq<Request>, i: nat, j: nat, window: int)
    requires ErrorFree(trace) && i < j < |trace|
    requires forall k | i < k <= j :: trace[k].at - trace[k - 1].at < window && trace[k].limit == trace[i].limit
    requires RefusedAt(None, trace, i, window)
    ensures RefusedAt(None, trace, j, window)
  {
    var s := BurstStartExists(trace, i, window);
    AdmittedIffEarlyInBurst(trace, s, i, window);
    AdmittedIffEarlyInBurst(trace, s, j, window);
  }

  /**
   * It is not a sliding log: the third of these is refused though only two requests, itself included, fell in the
   * last window and the limit is two.
   */
  lemma SteadyCallerIsRefused()
    ensures var trace := seq(3, i => Request("k", 2, 6 * i, Counted));
      RefusedAt(None, trace, 2, 10) && trace[2].at - trace[0].at > 10
  {
    var trace := seq(3, i => Request("k", 2, 6 * i, Counted));
    AdmittedIffEarlyInBurst(trace, 0, 2, 10);
  }

  // ---- with errors ----

  /** The calls that take effect, as if none had reported an error. */
  function Effective(trace: seq<Request>): (r: seq<Request>)
    ensures ErrorFree(r)
  {
    if trace == [] then []
    else
      var n := |trace| - 1;
      Effective(trace[..n])
        + if trace[n].outcome == Errored(false) then [] else [trace[n].(outcome := Counted)]
  }

  /** A call that errs counts exactly if it takes effect. */
  lemma {:induction false} ErrorsCountIff(c: Option<Counter>, trace: seq<Request>, window: int)
    ensures After(c, trace, window) == After(c, Effective(trace), window)
    decreases |trace|
  {
    if trace != [] {
      var n := |trace| - 1;
      ErrorsCountIff(c, trace[..n], window);
      var before := Effective(trace[..n]);
      if trace[n].outcome != Errored(false) {
        assert (before + [trace[n].(outcome := Counted)])[..|before|] == before;
      } else {
        assert before + [] == before;
      }
    }
  }

  /**
   * So, whatever errs: a request whose call errs is admitted, and any other exactly when at most `limit` calls that
   * took effect, its own included, have come since the last silent gap among those.
   */
  lemma AdmittedIff(trace: seq<Request>, i: nat, s: nat, window: int)
    requires i < |trace|
    requires var calls := Effective(trace[..i]) + [trace[i].(outcome := Counted)];
      BurstStart(calls, s, |calls| - 1, window)
    ensures !RefusedAt(None, trace, i, window) <==>
      !trace[i].outcome.Counted? || |Effective(trace[..i])| - s + 1 <= trace[i].limit
  {
    var before := Effective(trace[..i]);
    var calls := before + [trace[i].(outcome := Counted)];
    ErrorsCountIff(None, trace[..i], window);
    AdmittedIffEarlyInBurst(calls, s, |before|, window);
    assert calls[..|before|] == before;
  }

  // ---- many keys ----

  type Store = map<string, Counter>

  function Lookup(store: Store, key: string): Option<Counter>
  {
    if key in store then Some(store[key]) else None
  }

  function Serve(store: Store, r: Request, window: int): Store
  {
    match Next(Lookup(store, r.key), r, window)
    case None => store
    case Some(c) => store[r.key := c]
  }

  function ServeAll(store: Store, trace: seq<Request>, window: int): Store
  {
    if trace == [] then store else Serve(ServeAll(store, trace[..|trace| - 1], window), trace[|trace| - 1], window)
  }

  /** The verdicts on one key's requests in a run over all keys. */
  function RefusalsFor(store: Store, trace: seq<Request>, key: string, window: int): seq<bool>
  {
    if trace == [] then []
    else
      var n := |trace| - 1;
      RefusalsFor(store, trace[..n], key, window)
      + if trace[n].key == key then [Refused(Lookup(ServeAll(store, trace[..n], window), key), trace[n], window)]
        else []
  }

  /** The verdicts of a run on one counter. */
  function Refusals(c: Option<Counter>, trace: seq<Request>, window: int): seq<bool>
  {
    if trace == [] then []
    else
      var n := |trace| - 1;
      Refusals(c, trace[..n], window) + [Refused(After(c, trace[..n], window), trace[n], window)]
  }

  function OnKey(trace: seq<Request>, key: string): seq<Request>
  {
    if trace == [] then []
    else
      var n := |trace| - 1;
      OnKey(trace[..n], key) + if trace[n].key == key then [trace[n]] else []
  }

  /** Keys do not interfere: a key's counter and verdicts are those of its own requests run alone. */
  lemma {:induction false} KeysAreIndependent(store: Store, trace: seq<Request>, key: string, window: int)
    ensures Lookup(ServeAll(store, trace, window), key) == After(Lookup(store, key), OnKey(trace, key), window)
    ensures RefusalsFor(store, trace, key, window) == Refusals(Lookup(store, key), OnKey(trace, key), window)
    decreases |trace|
  {
    if trace != [] {
      var n := |trace| - 1;
      KeysAreIndependent(store, trace[..n], key, window);
      var own := OnKey(trace[..n], key);
      if trace[n].key == key {
        assert (own + [trace[n]])[..|own|] == own;
      } else {
        assert OnKey(trace, key) == own;
      }
    }
  }

  // ---- the middleware ----

  class RedisCounter {
    var store: Store

    constructor ()
      ensures store == map[]
    {
      store := map[];
    }

    /** The new count, or nothing when the call errs. The outcome stands for what the network does to the call. */
    method Increment(key: string, window: int, at: Time, outcome: Outcome) returns (count: Option<nat>)
      modifies this
      ensures var r := Request(key, 0, at, outcome);
        && store == Serve(old(store), r, window)
        && count == if outcome.Counted? then Some(Bump(Lookup(old(store), key), at, window).count) else None
    {
      if outcome == Errored(false) {
        return None;
      }
      var live := key in store && at < store[key].touched + window;
      store := store[key := Counter(if live then store[key].count + 1 else 1, at)];
      count := if outcome.Counted? then Some(store[key].count) else None;
    }
  }

  /** AdaptiveLimiter: key and limit come with the request. Fails open. */
  method AdaptiveLimiter(counter: RedisCounter, r: Request, window: int) returns (next: bool)
    modifies counter
    ensures counter.store == Serve(old(counter.store), r, window)
    ensures next == !Refused(Lookup(old(counter.store), r.key), r, window)
  {
    var count := counter.Increment(r.key, window, r.at, r.outcome);
    if count.None? {
      return true;
    }
    next := !(count.value > r.limit);
  }

  /** Limiter: one limit for every request. */
  method Limiter(counter: RedisCounter, key: string, limit: int, window: int, at: Time, outcome: Outcome)
    returns (next: bool)
    modifies counter
    ensures var r := Request(key, limit, at, outcome);
      && counter.store == Serve(old(counter.store), r, window)
      && next == !Refused(Lookup(old(counter.store), key), r, window)
  {
    var count := counter.Increment(key, window, at, outcome);
    if count.None? {
      return true;
    }
    next := !(count.value > limit);
  }
}
