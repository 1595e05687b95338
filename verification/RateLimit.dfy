/** The per-IP request limiter with its background cleanup. */
module RateLimit {
  import opened Wrappers

  datatype Entry = Entry(count: nat, resetAt: real)

  datatype Config = Config(max: real, windowMs: real) {
    // The requests that one window admits.
    function Limit(): nat { if max < 1.0 then 0 else max.Floor }
  }

  type Store = map<string, Entry>

  // What reaches the limiter, with the clock at that moment; a preflight request passes uncounted.
  datatype Event = Request(ip: string, now: real) | Preflight(now: real) | Cleanup(now: real)

  // ---------- The store after a sequence of events ----------

  function Touched(s: Store, ip: string, now: real, c: Config): Entry {
    if ip !in s || now > s[ip].resetAt then Entry(1, now + c.windowMs) else s[ip].(count := s[ip].count + 1)
  }

  function Step(s: Store, e: Event, c: Config): Store {
    match e
    case Request(ip, now) => s[ip := Touched(s, ip, now, c)]
    case Preflight(_) => s
    case Cleanup(now) => map ip | ip in s && now <= s[ip].resetAt :: s[ip]
  }

  predicate Accepts(s: Store, e: Event, c: Config) {
    e.Request? ==> Touched(s, e.ip, e.now, c).count as real <= c.max
  }

  function StoreAfter(trace: seq<Event>, c: Config): Store {
    if trace == [] then map[] else Step(StoreAfter(Before(trace), c), Last(trace), c)
  }

  function Before(trace: seq<Event>): seq<Event>
    requires trace != []
  {
    trace[..|trace| - 1]
  }

  function Last(trace: seq<Event>): Event
    requires trace != []
  {
    trace[|trace| - 1]
  }

  predicate Monotone(trace: seq<Event>) {
    forall i, j | 0 <= i < j < |trace| :: trace[i].now <= trace[j].now
  }

  // The answers to the requests, in order.
  function Decisions(trace: seq<Event>, c: Config): seq<bool> {
    if trace == [] then []
    else if Last(trace).Cleanup? then Decisions(Before(trace), c)
    else Decisions(Before(trace), c) + [Accepts(StoreAfter(Before(trace), c), Last(trace), c)]
  }

  // The accepted requests of ip at times from first to last.
  function AcceptedIn(trace: seq<Event>, c: Config, ip: string, first: real, last: real): nat {
    if trace == [] then 0
    else
      AcceptedIn(Before(trace), c, ip, first, last) + Counted(StoreAfter(Before(trace), c), Last(trace), c, ip, first, last)
  }

  function Counted(s: Store, e: Event, c: Config, ip: string, first: real, last: real): nat {
    if e.Request? && e.ip == ip && first <= e.now <= last && Accepts(s, e, c) then 1 else 0
  }

  function WithoutCleanup(trace: seq<Event>): seq<Event> {
    if trace == [] then []
    else if Last(trace).Cleanup? then WithoutCleanup(Before(trace))
    else WithoutCleanup(Before(trace)) + [Last(trace)]
  }

  // ---------- The cleanup is invisible ----------

  predicate Expired(s: Store, ip: string, now: real) {
    ip !in s || now > s[ip].resetAt
  }

  // The stores differ at most in entries that are expired for good.
  ghost predicate Alike(s: Store, t: Store, now: real) {
    forall ip: string :: (ip in s && ip in t && s[ip] == t[ip]) || (Expired(s, ip, now) && Expired(t, ip, now))
  }

  lemma AlikeStep(s: Store, t: Store, now: real, e: Event, c: Config)
    requires Alike(s, t, now) && now <= e.now
    ensures Accepts(s, e, c) == Accepts(t, e, c)
    ensures Alike(Step(s, e, c), if e.Cleanup? then t else Step(t, e, c), e.now)
  {
    if e.Request? { assert Touched(s, e.ip, e.now, c) == Touched(t, e.ip, e.now, c); }
    var s', t' := Step(s, e, c), if e.Cleanup? then t else Step(t, e, c);
    forall ip: string ensures (ip in s' && ip in t' && s'[ip] == t'[ip]) || (Expired(s', ip, e.now) && Expired(t', ip, e.now)) {
    }
  }

  // One event more, at the end.

  lemma Split(trace: seq<Event>)
    requires trace != []
    ensures trace == Before(trace) + [Last(trace)] && |Before(trace)| < |trace|
    ensures Monotone(trace) ==> Monotone(Before(trace)) && (Before(trace) != [] ==> Last(Before(trace)).now <= Last(trace).now)
  {
    if Before(trace) != [] { assert Last(Before(trace)) == trace[|trace| - 2]; }
  }

  lemma StoreExtended(trace: seq<Event>, e: Event, c: Config)
    ensures StoreAfter(trace + [e], c) == Step(StoreAfter(trace, c), e, c)
  {
    assert Before(trace + [e]) == trace;
    hide Step;
  }

  lemma DecisionsExtended(trace: seq<Event>, e: Event, c: Config)
    ensures Decisions(trace + [e], c)
         == if e.Cleanup? then Decisions(trace, c) else Decisions(trace, c) + [Accepts(StoreAfter(trace, c), e, c)]
  {
    assert Before(trace + [e]) == trace;
    hide StoreAfter, Accepts;
  }

  lemma AcceptedExtended(trace: seq<Event>, e: Event, c: Config, ip: string, first: real, last: real)
    ensures AcceptedIn(trace + [e], c, ip, first, last)
         == AcceptedIn(trace, c, ip, first, last) + Counted(StoreAfter(trace, c), e, c, ip, first, last)
  {
    assert Before(trace + [e]) == trace;
    hide StoreAfter, Counted;
  }

  lemma WithoutExtended(trace: seq<Event>, e: Event)
    ensures WithoutCleanup(trace + [e]) == if e.Cleanup? then WithoutCleanup(trace) else WithoutCleanup(trace) + [e]
  {
    assert Before(trace + [e]) == trace;
  }

  // The stores with and without the cleanups, at any later moment.
  lemma {:induction false} StoresAlike(trace: seq<Event>, c: Config, now: real)
    requires Monotone(trace) && (trace != [] ==> Last(trace).now <= now)
    ensures Alike(StoreAfter(trace, c), StoreAfter(WithoutCleanup(trace), c), now)
  {
    if trace == [] {
    } else {
      hide *;
      Split(trace);
      var before, e := Before(trace), Last(trace);
      StoresAlike(before, c, e.now);
      var s, t := StoreAfter(before, c), StoreAfter(WithoutCleanup(before), c);
      AlikeStep(s, t, e.now, e, c);
      StoreExtended(before, e, c);
      StoreExtended(WithoutCleanup(before), e, c);
      WithoutExtended(before, e);
      AlikeLater(StoreAfter(trace, c), StoreAfter(WithoutCleanup(trace), c), e.now, now);
    }
  }

  lemma AlikeLater(s: Store, t: Store, now: real, later: real)
    requires Alike(s, t, now) && now <= later
    ensures Alike(s, t, later)
  {
  }

  lemma AlikeCounted(s: Store, t: Store, e: Event, c: Config, ip: string, first: real, last: real)
    requires Accepts(s, e, c) == Accepts(t, e, c)
    ensures Counted(s, e, c, ip, first, last) == Counted(t, e, c, ip, first, last)
    ensures e.Cleanup? ==> Counted(s, e, c, ip, first, last) == 0
  {
  }

  // The next decision does not depend on the cleanups before.
  lemma NextDecisionSame(before: seq<Event>, e: Event, c: Config)
    requires Monotone(before) && (before != [] ==> Last(before).now <= e.now)
    ensures Accepts(StoreAfter(before, c), e, c) == Accepts(StoreAfter(WithoutCleanup(before), c), e, c)
  {
    StoresAlike(before, c, e.now);
    AlikeStep(StoreAfter(before, c), StoreAfter(WithoutCleanup(before), c), e.now, e, c);
    hide *;
  }

  /** The background deletion of expired entries never changes a decision. */
  lemma {:induction false} CleanupNeverChangesADecision(trace: seq<Event>, c: Config)
    requires Monotone(trace)
    ensures Decisions(trace, c) == Decisions(WithoutCleanup(trace), c)
  {
    if trace == [] {
    } else {
      hide *;
      Split(trace);
      var before, e := Before(trace), Last(trace);
      CleanupNeverChangesADecision(before, c);
      NextDecisionSame(before, e, c);
      DecisionsExtended(before, e, c);
      DecisionsExtended(WithoutCleanup(before), e, c);
      WithoutExtended(before, e);
    }
  }

  lemma {:induction false} AcceptedSame(trace: seq<Event>, c: Config, ip: string, first: real, last: real)
    requires Monotone(trace)
    ensures AcceptedIn(trace, c, ip, first, last) == AcceptedIn(WithoutCleanup(trace), c, ip, first, last)
  {
    if trace == [] {
    } else {
      hide *;
      Split(trace);
      var before, e := Before(trace), Last(trace);
      AcceptedSame(before, c, ip, first, last);
      NextDecisionSame(before, e, c);
      AlikeCounted(StoreAfter(before, c), StoreAfter(WithoutCleanup(before), c), e, c, ip, first, last);
      AcceptedExtended(before, e, c, ip, first, last);
      AcceptedExtended(WithoutCleanup(before), e, c, ip, first, last);
      WithoutExtended(before, e);
    }
  }

  predicate NoCleanups(trace: seq<Event>) {
    forall i | 0 <= i < |trace| :: !trace[i].Cleanup?
  }

  lemma {:induction false} WithoutCleanupMonotone(trace: seq<Event>)
    requires Monotone(trace)
    ensures Monotone(WithoutCleanup(trace)) && NoCleanups(WithoutCleanup(trace))
    ensures trace != [] ==> forall i | 0 <= i < |WithoutCleanup(trace)| :: WithoutCleanup(trace)[i].now <= Last(trace).now
  {
    if trace != [] {
      var before := Before(trace);
      WithoutCleanupMonotone(before);
      if before != [] { assert Last(before) == trace[|trace| - 2]; }
    }
  }

  // ---------- The bound ----------

  function Capped(n: nat, c: Config): nat { if n <= c.Limit() then n else c.Limit() }

  // The windows of one ip never overlap, so an interval of one window's length meets at most two of them;
  // if it meets two it misses the request that opened the first.
  predicate Bounded(s: Store, ip: string, accepted: nat, first: real, now: real, c: Config) {
    if ip !in s || now < first then accepted == 0 && (ip in s ==> s[ip].resetAt - c.windowMs <= now && s[ip].count > 0)
    else
      var start := s[ip].resetAt - c.windowMs;
      && start <= now && s[ip].count > 0
      && if start < first then accepted <= Capped(s[ip].count, c) - 1
         else if start <= first + c.windowMs then accepted <= c.Limit() - 1 + Capped(s[ip].count, c)
         else accepted <= 2 * c.Limit() - 1
  }

  lemma BoundedStep(s: Store, e: Event, ip: string, accepted: nat, first: real, now: real, c: Config)
    requires Bounded(s, ip, accepted, first, now, c) && now <= e.now && !e.Cleanup? && c.max >= 1.0
    ensures Bounded(Step(s, e, c), ip,
      accepted + Counted(s, e, c, ip, first, first + c.windowMs), first, e.now, c)
  {
  }

  lemma {:induction false} BoundHolds(trace: seq<Event>, c: Config, ip: string, first: real, now: real)
    requires Monotone(trace) && NoCleanups(trace) && c.max >= 1.0 && (trace != [] ==> Last(trace).now <= now)
    ensures Bounded(StoreAfter(trace, c), ip, AcceptedIn(trace, c, ip, first, first + c.windowMs), first, now, c)
  {
    if trace == [] {
    } else {
      assert NoCleanups(Before(trace)) && !Last(trace).Cleanup?;
      hide *;
      Split(trace);
      var before, e := Before(trace), Last(trace);
      BoundHolds(before, c, ip, first, e.now);
      StoreExtended(before, e, c);
      AcceptedExtended(before, e, c, ip, first, first + c.windowMs);
      BoundedStep(StoreAfter(before, c), e, ip, AcceptedIn(before, c, ip, first, first + c.windowMs), first, e.now, c);
      BoundedLater(StoreAfter(trace, c), ip, AcceptedIn(trace, c, ip, first, first + c.windowMs), first, e.now, now, c);
    }
  }

  lemma BoundedLater(s: Store, ip: string, accepted: nat, first: real, now: real, later: real, c: Config)
    requires Bounded(s, ip, accepted, first, now, c) && now <= later && c.max >= 1.0
    ensures Bounded(s, ip, accepted, first, later, c)
  {
  }

  /**
    Over any run, any closed interval of one window's length has fewer accepted requests of an ip than twice what
    one window admits; a maximum below one admits none.
   */
  lemma FewerThanTwiceMax(trace: seq<Event>, c: Config, ip: string, first: real)
    requires Monotone(trace)
    ensures AcceptedIn(trace, c, ip, first, first + c.windowMs) <= if c.max >= 1.0 then 2 * c.Limit() - 1 else 0
  {
    if c.max < 1.0 {
      NoneAccepted(trace, c, ip, first, first + c.windowMs);
      return;
    }
    AcceptedSame(trace, c, ip, first, first + c.windowMs);
    var rest := WithoutCleanup(trace);
    WithoutCleanupMonotone(trace);
    var now := if rest == [] then 0.0 else Last(rest).now;
    BoundHolds(rest, c, ip, first, now);
    BoundedMeans(StoreAfter(rest, c), ip, AcceptedIn(rest, c, ip, first, first + c.windowMs), first, now, c);
    hide *;
  }

  lemma BoundedMeans(s: Store, ip: string, accepted: nat, first: real, now: real, c: Config)
    requires Bounded(s, ip, accepted, first, now, c) && c.max >= 1.0
    ensures accepted <= 2 * c.Limit() - 1
  {
  }

  lemma {:induction false} NoneAccepted(trace: seq<Event>, c: Config, ip: string, first: real, last: real)
    requires c.max < 1.0
    ensures AcceptedIn(trace, c, ip, first, last) == 0
  {
    if trace != [] { NoneAccepted(Before(trace), c, ip, first, last); }
  }

  // ---------- The bound is met, so the window does not slide ----------

  function Burst(ip: string, now: real, n: nat): (r: seq<Event>)
    ensures |r| == n && forall i | 0 <= i < n :: r[i] == Request(ip, now)
  {
    seq(n, i => Request(ip, now))
  }

  // The store after n requests of one moment that open a window.
  function BurstStore(s: Store, ip: string, now: real, n: nat, c: Config): Store {
    if n == 0 then s else s[ip := Entry(n, now + c.windowMs)]
  }

  lemma BurstStep(s: Store, ip: string, now: real, n: nat, c: Config, first: real, last: real)
    requires first <= now <= last && n < c.Limit() && Expired(s, ip, now) && c.windowMs >= 0.0
    ensures Step(BurstStore(s, ip, now, n, c), Request(ip, now), c) == BurstStore(s, ip, now, n + 1, c)
    ensures Counted(BurstStore(s, ip, now, n, c), Request(ip, now), c, ip, first, last) == 1
  {
    LimitAdmits(n + 1, c);
  }

  lemma LimitAdmits(n: nat, c: Config)
    ensures n > 0 ==> (n as real <= c.max <==> n <= c.Limit())
  {
    if n as real <= c.max { assert n <= c.max.Floor; }
  }

  lemma BurstExtended(trace: seq<Event>, ip: string, now: real, n: nat)
    ensures trace + Burst(ip, now, 0) == trace
    ensures trace + Burst(ip, now, n + 1) == trace + Burst(ip, now, n) + [Request(ip, now)]
  {
  }

  // A burst that opens a window is accepted up to the maximum.
  lemma {:induction false} BurstAccepted(trace: seq<Event>, c: Config, ip: string, now: real, n: nat, first: real, last: real)
    requires first <= now <= last && n <= c.Limit() && Expired(StoreAfter(trace, c), ip, now) && c.windowMs >= 0.0
    ensures StoreAfter(trace + Burst(ip, now, n), c) == BurstStore(StoreAfter(trace, c), ip, now, n, c)
    ensures AcceptedIn(trace + Burst(ip, now, n), c, ip, first, last) == AcceptedIn(trace, c, ip, first, last) + n
  {
    if n == 0 {
      BurstExtended(trace, ip, now, 0);
    } else {
      hide *;
      BurstAccepted(trace, c, ip, now, n - 1, first, last);
      BurstExtended(trace, ip, now, n - 1);
      BurstNext(trace + Burst(ip, now, n - 1), StoreAfter(trace, c), c, ip, now, n - 1, first, last);
    }
  }

  lemma BurstNext(before: seq<Event>, s: Store, c: Config, ip: string, now: real, n: nat, first: real, last: real)
    requires StoreAfter(before, c) == BurstStore(s, ip, now, n, c)
    requires first <= now <= last && n < c.Limit() && Expired(s, ip, now) && c.windowMs >= 0.0
    ensures StoreAfter(before + [Request(ip, now)], c) == BurstStore(s, ip, now, n + 1, c)
    ensures AcceptedIn(before + [Request(ip, now)], c, ip, first, last) == AcceptedIn(before, c, ip, first, last) + 1
  {
    hide *;
    StoreExtended(before, Request(ip, now), c);
    AcceptedExtended(before, Request(ip, now), c, ip, first, last);
    BurstStep(s, ip, now, n, c, first, last);
  }

  /** The bound is the best: a burst at the end of one window and another at the start of the next reach it. */
  lemma TheBoundIsReached(c: Config, ip: string)
    requires c.max >= 1.0 && c.windowMs > 0.0
    ensures var trace := [Request(ip, 0.0)] + Burst(ip, c.windowMs, c.Limit() - 1) + Burst(ip, 2.0 * c.windowMs, c.Limit());
            Monotone(trace) && AcceptedIn(trace, c, ip, c.windowMs, 2.0 * c.windowMs) == 2 * c.Limit() - 1
  {
    hide StoreAfter, AcceptedIn, Decisions, Counted;
    var full := [Request(ip, 0.0)] + Burst(ip, c.windowMs, c.Limit() - 1);
    WindowFilled(c, ip, c.Limit() - 1);
    BurstAccepted(full, c, ip, 2.0 * c.windowMs, c.Limit(), c.windowMs, 2.0 * c.windowMs);
  }

  // Late requests of the first window.
  lemma {:induction false} WindowFilled(c: Config, ip: string, n: nat)
    requires c.windowMs > 0.0 && n < c.Limit()
    ensures var trace := [Request(ip, 0.0)] + Burst(ip, c.windowMs, n);
            && StoreAfter(trace, c) == map[ip := Entry(1 + n, c.windowMs)]
            && AcceptedIn(trace, c, ip, c.windowMs, 2.0 * c.windowMs) == n
  {
    if n == 0 {
      WindowStart(c, ip);
    } else {
      hide *;
      var one := [Request(ip, 0.0)];
      WindowStep(c, ip, n);
      var before := one + Burst(ip, c.windowMs, n - 1);
      BurstExtended(one, ip, c.windowMs, n - 1);
      WindowFilled(c, ip, n - 1);
      StoreExtended(before, Request(ip, c.windowMs), c);
      AcceptedExtended(before, Request(ip, c.windowMs), c, ip, c.windowMs, 2.0 * c.windowMs);
    }
  }

  lemma WindowStart(c: Config, ip: string)
    requires c.windowMs > 0.0
    ensures var trace := [Request(ip, 0.0)] + Burst(ip, c.windowMs, 0);
            && StoreAfter(trace, c) == map[ip := Entry(1, c.windowMs)]
            && AcceptedIn(trace, c, ip, c.windowMs, 2.0 * c.windowMs) == 0
  {
    var one := [Request(ip, 0.0)];
    BurstExtended(one, ip, c.windowMs, 0);
    assert one == [] + one;
    WindowOpened(c, ip);
    StoreExtended([], Request(ip, 0.0), c);
    AcceptedExtended([], Request(ip, 0.0), c, ip, c.windowMs, 2.0 * c.windowMs);
    hide Step, Counted, Burst;
  }

  lemma WindowOpened(c: Config, ip: string)
    requires c.windowMs > 0.0
    ensures Step(map[], Request(ip, 0.0), c) == map[ip := Entry(1, c.windowMs)]
    ensures Counted(map[], Request(ip, 0.0), c, ip, c.windowMs, 2.0 * c.windowMs) == 0
  {
  }

  lemma WindowStep(c: Config, ip: string, n: nat)
    requires c.windowMs > 0.0 && n < c.Limit()
    ensures Step(map[ip := Entry(n, c.windowMs)], Request(ip, c.windowMs), c) == map[ip := Entry(n + 1, c.windowMs)]
    ensures Counted(map[ip := Entry(n, c.windowMs)], Request(ip, c.windowMs), c, ip, c.windowMs, 2.0 * c.windowMs) == 1
  {
    LimitAdmits(n + 1, c);
  }

  // ---------- The middleware ----------

  // A missing or zero option takes its default.
  function OrDefault(option: Option<real>, d: real): real {
    match option case Some(x) => if x == 0.0 then d else x case None => d
  }

  class Limiter {
    const config: Config
    var store: map<string, Entry>
    ghost var trace: seq<Event>

    ghost predicate Valid()
      reads this
    {
      config.max != 0.0 && config.windowMs != 0.0 && store == StoreAfter(trace, config)
    }

    // config.max || 60 and config.windowMs || 60_000
    constructor (max: Option<real>, windowMs: Option<real>)
      ensures Valid() && trace == [] && config == Config(OrDefault(max, 60.0), OrDefault(windowMs, 60000.0))
    {
      config := Config(OrDefault(max, 60.0), OrDefault(windowMs, 60000.0));
      store := map[];
      trace := [];
    }

    method Handle(ip: string, now: real, options: bool) returns (accepted: bool, remaining: real)
      requires Valid()
      modifies this
      ensures Valid() && trace == old(trace) + [if options then Preflight(now) else Request(ip, now)]
      ensures accepted == (options || Accepts(old(store), Request(ip, now), config))
      ensures store == if options then old(store) else old(store)[ip := Touched(old(store), ip, now, config)]
      ensures !options ==> remaining == if store[ip].count as real <= config.max then config.max - store[ip].count as real else 0.0
    {
      if options {
        StoreExtended(trace, Preflight(now), config);
        trace := trace + [Preflight(now)];
        return true, 0.0;
      }
      if ip !in store || now > store[ip].resetAt {
        store := store[ip := Entry(0, now + config.windowMs)];
      }
      store := store[ip := store[ip].(count := store[ip].count + 1)];
      StoreExtended(trace, Request(ip, now), config);
      trace := trace + [Request(ip, now)];
      remaining := if store[ip].count as real <= config.max then config.max - store[ip].count as real else 0.0;
      accepted := store[ip].count as real <= config.max;
    }

    method CleanUp(now: real)
      requires Valid()
      modifies this
      ensures Valid() && trace == old(trace) + [Cleanup(now)]
      ensures store == map ip | ip in old(store) && now <= old(store)[ip].resetAt :: old(store)[ip]
    {
      var keys := store.Keys;
      while keys != {}
        invariant trace == old(trace) && keys <= store.Keys <= old(store).Keys
        invariant forall ip | ip in store :: store[ip] == old(store)[ip]
        invariant forall ip | ip in old(store) && ip !in store :: now > old(store)[ip].resetAt
        invariant forall ip | ip in store && ip !in keys :: now <= store[ip].resetAt
        decreases keys
      {
        var ip :| ip in keys;
        if now > store[ip].resetAt { store := store - {ip}; }
        keys := keys - {ip};
      }
      assert store == Step(old(store), Cleanup(now), config);
      StoreExtended(trace, Cleanup(now), config);
      trace := trace + [Cleanup(now)];
    }
  }
}
