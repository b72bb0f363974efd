/**
  The two fixed-window rate limiters, the process-local one and the Redis one,
  and what any client can get admitted in any span of time.
 */
module RateLimit {
  import opened Common

  /** `RateLimitRule` refuses a limit or a window below one. */
  datatype RuleData = Rule(limit: int, window: int)
  type Rule = r: RuleData | r.limit >= 1 && r.window >= 1 witness Rule(1, 1)

  type Rules = map<string, Rule>
  type Subject = (string, string)

  datatype Attempt = Attempt(subject: Subject, now: real)

  datatype Decision = Allowed | Denied(retryAfter: int)

  datatype Bucket = Bucket(count: int, resetAt: real)
  type Buckets = map<Subject, Bucket>

  // -------------------------------------------------------------- in memory

  function MemoryStep(rules: Rules, b: Buckets, c: Attempt): (Buckets, Decision) {
    if c.subject.0 !in rules then (b, Allowed)
    else
      var rule := rules[c.subject.0];
      if c.subject !in b || c.now >= b[c.subject].resetAt then
        (b[c.subject := Bucket(1, c.now + rule.window as real)], Allowed)
      else
        var bucket := b[c.subject];
        if bucket.count >= rule.limit then
          (b, Denied(AtLeastOne((bucket.resetAt - c.now).Floor)))
        else
          (b[c.subject := bucket.(count := bucket.count + 1)], Allowed)
  }

  function MemoryState(rules: Rules, b: Buckets, trace: seq<Attempt>): Buckets
    decreases |trace|
  {
    if trace == [] then b else MemoryState(rules, MemoryStep(rules, b, trace[0]).0, trace[1..])
  }

  function MemoryDecisions(rules: Rules, b: Buckets, trace: seq<Attempt>): seq<Decision>
    decreases |trace|
  {
    if trace == [] then []
    else var (b', d) := MemoryStep(rules, b, trace[0]); [d] + MemoryDecisions(rules, b', trace[1..])
  }

  // ------------------------------------------------------------------ Redis

  datatype Counter = Counter(count: int, expires: real)
  type Counters = map<string, Counter>

  /** `_redis_key`: prefix, scope and the digest of "scope:key". */
  function RedisKey(hash: string -> string, prefix: string, s: Subject): string {
    prefix + ":" + s.0 + ":" + hash(s.0 + ":" + s.1)
  }

  /** The INCR / EXPIRE / TTL script; TTL is the remaining time in whole
      seconds, rounded half up as Redis reports it. */
  function Increment(m: Counters, key: string, window: int, now: real): (Counters, (int, int)) {
    var c := if key in m && now < m[key].expires
             then m[key].(count := m[key].count + 1)
             else Counter(1, now + window as real);
    (m[key := c], (c.count, (c.expires - now + 0.5).Floor))
  }

  function RedisStep(rules: Rules, hash: string -> string, prefix: string, m: Counters, c: Attempt)
    : (Counters, Decision)
  {
    if c.subject.0 !in rules then (m, Allowed)
    else
      var rule := rules[c.subject.0];
      var (m', (count, ttl)) := Increment(m, RedisKey(hash, prefix, c.subject), rule.window, c.now);
      (m', if count > rule.limit then Denied(AtLeastOne(ttl)) else Allowed)
  }

  function RedisDecisions(rules: Rules, hash: string -> string, prefix: string, m: Counters,
                          trace: seq<Attempt>): seq<Decision>
    decreases |trace|
  {
    if trace == [] then []
    else
      var (m', d) := RedisStep(rules, hash, prefix, m, trace[0]);
      [d] + RedisDecisions(rules, hash, prefix, m', trace[1..])
  }

  /** The digest has fixed length and tells the subjects in use apart. */
  ghost predicate Separates(hash: string -> string, subjects: set<Subject>) {
    && (forall s :: s in subjects ==> |hash(s.0 + ":" + s.1)| == 64)
    && (forall s, t :: s in subjects && t in subjects ==>
          hash(s.0 + ":" + s.1) == hash(t.0 + ":" + t.1) ==> s.0 + ":" + s.1 == t.0 + ":" + t.1)
  }

  /** Although "scope:key" alone is ambiguous, the stored key is not: the scope
      stands between the prefix and a digest of known length. */
  lemma RedisKeyInjective(hash: string -> string, prefix: string, subjects: set<Subject>, s: Subject, t: Subject)
    requires Separates(hash, subjects) && s in subjects && t in subjects
    requires RedisKey(hash, prefix, s) == RedisKey(hash, prefix, t)
    ensures s == t
  {
    var hs, ht := hash(s.0 + ":" + s.1), hash(t.0 + ":" + t.1);
    var ks, kt := RedisKey(hash, prefix, s), RedisKey(hash, prefix, t);
    assert ks[|ks| - 64..] == hs && kt[|kt| - 64..] == ht;
    assert ks[|prefix| + 1..|ks| - 65] == s.0 && kt[|prefix| + 1..|kt| - 65] == t.0;
    assert (s.0 + ":" + s.1)[|s.0| + 1..] == s.1;
    assert (t.0 + ":" + t.1)[|t.0| + 1..] == t.1;
  }

  /** Memory count is the Redis count capped at the limit; resets coincide. */
  ghost predicate Simulates(rules: Rules, hash: string -> string, prefix: string, subjects: set<Subject>, b: Buckets,
                            m: Counters) {
    forall s :: s in subjects && s.0 in rules ==>
      var k := RedisKey(hash, prefix, s);
      && (s in b <==> k in m)
      && (s in b ==> b[s].resetAt == m[k].expires && b[s].count == Min(m[k].count, rules[s.0].limit))
  }

  lemma StepSimulates(rules: Rules, hash: string -> string, prefix: string, subjects: set<Subject>, b: Buckets,
                      m: Counters, c: Attempt)
    requires Separates(hash, subjects) && c.subject in subjects
    requires Simulates(rules, hash, prefix, subjects, b, m)
    ensures MemoryStep(rules, b, c).1.Allowed? <==> RedisStep(rules, hash, prefix, m, c).1.Allowed?
    ensures Simulates(rules, hash, prefix, subjects, MemoryStep(rules, b, c).0, RedisStep(rules, hash, prefix, m, c).0)
  {
    if c.subject.0 in rules {
      var k := RedisKey(hash, prefix, c.subject);
      assert c.subject in b <==> k in m;
      var b', m' := MemoryStep(rules, b, c).0, RedisStep(rules, hash, prefix, m, c).0;
      forall s | s in subjects && s.0 in rules
        ensures var j := RedisKey(hash, prefix, s);
                && (s in b' <==> j in m')
                && (s in b' ==> b'[s].resetAt == m'[j].expires && b'[s].count == Min(m'[j].count, rules[s.0].limit))
      {
        if RedisKey(hash, prefix, s) == k {
          RedisKeyInjective(hash, prefix, subjects, s, c.subject);
        }
      }
    }
  }

  predicate Alike(x: seq<Decision>, y: seq<Decision>) {
    |x| == |y| && forall i :: 0 <= i < |x| ==> (x[i].Allowed? <==> y[i].Allowed?)
  }

  lemma AlikeGrows(d: Decision, e: Decision, x: seq<Decision>, y: seq<Decision>)
    requires (d.Allowed? <==> e.Allowed?) && Alike(x, y)
    ensures Alike([d] + x, [e] + y)
  {
  }

  lemma {:induction false} DecisionsSimulate(rules: Rules, hash: string -> string, prefix: string,
                                             subjects: set<Subject>, b: Buckets, m: Counters, trace: seq<Attempt>)
    requires Separates(hash, subjects) && (forall i :: 0 <= i < |trace| ==> trace[i].subject in subjects)
    requires Simulates(rules, hash, prefix, subjects, b, m)
    ensures |MemoryDecisions(rules, b, trace)| == |trace|
    ensures Alike(MemoryDecisions(rules, b, trace), RedisDecisions(rules, hash, prefix, m, trace))
    decreases |trace|
  {
    if trace != [] {
      var (b', d) := MemoryStep(rules, b, trace[0]);
      var (m', e) := RedisStep(rules, hash, prefix, m, trace[0]);
      StepSimulates(rules, hash, prefix, subjects, b, m, trace[0]);
      DecisionsSimulate(rules, hash, prefix, subjects, b', m', trace[1..]);
      AlikeGrows(d, e, MemoryDecisions(rules, b', trace[1..]), RedisDecisions(rules, hash, prefix, m', trace[1..]));
    }
  }

  /** The two limiters decide every trace alike, although Redis goes on
      counting the requests it denies. */
  lemma LimitersDecideAlike(rules: Rules, hash: string -> string, prefix: string, trace: seq<Attempt>)
    requires Separates(hash, set i | 0 <= i < |trace| :: trace[i].subject)
    ensures |MemoryDecisions(rules, map[], trace)| == |trace|
    ensures Alike(MemoryDecisions(rules, map[], trace), RedisDecisions(rules, hash, prefix, map[], trace))
  {
    DecisionsSimulate(rules, hash, prefix, set i | 0 <= i < |trace| :: trace[i].subject, map[], map[], trace);
  }

  // ------------------------------------------------------ admission in spans

  ghost predicate InOrder(trace: seq<Attempt>) {
    forall i, j :: 0 <= i < j < |trace| ==> trace[i].now <= trace[j].now
  }

  /** Requests of one subject admitted at instants in [from, to). */
  function Admitted(rules: Rules, b: Buckets, trace: seq<Attempt>, s: Subject, from: real, to: real): nat
    decreases |trace|
  {
    if trace == [] then 0
    else
      var (b', d) := MemoryStep(rules, b, trace[0]);
      (if trace[0].subject == s && d.Allowed? && from <= trace[0].now < to then 1 else 0)
      + Admitted(rules, b', trace[1..], s, from, to)
  }

  lemma {:induction false} TooLate(rules: Rules, b: Buckets, trace: seq<Attempt>, s: Subject, from: real, to: real)
    requires forall i :: 0 <= i < |trace| ==> to <= trace[i].now
    ensures Admitted(rules, b, trace, s, from, to) == 0
    decreases |trace|
  {
    if trace != [] { TooLate(rules, MemoryStep(rules, b, trace[0]).0, trace[1..], s, from, to); }
  }

  /** Room left until `to`: what the running window still admits, and a full
      window for each of the k that can start before `to`. */
  lemma {:induction false} RoomLeft(rules: Rules, b: Buckets, trace: seq<Attempt>, s: Subject, from: real, to: real,
                                    k: nat)
    requires InOrder(trace) && s.0 in rules && s in b && 0 <= b[s].count <= rules[s.0].limit
    requires to <= b[s].resetAt + (k * rules[s.0].window) as real
    ensures Admitted(rules, b, trace, s, from, to) <= rules[s.0].limit - b[s].count + k * rules[s.0].limit
    decreases |trace|
  {
    if trace != [] {
      var c := trace[0];
      var b' := MemoryStep(rules, b, c).0;
      if c.subject != s || c.now < b[s].resetAt {
        RoomLeft(rules, b', trace[1..], s, from, to, k);
      } else if c.now < to {
        OneWindowLess(k, rules[s.0].window, rules[s.0].limit);
        RoomLeft(rules, b', trace[1..], s, from, to, k - 1);
      } else {
        TooLate(rules, b, trace, s, from, to);
      }
    }
  }

  lemma OneWindowLess(k: nat, window: int, limit: int)
    requires window >= 1 && limit >= 1
    ensures k >= 1 ==> (k * window) as real == (window as real) + ((k - 1) * window) as real
    ensures k >= 1 ==> k * limit == limit + (k - 1) * limit
    ensures k == 0 ==> k * window == 0 && k * limit == 0
  {
  }

  /** The sharp bound, from any state whose running window began before `from`
      has already spent one of its own admissions outside the span. */
  lemma {:induction false} SpanFrom(rules: Rules, b: Buckets, trace: seq<Attempt>, s: Subject, from: real, k: nat)
    requires InOrder(trace) && s.0 in rules && k >= 1
    requires s in b ==> 1 <= b[s].count <= rules[s.0].limit
    ensures Admitted(rules, b, trace, s, from, from + (k * rules[s.0].window) as real) <= (k + 1) * rules[s.0].limit - 1
    decreases |trace|
  {
    var w, limit := rules[s.0].window, rules[s.0].limit;
    var to := from + (k * w) as real;
    if trace != [] {
      var c := trace[0];
      var (b', d) := MemoryStep(rules, b, c);
      if c.subject != s || c.now < from {
        SpanFrom(rules, b', trace[1..], s, from, k);
      } else if s in b && c.now < b[s].resetAt {
        RoomLeft(rules, b, trace, s, from, to, k);
      } else if c.now < to {
        OneWindowLess(k, w, limit);
        RoomLeft(rules, b', trace[1..], s, from, to, k - 1);
      } else {
        TooLate(rules, b, trace, s, from, to);
      }
    }
    assert (k + 1) * limit == k * limit + limit;
  }

  /** Any half-open span of k windows admits at most (k + 1) * limit - 1
      requests of one subject, whatever else the trace contains. */
  lemma SpanBound(rules: Rules, trace: seq<Attempt>, s: Subject, from: real, k: nat)
    requires InOrder(trace) && s.0 in rules && k >= 1
    ensures var to := from + (k * rules[s.0].window) as real;
            Admitted(rules, map[], trace, s, from, to) <= (k + 1) * rules[s.0].limit - 1
  {
    SpanFrom(rules, map[], trace, s, from, k);
  }

  // --------------------------------------------------- the bound is attained

  function Burst(s: Subject, now: real, n: nat): (t: seq<Attempt>)
    ensures |t| == n && forall i :: 0 <= i < n ==> t[i] == Attempt(s, now)
  {
    seq(n, _ => Attempt(s, now))
  }

  /** n full windows, one right after the other. */
  function FullWindows(s: Subject, rule: Rule, now: real, n: nat): seq<Attempt>
    decreases n
  {
    if n == 0 then [] else Burst(s, now, rule.limit) + FullWindows(s, rule, now + rule.window as real, n - 1)
  }

  /** One request half a window early, the rest of that window's room, then k
      full windows. */
  function Worst(s: Subject, rule: Rule, from: real, k: nat): seq<Attempt> {
    [Attempt(s, from - rule.window as real / 2.0)]
    + (Burst(s, from, rule.limit - 1) + FullWindows(s, rule, from + rule.window as real / 2.0, k))
  }

  lemma {:induction false} BurstAdmitted(rules: Rules, b: Buckets, s: Subject, now: real, n: nat, rest: seq<Attempt>,
                                         from: real, to: real)
    requires s.0 in rules && s in b && now < b[s].resetAt && b[s].count + n <= rules[s.0].limit && from <= now < to
    ensures Admitted(rules, b, Burst(s, now, n) + rest, s, from, to)
         == n + Admitted(rules, b[s := b[s].(count := b[s].count + n)], rest, s, from, to)
    decreases n
  {
    var t := Burst(s, now, n) + rest;
    if n == 0 {
      assert t == rest;
      assert b[s := b[s].(count := b[s].count + 0)] == b;
    } else {
      assert t[1..] == Burst(s, now, n - 1) + rest;
      var b' := b[s := b[s].(count := b[s].count + 1)];
      BurstAdmitted(rules, b', s, now, n - 1, rest, from, to);
      assert b'[s := b'[s].(count := b'[s].count + (n - 1))] == b[s := b[s].(count := b[s].count + n)];
    }
  }

  lemma {:induction false} FullWindowsAdmitted(rules: Rules, b: Buckets, s: Subject, now: real, n: nat, from: real,
                                               to: real)
    requires s.0 in rules && s in b && b[s].resetAt <= now
    requires from <= now && now + (n * rules[s.0].window) as real <= to + rules[s.0].window as real / 2.0
    ensures Admitted(rules, b, FullWindows(s, rules[s.0], now, n), s, from, to) == n * rules[s.0].limit
    decreases n
  {
    if n > 0 {
      var rule := rules[s.0];
      var next := now + rule.window as real;
      OneWindowLess(n, rule.window, rule.limit);
      WindowFits(n, rule.window, now, to);
      FullWindowAdmitted(rules, b, s, now, FullWindows(s, rule, next, n - 1), from, to);
      FullWindowsAdmitted(rules, b[s := Bucket(rule.limit, next)], s, next, n - 1, from, to);
    }
  }

  lemma WindowFits(n: nat, window: int, now: real, to: real)
    requires n >= 1 && window >= 1 && now + (n * window) as real <= to + window as real / 2.0
    ensures now < to
  {
  }

  /** A window opened by the first of a full burst admits the whole burst. */
  lemma FullWindowAdmitted(rules: Rules, b: Buckets, s: Subject, now: real, rest: seq<Attempt>, from: real, to: real)
    requires s.0 in rules && s in b && b[s].resetAt <= now && from <= now < to
    ensures var rule := rules[s.0];
            Admitted(rules, b, Burst(s, now, rule.limit) + rest, s, from, to) ==
            rule.limit + Admitted(rules, b[s := Bucket(rule.limit, now + rule.window as real)], rest, s, from, to)
  {
    var rule := rules[s.0];
    var t := Burst(s, now, rule.limit) + rest;
    var b' := b[s := Bucket(1, now + rule.window as real)];
    assert t[0] == Attempt(s, now);
    assert t[1..] == Burst(s, now, rule.limit - 1) + rest;
    BurstAdmitted(rules, b', s, now, rule.limit - 1, rest, from, to);
    assert b'[s := b'[s].(count := rule.limit)] == b[s := Bucket(rule.limit, now + rule.window as real)];
  }

  lemma {:induction false} FullWindowsInOrder(s: Subject, rule: Rule, now: real, n: nat)
    ensures InOrder(FullWindows(s, rule, now, n))
    ensures forall i :: 0 <= i < |FullWindows(s, rule, now, n)| ==> now <= FullWindows(s, rule, now, n)[i].now
    decreases n
  {
    if n > 0 { FullWindowsInOrder(s, rule, now + rule.window as real, n - 1); }
  }

  lemma InOrderJoins(a: seq<Attempt>, b: seq<Attempt>, at: real)
    requires InOrder(a) && InOrder(b)
    requires (forall i :: 0 <= i < |a| ==> a[i].now <= at) && (forall i :: 0 <= i < |b| ==> at <= b[i].now)
    ensures InOrder(a + b)
  {
  }

  /** The trace below is one a clock can produce. */
  lemma WorstIsInOrder(s: Subject, rule: Rule, from: real, k: nat)
    ensures InOrder(Worst(s, rule, from, k))
  {
    var half := rule.window as real / 2.0;
    var tail := FullWindows(s, rule, from + half, k);
    FullWindowsInOrder(s, rule, from + half, k);
    InOrderJoins(Burst(s, from, rule.limit - 1), tail, from + half);
    InOrderJoins([Attempt(s, from - half)], Burst(s, from, rule.limit - 1) + tail, from);
  }

  /** For every rule and k the bound is reached, so it cannot be improved. */
  lemma SpanBoundIsTight(rules: Rules, s: Subject, from: real, k: nat)
    requires s.0 in rules && k >= 1
    ensures Admitted(rules, map[], Worst(s, rules[s.0], from, k), s, from, from + (k * rules[s.0].window) as real)
         == (k + 1) * rules[s.0].limit - 1
  {
    var rule := rules[s.0];
    var to := from + (k * rule.window) as real;
    var half := rule.window as real / 2.0;
    var tail := FullWindows(s, rule, from + half, k);
    var b: Buckets := map[s := Bucket(1, from + half)];
    assert Worst(s, rule, from, k)[1..] == Burst(s, from, rule.limit - 1) + tail;
    assert k * rule.window >= 1;
    BurstAdmitted(rules, b, s, from, rule.limit - 1, tail, from, to);
    FullWindowsAdmitted(rules, b[s := Bucket(rule.limit, from + half)], s, from + half, k, from, to);
  }

  // ------------------------------------------------------------- retry after

  lemma {:induction false} ResetsAreNear(rules: Rules, b: Buckets, trace: seq<Attempt>, now: real)
    requires InOrder(trace) && (trace != [] ==> trace[|trace| - 1].now <= now)
    requires forall s :: s in b ==> s.0 in rules && b[s].resetAt <= now + rules[s.0].window as real
    ensures var b' := MemoryState(rules, b, trace);
            forall s :: s in b' ==> s.0 in rules && b'[s].resetAt <= now + rules[s.0].window as real
    decreases |trace|
  {
    if trace != [] { ResetsAreNear(rules, MemoryStep(rules, b, trace[0]).0, trace[1..], now); }
  }

  /** After any trace, a denial asks the client to wait between one second and
      one window, and strictly within a second of the true remaining time. */
  lemma RetryAfterIsAccurate(rules: Rules, trace: seq<Attempt>, c: Attempt)
    requires InOrder(trace + [c])
    ensures var b := MemoryState(rules, map[], trace);
            var d := MemoryStep(rules, b, c).1;
            d.Denied? ==>
              && c.subject.0 in rules && c.subject in b
              && 1 <= d.retryAfter <= rules[c.subject.0].window
              && -1.0 < d.retryAfter as real - (b[c.subject].resetAt - c.now) < 1.0
  {
    assert forall i :: 0 <= i < |trace| ==> (trace + [c])[i] == trace[i];
    assert (trace + [c])[|trace|] == c;
    ResetsAreNear(rules, map[], trace, c.now);
  }

  function RedisState(rules: Rules, hash: string -> string, prefix: string, m: Counters, trace: seq<Attempt>): Counters
    decreases |trace|
  {
    if trace == [] then m
    else RedisState(rules, hash, prefix, RedisStep(rules, hash, prefix, m, trace[0]).0, trace[1..])
  }

  lemma {:induction false} StatesSimulate(rules: Rules, hash: string -> string, prefix: string,
                                          subjects: set<Subject>, b: Buckets, m: Counters, trace: seq<Attempt>)
    requires Separates(hash, subjects) && (forall i :: 0 <= i < |trace| ==> trace[i].subject in subjects)
    requires Simulates(rules, hash, prefix, subjects, b, m)
    ensures Simulates(rules, hash, prefix, subjects, MemoryState(rules, b, trace),
                      RedisState(rules, hash, prefix, m, trace))
    decreases |trace|
  {
    if trace != [] {
      StepSimulates(rules, hash, prefix, subjects, b, m, trace[0]);
      StatesSimulate(rules, hash, prefix, subjects, MemoryStep(rules, b, trace[0]).0,
                     RedisStep(rules, hash, prefix, m, trace[0]).0, trace[1..]);
    }
  }

  /** A denial by a live counter that expires within one window. */
  lemma RoundedTtlIsNear(rules: Rules, hash: string -> string, prefix: string, m: Counters, c: Attempt)
    requires RedisStep(rules, hash, prefix, m, c).1.Denied?
    requires var key := RedisKey(hash, prefix, c.subject);
             key in m ==> m[key].expires <= c.now + rules[c.subject.0].window as real
    ensures var d, key := RedisStep(rules, hash, prefix, m, c).1, RedisKey(hash, prefix, c.subject);
            && key in m && 1 <= d.retryAfter <= rules[c.subject.0].window
            && -1.0 < d.retryAfter as real - (m[key].expires - c.now) < 1.0
  {
  }

  /** The same holds of the Redis limiter, whose remaining time is rounded. */
  lemma RedisRetryAfterIsAccurate(rules: Rules, hash: string -> string, prefix: string, trace: seq<Attempt>, c: Attempt)
    requires InOrder(trace + [c])
    requires Separates(hash, {c.subject} + set i | 0 <= i < |trace| :: trace[i].subject)
    ensures var m := RedisState(rules, hash, prefix, map[], trace);
            var d, key := RedisStep(rules, hash, prefix, m, c).1, RedisKey(hash, prefix, c.subject);
            d.Denied? ==>
              && c.subject.0 in rules && key in m
              && 1 <= d.retryAfter <= rules[c.subject.0].window
              && -1.0 < d.retryAfter as real - (m[key].expires - c.now) < 1.0
  {
    var subjects := {c.subject} + set i | 0 <= i < |trace| :: trace[i].subject;
    var b, m := MemoryState(rules, map[], trace), RedisState(rules, hash, prefix, map[], trace);
    assert forall i :: 0 <= i < |trace| ==> (trace + [c])[i] == trace[i];
    assert (trace + [c])[|trace|] == c;
    ResetsAreNear(rules, map[], trace, c.now);
    StatesSimulate(rules, hash, prefix, subjects, map[], map[], trace);
    if RedisStep(rules, hash, prefix, m, c).1.Denied? {
      assert c.subject in subjects && c.subject.0 in rules;
      RoundedTtlIsNear(rules, hash, prefix, m, c);
    }
  }

  // -------------------------------------------------------------- imperative

  /** `InMemoryFixedWindowRateLimiter` */
  class InMemoryFixedWindowRateLimiter {
    const rules: Rules
    var buckets: Buckets

    constructor (rules: Rules)
      ensures this.rules == rules && buckets == map[]
    {
      this.rules := rules;
      buckets := map[];
    }

    method Check(scope: string, key: string, now: real) returns (d: Decision)
      modifies this
      ensures (buckets, d) == MemoryStep(rules, old(buckets), Attempt((scope, key), now))
      ensures scope !in rules ==> d == Allowed && buckets == old(buckets)
      ensures scope in rules ==>
              var subject := (scope, key);
              if subject !in old(buckets) || old(buckets)[subject].resetAt <= now
              then d == Allowed && buckets == old(buckets)[subject := Bucket(1, now + rules[scope].window as real)]
              else
                var count, resetAt := old(buckets)[subject].count, old(buckets)[subject].resetAt;
                if count < rules[scope].limit
                then d == Allowed && buckets == old(buckets)[subject := Bucket(count + 1, resetAt)]
                else d == Denied(AtLeastOne((resetAt - now).Floor)) && buckets == old(buckets)
    {
      if scope !in rules { return Allowed; }
      var rule := rules[scope];
      var bucketKey := (scope, key);
      if bucketKey !in buckets || now >= buckets[bucketKey].resetAt {
        buckets := buckets[bucketKey := Bucket(1, now + rule.window as real)];
        return Allowed;
      }
      var bucket := buckets[bucketKey];
      if bucket.count >= rule.limit {
        return Denied(AtLeastOne((bucket.resetAt - now).Floor));
      }
      buckets := buckets[bucketKey := bucket.(count := bucket.count + 1)];
      return Allowed;
    }
  }

  /** The counter Redis keeps for all instances of the API. */
  class RedisFixedWindowCounter {
    var counters: Counters

    constructor ()
      ensures counters == map[]
    {
      counters := map[];
    }

    method IncrementWindowed(key: string, window: int, now: real) returns (count: int, ttl: int)
      modifies this
      ensures (counters, (count, ttl)) ==
              (Increment(old(counters), key, window, now).0,
               (Increment(old(counters), key, window, now).1.0,
                AtLeastOne(Increment(old(counters), key, window, now).1.1)))
      ensures var live := key in old(counters) && now < old(counters)[key].expires;
              var expires := if live then old(counters)[key].expires else now + window as real;
              && count == (if live then old(counters)[key].count + 1 else 1)
              && counters == old(counters)[key := Counter(count, expires)]
              && ttl == AtLeastOne((expires - now + 0.5).Floor)
    {
      if key in counters && now >= counters[key].expires { counters := counters - {key}; }
      if key in counters {
        counters := counters[key := counters[key].(count := counters[key].count + 1)];
      } else {
        counters := counters[key := Counter(1, now + window as real)];
      }
      count := counters[key].count;
      ttl := AtLeastOne((counters[key].expires - now + 0.5).Floor);
      assert counters == Increment(old(counters), key, window, now).0;
    }
  }

  /** `RedisFixedWindowRateLimiter` */
  class RedisFixedWindowRateLimiter {
    const rules: Rules
    const hash: string -> string
    const prefix: string
    const counter: RedisFixedWindowCounter

    constructor (rules: Rules, hash: string -> string, prefix: string, counter: RedisFixedWindowCounter)
      ensures this.rules == rules && this.hash == hash && this.prefix == prefix && this.counter == counter
    {
      this.rules := rules;
      this.hash := hash;
      this.prefix := prefix;
      this.counter := counter;
    }

    method Check(scope: string, key: string, now: real) returns (d: Decision)
      modifies counter
      ensures (counter.counters, d) == RedisStep(rules, hash, prefix, old(counter.counters), Attempt((scope, key), now))
      ensures scope !in rules ==> d == Allowed && counter.counters == old(counter.counters)
      ensures scope in rules ==>
              var name := prefix + ":" + scope + ":" + hash(scope + ":" + key);
              && name in counter.counters
              && counter.counters == old(counter.counters)[name := counter.counters[name]]
              && (d.Allowed? <==> counter.counters[name].count <= rules[scope].limit)
    {
      if scope !in rules { return Allowed; }
      var count, ttl := counter.IncrementWindowed(RedisKey(hash, prefix, (scope, key)), rules[scope].window, now);
      if count > rules[scope].limit { return Denied(ttl); }
      return Allowed;
    }
  }
}
