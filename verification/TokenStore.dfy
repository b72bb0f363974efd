/**
  The one-time token store: the process-local dictionary that purges eagerly,
  the lazily expiring store that the Redis commands describe, and exactly when
  the two answer alike.
 */
module TokenStore {
  import opened Common

  datatype Entry = Entry(value: bytes, expires: real)

  type Store = map<bytes, Entry>

  datatype Op =
    | Put(key: bytes, value: bytes, ttl: int)
    | Get(key: bytes)
    | Replace(key: bytes, value: bytes, ttl: int)
    | Consume(key: bytes, value: bytes)

  datatype Request = Request(op: Op, now: real)

  datatype Answer = Flag(ok: bool) | Found(value: Option<bytes>)

  function Deadline(now: real, ttl: int): real { now + AtLeastOne(ttl) as real }

  predicate Live(m: Store, key: bytes, now: real) { key in m && m[key].expires > now }

  function Purge(m: Store, now: real): Store {
    map k | k in m && m[k].expires > now :: m[k]
  }

  /** The in-memory adapter: purge first, then act on what is left. */
  function EagerStep(m: Store, q: Request): (Store, Answer) {
    var p := Purge(m, q.now);
    match q.op
    case Put(k, v, ttl) =>
      if k in p then (p, Flag(false)) else (p[k := Entry(v, Deadline(q.now, ttl))], Flag(true))
    case Get(k) => (p, Found(if k in p then Some(p[k].value) else None))
    case Replace(k, v, ttl) =>
      if k !in p then (p, Flag(false)) else (p[k := Entry(v, Deadline(q.now, ttl))], Flag(true))
    case Consume(k, v) =>
      if k !in p || p[k].value != v then (p, Flag(false)) else (p - {k}, Flag(true))
  }

  /** SET NX EX, GET, SET EX and compare-and-delete over lazily expiring keys. */
  function LazyStep(m: Store, q: Request): (Store, Answer) {
    match q.op
    case Put(k, v, ttl) =>
      if Live(m, k, q.now) then (m, Flag(false)) else (m[k := Entry(v, Deadline(q.now, ttl))], Flag(true))
    case Get(k) => (m, Found(if Live(m, k, q.now) then Some(m[k].value) else None))
    case Replace(k, v, ttl) => (m[k := Entry(v, Deadline(q.now, ttl))], Flag(true))
    case Consume(k, v) =>
      if !Live(m, k, q.now) || m[k].value != v then (m, Flag(false)) else (m - {k}, Flag(true))
  }

  function EagerAnswers(m: Store, trace: seq<Request>): seq<Answer>
    decreases |trace|
  {
    if trace == [] then []
    else var (m', a) := EagerStep(m, trace[0]); [a] + EagerAnswers(m', trace[1..])
  }

  function LazyAnswers(m: Store, trace: seq<Request>): seq<Answer>
    decreases |trace|
  {
    if trace == [] then []
    else var (m', a) := LazyStep(m, trace[0]); [a] + LazyAnswers(m', trace[1..])
  }

  ghost predicate InOrder(trace: seq<Request>) {
    forall i, j :: 0 <= i < j < |trace| ==> trace[i].now <= trace[j].now
  }

  predicate Hits(m: Store, q: Request) { q.op.Replace? ==> Live(m, q.op.key, q.now) }

  /** Every replace of the trace finds its key alive when it is called. */
  predicate ReplacesHit(m: Store, trace: seq<Request>)
    decreases |trace|
  {
    trace == [] || (Hits(m, trace[0]) && ReplacesHit(EagerStep(m, trace[0]).0, trace[1..]))
  }

  /** Same live entries at an instant, whatever dead ones still lie around. */
  predicate SameLive(e: Store, l: Store, now: real) { Purge(e, now) == Purge(l, now) }

  lemma SameLiveLater(e: Store, l: Store, now: real, later: real)
    requires SameLive(e, l, now) && now <= later
    ensures SameLive(e, l, later)
  {
    forall k ensures k in Purge(e, later) <==> k in Purge(l, later) {
      assert k in Purge(e, now) <==> k in Purge(l, now);
    }
    forall k | k in Purge(e, later) ensures Purge(e, later)[k] == Purge(l, later)[k] {
      assert Purge(e, now)[k] == Purge(l, now)[k];
    }
  }

  /** One request keeps the simulation; the answers differ exactly when a
      replace finds no live key. */
  lemma StepsAgree(e: Store, l: Store, q: Request)
    requires SameLive(e, l, q.now)
    ensures EagerStep(e, q).1 == LazyStep(l, q).1 <==> Hits(e, q)
    ensures Hits(e, q) ==> SameLive(EagerStep(e, q).0, LazyStep(l, q).0, q.now)
  {
  }

  lemma {:induction false} AnswersAgree(e: Store, l: Store, trace: seq<Request>)
    requires InOrder(trace)
    requires trace != [] ==> SameLive(e, l, trace[0].now)
    ensures EagerAnswers(e, trace) == LazyAnswers(l, trace) <==> ReplacesHit(e, trace)
    decreases |trace|
  {
    if trace != [] {
      var q := trace[0];
      StepsAgree(e, l, q);
      assert EagerAnswers(e, trace)[0] == EagerStep(e, q).1;
      assert LazyAnswers(l, trace)[0] == LazyStep(l, q).1;
      assert EagerAnswers(e, trace)[1..] == EagerAnswers(EagerStep(e, q).0, trace[1..]);
      assert LazyAnswers(l, trace)[1..] == LazyAnswers(LazyStep(l, q).0, trace[1..]);
      if Hits(e, q) {
        if trace[1..] != [] {
          SameLiveLater(EagerStep(e, q).0, LazyStep(l, q).0, q.now, trace[1].now);
        }
        AnswersAgree(EagerStep(e, q).0, LazyStep(l, q).0, trace[1..]);
      }
    }
  }

  /** The two stores answer a trace alike if and only if every replace in it
      hits a live key. */
  lemma StoresAgreeExactly(trace: seq<Request>)
    requires InOrder(trace)
    ensures EagerAnswers(map[], trace) == LazyAnswers(map[], trace) <==> ReplacesHit(map[], trace)
  {
    AnswersAgree(map[], map[], trace);
  }

  /** The shortest trace on which they part: a replace with nothing to replace. */
  lemma MissedReplaceDiffers(key: bytes, value: bytes, ttl: int, now: real)
    ensures EagerAnswers(map[], [Request(Replace(key, value, ttl), now)]) == [Flag(false)]
    ensures LazyAnswers(map[], [Request(Replace(key, value, ttl), now)]) == [Flag(true)]
  {
  }

  /** A consumed key is gone: nothing but a put brings it back. */
  lemma {:induction false} ConsumedOnce(m: Store, key: bytes, value: bytes, now: real, trace: seq<Request>)
    requires EagerStep(m, Request(Consume(key, value), now)).1 == Flag(true)
    requires forall i :: 0 <= i < |trace| ==> !(trace[i].op.Put? && trace[i].op.key == key)
    ensures var m' := EagerStep(m, Request(Consume(key, value), now)).0;
            forall i :: 0 <= i < |trace| && trace[i].op.key == key ==>
                          var a := EagerAnswers(m', trace);
                          |a| == |trace| && (a[i] == Flag(false) || a[i] == Found(None))
  {
    AbsentStays(EagerStep(m, Request(Consume(key, value), now)).0, key, trace);
  }

  lemma {:induction false} AbsentStays(m: Store, key: bytes, trace: seq<Request>)
    requires key !in m
    requires forall i :: 0 <= i < |trace| ==> !(trace[i].op.Put? && trace[i].op.key == key)
    ensures |EagerAnswers(m, trace)| == |trace|
    ensures forall i :: 0 <= i < |trace| && trace[i].op.key == key ==>
                          EagerAnswers(m, trace)[i] == Flag(false) || EagerAnswers(m, trace)[i] == Found(None)
    decreases |trace|
  {
    if trace != [] {
      var (m', a) := EagerStep(m, trace[0]);
      AbsentStays(m', key, trace[1..]);
      forall i | 0 <= i < |trace| && trace[i].op.key == key
        ensures EagerAnswers(m, trace)[i] == Flag(false) || EagerAnswers(m, trace)[i] == Found(None)
      {
        if i > 0 { assert trace[i] == trace[1..][i - 1]; }
      }
    }
  }

  /** The entries that expire later than now, and no others, but for one key. */
  ghost predicate OnlyLive(before: Store, after: Store, now: real, except: set<bytes>) {
    && (forall k :: k !in except ==> (k in after <==> k in before && now < before[k].expires))
    && (forall k :: k !in except && k in after ==> k in before && after[k] == before[k])
  }

  /** `InMemoryOneTimeTokenStore`; each method takes the clock reading it sees. */
  class InMemoryOneTimeTokenStore {
    var values: map<bytes, Entry>

    constructor ()
      ensures values == map[]
    {
      values := map[];
    }

    method PurgeExpired(now: real)
      modifies this
      ensures values == Purge(old(values), now) && OnlyLive(old(values), values, now, {})
    {
      values := map k | k in values && values[k].expires > now :: values[k];
    }

    method Put(key: bytes, value: bytes, ttl: int, now: real) returns (ok: bool)
      modifies this
      ensures (values, Flag(ok)) == EagerStep(old(values), Request(Op.Put(key, value, ttl), now))
      ensures ok <==> key !in old(values) || old(values)[key].expires <= now
      ensures OnlyLive(old(values), values, now, if ok then {key} else {})
      ensures ok ==> key in values && values[key] == Entry(value, now + AtLeastOne(ttl) as real)
    {
      PurgeExpired(now);
      if key in values { return false; }
      values := values[key := Entry(value, Deadline(now, ttl))];
      return true;
    }

    method Get(key: bytes, now: real) returns (found: Option<bytes>)
      modifies this
      ensures (values, Found(found)) == EagerStep(old(values), Request(Op.Get(key), now))
      ensures found.Some? <==> key in old(values) && now < old(values)[key].expires
      ensures found.Some? ==> found.value == old(values)[key].value
      ensures OnlyLive(old(values), values, now, {})
    {
      PurgeExpired(now);
      found := if key in values then Some(values[key].value) else None;
    }

    method Replace(key: bytes, value: bytes, ttl: int, now: real) returns (ok: bool)
      modifies this
      ensures (values, Flag(ok)) == EagerStep(old(values), Request(Op.Replace(key, value, ttl), now))
      ensures ok <==> key in old(values) && now < old(values)[key].expires
      ensures OnlyLive(old(values), values, now, if ok then {key} else {})
      ensures ok ==> key in values && values[key] == Entry(value, now + AtLeastOne(ttl) as real)
    {
      PurgeExpired(now);
      if key !in values { return false; }
      values := values[key := Entry(value, Deadline(now, ttl))];
      return true;
    }

    method Consume(key: bytes, value: bytes, now: real) returns (ok: bool)
      modifies this
      ensures (values, Flag(ok)) == EagerStep(old(values), Request(Op.Consume(key, value), now))
      ensures ok <==> key in old(values) && now < old(values)[key].expires && old(values)[key].value == value
      ensures OnlyLive(old(values), values, now, if ok then {key} else {})
      ensures ok ==> key !in values
    {
      PurgeExpired(now);
      if key !in values || values[key].value != value { return false; }
      values := values - {key};
      return true;
    }
  }
}
