/**
  Whole runs of the registration and recovery machines, as the requests they
  make of the one-time token store: its answers are the ones the machines go on
  with, and after every run its live entries are the machines'.
 */
module FlowRuns {
  import opened Common
  import opened FlowStores
  import T = TokenStore
  import W = RedisTokenStore
  import G = Registration
  import V = Recovery

  /** A request of the token store and the answer a machine goes on with. */
  datatype Call = Call(request: T.Request, answer: T.Answer)

  function Requests(calls: seq<Call>): seq<T.Request> {
    seq(|calls|, i requires 0 <= i < |calls| => calls[i].request)
  }

  function Answers(calls: seq<Call>): seq<T.Answer> {
    seq(|calls|, i requires 0 <= i < |calls| => calls[i].answer)
  }

  function StoreAnswers(upsert: bool, m: T.Store, trace: seq<T.Request>): seq<T.Answer> {
    if upsert then T.LazyAnswers(m, trace) else T.EagerAnswers(m, trace)
  }

  function StoreAfter(upsert: bool, m: T.Store, trace: seq<T.Request>): T.Store
    decreases |trace|
  {
    if trace == [] then m else StoreAfter(upsert, StoreStep(upsert, m, trace[0]).0, trace[1..])
  }

  /** An event makes one call or none. */
  function Made(call: Option<Call>): seq<Call> { if call.Some? then [call.value] else [] }

  function AfterCall(upsert: bool, m: T.Store, call: Option<Call>): T.Store {
    if call.Some? then StoreStep(upsert, m, call.value.request).0 else m
  }

  predicate Agrees(upsert: bool, m: T.Store, call: Option<Call>) {
    call.Some? ==> StoreStep(upsert, m, call.value.request).1 == call.value.answer
  }

  lemma CallFirst(upsert: bool, m: T.Store, call: Option<Call>, rest: seq<Call>)
    requires Agrees(upsert, m, call)
    requires StoreAnswers(upsert, AfterCall(upsert, m, call), Requests(rest)) == Answers(rest)
    ensures var calls := Made(call) + rest;
            && StoreAnswers(upsert, m, Requests(calls)) == Answers(calls)
            && StoreAfter(upsert, m, Requests(calls)) == StoreAfter(upsert, AfterCall(upsert, m, call), Requests(rest))
  {
    var calls := Made(call) + rest;
    if call.Some? {
      assert Requests(calls)[1..] == Requests(rest);
      assert Answers(calls) == [call.value.answer] + Answers(rest);
    } else {
      assert calls == rest;
    }
  }

  /** No request comes before an instant, nor before an earlier request. */
  ghost predicate InOrderFrom(calls: seq<Call>, now: int) {
    && T.InOrder(Requests(calls))
    && forall i :: 0 <= i < |calls| ==> now as real <= calls[i].request.now
  }

  lemma OrderGrows(call: Option<Call>, rest: seq<Call>, now: int, later: int)
    requires now <= later && InOrderFrom(rest, later) && (call.Some? ==> call.value.request.now == now as real)
    ensures InOrderFrom(Made(call) + rest, now)
  {
    var calls := Made(call) + rest;
    if call.None? { assert calls == rest; }
    forall i, j | 0 <= i < j < |calls| ensures Requests(calls)[i].now <= Requests(calls)[j].now {
      if call.Some? {
        assert calls[j] == rest[j - 1] && Requests(rest)[j - 1] == rest[j - 1].request;
        if i > 0 { assert Requests(rest)[i - 1] == calls[i].request; }
      } else {
        assert Requests(rest)[i] == calls[i].request && Requests(rest)[j] == calls[j].request;
      }
    }
  }

  /** Made of a token store, the calls come in order, are answered as said and
      leave the store with a machine's entries. */
  ghost predicate Realizes<E>(upsert: bool, m: T.Store, calls: seq<Call>, now: int, store: map<nat, E>, later: int,
                              key: nat -> bytes, row: E -> T.Entry)
    requires Injective(key)
  {
    && InOrderFrom(calls, now)
    && StoreAnswers(upsert, m, Requests(calls)) == Answers(calls)
    && Stores(StoreAfter(upsert, m, Requests(calls)), store, later, key, row)
  }

  lemma RealizesGrows<E>(upsert: bool, m: T.Store, call: Option<Call>, rest: seq<Call>, now: int, next: int,
                         store: map<nat, E>, later: int, key: nat -> bytes, row: E -> T.Entry)
    requires Injective(key) && Agrees(upsert, m, call) && now <= next
    requires call.Some? ==> call.value.request.now == now as real
    requires Realizes(upsert, AfterCall(upsert, m, call), rest, next, store, later, key, row)
    ensures Realizes(upsert, m, Made(call) + rest, now, store, later, key, row)
  {
    CallFirst(upsert, m, call, rest);
    OrderGrows(call, rest, now, next);
  }

  lemma NothingRealized<E>(upsert: bool, m: T.Store, now: int, store: map<nat, E>, key: nat -> bytes, row: E -> T.Entry)
    requires Injective(key) && Stores(m, store, now, key, row)
    ensures Realizes(upsert, m, [], now, store, now, key, row)
  {
  }

  // ----------------------------------------------------------- registration

  function FirstCall(c: G.Config, s: G.Db, e: G.Event, key: nat -> bytes, json: G.Pending -> bytes): Option<Call> {
    match e
    case Start(_, token, identity, code) =>
      if token in s.issued then None
      else Some(StartCall(c, s, token, G.Pending(identity, code, 0), key, json))
    case ReadResend(_, token, _) => Some(ReadCall(s, token, key, json))
    case ReadVerify(_, token, _) => Some(ReadCall(s, token, key, json))
    case _ => None
  }

  function StartCall(c: G.Config, s: G.Db, token: nat, value: G.Pending, key: nat -> bytes,
                     json: G.Pending -> bytes): Call {
    Call(T.Request(T.Put(key(token), json(value), G.Seconds(c)), s.now as real), T.Flag(true))
  }

  function ReadCall(s: G.Db, token: nat, key: nat -> bytes, json: G.Pending -> bytes): Call {
    Call(T.Request(T.Get(key(token)), s.now as real),
         T.Found(if token in s.store then Some(json(s.store[token].value)) else None))
  }

  function ReplaceCall(c: G.Config, s: G.Db, token: nat, value: G.Pending, key: nat -> bytes,
                       json: G.Pending -> bytes): Call {
    Call(T.Request(T.Replace(key(token), json(value), G.Seconds(c)), s.now as real),
         T.Flag(token in s.store || c.upsert))
  }

  function ConsumeCall(s: G.Db, token: nat, value: G.Pending, key: nat -> bytes, json: G.Pending -> bytes): Call {
    Call(T.Request(T.Consume(key(token), json(value)), s.now as real), T.Flag(G.Holds(s, token, value)))
  }

  function NextCall(c: G.Config, s: G.Db, e: G.Event, f: G.Flight, key: nat -> bytes,
                    json: G.Pending -> bytes): Option<Call>
    requires G.Fits(e, f)
  {
    if e.FinishSend? then
      if e.delivered || !e.storeUp then None else Some(ConsumeCall(s, f.token, f.value, key, json))
    else if e.WriteResend? then Some(ReplaceCall(c, s, f.token, f.value.(code := e.code), key, json))
    else if e.WriteWrong? then Some(ReplaceCall(c, s, f.token, G.Counted(f.value), key, json))
    else if e.ClaimRight? then Some(ConsumeCall(s, f.token, f.value, key, json))
    else None
  }

  /** The store request an event makes, if it makes one. */
  function CallOf(c: G.Config, s: G.State, e: G.Event, key: nat -> bytes, json: G.Pending -> bytes): Option<Call> {
    if e.Tick? then None
    else if e.r !in s.flights then FirstCall(c, s.db, e, key, json)
    else if G.Fits(e, s.flights[e.r]) then NextCall(c, s.db, e, s.flights[e.r], key, json)
    else None
  }

  function CallsOf(c: G.Config, s: G.State, es: seq<G.Event>, key: nat -> bytes, json: G.Pending -> bytes): seq<Call>
    decreases |es|
  {
    if es == [] then [] else Made(CallOf(c, s, es[0], key, json)) + CallsOf(c, G.Step(c, s, es[0]), es[1..], key, json)
  }

  lemma FirstCallIsMade(c: G.Config, m: T.Store, s: G.Db, e: G.Event, key: nat -> bytes, json: G.Pending -> bytes)
    requires Injective(key) && Stores(m, s.store, s.now, key, PendingRow(json)) && G.SameIdentity(s) && !e.Tick?
    ensures var call, t := FirstCall(c, s, e, key, json), G.Began(c, s, e);
            Agrees(c.upsert, m, call) && Stores(AfterCall(c.upsert, m, call), t.store, t.now, key, PendingRow(json))
  {
    var t := G.Began(c, s, e);
    BeganStore(c, s, e);
    if e.Start? && e.token !in s.issued {
      StartIsMade(c, m, s, t, e.token, G.Pending(e.identity, e.code, 0), key, json);
    } else if e.ReadResend? || e.ReadVerify? {
      PendingReadIsMade(c, m, s, t, e.token, key, json);
    }
  }

  lemma BeganStore(c: G.Config, s: G.Db, e: G.Event)
    requires !e.Tick?
    ensures var t := G.Began(c, s, e);
            && t.now == s.now
            && t.store == if e.Start? && e.token !in s.issued
                          then G.Keep(c, s, e.token, G.Pending(e.identity, e.code, 0)).store else s.store
  {
  }

  lemma StartIsMade(c: G.Config, m: T.Store, s: G.Db, t: G.Db, token: nat, value: G.Pending,
                    key: nat -> bytes, json: G.Pending -> bytes)
    requires Injective(key) && Stores(m, s.store, s.now, key, PendingRow(json)) && token !in s.store
    requires t.now == s.now && t.store == G.Keep(c, s, token, value).store
    ensures var call := Some(StartCall(c, s, token, value, key, json));
            Agrees(c.upsert, m, call) && Stores(AfterCall(c.upsert, m, call), t.store, t.now, key, PendingRow(json))
  {
    StartIsPut(c, m, s, token, value, key, json);
  }

  lemma PendingReadIsMade(c: G.Config, m: T.Store, s: G.Db, t: G.Db, token: nat, key: nat -> bytes,
                          json: G.Pending -> bytes)
    requires Injective(key) && Stores(m, s.store, s.now, key, PendingRow(json))
    requires t.now == s.now && t.store == s.store
    ensures var call := Some(ReadCall(s, token, key, json));
            Agrees(c.upsert, m, call) && Stores(AfterCall(c.upsert, m, call), t.store, t.now, key, PendingRow(json))
  {
    ReadIsGet(c, m, s, token, key, json);
  }

  lemma ReplaceIsMade(c: G.Config, m: T.Store, s: G.Db, t: G.Db, token: nat, value: G.Pending,
                      key: nat -> bytes, json: G.Pending -> bytes)
    requires Injective(key) && Stores(m, s.store, s.now, key, PendingRow(json))
    requires t.now == s.now && t.store == G.Replace(c, s, token, value).store
    ensures var call := Some(ReplaceCall(c, s, token, value, key, json));
            Agrees(c.upsert, m, call) && Stores(AfterCall(c.upsert, m, call), t.store, t.now, key, PendingRow(json))
  {
    WriteIsReplace(c, m, s, token, value, key, json);
  }

  lemma ConsumeIsMade(c: G.Config, m: T.Store, s: G.Db, t: G.Db, token: nat, value: G.Pending,
                      key: nat -> bytes, json: G.Pending -> bytes)
    requires Injective(key) && Injective(json) && Stores(m, s.store, s.now, key, PendingRow(json))
    requires t.now == s.now && t.store == if G.Holds(s, token, value) then s.store - {token} else s.store
    ensures var call := Some(ConsumeCall(s, token, value, key, json));
            Agrees(c.upsert, m, call) && Stores(AfterCall(c.upsert, m, call), t.store, t.now, key, PendingRow(json))
  {
    ClaimIsConsume(c, m, s, token, value, key, json);
  }

  lemma WrittenStore(c: G.Config, s: G.Db, e: G.Event, f: G.Flight)
    requires G.Fits(e, f)
    ensures var t := G.Written(c, s, e, f);
            && t.now == s.now
            && t.store == if e.WriteResend? then G.Replace(c, s, f.token, f.value.(code := e.code)).store
                          else if e.WriteWrong? then G.Replace(c, s, f.token, G.Counted(f.value)).store
                          else if e.Register? || (e.FinishSend? && (e.delivered || !e.storeUp)) then s.store
                          else if G.Holds(s, f.token, f.value) then s.store - {f.token} else s.store
  {
  }

  lemma NextCallIsMade(c: G.Config, m: T.Store, s: G.Db, e: G.Event, f: G.Flight, key: nat -> bytes,
                       json: G.Pending -> bytes)
    requires Injective(key) && Injective(json) && Stores(m, s.store, s.now, key, PendingRow(json)) && G.Fits(e, f)
    ensures var call, t := NextCall(c, s, e, f, key, json), G.Written(c, s, e, f);
            Agrees(c.upsert, m, call) && Stores(AfterCall(c.upsert, m, call), t.store, t.now, key, PendingRow(json))
  {
    var t := G.Written(c, s, e, f);
    WrittenStore(c, s, e, f);
    if e.ClaimRight? || (e.FinishSend? && !e.delivered && e.storeUp) {
      ConsumeIsMade(c, m, s, t, f.token, f.value, key, json);
    } else if e.WriteResend? {
      ReplaceIsMade(c, m, s, t, f.token, f.value.(code := e.code), key, json);
    } else if e.WriteWrong? {
      ReplaceIsMade(c, m, s, t, f.token, G.Counted(f.value), key, json);
    }
  }

  lemma CallIsMade(c: G.Config, m: T.Store, s: G.State, e: G.Event, key: nat -> bytes, json: G.Pending -> bytes)
    requires Injective(key) && Injective(json)
    requires Stores(m, s.db.store, s.db.now, key, PendingRow(json)) && G.SameIdentity(s.db)
    ensures var call, t := CallOf(c, s, e, key, json), G.Step(c, s, e).db;
            Agrees(c.upsert, m, call) && Stores(AfterCall(c.upsert, m, call), t.store, t.now, key, PendingRow(json))
  {
    if e.Tick? { WaitingNeedsNoCall(c, m, s.db, e.seconds, key, json); }
    else if e.r !in s.flights { FirstCallIsMade(c, m, s.db, e, key, json); }
    else if G.Fits(e, s.flights[e.r]) { NextCallIsMade(c, m, s.db, e, s.flights[e.r], key, json); }
  }

  lemma CallIsNow(c: G.Config, s: G.State, e: G.Event, key: nat -> bytes, json: G.Pending -> bytes)
    ensures CallOf(c, s, e, key, json).Some? ==> CallOf(c, s, e, key, json).value.request.now == s.db.now as real
    ensures s.db.now <= G.Step(c, s, e).db.now
  {
  }

  lemma {:induction false} RegistrationCalls(c: G.Config, m: T.Store, s: G.State, es: seq<G.Event>,
                                             key: nat -> bytes, json: G.Pending -> bytes)
    requires Injective(key) && Injective(json)
    requires Stores(m, s.db.store, s.db.now, key, PendingRow(json))
    requires G.SameIdentity(s.db) && G.FlightsCarry(s.db.issued, s.flights)
    ensures var t := G.Run(c, s, es).db;
            Realizes(c.upsert, m, CallsOf(c, s, es, key, json), s.db.now, t.store, t.now, key, PendingRow(json))
    decreases |es|
  {
    if es == [] {
      NothingRealized(c.upsert, m, s.db.now, s.db.store, key, PendingRow(json));
    } else {
      var call, n, t := CallOf(c, s, es[0], key, json), G.Step(c, s, es[0]), G.Run(c, s, es).db;
      CallIsMade(c, m, s, es[0], key, json);
      CallIsNow(c, s, es[0], key, json);
      G.StepKeeps(c, s, es[0]);
      RegistrationCalls(c, AfterCall(c.upsert, m, call), n, es[1..], key, json);
      RealizesGrows(c.upsert, m, call, CallsOf(c, n, es[1..], key, json), s.db.now, n.db.now, t.store, t.now,
                    key, PendingRow(json));
    }
  }

  /** Every run of the registration machine is a run of the token store: the
      requests it makes come in order, the store answers each as the machine
      goes on, and its live entries afterwards are the machine's. */
  lemma RegistrationRunsOnStore(c: G.Config, es: seq<G.Event>, key: nat -> bytes, json: G.Pending -> bytes)
    requires Injective(key) && Injective(json)
    ensures var calls, s := CallsOf(c, G.INIT, es, key, json), G.Run(c, G.INIT, es).db;
            && T.InOrder(Requests(calls))
            && StoreAnswers(c.upsert, map[], Requests(calls)) == Answers(calls)
            && T.Purge(StoreAfter(c.upsert, map[], Requests(calls)), s.now as real) ==
               Image(s.store, key, PendingRow(json))
  {
    assert T.Purge(map[], 0.0) == Image(G.INIT.db.store, key, PendingRow(json));
    RegistrationCalls(c, map[], G.INIT, es, key, json);
  }

  /** Over Redis those requests, encoded, served and read back on the wire, get
      the very answers the machine goes on with. */
  lemma RegistrationOverTheWire(c: G.Config, es: seq<G.Event>, key: nat -> bytes, json: G.Pending -> bytes)
    requires Injective(key) && Injective(json) && c.upsert
    ensures var calls := CallsOf(c, G.INIT, es, key, json);
            W.AdapterAnswers(map[], Requests(calls)) == W.Available(Answers(calls))
  {
    RegistrationRunsOnStore(c, es, key, json);
    W.AdapterAnswersLazily(map[], Requests(CallsOf(c, G.INIT, es, key, json)));
  }

  // --------------------------------------------------------------- recovery

  function DropCall(s: V.Db, token: nat, reference: nat, key: nat -> bytes, text: nat -> bytes): Call {
    Call(T.Request(T.Consume(key(token), text(reference)), s.now as real), T.Flag(V.Holds(s, token, reference)))
  }

  function FirstReferenceCall(s: V.Db, e: V.Event, key: nat -> bytes, text: nat -> bytes): Option<Call> {
    match e
    case Put(_, token, _, lifetime) =>
      if token in s.issued then None
      else Some(PutCall(s.now, token, s.next, V.AtLeastMinute(lifetime), key, text))
    case Read(_, token, storeUp) =>
      if !storeUp then None
      else Some(Call(T.Request(T.Get(key(token)), s.now as real),
                     T.Found(if token in s.store then Some(text(s.store[token].reference)) else None)))
    case _ => None
  }

  function NextReferenceCall(s: V.Db, e: V.Event, f: V.Flight, key: nat -> bytes, text: nat -> bytes): Option<Call>
    requires V.Fits(e, f)
  {
    if e.Discard? && e.storeUp && f.token in s.issued
    then Some(DropCall(s, f.token, s.issued[f.token].transaction, key, text))
    else if e.Consume? && e.storeUp then Some(DropCall(s, f.token, f.reference, key, text))
    else None
  }

  function ReferenceCallOf(s: V.State, e: V.Event, key: nat -> bytes, text: nat -> bytes): Option<Call> {
    if V.Ambient(e) then None
    else if e.r !in s.flights then FirstReferenceCall(s.db, e, key, text)
    else if V.Fits(e, s.flights[e.r]) then NextReferenceCall(s.db, e, s.flights[e.r], key, text)
    else None
  }

  function ReferenceCallsOf(s: V.State, es: seq<V.Event>, key: nat -> bytes, text: nat -> bytes): seq<Call>
    decreases |es|
  {
    if es == [] then []
    else Made(ReferenceCallOf(s, es[0], key, text)) + ReferenceCallsOf(V.Step(s, es[0]), es[1..], key, text)
  }

  lemma FirstReferenceCallIsMade(upsert: bool, m: T.Store, s: V.Db, e: V.Event, key: nat -> bytes, text: nat -> bytes)
    requires Injective(key) && Stores(m, s.store, s.now, key, ReferenceRow(text)) && V.TablesOk(s) && !V.Ambient(e)
    ensures var call, t := FirstReferenceCall(s, e, key, text), V.Began(s, e);
            Agrees(upsert, m, call) && Stores(AfterCall(upsert, m, call), t.store, t.now, key, ReferenceRow(text))
  {
    if e.Put? {
      if e.token !in s.issued {
        PutLeaves(s, e);
        PutIsMade(upsert, m, s, V.Began(s, e), e.token, V.AtLeastMinute(e.lifetime), key, text);
      }
    } else if e.Read? { ReadIsMade(upsert, m, s, e, key, text); }
  }

  function PutCall(now: int, token: nat, reference: nat, seconds: int, key: nat -> bytes, text: nat -> bytes): Call {
    Call(T.Request(T.Put(key(token), text(reference), seconds), now as real), T.Flag(true))
  }

  lemma PutIsMade(upsert: bool, m: T.Store, s: V.Db, t: V.Db, token: nat, seconds: int, key: nat -> bytes,
                  text: nat -> bytes)
    requires Injective(key) && Stores(m, s.store, s.now, key, ReferenceRow(text)) && token !in s.store && seconds >= 1
    requires t.now == s.now && t.store == s.store[token := V.Entry(s.next, s.now + seconds)]
    ensures var call := Some(PutCall(s.now, token, s.next, seconds, key, text));
            Agrees(upsert, m, call) && Stores(AfterCall(upsert, m, call), t.store, t.now, key, ReferenceRow(text))
  {
    ReferencePut(upsert, m, s.store, s.now, token, s.next, seconds, key, text);
  }

  lemma PutLeaves(s: V.Db, e: V.Event)
    requires e.Put? && e.token !in s.issued
    ensures var t := V.Began(s, e);
            t.now == s.now && t.store == s.store[e.token := V.Entry(s.next, s.now + V.AtLeastMinute(e.lifetime))]
  {
  }

  lemma ReadIsMade(upsert: bool, m: T.Store, s: V.Db, e: V.Event, key: nat -> bytes, text: nat -> bytes)
    requires Injective(key) && Stores(m, s.store, s.now, key, ReferenceRow(text)) && e.Read?
    ensures var call, t := FirstReferenceCall(s, e, key, text), V.Began(s, e);
            Agrees(upsert, m, call) && Stores(AfterCall(upsert, m, call), t.store, t.now, key, ReferenceRow(text))
  {
    var t := V.Began(s, e);
    assert t.store == s.store && t.now == s.now;
    ReferenceGet(upsert, m, s.store, s.now, e.token, key, text);
  }

  lemma DropIsMade(upsert: bool, m: T.Store, s: V.Db, t: V.Db, token: nat, reference: nat, key: nat -> bytes,
                   text: nat -> bytes)
    requires Injective(key) && Injective(text) && Stores(m, s.store, s.now, key, ReferenceRow(text))
    requires t.now == s.now && t.store == V.Drop(s, token, reference).store
    ensures var call := Some(DropCall(s, token, reference, key, text));
            Agrees(upsert, m, call) && Stores(AfterCall(upsert, m, call), t.store, t.now, key, ReferenceRow(text))
  {
    ReferenceIsConsume(upsert, m, s, token, reference, key, text);
  }

  lemma ReferenceLeft(s: V.Db, e: V.Event, f: V.Flight)
    requires V.Fits(e, f)
    ensures var t := V.Written(s, e, f);
            && t.now == s.now
            && t.store == if e.Discard? && e.storeUp && f.token in s.issued
                          then V.Drop(s, f.token, s.issued[f.token].transaction).store
                          else if e.Consume? && e.storeUp then V.Drop(s, f.token, f.reference).store else s.store
  {
  }

  lemma NextReferenceCallIsMade(upsert: bool, m: T.Store, s: V.Db, e: V.Event, f: V.Flight, key: nat -> bytes,
                                text: nat -> bytes)
    requires Injective(key) && Injective(text) && Stores(m, s.store, s.now, key, ReferenceRow(text)) && V.Fits(e, f)
    ensures var call, t := NextReferenceCall(s, e, f, key, text), V.Written(s, e, f);
            Agrees(upsert, m, call) && Stores(AfterCall(upsert, m, call), t.store, t.now, key, ReferenceRow(text))
  {
    var call, t := NextReferenceCall(s, e, f, key, text), V.Written(s, e, f);
    ReferenceLeft(s, e, f);
    if call.Some? {
      var reference := if e.Discard? then s.issued[f.token].transaction else f.reference;
      DropIsMade(upsert, m, s, t, f.token, reference, key, text);
    }
  }

  lemma AmbientMakesNoCall(m: T.Store, s: V.Db, e: V.Event, key: nat -> bytes, text: nat -> bytes)
    requires Injective(key) && Stores(m, s.store, s.now, key, ReferenceRow(text)) && V.Ambient(e)
    ensures var t := V.Began(s, e); Stores(m, t.store, t.now, key, ReferenceRow(text))
  {
    if e.Tick? { ReferencesExpire(m, s, e.seconds, key, text); } else { AccountsAlone(s, e); }
  }

  lemma AccountsAlone(s: V.Db, e: V.Event)
    requires V.Ambient(e) && !e.Tick?
    ensures var t := V.Began(s, e); t.store == s.store && t.now == s.now
  {
  }

  lemma ReferenceCallIsMade(upsert: bool, m: T.Store, s: V.State, e: V.Event, key: nat -> bytes, text: nat -> bytes)
    requires Injective(key) && Injective(text)
    requires Stores(m, s.db.store, s.db.now, key, ReferenceRow(text)) && V.TablesOk(s.db)
    ensures var call, t := ReferenceCallOf(s, e, key, text), V.Step(s, e).db;
            Agrees(upsert, m, call) && Stores(AfterCall(upsert, m, call), t.store, t.now, key, ReferenceRow(text))
  {
    if V.Ambient(e) { AmbientMakesNoCall(m, s.db, e, key, text); }
    else if e.r !in s.flights { FirstReferenceCallIsMade(upsert, m, s.db, e, key, text); }
    else if V.Fits(e, s.flights[e.r]) { NextReferenceCallIsMade(upsert, m, s.db, e, s.flights[e.r], key, text); }
  }

  lemma ReferenceCallIsNow(s: V.State, e: V.Event, key: nat -> bytes, text: nat -> bytes)
    ensures var call := ReferenceCallOf(s, e, key, text); call.Some? ==> call.value.request.now == s.db.now as real
    ensures s.db.now <= V.Step(s, e).db.now
  {
  }

  lemma {:induction false} RecoveryCalls(upsert: bool, m: T.Store, s: V.State, es: seq<V.Event>, key: nat -> bytes,
                                         text: nat -> bytes)
    requires Injective(key) && Injective(text) && V.Inv(s)
    requires Stores(m, s.db.store, s.db.now, key, ReferenceRow(text))
    ensures var t := V.Run(s, es).db;
            Realizes(upsert, m, ReferenceCallsOf(s, es, key, text), s.db.now, t.store, t.now, key, ReferenceRow(text))
    decreases |es|
  {
    if es == [] {
      NothingRealized(upsert, m, s.db.now, s.db.store, key, ReferenceRow(text));
    } else {
      var call, n, t := ReferenceCallOf(s, es[0], key, text), V.Step(s, es[0]), V.Run(s, es).db;
      ReferenceCallIsMade(upsert, m, s, es[0], key, text);
      ReferenceCallIsNow(s, es[0], key, text);
      V.StepKeeps(s, es[0]);
      RecoveryCalls(upsert, AfterCall(upsert, m, call), n, es[1..], key, text);
      RealizesGrows(upsert, m, call, ReferenceCallsOf(n, es[1..], key, text), s.db.now, n.db.now, t.store, t.now,
                    key, ReferenceRow(text));
    }
  }

  /** The same of every run of the recovery machine, over either store. */
  lemma RecoveryRunsOnStore(upsert: bool, credentials: map<nat, V.Credential>, es: seq<V.Event>, key: nat -> bytes,
                            text: nat -> bytes)
    requires Injective(key) && Injective(text)
    ensures var calls, s := ReferenceCallsOf(V.Init(credentials), es, key, text), V.Run(V.Init(credentials), es).db;
            && T.InOrder(Requests(calls))
            && StoreAnswers(upsert, map[], Requests(calls)) == Answers(calls)
            && T.Purge(StoreAfter(upsert, map[], Requests(calls)), s.now as real) ==
               Image(s.store, key, ReferenceRow(text))
  {
    assert T.Purge(map[], 0.0) == Image(V.Init(credentials).db.store, key, ReferenceRow(text));
    RecoveryCalls(upsert, map[], V.Init(credentials), es, key, text);
  }

  lemma RecoveryOverTheWire(credentials: map<nat, V.Credential>, es: seq<V.Event>, key: nat -> bytes,
                            text: nat -> bytes)
    requires Injective(key) && Injective(text)
    ensures var calls := ReferenceCallsOf(V.Init(credentials), es, key, text);
            W.AdapterAnswers(map[], Requests(calls)) == W.Available(Answers(calls))
  {
    RecoveryRunsOnStore(true, credentials, es, key, text);
    W.AdapterAnswersLazily(map[], Requests(ReferenceCallsOf(V.Init(credentials), es, key, text)));
  }
}
