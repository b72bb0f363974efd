/**
  The stores inside the registration and recovery machines are the one-time
  token store: every call they make is that store's operation, the eager one or
  the lazily expiring one, on entries under injective keys and texts.
 */
module FlowStores {
  import opened Common
  import T = TokenStore
  import G = Registration
  import V = Recovery

  // ----------------------------------------------------- entries under texts

  ghost predicate Injective<A(!new), B(!new)>(f: A -> B) { forall a, b :: f(a) == f(b) ==> a == b }

  /** A machine's store as the token store holds it. */
  ghost function Image<E>(m: map<nat, E>, key: nat -> bytes, row: E -> T.Entry): T.Store
    requires Injective(key)
  {
    map t | t in m :: key(t) := row(m[t])
  }

  lemma ImageAt<E>(m: map<nat, E>, key: nat -> bytes, row: E -> T.Entry, t: nat)
    requires Injective(key)
    ensures key(t) in Image(m, key, row) <==> t in m
    ensures t in m ==> Image(m, key, row)[key(t)] == row(m[t])
  {
  }

  lemma ImagePut<E>(m: map<nat, E>, key: nat -> bytes, row: E -> T.Entry, t: nat, e: E)
    requires Injective(key)
    ensures Image(m[t := e], key, row) == Image(m, key, row)[key(t) := row(e)]
  {
  }

  lemma ImageDrop<E>(m: map<nat, E>, key: nat -> bytes, row: E -> T.Entry, t: nat)
    requires Injective(key)
    ensures Image(m - {t}, key, row) == Image(m, key, row) - {key(t)}
  {
  }

  lemma ImagePurged<E>(m: map<nat, E>, m': map<nat, E>, key: nat -> bytes, row: E -> T.Entry, now: real)
    requires Injective(key)
    requires forall t :: t in m' <==> t in m && row(m[t]).expires > now
    requires forall t :: t in m' ==> m'[t] == m[t]
    ensures Image(m', key, row) == T.Purge(Image(m, key, row), now)
  {
  }

  // ----------------------------------------------------------- either store

  /** The store whose replace refuses absent keys, or the one that upserts. */
  function StoreStep(upsert: bool, m: T.Store, q: T.Request): (T.Store, T.Answer) {
    if upsert then T.LazyStep(m, q) else T.EagerStep(m, q)
  }

  // Each operation in terms of the live entries alone.

  lemma PutLive(upsert: bool, m: T.Store, k: bytes, v: bytes, ttl: int, now: real)
    requires k !in T.Purge(m, now)
    ensures var (m', a) := StoreStep(upsert, m, T.Request(T.Put(k, v, ttl), now));
            a == T.Flag(true) && T.Purge(m', now) == T.Purge(m, now)[k := T.Entry(v, T.Deadline(now, ttl))]
  {
  }

  lemma GetLive(upsert: bool, m: T.Store, k: bytes, now: real)
    ensures var (m', a) := StoreStep(upsert, m, T.Request(T.Get(k), now));
            var p := T.Purge(m, now);
            a == T.Found(if k in p then Some(p[k].value) else None) && T.Purge(m', now) == p
  {
  }

  lemma ReplaceLive(upsert: bool, m: T.Store, k: bytes, v: bytes, ttl: int, now: real)
    ensures var (m', a) := StoreStep(upsert, m, T.Request(T.Replace(k, v, ttl), now));
            var p := T.Purge(m, now);
            && a == T.Flag(k in p || upsert)
            && T.Purge(m', now) == if k in p || upsert then p[k := T.Entry(v, T.Deadline(now, ttl))] else p
  {
  }

  lemma ConsumeLive(upsert: bool, m: T.Store, k: bytes, v: bytes, now: real)
    ensures var (m', a) := StoreStep(upsert, m, T.Request(T.Consume(k, v), now));
            var p := T.Purge(m, now);
            var held := k in p && p[k].value == v;
            a == T.Flag(held) && T.Purge(m', now) == if held then p - {k} else p
  {
  }

  /** A token store whose live entries are a machine's. */
  ghost predicate Stores<E>(m: T.Store, store: map<nat, E>, now: int, key: nat -> bytes, row: E -> T.Entry)
    requires Injective(key)
  {
    T.Purge(m, now as real) == Image(store, key, row)
  }

  lemma ExpiryStores<E>(m: T.Store, store: map<nat, E>, store': map<nat, E>, now: int, later: int, key: nat -> bytes,
                        row: E -> T.Entry)
    requires Injective(key) && Stores(m, store, now, key, row) && now <= later
    requires forall t :: t in store' <==> t in store && row(store[t]).expires > later as real
    requires forall t :: t in store' ==> store'[t] == store[t]
    ensures Stores(m, store', later, key, row)
  {
    ImagePurged(store, store', key, row, later as real);
    assert T.Purge(T.Purge(m, now as real), later as real) == T.Purge(m, later as real);
  }

  // ----------------------------------------------------------- registration

  function PendingRow(json: G.Pending -> bytes): G.Entry -> T.Entry {
    (e: G.Entry) => T.Entry(json(e.value), e.expires as real)
  }

  lemma SecondsAreKept(c: G.Config, now: int, value: G.Pending, json: G.Pending -> bytes)
    ensures PendingRow(json)(G.Entry(value, now + G.Seconds(c))) ==
            T.Entry(json(value), T.Deadline(now as real, G.Seconds(c)))
  {
  }

  /** Starting a registration is a put. */
  lemma StartIsPut(c: G.Config, m: T.Store, s: G.Db, token: nat, value: G.Pending, key: nat -> bytes,
                   json: G.Pending -> bytes)
    requires Injective(key) && Stores(m, s.store, s.now, key, PendingRow(json)) && token !in s.store
    ensures var q := T.Request(T.Put(key(token), json(value), G.Seconds(c)), s.now as real);
            var (m', a) := StoreStep(c.upsert, m, q);
            a == T.Flag(true) && Stores(m', G.Keep(c, s, token, value).store, s.now, key, PendingRow(json))
  {
    ImageAt(s.store, key, PendingRow(json), token);
    PutLive(c.upsert, m, key(token), json(value), G.Seconds(c), s.now as real);
    SecondsAreKept(c, s.now, value, json);
    ImagePut(s.store, key, PendingRow(json), token, G.Entry(value, s.now + G.Seconds(c)));
  }

  /** Reading a pending registration is a get. */
  lemma ReadIsGet(c: G.Config, m: T.Store, s: G.Db, token: nat, key: nat -> bytes, json: G.Pending -> bytes)
    requires Injective(key) && Stores(m, s.store, s.now, key, PendingRow(json))
    ensures var (m', a) := StoreStep(c.upsert, m, T.Request(T.Get(key(token)), s.now as real));
            && a == T.Found(if token in s.store then Some(json(s.store[token].value)) else None)
            && Stores(m', s.store, s.now, key, PendingRow(json))
  {
    ImageAt(s.store, key, PendingRow(json), token);
    GetLive(c.upsert, m, key(token), s.now as real);
  }

  /** Recording a wrong code or a new code is a replace. */
  lemma WriteIsReplace(c: G.Config, m: T.Store, s: G.Db, token: nat, value: G.Pending, key: nat -> bytes,
                       json: G.Pending -> bytes)
    requires Injective(key) && Stores(m, s.store, s.now, key, PendingRow(json))
    ensures var q := T.Request(T.Replace(key(token), json(value), G.Seconds(c)), s.now as real);
            var (m', a) := StoreStep(c.upsert, m, q);
            && a == T.Flag(token in s.store || c.upsert)
            && Stores(m', G.Replace(c, s, token, value).store, s.now, key, PendingRow(json))
  {
    ImageAt(s.store, key, PendingRow(json), token);
    ReplaceLive(c.upsert, m, key(token), json(value), G.Seconds(c), s.now as real);
    SecondsAreKept(c, s.now, value, json);
    ImagePut(s.store, key, PendingRow(json), token, G.Entry(value, s.now + G.Seconds(c)));
  }

  /** Claiming or discarding a pending registration is a consume. */
  lemma ClaimIsConsume(c: G.Config, m: T.Store, s: G.Db, token: nat, value: G.Pending, key: nat -> bytes,
                       json: G.Pending -> bytes)
    requires Injective(key) && Injective(json) && Stores(m, s.store, s.now, key, PendingRow(json))
    ensures var (m', a) := StoreStep(c.upsert, m, T.Request(T.Consume(key(token), json(value)), s.now as real));
            && a == T.Flag(G.Holds(s, token, value))
            && Stores(m', if G.Holds(s, token, value) then s.store - {token} else s.store, s.now, key, PendingRow(json))
  {
    ImageAt(s.store, key, PendingRow(json), token);
    ConsumeLive(c.upsert, m, key(token), json(value), s.now as real);
    ImageDrop(s.store, key, PendingRow(json), token);
  }

  /** Time passing needs no call. */
  lemma WaitingNeedsNoCall(c: G.Config, m: T.Store, s: G.Db, seconds: nat, key: nat -> bytes, json: G.Pending -> bytes)
    requires Injective(key) && Stores(m, s.store, s.now, key, PendingRow(json))
    ensures var s' := G.Began(c, s, G.Tick(seconds)); Stores(m, s'.store, s'.now, key, PendingRow(json))
  {
    var s' := G.Began(c, s, G.Tick(seconds));
    assert s'.now == s.now + seconds && s'.store == G.Purge(s.store, s'.now);
    ExpiryStores(m, s.store, s'.store, s.now, s'.now, key, PendingRow(json));
  }

  // --------------------------------------------------------------- recovery

  function ReferenceRow(text: nat -> bytes): V.Entry -> T.Entry {
    (e: V.Entry) => T.Entry(text(e.reference), e.expires as real)
  }

  lemma ReferencePut(upsert: bool, m: T.Store, store: map<nat, V.Entry>, now: int, token: nat, reference: nat,
                     seconds: int, key: nat -> bytes, text: nat -> bytes)
    requires Injective(key) && Stores(m, store, now, key, ReferenceRow(text)) && token !in store && seconds >= 1
    ensures var (m', a) := StoreStep(upsert, m, T.Request(T.Put(key(token), text(reference), seconds), now as real));
            && a == T.Flag(true)
            && Stores(m', store[token := V.Entry(reference, now + seconds)], now, key, ReferenceRow(text))
  {
    var e := V.Entry(reference, now + seconds);
    ImageAt(store, key, ReferenceRow(text), token);
    PutLive(upsert, m, key(token), text(reference), seconds, now as real);
    assert ReferenceRow(text)(e) == T.Entry(text(reference), T.Deadline(now as real, seconds));
    ImagePut(store, key, ReferenceRow(text), token, e);
  }

  lemma StoreAfterPut(s: V.Db, token: nat, user: nat, lifetime: int)
    requires token !in s.issued
    ensures V.Began(s, V.Put(0, token, user, lifetime)).store ==
            s.store[token := V.Entry(s.next, s.now + V.AtLeastMinute(lifetime))]
  {
  }

  /** Putting a recovery reference is a put, in either store. */
  lemma ReferenceIsPut(upsert: bool, m: T.Store, s: V.Db, token: nat, user: nat, lifetime: int, key: nat -> bytes,
                       text: nat -> bytes)
    requires Injective(key) && Stores(m, s.store, s.now, key, ReferenceRow(text))
    requires token !in s.issued && token !in s.store
    ensures var q := T.Request(T.Put(key(token), text(s.next), V.AtLeastMinute(lifetime)), s.now as real);
            var (m', a) := StoreStep(upsert, m, q);
            && a == T.Flag(true)
            && Stores(m', V.Began(s, V.Put(0, token, user, lifetime)).store, s.now, key, ReferenceRow(text))
  {
    ReferencePut(upsert, m, s.store, s.now, token, s.next, V.AtLeastMinute(lifetime), key, text);
    StoreAfterPut(s, token, user, lifetime);
  }

  lemma ReferenceGet(upsert: bool, m: T.Store, store: map<nat, V.Entry>, now: int, token: nat, key: nat -> bytes,
                     text: nat -> bytes)
    requires Injective(key) && Stores(m, store, now, key, ReferenceRow(text))
    ensures var (m', a) := StoreStep(upsert, m, T.Request(T.Get(key(token)), now as real));
            && a == T.Found(if token in store then Some(text(store[token].reference)) else None)
            && Stores(m', store, now, key, ReferenceRow(text))
  {
    ImageAt(store, key, ReferenceRow(text), token);
    GetLive(upsert, m, key(token), now as real);
  }

  lemma StoreAfterRead(s: V.Db, token: nat)
    ensures V.Began(s, V.Read(0, token, true)).store == s.store
  {
  }

  /** Reading it is a get. */
  lemma ReferenceIsGet(upsert: bool, m: T.Store, s: V.Db, token: nat, key: nat -> bytes, text: nat -> bytes)
    requires Injective(key) && Stores(m, s.store, s.now, key, ReferenceRow(text))
    ensures var (m', a) := StoreStep(upsert, m, T.Request(T.Get(key(token)), s.now as real));
            && a == T.Found(if token in s.store then Some(text(s.store[token].reference)) else None)
            && Stores(m', V.Began(s, V.Read(0, token, true)).store, s.now, key, ReferenceRow(text))
  {
    ReferenceGet(upsert, m, s.store, s.now, token, key, text);
    StoreAfterRead(s, token);
  }

  /** Discarding or consuming a reference is a consume. */
  lemma ReferenceIsConsume(upsert: bool, m: T.Store, s: V.Db, token: nat, reference: nat, key: nat -> bytes,
                           text: nat -> bytes)
    requires Injective(key) && Injective(text) && Stores(m, s.store, s.now, key, ReferenceRow(text))
    ensures var (m', a) := StoreStep(upsert, m, T.Request(T.Consume(key(token), text(reference)), s.now as real));
            && a == T.Flag(V.Holds(s, token, reference))
            && Stores(m', V.Drop(s, token, reference).store, s.now, key, ReferenceRow(text))
  {
    ImageAt(s.store, key, ReferenceRow(text), token);
    ConsumeLive(upsert, m, key(token), text(reference), s.now as real);
    ImageDrop(s.store, key, ReferenceRow(text), token);
  }

  lemma ReferencesExpire(m: T.Store, s: V.Db, seconds: nat, key: nat -> bytes, text: nat -> bytes)
    requires Injective(key) && Stores(m, s.store, s.now, key, ReferenceRow(text))
    ensures var s' := V.Began(s, V.Tick(seconds)); Stores(m, s'.store, s'.now, key, ReferenceRow(text))
  {
    var s' := V.Began(s, V.Tick(seconds));
    assert s'.now == s.now + seconds && s'.store == V.Purge(s.store, s'.now);
    ExpiryStores(m, s.store, s'.store, s.now, s'.now, key, ReferenceRow(text));
  }
}
