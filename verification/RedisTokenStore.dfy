/**
  The Redis token store over the wire: the adapter encodes a command, a server
  decodes and executes it, and the adapter reads the printed reply.
 */
module RedisTokenStore {
  import opened Common
  import opened Decimal
  import R = Resp
  import T = TokenStore

  const SET: bytes := [83, 69, 84]
  const GET: bytes := [71, 69, 84]
  const EVAL: bytes := [69, 86, 65, 76]
  const EX: bytes := [69, 88]
  const NX: bytes := [78, 88]
  const OK: bytes := [79, 75]
  const ONE: bytes := [49]

  /** Stands for the text of the compare-and-delete script: the server knows the
      script by its text, and only that it is the same text matters. */
  const CONSUME_SCRIPT: bytes := [0]

  /** The commands of Redis, as far as this adapter uses them. */
  datatype Order =
    | SetKey(key: bytes, value: bytes, seconds: int, onlyNew: bool)
    | GetKey(key: bytes)
    | DeleteIf(key: bytes, value: bytes)
    | Unknown

  function SetOrder(key: bytes, value: bytes, seconds: bytes, onlyNew: bool): Order {
    match ParseInt(seconds)
    case None => Unknown
    case Some(n) => if n < 1 then Unknown else SetKey(key, value, n, onlyNew)
  }

  function Understand(command: seq<bytes>): Order {
    if |command| == 2 && command[0] == GET then GetKey(command[1])
    else if |command| == 5 && command[0] == SET && command[3] == EX
    then SetOrder(command[1], command[2], command[4], false)
    else if |command| == 6 && command[0] == SET && command[3] == EX && command[5] == NX
    then SetOrder(command[1], command[2], command[4], true)
    else if |command| == 5 && command[0] == EVAL && command[1] == CONSUME_SCRIPT && command[2] == ONE
    then DeleteIf(command[3], command[4])
    else Unknown
  }

  function Execute(db: T.Store, now: real, order: Order): (T.Store, R.Reply) {
    match order
    case Unknown => (db, R.Error([]))
    case GetKey(key) => (db, if T.Live(db, key, now) then R.BulkString(db[key].value) else R.NullBulk)
    case SetKey(key, value, seconds, onlyNew) =>
      if onlyNew && T.Live(db, key, now) then (db, R.NullBulk)
      else (db[key := T.Entry(value, now + seconds as real)], R.SimpleString(OK))
    case DeleteIf(key, value) =>
      if T.Live(db, key, now) && db[key].value == value then (db - {key}, R.Integer(1)) else (db, R.Integer(0))
  }

  function Serve(db: T.Store, now: real, command: seq<bytes>): (T.Store, R.Reply) {
    Execute(db, now, Understand(command))
  }

  /** The server's side of the connection: bytes in, bytes out. */
  function ServeBytes(db: T.Store, now: real, wire: bytes): (T.Store, bytes) {
    match R.Parse(wire)
    case Done(List(items), _) =>
      if forall i :: 0 <= i < |items| ==> items[i].Text? then
        var (db', reply) := Serve(db, now, seq(|items|, i requires 0 <= i < |items| => items[i].text));
        (db', R.PrintReply(reply))
      else (db, R.PrintReply(R.Error([])))
    case _ => (db, R.PrintReply(R.Error([])))
  }

  /** `_command`: one request and its reply; a failed read is an outage. */
  function Command(db: T.Store, now: real, parts: seq<bytes>): (T.Store, Option<R.Value>) {
    var (db', wire) := ServeBytes(db, now, R.EncodeCommand(parts));
    (db', match R.Parse(wire) case Done(v, _) => Some(v) case Failed(_) => None)
  }

  function Parts(op: T.Op): seq<bytes> {
    match op
    case Put(k, v, ttl) => [SET, k, v, EX, Print(AtLeastOne(ttl)), NX]
    case Get(k) => [GET, k]
    case Replace(k, v, ttl) => [SET, k, v, EX, Print(AtLeastOne(ttl))]
    case Consume(k, v) => [EVAL, CONSUME_SCRIPT, ONE, k, v]
  }

  /** How the adapter turns a reply into the port's answer; None is its error. */
  function Interpret(op: T.Op, response: Option<R.Value>): Option<T.Answer> {
    match response
    case None => None
    case Some(v) =>
      match op
      case Put(_, _, _) => Some(T.Flag(v == R.Text(OK)))
      case Replace(_, _, _) => Some(T.Flag(v == R.Text(OK)))
      case Consume(_, _) => Some(T.Flag(v == R.Number(1)))
      case Get(_) =>
        if v.Nil? then Some(T.Found(None))
        else if v.Text? then Some(T.Found(Some(v.text)))
        else None
  }

  function AdapterStep(db: T.Store, q: T.Request): (T.Store, Option<T.Answer>) {
    var (db', response) := Command(db, q.now, Parts(q.op));
    (db', Interpret(q.op, response))
  }

  /** Both directions of the codec cancel out: the caller sees the reply that
      the server's execution of exactly these parts means. */
  lemma CommandIsServe(db: T.Store, now: real, parts: seq<bytes>)
    requires R.WellFormed(Serve(db, now, parts).1) && R.Meaning(Serve(db, now, parts).1).Returned?
    ensures Command(db, now, parts) ==
            (Serve(db, now, parts).0, Some(R.Meaning(Serve(db, now, parts).1).value))
  {
    var wire := R.EncodeCommand(parts);
    R.ParseCommand(parts, []);
    assert wire + [] == wire;
    var items := R.Texts(parts);
    assert seq(|items|, i requires 0 <= i < |items| => items[i].text) == parts;
    var (db', reply) := Serve(db, now, parts);
    R.ParseReply(reply, []);
    assert R.PrintReply(reply) + [] == R.PrintReply(reply);
  }

  /** The four commands as they are sent: words, order of arguments, and a time
      to live of at least one second. */
  lemma CommandsAsSent(key: bytes, value: bytes, ttl: int)
    ensures var seconds := Print(if ttl < 1 then 1 else ttl);
            && Parts(T.Put(key, value, ttl)) == [Ascii("SET"), key, value, Ascii("EX"), seconds, Ascii("NX")]
            && Parts(T.Get(key)) == [Ascii("GET"), key]
            && Parts(T.Replace(key, value, ttl)) == [Ascii("SET"), key, value, Ascii("EX"), seconds]
            && Parts(T.Consume(key, value)) == [Ascii("EVAL"), CONSUME_SCRIPT, Ascii("1"), key, value]
    ensures Interpret(T.Put(key, value, ttl), Some(R.Text(Ascii("OK")))) == Some(T.Flag(true))
  {
    assert Ascii("SET") == SET && Ascii("GET") == GET && Ascii("EVAL") == EVAL && Ascii("OK") == OK;
    assert Ascii("EX") == EX && Ascii("NX") == NX && Ascii("1") == ONE;
  }

  /** What the adapter means by an operation. */
  function Asked(op: T.Op): Order {
    match op
    case Put(k, v, ttl) => SetKey(k, v, AtLeastOne(ttl), true)
    case Get(k) => GetKey(k)
    case Replace(k, v, ttl) => SetKey(k, v, AtLeastOne(ttl), false)
    case Consume(k, v) => DeleteIf(k, v)
  }

  /** The server understands what the adapter meant. */
  lemma PartsAreUnderstood(op: T.Op)
    ensures Understand(Parts(op)) == Asked(op)
  {
    if op.Put? || op.Replace? {
      var x := Print(AtLeastOne(op.ttl));
      ParsePrint(AtLeastOne(op.ttl));
      SetIsUnderstood(op.key, op.value, x);
    }
  }

  lemma SetIsUnderstood(key: bytes, value: bytes, seconds: bytes)
    ensures Understand([SET, key, value, EX, seconds, NX]) == SetOrder(key, value, seconds, true)
    ensures Understand([SET, key, value, EX, seconds]) == SetOrder(key, value, seconds, false)
  {
  }

  /** Executing it is the lazy store's step, and the reply tells its answer. */
  lemma ExecuteMeans(db: T.Store, q: T.Request)
    ensures var (db', reply) := Execute(db, q.now, Asked(q.op));
            && R.WellFormed(reply) && R.Meaning(reply).Returned?
            && db' == T.LazyStep(db, q).0
            && Interpret(q.op, Some(R.Meaning(reply).value)) == Some(T.LazyStep(db, q).1)
  {
  }

  /** What the server does with each of the adapter's four commands. */
  lemma ServeMeans(db: T.Store, q: T.Request)
    ensures var (db', reply) := Serve(db, q.now, Parts(q.op));
            && R.WellFormed(reply) && R.Meaning(reply).Returned?
            && db' == T.LazyStep(db, q).0
            && Interpret(q.op, Some(R.Meaning(reply).value)) == Some(T.LazyStep(db, q).1)
  {
    PartsAreUnderstood(q.op);
    ExecuteMeans(db, q);
  }

  /** For every store, instant, key and value, CR and LF bytes included, the
      adapter's four operations over the wire are the lazy store's. */
  lemma AdapterIsLazyStore(db: T.Store, q: T.Request)
    ensures AdapterStep(db, q) == (T.LazyStep(db, q).0, Some(T.LazyStep(db, q).1))
  {
    ServeMeans(db, q);
    CommandIsServe(db, q.now, Parts(q.op));
  }

  function AdapterAnswers(db: T.Store, trace: seq<T.Request>): seq<Option<T.Answer>>
    decreases |trace|
  {
    if trace == [] then []
    else var (db', a) := AdapterStep(db, trace[0]); [a] + AdapterAnswers(db', trace[1..])
  }

  function Available(answers: seq<T.Answer>): seq<Option<T.Answer>> {
    seq(|answers|, i requires 0 <= i < |answers| => Some(answers[i]))
  }

  lemma AvailableGrows(a: T.Answer, answers: seq<T.Answer>)
    ensures Available([a] + answers) == [Some(a)] + Available(answers)
  {
  }

  lemma AdapterFirst(db: T.Store, trace: seq<T.Request>, db': T.Store, a: Option<T.Answer>)
    requires trace != [] && AdapterStep(db, trace[0]) == (db', a)
    ensures AdapterAnswers(db, trace) == [a] + AdapterAnswers(db', trace[1..])
  {
  }

  lemma {:induction false} AdapterAnswersLazily(db: T.Store, trace: seq<T.Request>)
    ensures AdapterAnswers(db, trace) == Available(T.LazyAnswers(db, trace))
    decreases |trace|
  {
    if trace != [] {
      var (db', a) := T.LazyStep(db, trace[0]);
      AdapterIsLazyStore(db, trace[0]);
      AdapterFirst(db, trace, db', Some(a));
      AdapterAnswersLazily(db', trace[1..]);
      AvailableGrows(a, T.LazyAnswers(db', trace[1..]));
    }
  }

  /** The development store stands in for the Redis adapter on exactly the
      traces whose replaces all hit a live key. */
  lemma InMemoryStandsInExactly(trace: seq<T.Request>)
    requires T.InOrder(trace)
    ensures AdapterAnswers(map[], trace) == Available(T.EagerAnswers(map[], trace)) <==>
            T.ReplacesHit(map[], trace)
  {
    AdapterAnswersLazily(map[], trace);
    T.StoresAgreeExactly(trace);
    var e, l := T.EagerAnswers(map[], trace), T.LazyAnswers(map[], trace);
    if Available(e) == Available(l) {
      assert |e| == |Available(e)| == |Available(l)| == |l|;
      forall i | 0 <= i < |e| ensures e[i] == l[i] {
        assert Available(e)[i] == Available(l)[i];
      }
    }
  }
}
