/**
  The Redis serialization protocol (RESP2) as the Redis adapters speak it: the
  command encoder, the recursive reply reader over an asyncio stream, and a
  RESP2 reply printer that plays the server.
 */
module Resp {
  import opened Common
  import opened Decimal

  const CR: byte := 13
  const LF: byte := 10
  const CRLF: bytes := [13, 10]

  /** What the reader hands to Python: str, int, None or list. */
  datatype Value =
    | Text(text: bytes)
    | Number(number: int)
    | Nil
    | List(items: seq<Value>)

  datatype Failure =
    | IncompleteRead
    | BadInteger
    | ServerError(message: bytes)
    | Unsupported

  datatype Reading<+T> = Done(value: T, rest: bytes) | Failed(failure: Failure)

  // ---------------------------------------------------------------- stream

  /** How many bytes `readline` takes: through the first LF, or all of them. */
  function LineLength(s: bytes): (n: nat)
    ensures n <= |s|
    ensures s != [] ==> n > 0
  {
    if s == [] then 0 else if s[0] == LF then 1 else 1 + LineLength(s[1..])
  }

  /** `rstrip(b"\r\n")` */
  function RStrip(s: bytes): (r: bytes)
    ensures r <= s
    ensures r == [] || (r[|r| - 1] != CR && r[|r| - 1] != LF)
  {
    if s != [] && (s[|s| - 1] == CR || s[|s| - 1] == LF) then RStrip(s[..|s| - 1]) else s
  }

  // ---------------------------------------------------------------- reader

  function Parse(s: bytes): (r: Reading<Value>)
    ensures r.Done? ==> |r.rest| < |s|
    decreases |s|, 0
  {
    if s == [] then Failed(IncompleteRead)
    else
      var body := s[1..];
      var n := LineLength(body);
      ParseMarked(s[0], RStrip(body[..n]), body[n..])
  }

  /** The value that a marker byte and the rest of its line announce. */
  function ParseMarked(marker: byte, line: bytes, rest: bytes): (r: Reading<Value>)
    ensures r.Done? ==> |r.rest| <= |rest|
    decreases |rest|, 2
  {
    if marker == 43 then Done(Text(line), rest)
    else if marker == 45 then Failed(ServerError(line))
    else if marker != 58 && marker != 36 && marker != 42 then Failed(Unsupported)
    else
      match ParseInt(line)
      case None => Failed(BadInteger)
      case Some(n) =>
        if marker == 58 then Done(Number(n), rest)
        else if n < 0 then Done(Nil, rest)
        else if marker == 36 then
          if |rest| < n + 2 then Failed(IncompleteRead)
          else Done(Text(rest[..n]), rest[n + 2..])
        else
          match ParseItems(n, rest)
          case Failed(e) => Failed(e)
          case Done(items, rest') => Done(List(items), rest')
  }

  function ParseItems(n: nat, s: bytes): (r: Reading<seq<Value>>)
    ensures r.Done? ==> |r.rest| <= |s| && |r.value| == n
    decreases |s|, 1
  {
    if n == 0 then Done([], s)
    else
      match Parse(s)
      case Failed(e) => Failed(e)
      case Done(v, rest) =>
        match ParseItems(n - 1, rest)
        case Failed(e) => Failed(e)
        case Done(vs, rest') => Done([v] + vs, rest')
  }

  // --------------------------------------------------------------- printers

  /** A RESP2 reply as a server means it. */
  datatype Reply =
    | SimpleString(text: bytes)
    | Error(message: bytes)
    | Integer(value: int)
    | BulkString(payload: bytes)
    | NullBulk
    | NullArray
    | Array(elements: seq<Reply>)

  function PrintReply(r: Reply): bytes
    decreases r, 0
  {
    match r
    case SimpleString(t) => [43] + t + CRLF
    case Error(m) => [45] + m + CRLF
    case Integer(v) => [58] + Print(v) + CRLF
    case BulkString(p) => [36] + Print(|p|) + CRLF + p + CRLF
    case NullBulk => [36] + Print(-1) + CRLF
    case NullArray => [42] + Print(-1) + CRLF
    case Array(rs) => [42] + Print(|rs|) + CRLF + PrintReplies(rs)
  }

  function PrintReplies(rs: seq<Reply>): bytes
    decreases rs, 1
  {
    if rs == [] then [] else PrintReply(rs[0]) + PrintReplies(rs[1..])
  }

  /** RESP2 forbids line breaks inside simple strings and error messages; the
      reader needs exactly this much of that rule. */
  predicate SurvivesLine(t: bytes) {
    LF !in t && (t == [] || t[|t| - 1] != CR)
  }

  predicate WellFormed(r: Reply)
    decreases r
  {
    match r
    case SimpleString(t) => SurvivesLine(t)
    case Error(m) => SurvivesLine(m)
    case Array(rs) => forall i :: 0 <= i < |rs| ==> WellFormed(rs[i])
    case _ => true
  }

  /** What a reply means to the caller: a value, or the first error raised. */
  datatype Outcome<+T> = Returned(value: T) | Raised(message: bytes)

  function Meaning(r: Reply): Outcome<Value>
    decreases r, 0
  {
    match r
    case SimpleString(t) => Returned(Text(t))
    case Error(m) => Raised(m)
    case Integer(v) => Returned(Number(v))
    case BulkString(p) => Returned(Text(p))
    case NullBulk => Returned(Nil)
    case NullArray => Returned(Nil)
    case Array(rs) =>
      match Meanings(rs)
      case Raised(m) => Raised(m)
      case Returned(vs) => Returned(List(vs))
  }

  function Meanings(rs: seq<Reply>): Outcome<seq<Value>>
    decreases rs, 1
  {
    if rs == [] then Returned([])
    else
      match Meaning(rs[0])
      case Raised(m) => Raised(m)
      case Returned(v) =>
        match Meanings(rs[1..])
        case Raised(m) => Raised(m)
        case Returned(vs) => Returned([v] + vs)
  }

  function Expected<T>(o: Outcome<T>, rest: bytes): Reading<T> {
    match o
    case Raised(m) => Failed(ServerError(m))
    case Returned(v) => Done(v, rest)
  }

  function AsReplies(parts: seq<bytes>): (rs: seq<Reply>)
    ensures |rs| == |parts|
    ensures forall i :: 0 <= i < |rs| ==> rs[i] == BulkString(parts[i])
  {
    if parts == [] then [] else [BulkString(parts[0])] + AsReplies(parts[1..])
  }

  function Texts(parts: seq<bytes>): (vs: seq<Value>)
    ensures |vs| == |parts|
    ensures forall i :: 0 <= i < |vs| ==> vs[i] == Text(parts[i])
  {
    if parts == [] then [] else [Text(parts[0])] + Texts(parts[1..])
  }

  /** A command is the array of its parts as bulk strings. */
  function EncodeCommand(parts: seq<bytes>): bytes {
    PrintReply(Array(AsReplies(parts)))
  }

  /** What RESP2 writes for each kind of reply. */
  predicate OnWire(r: Reply, wire: bytes) {
    match r
    case SimpleString(t) => wire == Ascii("+") + t + Ascii("\r\n")
    case Error(m) => wire == Ascii("-") + m + Ascii("\r\n")
    case Integer(v) => wire == Ascii(":") + Print(v) + Ascii("\r\n")
    case BulkString(p) => wire == Ascii("$") + Print(|p|) + Ascii("\r\n") + p + Ascii("\r\n")
    case NullBulk => wire == Ascii("$-1\r\n")
    case NullArray => wire == Ascii("*-1\r\n")
    case Array(rs) => wire == Ascii("*") + Print(|rs|) + Ascii("\r\n") + PrintReplies(rs)
  }

  lemma MinusOne()
    ensures Print(-1) == Ascii("-1")
  {
    DigitsExactly(1, 1);
  }

  /** The printer writes RESP2, and a command is an array of bulk strings. */
  lemma WireFormat(r: Reply, parts: seq<bytes>)
    ensures OnWire(r, PrintReply(r))
    ensures EncodeCommand(parts) == Ascii("*") + Print(|parts|) + Ascii("\r\n") + Bulks(parts)
  {
    assert Ascii("\r\n") == CRLF && Ascii("+") == [43] && Ascii("-") == [45] && Ascii(":") == [58];
    assert Ascii("$") == [36] && Ascii("*") == [42];
    MinusOne();
    assert Ascii("$-1\r\n") == Ascii("$") + Ascii("-1") + Ascii("\r\n");
    assert Ascii("*-1\r\n") == Ascii("*") + Ascii("-1") + Ascii("\r\n");
    BulksArePrinted(parts);
  }

  function Bulks(parts: seq<bytes>): bytes {
    if parts == [] then []
    else Ascii("$") + Print(|parts[0]|) + Ascii("\r\n") + parts[0] + Ascii("\r\n") + Bulks(parts[1..])
  }

  lemma {:induction false} BulksArePrinted(parts: seq<bytes>)
    ensures PrintReplies(AsReplies(parts)) == Bulks(parts)
  {
    if parts != [] {
      assert Ascii("\r\n") == CRLF && Ascii("$") == [36];
      assert AsReplies(parts)[1..] == AsReplies(parts[1..]);
      BulksArePrinted(parts[1..]);
    }
  }

  // ------------------------------------------------------------ line lemmas

  lemma {:induction false} LineLengthOf(t: bytes, rest: bytes)
    requires LF !in t
    ensures LineLength(t + CRLF + rest) == |t| + 2
  {
    var s := t + CRLF + rest;
    if t == [] {
      assert s[1..] == [LF] + rest;
    } else {
      assert s[1..] == t[1..] + CRLF + rest;
      LineLengthOf(t[1..], rest);
    }
  }

  lemma RStripOf(t: bytes)
    requires SurvivesLine(t)
    ensures RStrip(t + CRLF) == t
  {
    var once := t + [CR];
    assert (t + CRLF)[..|t + CRLF| - 1] == once;
    assert once[..|once| - 1] == t;
    assert t != [] ==> t[|t| - 1] in t;
    assert RStrip(once) == RStrip(t) == t;
  }

  /** A marker and its line, followed by anything. */
  lemma ParseLine(marker: byte, t: bytes, rest: bytes)
    requires SurvivesLine(t)
    ensures Parse([marker] + t + CRLF + rest) == ParseMarked(marker, t, rest)
  {
    var s := [marker] + t + CRLF + rest;
    assert s[1..] == t + CRLF + rest;
    LineLengthOf(t, rest);
    assert s[1..][..|t| + 2] == t + CRLF;
    assert s[1..][|t| + 2..] == rest;
    RStripOf(t);
  }

  /** A marker and a printed number, followed by anything. */
  lemma ParseNumbered(marker: byte, n: int, rest: bytes)
    ensures Parse([marker] + Print(n) + CRLF + rest) == ParseMarked(marker, Print(n), rest)
    ensures ParseInt(Print(n)) == Some(n)
  {
    ParseLine(marker, Print(n), rest);
    ParsePrint(n);
  }

  // -------------------------------------------------------------- round trip

  /** The reader inverts the reply printer on arbitrarily nested replies, with
      any bytes following, and raises exactly the first error reply inside. */
  lemma {:induction false} ParseReply(r: Reply, rest: bytes)
    requires WellFormed(r)
    ensures Parse(PrintReply(r) + rest) == Expected(Meaning(r), rest)
    decreases r, 0
  {
    match r
    case SimpleString(t) => ParseLine(43, t, rest);
    case Error(m) => ParseLine(45, m, rest);
    case Integer(v) => ParseNumbered(58, v, rest);
    case NullBulk => ParseNumbered(36, -1, rest);
    case NullArray => ParseNumbered(42, -1, rest);
    case BulkString(p) => ParseBulk(p, rest);
    case Array(rs) =>
      var tail := PrintReplies(rs) + rest;
      assert PrintReply(r) + rest == [42] + Print(|rs|) + CRLF + tail;
      ParseNumbered(42, |rs|, tail);
      ParseReplies(rs, rest);
  }

  /** The payload is taken by count, so its own bytes cannot end it early. */
  lemma ParseBulk(p: bytes, rest: bytes)
    ensures Parse(PrintReply(BulkString(p)) + rest) == Done(Text(p), rest)
  {
    var tail := p + CRLF + rest;
    assert PrintReply(BulkString(p)) + rest == [36] + Print(|p|) + CRLF + tail;
    ParseNumbered(36, |p|, tail);
    assert tail[..|p|] == p && tail[|p| + 2..] == rest;
  }

  lemma {:induction false} ParseReplies(rs: seq<Reply>, rest: bytes)
    requires forall i :: 0 <= i < |rs| ==> WellFormed(rs[i])
    ensures ParseItems(|rs|, PrintReplies(rs) + rest) == Expected(Meanings(rs), rest)
    decreases rs, 1
  {
    if rs == [] {
      assert PrintReplies(rs) + rest == rest;
    } else {
      var tail := PrintReplies(rs[1..]) + rest;
      assert PrintReplies(rs) + rest == PrintReply(rs[0]) + tail;
      ParseReply(rs[0], tail);
      ParseReplies(rs[1..], rest);
    }
  }

  lemma {:induction false} MeaningOfParts(parts: seq<bytes>)
    ensures Meanings(AsReplies(parts)) == Returned(Texts(parts))
  {
    if parts != [] {
      MeaningOfParts(parts[1..]);
      assert AsReplies(parts)[1..] == AsReplies(parts[1..]);
    }
  }

  /** Reading an encoded command gives back exactly its parts, CR and LF bytes
      included, and leaves exactly the bytes that followed. */
  lemma ParseCommand(parts: seq<bytes>, rest: bytes)
    ensures Parse(EncodeCommand(parts) + rest) == Done(List(Texts(parts)), rest)
  {
    ParseReply(Array(AsReplies(parts)), rest);
    MeaningOfParts(parts);
  }

  /** No command encoding is a prefix of another: the split is unique. */
  lemma CommandsArePrefixFree(p: seq<bytes>, q: seq<bytes>, r: bytes, t: bytes)
    requires EncodeCommand(p) + r == EncodeCommand(q) + t
    ensures p == q && r == t
  {
    ParseCommand(p, r);
    ParseCommand(q, t);
    assert Texts(p) == Texts(q);
    forall i | 0 <= i < |p| ensures p[i] == q[i] {
      assert Texts(p)[i] == Texts(q)[i];
    }
  }

  function Pipeline(commands: seq<seq<bytes>>): bytes {
    if commands == [] then [] else EncodeCommand(commands[0]) + Pipeline(commands[1..])
  }

  /** A connection's outgoing bytes determine the commands that were written. */
  lemma {:induction false} PipelineIsUnique(a: seq<seq<bytes>>, b: seq<seq<bytes>>)
    requires Pipeline(a) == Pipeline(b)
    ensures a == b
  {
    if a != [] && b != [] {
      CommandsArePrefixFree(a[0], b[0], Pipeline(a[1..]), Pipeline(b[1..]));
      PipelineIsUnique(a[1..], b[1..]);
      assert a == [a[0]] + a[1..] && b == [b[0]] + b[1..];
    }
  }

  /** Exactly which simple strings the reader returns unharmed: those with no
      LF inside and no CR at the end, because `rstrip` takes every trailing
      line-break byte and not only the terminator. */
  lemma SimpleStringExactly(t: bytes, rest: bytes)
    ensures Parse(PrintReply(SimpleString(t)) + rest) == Done(Text(t), rest) <==> SurvivesLine(t)
  {
    if SurvivesLine(t) {
      ParseReply(SimpleString(t), rest);
    } else if LF in t {
      var s := t + CRLF + rest;
      assert ([43] + t + CRLF + rest)[1..] == s;
      LineStopsInside(t, CRLF + rest);
      assert t + (CRLF + rest) == s;
    }
  }

  lemma {:induction false} LineStopsInside(t: bytes, rest: bytes)
    requires LF in t
    ensures LineLength(t + rest) <= |t| && |RStrip((t + rest)[..LineLength(t + rest)])| < |t|
  {
    StopsBy(t, rest);
  }

  lemma {:induction false} StopsBy(t: bytes, rest: bytes)
    requires LF in t
    ensures 0 < LineLength(t + rest) <= |t| && (t + rest)[LineLength(t + rest) - 1] == LF
  {
    if t[0] != LF {
      assert (t + rest)[1..] == t[1..] + rest;
      StopsBy(t[1..], rest);
    }
  }

  // ------------------------------------------------------------- imperative

  /** `_encode_redis_command`: a list of chunks built in a loop, then joined. */
  method EncodeRedisCommand(parts: seq<bytes>) returns (wire: bytes)
    ensures wire == EncodeCommand(parts)
  {
    var header := [42] + Print(|parts|) + CRLF;
    var encoded := [header];
    ghost var replies := AsReplies(parts);
    for i := 0 to |parts|
      invariant Join(encoded) == header + PrintReplies(replies[..i])
    {
      var value := parts[i];
      AddPart(encoded, header, replies[..i], value);
      assert replies[..i] + [BulkString(value)] == replies[..i + 1];
      encoded := encoded + [[36] + Print(|value|) + CRLF];
      encoded := encoded + [value + CRLF];
    }
    assert replies[..|parts|] == replies;
    wire := Join(encoded);
  }

  function Join(chunks: seq<bytes>): bytes {
    if chunks == [] then [] else chunks[0] + Join(chunks[1..])
  }

  lemma {:induction false} JoinSnoc(chunks: seq<bytes>, last: bytes)
    ensures Join(chunks + [last]) == Join(chunks) + last
  {
    if chunks != [] {
      assert (chunks + [last])[1..] == chunks[1..] + [last];
      JoinSnoc(chunks[1..], last);
    }
  }

  /** The two chunks of one part extend the joined text by its bulk string. */
  lemma AddPart(encoded: seq<bytes>, header: bytes, done: seq<Reply>, value: bytes)
    requires Join(encoded) == header + PrintReplies(done)
    ensures Join(encoded + [[36] + Print(|value|) + CRLF] + [value + CRLF]) ==
            header + PrintReplies(done + [BulkString(value)])
  {
    var size := [36] + Print(|value|) + CRLF;
    JoinSnoc2(encoded, size, value + CRLF);
    PrintRepliesSnoc(done, BulkString(value));
    assert size + (value + CRLF) == PrintReply(BulkString(value));
  }

  lemma JoinSnoc2(chunks: seq<bytes>, a: bytes, b: bytes)
    ensures Join(chunks + [a] + [b]) == Join(chunks) + (a + b)
  {
    JoinSnoc(chunks, a);
    JoinSnoc(chunks + [a], b);
  }

  lemma {:induction false} PrintRepliesSnoc(rs: seq<Reply>, r: Reply)
    ensures PrintReplies(rs + [r]) == PrintReplies(rs) + PrintReply(r)
  {
    if rs != [] {
      assert (rs + [r])[1..] == rs[1..] + [r];
      PrintRepliesSnoc(rs[1..], r);
    }
  }

  /** Reading one item and then the rest, from any point of the item loop. */
  function Resume(done: seq<Value>, r: Reading<seq<Value>>): Reading<seq<Value>> {
    match r case Failed(e) => Failed(e) case Done(vs, rest) => Done(done + vs, rest)
  }

  datatype Result<+T> = Ok(value: T) | Err(failure: Failure)

  /** The asyncio stream: unread bytes, taken from the front. */
  class StreamReader {
    var buffer: bytes

    constructor (data: bytes)
      ensures buffer == data
    {
      buffer := data;
    }

    method ReadExactly(n: nat) returns (r: Result<bytes>)
      modifies this
      ensures r.Ok? <==> n <= |old(buffer)|
      ensures r.Ok? ==> old(buffer) == r.value + buffer && |r.value| == n
      ensures r.Err? ==> r.failure == IncompleteRead && buffer == []
    {
      if n <= |buffer| {
        r := Ok(buffer[..n]);
        buffer := buffer[n..];
      } else {
        r := Err(IncompleteRead);
        buffer := [];
      }
    }

    method ReadLine() returns (line: bytes)
      modifies this
      ensures line == old(buffer)[..LineLength(old(buffer))]
      ensures buffer == old(buffer)[LineLength(old(buffer))..]
      ensures old(buffer) == line + buffer && forall i :: 0 <= i < |line| - 1 ==> line[i] != 10
      ensures if 10 in old(buffer) then line != [] && line[|line| - 1] == 10 else buffer == []
    {
      var n := 0;
      while n < |buffer| && buffer[n] != LF
        invariant 0 <= n <= |buffer| && forall i :: 0 <= i < n ==> buffer[i] != 10
        invariant LineLength(buffer) == n + LineLength(buffer[n..])
      {
        assert buffer[n..][1..] == buffer[n + 1..];
        n := n + 1;
      }
      if n < |buffer| { n := n + 1; }
      line := buffer[..n];
      buffer := buffer[n..];
    }

    /** `int((await reader.readline()).rstrip(b"\r\n"))` */
    method ReadInt() returns (n: Option<int>)
      modifies this
      ensures n == ParseInt(RStrip(old(buffer)[..LineLength(old(buffer))]))
      ensures buffer == old(buffer)[LineLength(old(buffer))..]
    {
      var line := ReadLine();
      n := ParseInt(RStrip(line));
    }

    /** The payload of a bulk string and its two unchecked closing bytes. */
    method ReadBulk(n: nat) returns (r: Result<bytes>)
      modifies this
      ensures r.Ok? <==> n + 2 <= |old(buffer)|
      ensures r.Ok? ==> r.value == old(buffer)[..n] && buffer == old(buffer)[n + 2..]
      ensures r.Err? ==> r.failure == IncompleteRead
    {
      r := ReadExactly(n);
      if r.Ok? {
        var closing := ReadExactly(2);
        if closing.Err? { r := Err(IncompleteRead); }
      }
    }

    /** `_read_redis_value` */
    method ReadValue() returns (r: Result<Value>)
      modifies this
      ensures match Parse(old(buffer))
              case Done(v, rest) => r == Ok(v) && buffer == rest
              case Failed(e) => r == Err(e)
      decreases |buffer|, 0
    {
      ghost var start := buffer;
      var first := ReadExactly(1);
      if first.Err? { return Err(IncompleteRead); }
      assert start[1..] == buffer && start[0] == first.value[0];
      var marker := first.value[0];
      if marker == 43 {
        var line := ReadLine();
        return Ok(Text(RStrip(line)));
      }
      if marker == 45 {
        var line := ReadLine();
        return Err(ServerError(RStrip(line)));
      }
      if marker != 58 && marker != 36 && marker != 42 { return Err(Unsupported); }
      var n := ReadInt();
      if n.None? { return Err(BadInteger); }
      if marker == 58 { return Ok(Number(n.value)); }
      if n.value < 0 { return Ok(Nil); }
      if marker == 36 {
        var payload := ReadBulk(n.value);
        if payload.Err? { return Err(IncompleteRead); }
        return Ok(Text(payload.value));
      }
      var items := ReadItems(n.value);
      if items.Err? { return Err(items.failure); }
      return Ok(List(items.value));
    }

    /** The list comprehension of the array case. */
    method ReadItems(n: nat) returns (r: Result<seq<Value>>)
      modifies this
      ensures match ParseItems(n, old(buffer))
              case Done(vs, rest) => r == Ok(vs) && buffer == rest
              case Failed(e) => r == Err(e)
      decreases |buffer|, 1
    {
      var items := [];
      ResumeNothing(ParseItems(n, buffer));
      while |items| < n
        invariant |items| <= n && |buffer| <= |old(buffer)|
        invariant ParseItems(n, old(buffer)) == Resume(items, ParseItems(n - |items|, buffer))
        decreases n - |items|
      {
        var item := ReadValue();
        if item.Err? { return Err(item.failure); }
        ResumeStep(items, item.value, ParseItems(n - |items| - 1, buffer));
        items := items + [item.value];
      }
      assert items + [] == items;
      r := Ok(items);
    }
  }

  lemma ResumeNothing(r: Reading<seq<Value>>)
    ensures Resume([], r) == r
  {
    if r.Done? { assert [] + r.value == r.value; }
  }

  lemma ResumeStep(done: seq<Value>, v: Value, r: Reading<seq<Value>>)
    ensures Resume(done, Resume([v], r)) == Resume(done + [v], r)
  {
    if r.Done? { assert done + ([v] + r.value) == done + [v] + r.value; }
  }
}
