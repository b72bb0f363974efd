/**
  Prometheus text: label escaping and the label text of a series, read back by
  a scanner of the exposition format; and the recorder's cumulative histogram.
 */
module Metrics {
  import opened Common
  import Decimal

  datatype Key = Key(verb: string, route: string, status: int)

  // ---------------------------------------------------------------- escaping

  /** `value.replace(c, with)` for a single character */
  function Replace(s: string, c: char, with: string): string {
    if s == "" then "" else (if s[0] == c then with else [s[0]]) + Replace(s[1..], c, with)
  }

  /** `_escape_label_value` */
  function EscapeLabelValue(value: string): string {
    Replace(Replace(Replace(value, '\\', "\\\\"), '\n', "\\n"), '"', "\\\"")
  }

  /** One character as the exposition format writes it. */
  function EscapeChar(c: char): string {
    if c == '\\' then "\\\\" else if c == '\n' then "\\n" else if c == '"' then "\\\"" else [c]
  }

  function EscapeOnce(s: string): string {
    if s == "" then "" else EscapeChar(s[0]) + EscapeOnce(s[1..])
  }

  lemma {:induction false} ReplaceAppends(a: string, b: string, c: char, with: string)
    ensures Replace(a + b, c, with) == Replace(a, c, with) + Replace(b, c, with)
    decreases |a|
  {
    if a == "" {
      assert a + b == b;
    } else {
      assert (a + b)[1..] == a[1..] + b;
      ReplaceAppends(a[1..], b, c, with);
    }
  }

  lemma ReplaceTwo(x: char, y: char, c: char, with: string)
    ensures Replace([x], c, with) == if x == c then with else [x]
    ensures Replace([x, y], c, with) == (if x == c then with else [x]) + (if y == c then with else [y])
  {
    assert [x][1..] == "" && [x, y][1..] == [y] && [y][1..] == "";
    assert Replace([y], c, with) == (if y == c then with else [y]) + "";
    assert Replace([x], c, with) == (if x == c then with else [x]) + "";
  }

  lemma EscapesOneChar(c: char)
    ensures EscapeLabelValue([c]) == EscapeChar(c)
  {
    ReplaceTwo(c, c, '\\', "\\\\");
    ReplaceTwo(c, c, '\n', "\\n");
    ReplaceTwo(c, c, '"', "\\\"");
    ReplaceTwo('\\', '\\', '\n', "\\n");
    ReplaceTwo('\\', '\\', '"', "\\\"");
    ReplaceTwo('\\', 'n', '"', "\\\"");
  }

  /** The three successive replacements never rewrite what an earlier one
      inserted: they are one pass over the characters. */
  lemma {:induction false} ThreeReplacesAreOnePass(value: string)
    ensures EscapeLabelValue(value) == EscapeOnce(value)
  {
    if value != "" {
      var c, rest := [value[0]], value[1..];
      assert value == c + rest;
      ReplaceAppends(c, rest, '\\', "\\\\");
      var c1, r1 := Replace(c, '\\', "\\\\"), Replace(rest, '\\', "\\\\");
      ReplaceAppends(c1, r1, '\n', "\\n");
      ReplaceAppends(Replace(c1, '\n', "\\n"), Replace(r1, '\n', "\\n"), '"', "\\\"");
      EscapesOneChar(value[0]);
      ThreeReplacesAreOnePass(rest);
    }
  }

  // ---------------------------------------------------------- the label text

  function AsText(b: seq<byte>): string { seq(|b|, i requires 0 <= i < |b| => b[i] as char) }

  /** `_labels_for` */
  function LabelsFor(k: Key): string {
    Quoted("method=\"", EscapeLabelValue(k.verb))
    + Quoted(",route=\"", EscapeLabelValue(k.route))
    + Quoted(",status_code=\"", AsText(Decimal.Print(k.status)))
  }

  function Quoted(lead: string, text: string): string { lead + text + "\"" }

  /** The value of a quoted label up to its closing quote, and the text after
      that quote. */
  function ScanValue(s: string): Option<(string, string)> {
    if s == "" then None
    else if s[0] == '"' then Some(("", s[1..]))
    else if s[0] != '\\' then
      (match ScanValue(s[1..]) case None => None case Some(p) => Some(([s[0]] + p.0, p.1)))
    else if |s| == 1 then None
    else
      match ScanValue(s[2..])
      case None => None
      case Some(p) => Some(([if s[1] == 'n' then '\n' else s[1]] + p.0, p.1))
  }

  function Expect(s: string, lead: string): Option<string> {
    if lead <= s then Some(s[|lead|..]) else None
  }

  function ScanLabel(s: string, lead: string): Option<(string, string)> {
    match Expect(s, lead) case None => None case Some(rest) => ScanValue(rest)
  }

  function AsBytes(s: string): Option<seq<byte>> {
    if forall i :: 0 <= i < |s| ==> (s[i] as int) < 256
    then Some(seq(|s|, i requires 0 <= i < |s| && (forall j :: 0 <= j < |s| ==> (s[j] as int) < 256) => s[i] as int))
    else None
  }

  /** Reads the labels of one series and returns the text after them. */
  function ScanLabels(s: string): Option<(Key, string)> {
    match ScanLabel(s, "method=\"")
    case None => None
    case Some(m) =>
      match ScanLabel(m.1, ",route=\"")
      case None => None
      case Some(r) =>
        match ScanLabel(r.1, ",status_code=\"")
        case None => None
        case Some(c) =>
          match AsBytes(c.0)
          case None => None
          case Some(b) =>
            match Decimal.ParseInt(b)
            case None => None
            case Some(n) => Some((Key(m.0, r.0, n), c.1))
  }

  lemma {:induction false} ScanReadsEscaped(value: string, rest: string)
    ensures ScanValue(EscapeOnce(value) + "\"" + rest) == Some((value, rest))
  {
    var s := EscapeOnce(value) + "\"" + rest;
    if value == "" {
      assert s[1..] == rest;
    } else {
      ScanReadsEscaped(value[1..], rest);
      var e := EscapeChar(value[0]);
      assert s[|e|..] == EscapeOnce(value[1..]) + "\"" + rest;
      assert s[0] == e[0] && (|e| == 2 ==> s[1] == e[1]);
      assert [value[0]] + value[1..] == value;
    }
  }

  lemma ScanReadsLabel(lead: string, value: string, rest: string)
    ensures ScanLabel(Quoted(lead, EscapeLabelValue(value)) + rest, lead) == Some((value, rest))
  {
    ThreeReplacesAreOnePass(value);
    ScanReadsEscaped(value, rest);
    var s := Quoted(lead, EscapeLabelValue(value)) + rest;
    assert s[|lead|..] == EscapeLabelValue(value) + "\"" + rest;
  }

  /** Digits and a sign need no escape. */
  lemma {:induction false} PlainIsUnescaped(s: string)
    requires forall i :: 0 <= i < |s| ==> EscapeChar(s[i]) == [s[i]]
    ensures EscapeOnce(s) == s
  {
    if s != "" { PlainIsUnescaped(s[1..]); }
  }

  lemma StatusText(n: int)
    ensures EscapeLabelValue(AsText(Decimal.Print(n))) == AsText(Decimal.Print(n))
    ensures AsBytes(AsText(Decimal.Print(n))) == Some(Decimal.Print(n))
  {
    var b := Decimal.Print(n);
    var s := AsText(b);
    forall i | 0 <= i < |s| ensures EscapeChar(s[i]) == [s[i]] && s[i] as int == b[i] {
      assert Decimal.IsDigit(b[i]) || b[i] == Decimal.MINUS;
    }
    PlainIsUnescaped(s);
    ThreeReplacesAreOnePass(s);
    assert AsBytes(s).value == b;
  }

  /** What a series looks like when its strings need no escape. */
  lemma PlainLabels(k: Key)
    requires forall i :: 0 <= i < |k.verb| ==> k.verb[i] != '\\' && k.verb[i] != '\n' && k.verb[i] != '"'
    requires forall i :: 0 <= i < |k.route| ==> k.route[i] != '\\' && k.route[i] != '\n' && k.route[i] != '"'
    ensures LabelsFor(k) == ("method=\"" + k.verb + "\"") + (",route=\"" + k.route + "\"")
                            + (",status_code=\"" + AsText(Decimal.Print(k.status)) + "\"")
  {
    ThreeReplacesAreOnePass(k.verb);
    ThreeReplacesAreOnePass(k.route);
    PlainIsUnescaped(k.verb);
    PlainIsUnescaped(k.route);
  }

  lemma Regroup(a: string, b: string, c: string, d: string)
    ensures a + b + c + d == a + (b + (c + d))
  {
  }

  lemma ScanSteps(s: string, k: Key, r: string, c: string, code: seq<byte>, rest: string)
    requires ScanLabel(s, "method=\"") == Some((k.verb, r))
    requires ScanLabel(r, ",route=\"") == Some((k.route, c))
    requires ScanLabel(c, ",status_code=\"") == Some((AsText(code), rest))
    requires AsBytes(AsText(code)) == Some(code) && Decimal.ParseInt(code) == Some(k.status)
    ensures ScanLabels(s) == Some((k, rest))
  {
  }

  /** Scanning recovers method, route and status code from the label text,
      whatever the strings hold and whatever follows. */
  lemma ScanReadsLabels(k: Key, rest: string)
    ensures ScanLabels(LabelsFor(k) + rest) == Some((k, rest))
  {
    var code := Decimal.Print(k.status);
    var a, b := Quoted("method=\"", EscapeLabelValue(k.verb)), Quoted(",route=\"", EscapeLabelValue(k.route));
    var c := Quoted(",status_code=\"", AsText(code));
    StatusText(k.status);
    Regroup(a, b, c, rest);
    ScanReadsLabel("method=\"", k.verb, b + (c + rest));
    ScanReadsLabel(",route=\"", k.route, c + rest);
    ScanReadsLabel(",status_code=\"", AsText(code), rest);
    Decimal.ParsePrint(k.status);
    ScanSteps(LabelsFor(k) + rest, k, b + (c + rest), c + rest, code, rest);
  }

  /** Distinct keys render to distinct series, also when either text goes on. */
  lemma SeriesAreDistinct(a: Key, x: string, b: Key, y: string)
    ensures LabelsFor(a) + x == LabelsFor(b) + y <==> a == b && x == y
  {
    ScanReadsLabels(a, x);
    ScanReadsLabels(b, y);
  }

  lemma {:induction false} EscapedHasNoNewline(value: string)
    ensures '\n' !in EscapeOnce(value)
  {
    if value != "" { EscapedHasNoNewline(value[1..]); }
  }

  lemma QuotedHasNoNewline(lead: string, value: string)
    requires '\n' !in lead
    ensures '\n' !in Quoted(lead, EscapeLabelValue(value))
  {
    ThreeReplacesAreOnePass(value);
    EscapedHasNoNewline(value);
  }

  /** The label text never breaks its line. */
  lemma LabelsStayOnOneLine(k: Key)
    ensures '\n' !in LabelsFor(k)
  {
    StatusText(k.status);
    QuotedHasNoNewline("method=\"", k.verb);
    QuotedHasNoNewline(",route=\"", k.route);
    QuotedHasNoNewline(",status_code=\"", AsText(Decimal.Print(k.status)));
  }

  // --------------------------------------------------------- bucket series

  const BUCKETS := 8

  /** The upper bounds, in seconds, and their label texts. */
  const BOUNDS: seq<real> := [0.05, 0.1, 0.25, 0.5, 1.0, 2.5, 5.0, 10.0]
  const BOUND_TEXTS: seq<string> := ["0.05", "0.1", "0.25", "0.5", "1", "2.5", "5", "10", "+Inf"]

  function BucketLabels(k: Key, i: nat): string
    requires i < |BOUND_TEXTS|
  {
    LabelsFor(k) + ",le=\"" + BOUND_TEXTS[i] + "\""
  }

  lemma BoundTextsDiffer(i: nat, j: nat)
    requires i < j < |BOUND_TEXTS|
    ensures BOUND_TEXTS[i] != BOUND_TEXTS[j]
  {
  }

  /** Distinct pairs of key and bound render to distinct bucket series. */
  lemma BucketSeriesAreDistinct(a: Key, i: nat, b: Key, j: nat)
    requires i < |BOUND_TEXTS| && j < |BOUND_TEXTS|
    ensures BucketLabels(a, i) == BucketLabels(b, j) <==> a == b && i == j
  {
    var x, y := ",le=\"" + BOUND_TEXTS[i] + "\"", ",le=\"" + BOUND_TEXTS[j] + "\"";
    assert BucketLabels(a, i) == LabelsFor(a) + x && BucketLabels(b, j) == LabelsFor(b) + y;
    SeriesAreDistinct(a, x, b, y);
    if x == y {
      assert BOUND_TEXTS[i] == x[5..|x| - 1] == y[5..|y| - 1] == BOUND_TEXTS[j];
      if i < j { BoundTextsDiffer(i, j); } else if j < i { BoundTextsDiffer(j, i); }
    }
  }

  /** The number a decimal text writes. */
  function Numeral(s: string): real { WholePart(s, 0.0) }

  function Digit(c: char): real { (c as int - '0' as int) as real }

  function WholePart(s: string, sofar: real): real {
    if s == "" then sofar
    else if s[0] == '.' then Fraction(s[1..], sofar, 0.1) else WholePart(s[1..], 10.0 * sofar + Digit(s[0]))
  }

  function Fraction(s: string, sofar: real, unit: real): real {
    if s == "" then sofar else Fraction(s[1..], sofar + unit * Digit(s[0]), unit / 10.0)
  }

  lemma WholeStep(a: char, rest: string, sofar: real)
    ensures WholePart([a] + rest, sofar) ==
            if a == '.' then Fraction(rest, sofar, 0.1) else WholePart(rest, 10.0 * sofar + Digit(a))
  {
  }

  lemma FractionStep(a: char, rest: string, sofar: real, unit: real)
    ensures Fraction([a] + rest, sofar, unit) == Fraction(rest, sofar + unit * Digit(a), unit / 10.0)
  {
  }

  lemma OneDigit(a: char)
    requires a != '.'
    ensures Numeral([a]) == Digit(a)
  {
    WholeStep(a, "", 0.0);
    assert [a] == [a] + "";
  }

  lemma TwoDigits(a: char, b: char)
    requires a != '.' && b != '.'
    ensures Numeral([a, b]) == 10.0 * Digit(a) + Digit(b)
  {
    WholeStep(a, [b], 0.0);
    WholeStep(b, "", Digit(a));
    assert [a, b] == [a] + [b] && [b] == [b] + "";
  }

  lemma Tenths(a: char, b: char)
    requires a != '.'
    ensures Numeral([a, '.', b]) == Digit(a) + 0.1 * Digit(b)
  {
    WholeStep(a, ['.', b], 0.0);
    WholeStep('.', [b], Digit(a));
    FractionStep(b, "", Digit(a), 0.1);
    assert [a, '.', b] == [a] + ['.', b] && ['.', b] == ['.'] + [b] && [b] == [b] + "";
  }

  lemma Hundredths(a: char, b: char, c: char)
    requires a != '.'
    ensures Numeral([a, '.', b, c]) == Digit(a) + 0.1 * Digit(b) + 0.01 * Digit(c)
  {
    WholeStep(a, ['.', b, c], 0.0);
    WholeStep('.', [b, c], Digit(a));
    FractionStep(b, [c], Digit(a), 0.1);
    FractionStep(c, "", Digit(a) + 0.1 * Digit(b), 0.01);
    assert [a, '.', b, c] == [a] + ['.', b, c] && ['.', b, c] == ['.'] + [b, c];
    assert [b, c] == [b] + [c] && [c] == [c] + "";
  }

  /** Each label text writes its bound, the last one being open. */
  lemma BoundTextsAreBounds(i: nat)
    requires i < |BOUND_TEXTS|
    ensures |BOUND_TEXTS| == |BOUNDS| + 1
    ensures if i < |BOUNDS| then Numeral(BOUND_TEXTS[i]) == BOUNDS[i] else BOUND_TEXTS[i] == "+Inf"
    ensures EscapeOnce(BOUND_TEXTS[i]) == BOUND_TEXTS[i]
  {
    Hundredths('0', '0', '5');
    Tenths('0', '1');
    Hundredths('0', '2', '5');
    Tenths('0', '5');
    OneDigit('1');
    Tenths('2', '5');
    OneDigit('5');
    TwoDigits('1', '0');
    PlainIsUnescaped(BOUND_TEXTS[i]);
  }

  lemma Reattach(a: string, b: string, c: string, d: string, e: string)
    ensures a + b + c + d + e == a + ((b + c + d) + e)
  {
  }

  /** A scraper reads back the key and the bound of every bucket series. */
  lemma ScanReadsBucket(k: Key, i: nat, rest: string) returns (after: string)
    requires i < |BOUND_TEXTS|
    ensures ScanLabels(BucketLabels(k, i) + rest) == Some((k, after))
    ensures ScanLabel(after, ",le=\"") == Some((BOUND_TEXTS[i], rest))
    ensures if i < |BOUNDS| then Numeral(BOUND_TEXTS[i]) == BOUNDS[i] else BOUND_TEXTS[i] == "+Inf"
  {
    var text := BOUND_TEXTS[i];
    after := Quoted(",le=\"", text) + rest;
    BoundTextsAreBounds(i);
    ThreeReplacesAreOnePass(text);
    Reattach(LabelsFor(k), ",le=\"", text, "\"", rest);
    ScanReadsLabels(k, after);
    ScanReadsLabel(",le=\"", text, rest);
  }

  // ------------------------------------------------------------ the recorder

  datatype Sample = Sample(key: Key, seconds: real)

  datatype Recorded = Recorded(counts: map<Key, nat>, sums: map<Key, real>, buckets: map<(Key, nat), nat>)

  function Count(r: Recorded, k: Key): nat { if k in r.counts then r.counts[k] else 0 }

  function Sum(r: Recorded, k: Key): real { if k in r.sums then r.sums[k] else 0.0 }

  function Bucket(r: Recorded, k: Key, i: nat): nat { if (k, i) in r.buckets then r.buckets[(k, i)] else 0 }

  /** `max(0.0, seconds)` */
  function Duration(x: Sample): (r: real)
    ensures r >= 0.0 && r >= x.seconds && (r == 0.0 || r == x.seconds)
  {
    if x.seconds < 0.0 then 0.0 else x.seconds
  }

  // What the log of all requests says.

  function Requests(log: seq<Sample>, k: Key): nat {
    if log == [] then 0
    else Requests(log[..|log| - 1], k) + (if log[|log| - 1].key == k then 1 else 0)
  }

  function Total(log: seq<Sample>, k: Key): real {
    if log == [] then 0.0
    else Total(log[..|log| - 1], k) + (if log[|log| - 1].key == k then Duration(log[|log| - 1]) else 0.0)
  }

  function Within(log: seq<Sample>, k: Key, bound: real): nat {
    if log == [] then 0
    else
      Within(log[..|log| - 1], k, bound)
      + (if log[|log| - 1].key == k && Duration(log[|log| - 1]) <= bound then 1 else 0)
  }

  lemma {:induction false} LargerBoundsHoldMore(log: seq<Sample>, k: Key, low: real, high: real)
    requires low <= high
    ensures Within(log, k, low) <= Within(log, k, high) <= Requests(log, k)
  {
    if log != [] { LargerBoundsHoldMore(log[..|log| - 1], k, low, high); }
  }

  lemma LogGrows(log: seq<Sample>, x: Sample, k: Key, bound: real)
    ensures Requests(log + [x], k) == Requests(log, k) + (if x.key == k then 1 else 0)
    ensures Total(log + [x], k) == Total(log, k) + (if x.key == k then Duration(x) else 0.0)
    ensures Within(log + [x], k, bound) == Within(log, k, bound) + (if x.key == k && Duration(x) <= bound then 1 else 0)
  {
  }

  /** The recorder holds, for every key, the number of its requests, their
      total duration, and for every bound how many took at most that long. */
  ghost predicate Tells(r: Recorded, log: seq<Sample>) {
    && (forall k :: Count(r, k) == Requests(log, k) && Sum(r, k) == Total(log, k))
    && (forall k, i :: 0 <= i < BUCKETS ==> Bucket(r, k, i) == Within(log, k, BOUNDS[i]))
  }

  /** One more request, filed under its key and under every bound it meets,
      up to the first `n`. */
  ghost predicate Filed(before: Recorded, after: Recorded, x: Sample, n: nat) {
    && after.counts == before.counts[x.key := Count(before, x.key) + 1]
    && after.sums == before.sums[x.key := Sum(before, x.key) + Duration(x)]
    && (forall k, i :: 0 <= i < BUCKETS ==> Bucket(after, k, i) == Bucket(before, k, i) + Hit(x, k, i, n))
  }

  function Hit(x: Sample, k: Key, i: nat, n: nat): nat
    requires i < BUCKETS
  {
    if i < n && k == x.key && Duration(x) <= BOUNDS[i] then 1 else 0
  }

  lemma FiledTells(before: Recorded, after: Recorded, log: seq<Sample>, x: Sample)
    requires Tells(before, log) && Filed(before, after, x, BUCKETS)
    ensures Tells(after, log + [x])
  {
  }

  lemma FileBucket(before: Recorded, r: Recorded, x: Sample, n: nat)
    requires n < BUCKETS && Filed(before, r, x, n)
    ensures var more := r.(buckets := r.buckets[(x.key, n) := Bucket(r, x.key, n) + 1]);
            var next := if Duration(x) <= BOUNDS[n] then more else r;
            Filed(before, next, x, n + 1)
  {
  }

  /** So each histogram is cumulative: counts never fall from one bound to the
      next and never exceed the +Inf count. */
  lemma HistogramIsCumulative(r: Recorded, log: seq<Sample>, k: Key, i: nat, j: nat)
    requires Tells(r, log) && i <= j < BUCKETS
    ensures Bucket(r, k, i) <= Bucket(r, k, j) <= Count(r, k)
  {
    assert BOUNDS[i] <= BOUNDS[j];
    LargerBoundsHoldMore(log, k, BOUNDS[i], BOUNDS[j]);
  }

  class InMemoryHttpMetricsRecorder {
    var counts: map<Key, nat>
    var sums: map<Key, real>
    var buckets: map<(Key, nat), nat>
    ghost var log: seq<Sample>

    ghost predicate Valid()
      reads this
    {
      Tells(Recorded(counts, sums, buckets), log)
    }

    constructor ()
      ensures Valid() && log == []
    {
      counts, sums, buckets, log := map[], map[], map[], [];
    }

    /** `record_http_request` */
    method RecordHttpRequest(key: Key, seconds: real)
      requires Valid()
      modifies this
      ensures Valid() && log == old(log) + [Sample(key, seconds)]
      ensures var before, after := old(Recorded(counts, sums, buckets)), Recorded(counts, sums, buckets);
              var duration := if seconds < 0.0 then 0.0 else seconds;
              && counts == old(counts)[key := Count(before, key) + 1]
              && sums == old(sums)[key := Sum(before, key) + duration]
              && forall k, i :: 0 <= i < 8 ==>
                   Bucket(after, k, i) ==
                   Bucket(before, k, i) + (if k == key && duration <= BOUNDS[i] then 1 else 0)
    {
      ghost var before, x := Recorded(counts, sums, buckets), Sample(key, seconds);
      var duration := if seconds < 0.0 then 0.0 else seconds;
      counts := counts[key := (if key in counts then counts[key] else 0) + 1];
      sums := sums[key := (if key in sums then sums[key] else 0.0) + duration];
      for n := 0 to BUCKETS
        invariant log == old(log)
        invariant Filed(before, Recorded(counts, sums, buckets), x, n)
      {
        FileBucket(before, Recorded(counts, sums, buckets), x, n);
        if duration <= BOUNDS[n] {
          buckets := buckets[(key, n) := (if (key, n) in buckets then buckets[(key, n)] else 0) + 1];
        }
      }
      FiledTells(before, Recorded(counts, sums, buckets), log, x);
      log := log + [x];
    }
  }
}
