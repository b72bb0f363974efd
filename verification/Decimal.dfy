/** Decimal integers as Python prints them and as `int(...)` reads them back. */
module Decimal {
  import opened Common

  const MINUS: byte := 45
  const PLUS: byte := 43
  const UNDERSCORE: byte := 95

  predicate IsDigit(b: byte) { 48 <= b <= 57 }

  predicate IsSpace(b: byte) { 9 <= b <= 13 || b == 32 }

  function PrintNat(n: nat): (s: seq<byte>)
    ensures s != []
    ensures forall i :: 0 <= i < |s| ==> IsDigit(s[i])
  {
    if n < 10 then [48 + n] else PrintNat(n / 10) + [48 + n % 10]
  }

  function Print(n: int): (s: seq<byte>)
    ensures s != []
    ensures forall i :: 0 <= i < |s| ==> IsDigit(s[i]) || s[i] == MINUS
  {
    if n < 0 then [MINUS] + PrintNat(-n) else PrintNat(n)
  }

  function TrimLeft(s: seq<byte>): seq<byte> {
    if s != [] && IsSpace(s[0]) then TrimLeft(s[1..]) else s
  }

  function TrimRight(s: seq<byte>): seq<byte> {
    if s != [] && IsSpace(s[|s| - 1]) then TrimRight(s[..|s| - 1]) else s
  }

  /** A run of digits, with single underscores allowed between two digits. */
  function ParseDigits(s: seq<byte>): Option<int> {
    if s == [] || !IsDigit(s[|s| - 1]) then None
    else
      var d := s[|s| - 1] - 48;
      if |s| == 1 then Some(d)
      else
        var front := if s[|s| - 2] == UNDERSCORE then s[..|s| - 2] else s[..|s| - 1];
        match ParseDigits(front)
        case None => None
        case Some(v) => Some(10 * v + d)
  }

  /** `int(s)` for a byte string: surrounding blanks, one optional sign, digits. */
  function ParseInt(s: seq<byte>): Option<int> { ParseSigned(TrimRight(TrimLeft(s))) }

  function ParseSigned(t: seq<byte>): Option<int> {
    if t == [] then None
    else if t[0] == MINUS then
      (match ParseDigits(t[1..]) case None => None case Some(v) => Some(-v))
    else if t[0] == PLUS then ParseDigits(t[1..])
    else ParseDigits(t)
  }

  // ------------------------------------------------------ what `int` accepts

  /** Digits with single underscores between them. */
  predicate IsNumeral(s: seq<byte>) {
    && s != [] && s[0] != 95 && s[|s| - 1] != 95
    && (forall i :: 0 <= i < |s| ==> 48 <= s[i] <= 57 || s[i] == 95)
    && (forall i :: 0 <= i < |s| - 1 ==> s[i] != 95 || s[i + 1] != 95)
  }

  /** The number its digits write. */
  function ValueOf(s: seq<byte>): int {
    if s == [] then 0
    else if s[|s| - 1] == 95 then ValueOf(s[..|s| - 1])
    else 10 * ValueOf(s[..|s| - 1]) + s[|s| - 1] - 48
  }

  lemma {:induction false} ParseDigitsExactly(s: seq<byte>)
    ensures ParseDigits(s) == if IsNumeral(s) then Some(ValueOf(s)) else None
  {
    if s != [] && IsDigit(s[|s| - 1]) {
      if |s| == 1 {
        assert ValueOf(s[..0]) == 0;
      } else if s[|s| - 2] == UNDERSCORE {
        var front := s[..|s| - 2];
        ParseDigitsExactly(front);
        assert s[..|s| - 1][..|s| - 2] == front;
        if IsNumeral(s) { NumeralFront(s, front); }
        if IsNumeral(front) { NumeralGrows(s, front); }
      } else {
        var front := s[..|s| - 1];
        ParseDigitsExactly(front);
        if IsNumeral(s) { NumeralFront(s, front); }
        if IsNumeral(front) { NumeralGrows(s, front); }
      }
    }
  }

  /** A numeral is one more digit after a numeral, perhaps with an underscore. */
  lemma NumeralFront(s: seq<byte>, front: seq<byte>)
    requires IsNumeral(s) && |s| >= 2
    requires front == if s[|s| - 2] == 95 then s[..|s| - 2] else s[..|s| - 1]
    ensures IsNumeral(front)
  {
  }

  lemma NumeralGrows(s: seq<byte>, front: seq<byte>)
    requires |s| >= 2 && IsNumeral(front) && 48 <= s[|s| - 1] <= 57
    requires front == if s[|s| - 2] == 95 then s[..|s| - 2] else s[..|s| - 1]
    ensures IsNumeral(s)
  {
    forall i | 0 <= i < |s| ensures 48 <= s[i] <= 57 || s[i] == 95 {
      if i < |front| { assert s[i] == front[i]; }
    }
    forall i | 0 <= i < |s| - 1 ensures s[i] != 95 || s[i + 1] != 95 {
      if i + 1 < |front| { assert s[i] == front[i] && s[i + 1] == front[i + 1]; }
    }
  }

  /** Tabs, line feeds, vertical tabs, form feeds, carriage returns and spaces. */
  predicate Blank(s: seq<byte>) { forall i :: 0 <= i < |s| ==> s[i] in {9, 10, 11, 12, 13, 32} }

  predicate IsSign(s: seq<byte>) { s == [] || s == [43] || s == [45] }

  lemma {:induction false} TrimLeftOf(lead: seq<byte>, s: seq<byte>)
    requires Blank(lead) && s != [] && s[0] !in {9, 10, 11, 12, 13, 32}
    ensures TrimLeft(lead + s) == s
  {
    if lead == [] {
      assert lead + s == s;
    } else {
      assert lead[0] in {9, 10, 11, 12, 13, 32};
      assert (lead + s)[1..] == lead[1..] + s;
      TrimLeftOf(lead[1..], s);
    }
  }

  lemma {:induction false} TrimRightOf(s: seq<byte>, trail: seq<byte>)
    requires Blank(trail) && s != [] && s[|s| - 1] !in {9, 10, 11, 12, 13, 32}
    ensures TrimRight(s + trail) == s
    decreases |trail|
  {
    var t := s + trail;
    if trail == [] {
      assert t == s;
    } else {
      assert t[|t| - 1] == trail[|trail| - 1] && trail[|trail| - 1] in {9, 10, 11, 12, 13, 32};
      assert t[..|t| - 1] == s + trail[..|trail| - 1];
      TrimRightOf(s, trail[..|trail| - 1]);
    }
  }

  lemma {:induction false} TrimLeftCuts(s: seq<byte>) returns (lead: seq<byte>)
    ensures s == lead + TrimLeft(s) && Blank(lead)
  {
    lead := [];
    if s != [] && IsSpace(s[0]) {
      var rest := TrimLeftCuts(s[1..]);
      lead := [s[0]] + rest;
      assert s == [s[0]] + s[1..];
    }
  }

  lemma {:induction false} TrimRightCuts(s: seq<byte>) returns (trail: seq<byte>)
    ensures s == TrimRight(s) + trail && Blank(trail)
  {
    trail := [];
    if s != [] && IsSpace(s[|s| - 1]) {
      var rest := TrimRightCuts(s[..|s| - 1]);
      trail := rest + [s[|s| - 1]];
      assert s == s[..|s| - 1] + [s[|s| - 1]];
    }
  }

  lemma TrimsTo(lead: seq<byte>, t: seq<byte>, trail: seq<byte>)
    requires Blank(lead) && Blank(trail) && t != []
    requires t[0] !in {9, 10, 11, 12, 13, 32} && t[|t| - 1] !in {9, 10, 11, 12, 13, 32}
    ensures TrimRight(TrimLeft(lead + (t + trail))) == t
  {
    assert (t + trail)[0] == t[0];
    TrimLeftOf(lead, t + trail);
    TrimRightOf(t, trail);
  }

  /** A sign or none and a numeral. */
  lemma SignedReads(sign: seq<byte>, body: seq<byte>, t: seq<byte>)
    requires IsSign(sign) && IsNumeral(body) && t == sign + body
    ensures t[0] !in {9, 10, 11, 12, 13, 32} && t[|t| - 1] !in {9, 10, 11, 12, 13, 32}
    ensures ParseSigned(t) == Some(if sign == [45] then -ValueOf(body) else ValueOf(body))
  {
    assert t[|t| - 1] == body[|body| - 1] && t[0] == if sign == [] then body[0] else sign[0];
    ParseDigitsExactly(body);
    if sign != [] { assert t[1..] == body; } else { assert t == body; }
  }

  /** Blanks, a sign or none, a numeral and blanks are read as its number. */
  lemma ParseIntReads(lead: seq<byte>, sign: seq<byte>, body: seq<byte>, trail: seq<byte>)
    requires Blank(lead) && IsSign(sign) && IsNumeral(body) && Blank(trail)
    ensures ParseInt(lead + ((sign + body) + trail)) == Some(if sign == [45] then -ValueOf(body) else ValueOf(body))
  {
    SignedReads(sign, body, sign + body);
    TrimsTo(lead, sign + body, trail);
  }

  lemma SignedShape(t: seq<byte>) returns (sign: seq<byte>, body: seq<byte>)
    requires ParseSigned(t).Some?
    ensures t == sign + body && IsSign(sign) && IsNumeral(body)
  {
    sign := if t[0] == MINUS || t[0] == PLUS then [t[0]] else [];
    body := t[|sign|..];
    assert t == sign + body;
    ParseDigitsExactly(body);
  }

  /** And nothing else is read at all. */
  lemma ParseIntShape(s: seq<byte>)
    returns (lead: seq<byte>, sign: seq<byte>, body: seq<byte>, trail: seq<byte>)
    requires ParseInt(s).Some?
    ensures s == lead + ((sign + body) + trail)
    ensures Blank(lead) && IsSign(sign) && IsNumeral(body) && Blank(trail)
  {
    lead := TrimLeftCuts(s);
    trail := TrimRightCuts(TrimLeft(s));
    sign, body := SignedShape(TrimRight(TrimLeft(s)));
  }

  lemma {:induction false} ParsePrintNat(n: nat)
    ensures ParseDigits(PrintNat(n)) == Some(n)
  {
    if n >= 10 {
      ParsePrintNat(n / 10);
      var s := PrintNat(n);
      assert s[..|s| - 1] == PrintNat(n / 10);
      assert IsDigit(s[|s| - 2]);
    }
  }

  /** Decimal notation, the highest digit first. */
  lemma DigitsExactly(q: nat, d: nat)
    requires d < 10
    ensures Print(d) == [48 + d]
    ensures q > 0 ==> Print(10 * q + d) == Print(q) + [48 + d]
    ensures q > 0 ==> Print(0 - q) == [45] + Print(q)
  {
    var n: nat := 10 * q + d;
    assert n / 10 == q && n % 10 == d;
    if q > 0 { assert PrintNat(n) == PrintNat(n / 10) + [48 + n % 10]; }
  }

  /** Reading back what was printed gives the number, whatever its sign. */
  lemma ParsePrint(n: int)
    ensures ParseInt(Print(n)) == Some(n)
  {
    var s := Print(n);
    assert TrimRight(TrimLeft(s)) == s;
    if n < 0 {
      ParsePrintNat(-n);
      assert s[1..] == PrintNat(-n);
    } else {
      ParsePrintNat(n);
    }
  }
}
