/**
  Unpadded base64url (section 5 of RFC 4648, Appendix C of RFC 7515) as the
  issuer writes it and as the verifier, whose library decoder skips characters
  outside the alphabet, reads it; and the three-part compact token.
 */
module Base64Url {
  import opened Common
  import opened Text

  type Sextet = x: int | 0 <= x < 64

  // ---------------------------------------------------------------- encoding

  /** The URL-safe alphabet. */
  function Letter(x: Sextet): char {
    if x < 26 then ('A' as int + x) as char
    else if x < 52 then ('a' as int + x - 26) as char
    else if x < 62 then ('0' as int + x - 52) as char
    else if x == 62 then '-' else '_'
  }

  function Letters(a: byte, b: byte, c: byte): string {
    [Letter(a / 4), Letter(a % 4 * 16 + b / 16), Letter(b % 16 * 4 + c / 64), Letter(c % 64)]
  }

  /** `base64.urlsafe_b64encode` */
  function Padded(v: seq<byte>): string {
    if v == [] then ""
    else if |v| == 1 then Letters(v[0], 0, 0)[..2] + "=="
    else if |v| == 2 then Letters(v[0], v[1], 0)[..3] + "="
    else Letters(v[0], v[1], v[2]) + Padded(v[3..])
  }

  predicate IsPad(c: char) { c == '=' }

  /** `_base64url` */
  function Encode(v: seq<byte>): string { TrimEnd(Padded(v), IsPad) }

  // ---------------------------------------------------------------- decoding

  /** The decoder's table, after '-' and '_' became '+' and '/'. */
  function Value(c: char): Option<Sextet> {
    if 'A' <= c <= 'Z' then Some(c as int - 'A' as int)
    else if 'a' <= c <= 'z' then Some(c as int - 'a' as int + 26)
    else if '0' <= c <= '9' then Some(c as int - '0' as int + 52)
    else if c == '+' || c == '-' then Some(62)
    else if c == '/' || c == '_' then Some(63)
    else None
  }

  /** The byte completed by a character at each position of a group of four,
      and the bits it leaves over. */
  function Complete(quad: nat, left: nat, x: Sextet): seq<byte>
    requires quad < 4 && left < 64
  {
    if quad == 0 then []
    else if quad == 1 then [left * 4 + x / 16]
    else if quad == 2 then [left % 16 * 16 + x / 4]
    else [left % 4 * 64 + x]
  }

  function Leftover(quad: nat, x: Sextet): nat
    requires quad < 4
  {
    if quad == 0 then x else if quad == 1 then x % 16 else if quad == 2 then x % 4 else 0
  }

  /** The lenient decoder of `binascii`: characters outside the alphabet are
      skipped, enough padding ends the text, an open group is an error. */
  function Scan(s: string, quad: nat, left: nat, pads: nat): Option<seq<byte>>
    requires quad < 4 && left < 64
  {
    if s == "" then (if quad == 0 then Some([]) else None)
    else if s[0] == '=' then
      if quad >= 2 && quad + pads + 1 >= 4 then Some([])
      else Scan(s[1..], quad, left, if quad >= 2 then pads + 1 else pads)
    else
      match Value(s[0])
      case None => Scan(s[1..], quad, left, pads)
      case Some(x) =>
        Prepend(Complete(quad, left, x), Scan(s[1..], Next(quad), Leftover(quad, x), 0))
  }

  function Next(quad: nat): nat { if quad == 3 then 0 else quad + 1 }

  function Prepend(v: seq<byte>, r: Option<seq<byte>>): Option<seq<byte>> {
    match r case None => None case Some(rest) => Some(v + rest)
  }

  function Equals(n: nat): string { seq(n, _ => '=') }

  predicate IsAscii(s: string) { forall i :: 0 <= i < |s| ==> s[i] < '\U{80}' }

  /** `_decode_segment`; the padding is `"=" * (-len(segment) % 4)`. */
  function DecodeSegment(s: string): Option<seq<byte>> {
    if s == "" || |s| > 16384 || !IsAscii(s) then None
    else Scan(s + Equals((-|s|) % 4), 0, 0, 0)
  }

  // -------------------------------------------------------------- round trip

  /** One character of the alphabet. */
  lemma ScanLetter(x: Sextet, rest: string, quad: nat, left: nat, pads: nat)
    requires quad < 4 && left < 64
    ensures Scan([Letter(x)] + rest, quad, left, pads)
         == Prepend(Complete(quad, left, x), Scan(rest, Next(quad), Leftover(quad, x), 0))
  {
  }

  lemma PrependTwice(v: seq<byte>, w: seq<byte>, r: Option<seq<byte>>)
    ensures Prepend(v, Prepend(w, r)) == Prepend(v + w, r)
  {
    if r.Some? { assert v + (w + r.value) == v + w + r.value; }
  }

  lemma LastApart(s: string, c: char, rest: string)
    ensures (s + [c]) + rest == s + ([c] + rest)
  {
  }

  /** The first letters of a group, and what the decoder holds after them. */
  lemma ScanTwo(x0: Sextet, x1: Sextet, rest: string)
    ensures Scan([Letter(x0)] + [Letter(x1)] + rest, 0, 0, 0) ==
            Prepend(Complete(1, x0, x1), Scan(rest, 2, Leftover(1, x1), 0))
  {
    var tail := [Letter(x1)] + rest;
    LastApart([Letter(x0)], Letter(x1), rest);
    ScanLetter(x0, tail, 0, 0, 0);
    ScanLetter(x1, rest, 1, x0, 0);
    PrependTwice([], Complete(1, x0, x1), Scan(rest, 2, Leftover(1, x1), 0));
    assert [] + Complete(1, x0, x1) == Complete(1, x0, x1);
  }

  lemma ScanThree(x0: Sextet, x1: Sextet, x2: Sextet, rest: string)
    ensures Scan([Letter(x0), Letter(x1)] + [Letter(x2)] + rest, 0, 0, 0)
         == Prepend(Complete(1, x0, x1) + Complete(2, Leftover(1, x1), x2), Scan(rest, 3, Leftover(2, x2), 0))
  {
    var tail := [Letter(x2)] + rest;
    LastApart([Letter(x0), Letter(x1)], Letter(x2), rest);
    assert [Letter(x0), Letter(x1)] == [Letter(x0)] + [Letter(x1)];
    ScanTwo(x0, x1, tail);
    ScanLetter(x2, rest, 2, Leftover(1, x1), 0);
    PrependTwice(Complete(1, x0, x1), Complete(2, Leftover(1, x1), x2), Scan(rest, 3, Leftover(2, x2), 0));
  }

  lemma ScanFour(x0: Sextet, x1: Sextet, x2: Sextet, x3: Sextet, rest: string)
    ensures Scan([Letter(x0), Letter(x1), Letter(x2)] + [Letter(x3)] + rest, 0, 0, 0)
         == Prepend(Complete(1, x0, x1) + Complete(2, Leftover(1, x1), x2) + Complete(3, Leftover(2, x2), x3),
                    Scan(rest, 0, 0, 0))
  {
    var tail := [Letter(x3)] + rest;
    LastApart([Letter(x0), Letter(x1), Letter(x2)], Letter(x3), rest);
    assert [Letter(x0), Letter(x1), Letter(x2)] == [Letter(x0), Letter(x1)] + [Letter(x2)];
    ScanThree(x0, x1, x2, tail);
    ScanLetter(x3, rest, 3, Leftover(2, x2), 0);
    PrependTwice(Complete(1, x0, x1) + Complete(2, Leftover(1, x1), x2), Complete(3, Leftover(2, x2), x3),
                 Scan(rest, 0, 0, 0));
  }

  /** Three bytes are the bits of four sextets. */
  lemma SextetsComplete(a: byte, b: byte, c: byte)
    ensures var x0, x1, x2, x3 := a / 4, a % 4 * 16 + b / 16, b % 16 * 4 + c / 64, c % 64;
            && x0 < 64 && x1 < 64 && x2 < 64 && Leftover(1, x1) == b / 16 && Leftover(2, x2) == c / 64
            && Complete(1, x0, x1) == [a] && Complete(2, b / 16, x2) == [b] && Complete(3, c / 64, x3) == [c]
  {
    Digits16(a % 4, b / 16);
    Digits4(b % 16, c / 64);
    assert b / 16 < 16 && c / 64 < 4;
    assert a == a / 4 * 4 + a % 4;
    assert b == b / 16 * 16 + b % 16;
    assert c == c / 64 * 64 + c % 64;
    assert b / 16 % 16 == b / 16 && c / 64 % 4 == c / 64;
  }

  lemma Digits16(p: int, q: int)
    requires 0 <= q < 16
    ensures (p * 16 + q) / 16 == p && (p * 16 + q) % 16 == q
  {
  }

  lemma Digits4(p: int, q: int)
    requires 0 <= q < 4
    ensures (p * 4 + q) / 4 == p && (p * 4 + q) % 4 == q
  {
  }

  lemma ScanEnds(left: nat)
    requires left < 64
    ensures Scan("==", 2, left, 0) == Some([]) && Scan("=", 3, left, 0) == Some([])
  {
  }

  lemma ScanOneByte(a: byte, end: string)
    requires Scan(end, 2, 0, 0) == Some([])
    ensures Scan(Letters(a, 0, 0)[..2] + end, 0, 0, 0) == Some([a])
  {
    SextetsComplete(a, 0, 0);
    ScanTwo(a / 4, a % 4 * 16 + 0 / 16, end);
    assert Letters(a, 0, 0)[..2] == [Letter(a / 4)] + [Letter(a % 4 * 16 + 0 / 16)];
    assert [a] + [] == [a];
  }

  lemma ScanTwoBytes(a: byte, b: byte, end: string)
    requires Scan(end, 3, 0, 0) == Some([])
    ensures Scan(Letters(a, b, 0)[..3] + end, 0, 0, 0) == Some([a, b])
  {
    SextetsComplete(a, b, 0);
    ScanThree(a / 4, a % 4 * 16 + b / 16, b % 16 * 4 + 0 / 64, end);
    assert Letters(a, b, 0)[..3] == [Letter(a / 4), Letter(a % 4 * 16 + b / 16)] + [Letter(b % 16 * 4 + 0 / 64)];
    assert [a] + [b] + [] == [a, b];
  }

  lemma ScanThreeBytes(a: byte, b: byte, c: byte, rest: string)
    ensures Scan(Letters(a, b, c) + rest, 0, 0, 0) == Prepend([a, b, c], Scan(rest, 0, 0, 0))
  {
    SextetsComplete(a, b, c);
    ScanFour(a / 4, a % 4 * 16 + b / 16, b % 16 * 4 + c / 64, c % 64, rest);
    assert Letters(a, b, c) ==
           [Letter(a / 4), Letter(a % 4 * 16 + b / 16), Letter(b % 16 * 4 + c / 64)] + [Letter(c % 64)];
    assert [a] + [b] + [c] == [a, b, c];
  }

  /** The decoder inverts the padded encoding. */
  lemma {:induction false} ScanPadded(v: seq<byte>)
    ensures Scan(Padded(v), 0, 0, 0) == Some(v)
  {
    if |v| == 1 {
      ScanEnds(0);
      ScanOneByte(v[0], "==");
      assert v == [v[0]];
    } else if |v| == 2 {
      ScanEnds(0);
      ScanTwoBytes(v[0], v[1], "=");
      assert v == [v[0], v[1]];
    } else if |v| > 2 {
      ScanThreeBytes(v[0], v[1], v[2], Padded(v[3..]));
      ScanPadded(v[3..]);
      assert v == [v[0], v[1], v[2]] + v[3..];
    }
  }

  /** Characters of the alphabet only. */
  predicate IsText(s: string) { forall i :: 0 <= i < |s| ==> Value(s[i]).Some? }

  function PadsOf(n: nat): nat { (3 - n % 3) % 3 }

  function Body(v: seq<byte>): string {
    if v == [] then ""
    else if |v| == 1 then Letters(v[0], 0, 0)[..2]
    else if |v| == 2 then Letters(v[0], v[1], 0)[..3]
    else Letters(v[0], v[1], v[2]) + Body(v[3..])
  }

  lemma LettersAreText(a: byte, b: byte, c: byte)
    ensures var l := Letters(a, b, c);
            forall i :: 0 <= i < 4 ==> Value(l[i]).Some? && l[i] != '.' && l[i] < '\U{80}' && IsUrlSafe(l[i])
  {
  }

  predicate IsUrlSafe(c: char) { 'A' <= c <= 'Z' || 'a' <= c <= 'z' || '0' <= c <= '9' || c == '-' || c == '_' }

  lemma {:induction false} BodyIsText(v: seq<byte>)
    ensures IsText(Body(v)) && IsAscii(Body(v)) && '.' !in Body(v)
    ensures forall i :: 0 <= i < |Body(v)| ==> IsUrlSafe(Body(v)[i])
  {
    if |v| == 1 { LettersAreText(v[0], 0, 0); }
    else if |v| == 2 { LettersAreText(v[0], v[1], 0); }
    else if |v| > 2 {
      LettersAreText(v[0], v[1], v[2]);
      BodyIsText(v[3..]);
    }
  }

  lemma SamePads(n: nat)
    ensures PadsOf(n + 3) == PadsOf(n)
  {
  }

  lemma {:induction false} PaddedIsBody(v: seq<byte>)
    ensures Padded(v) == Body(v) + Equals(PadsOf(|v|))
    ensures 3 * |Body(v)| == 4 * |v| + PadsOf(|v|)
  {
    if |v| == 1 { assert Equals(2) == "=="; }
    else if |v| == 2 { assert Equals(1) == "="; }
    else if |v| > 2 {
      PaddedIsBody(v[3..]);
      SamePads(|v| - 3);
      Associates(Letters(v[0], v[1], v[2]), Body(v[3..]), Equals(PadsOf(|v|)));
    }
  }

  /** Encoding strips exactly the padding, its length tells how much, and the
      text holds letters, digits, '-' and '_' only. */
  lemma EncodeStrips(v: seq<byte>)
    ensures Padded(v) == Encode(v) + Equals((-|Encode(v)|) % 4)
    ensures IsText(Encode(v)) && IsAscii(Encode(v)) && '.' !in Encode(v)
    ensures forall i :: 0 <= i < |Encode(v)| ==>
              var c := Encode(v)[i];
              'A' <= c <= 'Z' || 'a' <= c <= 'z' || '0' <= c <= '9' || c == '-' || c == '_'
    ensures |Encode(v)| == (4 * |v| + 2) / 3
  {
    PaddedIsBody(v);
    BodyIsText(v);
    TrimEndOf(Body(v), Equals(PadsOf(|v|)), IsPad);
    assert Encode(v) == Body(v);
    PadsFromLength(|v|, |Body(v)|);
  }

  // ----------------------------------------------------- the text, spelled out

  /** Table 2 of RFC 4648: the character that stands for a value. */
  predicate StandsFor(c: char, x: Sextet) {
    || ('A' <= c <= 'Z' && x == c as int - 65) || ('a' <= c <= 'z' && x == c as int - 71)
    || ('0' <= c <= '9' && x == c as int + 4) || (c == '-' && x == 62) || (c == '_' && x == 63)
  }

  function ByteAt(v: seq<byte>, i: nat): byte { if i < |v| then v[i] else 0 }

  /** The 24 bits of the group that holds the i-th character. */
  function Group(v: seq<byte>, i: nat): nat {
    65536 * ByteAt(v, i / 4 * 3) + 256 * ByteAt(v, i / 4 * 3 + 1) + ByteAt(v, i / 4 * 3 + 2)
  }

  /** The i-th six bits of the bytes, from the left, with zero bits after the end. */
  function Sixth(v: seq<byte>, i: nat): Sextet {
    var n := Group(v, i);
    if i % 4 == 0 then n / 262144 % 64
    else if i % 4 == 1 then n / 4096 % 64
    else if i % 4 == 2 then n / 64 % 64
    else n % 64
  }

  lemma LetterSpells(x: Sextet)
    ensures StandsFor(Letter(x), x)
  {
  }

  lemma By262144(p: int, q: int)
    requires 0 <= q < 262144
    ensures (p * 262144 + q) / 262144 == p
  {
  }

  lemma By4096(p: int, q: int)
    requires 0 <= q < 4096
    ensures (p * 4096 + q) / 4096 == p
  {
  }

  lemma By64(p: int, q: int)
    requires 0 <= q < 64
    ensures (p * 64 + q) / 64 == p && (p * 64 + q) % 64 == q
  {
  }

  lemma SixthsOfGroup(a: byte, b: byte, c: byte)
    ensures var n := 65536 * a + 256 * b + c;
            && n / 262144 % 64 == a / 4 && n / 4096 % 64 == a % 4 * 16 + b / 16
            && n / 64 % 64 == b % 16 * 4 + c / 64 && n % 64 == c % 64
  {
    var x, y: int, z: int := a / 4, a % 4, b / 16;
    var u: int, v: int, w: int := b % 16, c / 64, c % 64;
    By262144(x, y * 65536 + z * 4096 + u * 256 + v * 64 + w);
    By4096(x * 64 + (y * 16 + z), u * 256 + v * 64 + w);
    By64(x, y * 16 + z);
    By64(x * 4096 + y * 1024 + z * 64 + (u * 4 + v), w);
    By64(x * 64 + y * 16 + z, u * 4 + v);
  }

  lemma FirstSixths(v: seq<byte>)
    ensures var a, b, c := ByteAt(v, 0), ByteAt(v, 1), ByteAt(v, 2);
            && Sixth(v, 0) == a / 4 && Sixth(v, 1) == a % 4 * 16 + b / 16
            && Sixth(v, 2) == b % 16 * 4 + c / 64 && Sixth(v, 3) == c % 64
  {
    SixthsOfGroup(ByteAt(v, 0), ByteAt(v, 1), ByteAt(v, 2));
  }

  lemma LettersSpell(v: seq<byte>, i: nat)
    requires i < 4
    ensures StandsFor(Letters(ByteAt(v, 0), ByteAt(v, 1), ByteAt(v, 2))[i], Sixth(v, i))
  {
    FirstSixths(v);
    LetterSpells(Sixth(v, i));
  }

  lemma SixthsShift(v: seq<byte>, i: nat)
    requires |v| >= 3 && i >= 4
    ensures Sixth(v, i) == Sixth(v[3..], i - 4)
  {
    assert i / 4 * 3 == (i - 4) / 4 * 3 + 3 && i % 4 == (i - 4) % 4;
    assert forall j: nat :: j >= 3 ==> ByteAt(v, j) == ByteAt(v[3..], j - 3);
  }

  lemma {:induction false} BodySpells(v: seq<byte>, i: nat)
    requires i < |Body(v)|
    ensures StandsFor(Body(v)[i], Sixth(v, i))
  {
    if i < 4 {
      LettersSpell(v, i);
    } else {
      SixthsShift(v, i);
      BodySpells(v[3..], i - 4);
    }
  }

  /** Each character of the text stands for the next six bits. */
  lemma EncodeSpells(v: seq<byte>, i: nat)
    requires i < |Encode(v)|
    ensures StandsFor(Encode(v)[i], Sixth(v, i))
  {
    PaddedIsBody(v);
    BodyIsText(v);
    TrimEndOf(Body(v), Equals(PadsOf(|v|)), IsPad);
    BodySpells(v, i);
  }

  lemma PadsFromLength(n: nat, m: int)
    requires m >= 0 && 3 * m == 4 * n + PadsOf(n)
    ensures (-m) % 4 == PadsOf(n) && m == (4 * n + 2) / 3
  {
    var q := n / 3;
    if n % 3 == 0 { assert m == 4 * q; } else if n % 3 == 1 { assert m == 4 * q + 2; } else { assert m == 4 * q + 3; }
  }

  /** A byte string survives encoding and decoding exactly when it is not
      empty and at most 12288 bytes long; otherwise its text is refused. */
  lemma RoundTripExactly(v: seq<byte>)
    ensures DecodeSegment(Encode(v)) == if 1 <= |v| <= 12288 then Some(v) else None
  {
    EncodeStrips(v);
    ScanPadded(v);
  }

  /** Equal texts come from equal bytes. */
  lemma EncodeIsInjective(v: seq<byte>, w: seq<byte>)
    requires Encode(v) == Encode(w)
    ensures v == w
  {
    assert Padded(v) == Padded(w) by {
      EncodeStrips(v);
      EncodeStrips(w);
    }
    ScanPadded(v);
    ScanPadded(w);
  }

  // ------------------------------------------------------ where padding counts

  lemma ScanPad(rest: string, quad: nat, left: nat, pads: nat)
    requires quad < 4 && left < 64
    ensures quad < 2 ==> Scan("=" + rest, quad, left, pads) == Scan(rest, quad, left, pads)
    ensures quad == 3 || (quad == 2 && pads >= 1) ==> Scan("=" + rest, quad, left, pads) == Some([])
    ensures quad == 2 && pads == 0 ==> Scan("=" + rest, quad, left, pads) == Scan(rest, quad, left, 1)
  {
    assert ("=" + rest)[1..] == rest;
  }

  /** Two letters need two signs and three letters one to end the text, and then
      whatever follows is not looked at; a sign after fewer letters, or a single
      one between the second letter and the third, is not there. */
  lemma PaddingEnds(a: byte, b: byte, c: char, rest: string)
    requires Value(c).Some?
    ensures Scan("=" + rest, 0, 0, 0) == Scan(rest, 0, 0, 0)
    ensures Scan(Letters(a, 0, 0)[..2] + ("==" + rest), 0, 0, 0) == Some([a])
    ensures Scan(Letters(a, b, 0)[..3] + ("=" + rest), 0, 0, 0) == Some([a, b])
    ensures Scan(Letters(a, b, 0)[..2] + ("=" + ([c] + rest)), 0, 0, 0) ==
            Scan(Letters(a, b, 0)[..2] + ([c] + rest), 0, 0, 0)
  {
    ScanPad(rest, 0, 0, 0);
    ScanPad("=" + rest, 2, 0, 0);
    ScanPad(rest, 2, 0, 1);
    ScanPad(rest, 3, 0, 0);
    assert "==" + rest == "=" + ("=" + rest);
    ScanOneByte(a, "==" + rest);
    ScanTwoBytes(a, b, "=" + rest);
    LonePad(a, b, c, rest);
  }

  lemma LonePad(a: byte, b: byte, c: char, rest: string)
    requires Value(c).Some?
    ensures Scan(Letters(a, b, 0)[..2] + ("=" + ([c] + rest)), 0, 0, 0) ==
            Scan(Letters(a, b, 0)[..2] + ([c] + rest), 0, 0, 0)
  {
    var x0, x1 := a / 4, a % 4 * 16 + b / 16;
    assert Letters(a, b, 0)[..2] == [Letter(x0)] + [Letter(x1)];
    ScanTwo(x0, x1, "=" + ([c] + rest));
    ScanTwo(x0, x1, [c] + rest);
    ScanPad([c] + rest, 2, Leftover(1, x1), 0);
    assert ([c] + rest)[0] == c && c != '=';
  }

  // ------------------------------------------------------- which texts decode

  /** A segment that is empty, too long or not ASCII is refused unread. */
  lemma DecodeRefuses(s: string)
    requires s == "" || |s| > 16384 || exists i :: 0 <= i < |s| && s[i] as int > 127
    ensures DecodeSegment(s) == None
  {
  }

  lemma ScanOpenGroup(quad: nat, left: nat)
    requires 0 < quad < 4 && left < 64
    ensures Scan(Equals(4 - quad), quad, left, 0).Some? <==> quad != 1
  {
    if quad == 1 {
      assert Equals(3)[1..] == "==" && "=="[1..] == "=" && "="[1..] == "";
      assert Scan("==", 1, left, 0) == Scan("=", 1, left, 0) == Scan("", 1, left, 0);
    } else {
      assert Equals(2) == "==" && Equals(1) == "=";
      ScanEnds(left);
    }
  }

  lemma {:induction false} ScanText(s: string, quad: nat, left: nat, p: nat)
    requires IsText(s) && quad < 4 && left < 64 && p < 4 && (|s| + quad + p) % 4 == 0
    ensures Scan(s + Equals(p), quad, left, 0).Some? <==> p != 3
    decreases |s|
  {
    var t := s + Equals(p);
    if s == "" {
      assert t == Equals(p);
      if quad == 0 { assert t == ""; } else { ScanOpenGroup(quad, left); }
    } else {
      assert t[0] == s[0] && Value(s[0]).Some?;
      assert t[1..] == s[1..] + Equals(p);
      ScanText(s[1..], Next(quad), Leftover(quad, Value(s[0]).value), p);
    }
  }

  /** A text over the alphabet decodes exactly when its length is within the
      limits and not one more than a multiple of four. */
  lemma TextDecodesExactly(s: string)
    requires IsText(s)
    ensures DecodeSegment(s).Some? <==> 1 <= |s| <= 16384 && |s| % 4 != 1
  {
    forall i | 0 <= i < |s| ensures s[i] < '\U{80}' {
      assert Value(s[i]).Some?;
    }
    ScanText(s, 0, 0, (-|s|) % 4);
  }

  /** What the decoder makes of a text: '+' and '/' are other spellings of '-'
      and '_', and whatever is not a letter or padding is not there. */
  function Canonical(s: string): string {
    if s == "" then ""
    else if s[0] == '+' then "-" + Canonical(s[1..])
    else if s[0] == '/' then "_" + Canonical(s[1..])
    else if IsUrlSafe(s[0]) || s[0] == '=' then [s[0]] + Canonical(s[1..])
    else Canonical(s[1..])
  }

  lemma {:induction false} ScanReadsCanonical(s: string, quad: nat, left: nat, pads: nat)
    requires quad < 4 && left < 64
    ensures Scan(s, quad, left, pads) == Scan(Canonical(s), quad, left, pads)
    decreases |s|
  {
    if s != "" {
      var t, rest := Canonical(s), s[1..];
      if s[0] == '=' {
        assert t[1..] == Canonical(rest);
        ScanReadsCanonical(rest, quad, left, if quad >= 2 then pads + 1 else pads);
      } else if Value(s[0]).None? {
        ScanReadsCanonical(rest, quad, left, pads);
      } else {
        assert Value(t[0]) == Value(s[0]) && t[1..] == Canonical(rest);
        ScanReadsCanonical(rest, Next(quad), Leftover(quad, Value(s[0]).value), 0);
      }
    }
  }

  // ----------------------------------------------------------- compact tokens

  /** `s.split(".")` */
  function Split(s: string): seq<string> {
    if s == "" then [""]
    else if s[0] == '.' then [""] + Split(s[1..])
    else var rest := Split(s[1..]); if rest == [] then [[s[0]]] else [[s[0]] + rest[0]] + rest[1..]
  }

  function Join(parts: seq<string>): string {
    if parts == [] then "" else if |parts| == 1 then parts[0] else parts[0] + "." + Join(parts[1..])
  }

  lemma {:induction false} SplitPart(part: string, rest: string)
    requires '.' !in part
    ensures Split(part) == [part] && Split(part + "." + rest) == [part] + Split(rest)
  {
    var s := part + "." + rest;
    if part == "" {
      assert s[1..] == rest;
    } else {
      SplitPart(part[1..], rest);
      assert s[1..] == part[1..] + "." + rest;
      assert [part[0]] + part[1..] == part;
    }
  }

  /** Splitting undoes joining when no part holds a dot. */
  lemma {:induction false} SplitJoin(parts: seq<string>)
    requires parts != [] && forall i :: 0 <= i < |parts| ==> '.' !in parts[i]
    ensures Split(Join(parts)) == parts
  {
    if |parts| == 1 {
      SplitPart(parts[0], "");
    } else {
      SplitPart(parts[0], Join(parts[1..]));
      SplitJoin(parts[1..]);
    }
  }

  function SigningInput(header: seq<byte>, claims: seq<byte>): string { Encode(header) + "." + Encode(claims) }

  /** The token assembled by `issue`, for any signing function. */
  function Issue(header: seq<byte>, claims: seq<byte>, sign: string -> seq<byte>): string {
    var input := SigningInput(header, claims);
    input + "." + Encode(sign(input))
  }

  datatype Opened = Opened(header: seq<byte>, claims: seq<byte>, signature: seq<byte>, signedText: string)

  /** The split and the three decodings at the start of `_verify_id_token`. */
  function Open(token: string): Option<Opened> {
    var parts := Split(token);
    if |parts| != 3 then None
    else
      var h, c, s := DecodeSegment(parts[0]), DecodeSegment(parts[1]), DecodeSegment(parts[2]);
      if h.None? || c.None? || s.None? then None
      else Some(Opened(h.value, c.value, s.value, parts[0] + "." + parts[1]))
  }

  predicate Fits(v: seq<byte>) { 1 <= |v| <= 12288 }

  lemma TokenSplits(h: string, c: string, s: string)
    requires '.' !in h && '.' !in c && '.' !in s
    ensures Split(h + "." + c + "." + s) == [h, c, s]
  {
    SplitPart(h, c + "." + s);
    SplitPart(c, s);
    SplitPart(s, "");
    assert h + "." + c + "." + s == h + "." + (c + "." + s);
  }

  lemma NoDots(v: seq<byte>)
    ensures '.' !in Encode(v)
  {
    EncodeStrips(v);
  }

  /** An issued token always splits into its three segments; opening it gives
      back header, claims, signature and the very text that was signed exactly
      when each of the three has an acceptable size. */
  lemma IssuedTokenOpens(header: seq<byte>, claims: seq<byte>, sign: string -> seq<byte>)
    ensures var input := SigningInput(header, claims);
            var token := Issue(header, claims, sign);
            && input == Encode(header) + "." + Encode(claims)
            && token == Encode(header) + "." + Encode(claims) + "." + Encode(sign(input))
            && Split(token) == [Encode(header), Encode(claims), Encode(sign(input))]
            && Open(token) == if Fits(header) && Fits(claims) && Fits(sign(input))
                              then Some(Opened(header, claims, sign(input), input)) else None
  {
    var signature := sign(SigningInput(header, claims));
    NoDots(header);
    NoDots(claims);
    NoDots(signature);
    TokenSplits(Encode(header), Encode(claims), Encode(signature));
    RoundTripExactly(header);
    RoundTripExactly(claims);
    RoundTripExactly(signature);
  }
}
