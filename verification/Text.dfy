/** Trimming of strings, by a given class of characters. */
module Text {

  /** `lstrip` */
  function TrimStart(s: string, drop: char -> bool): string {
    if s != "" && drop(s[0]) then TrimStart(s[1..], drop) else s
  }

  /** `rstrip` */
  function TrimEnd(s: string, drop: char -> bool): string {
    if s != "" && drop(s[|s| - 1]) then TrimEnd(s[..|s| - 1], drop) else s
  }

  /** `strip` */
  function Trim(s: string, drop: char -> bool): string { TrimEnd(TrimStart(s, drop), drop) }

  predicate Only(s: string, drop: char -> bool) { forall i :: 0 <= i < |s| ==> drop(s[i]) }

  predicate CleanStart(s: string, drop: char -> bool) { s != "" ==> !drop(s[0]) }

  predicate CleanEnd(s: string, drop: char -> bool) { s != "" ==> !drop(s[|s| - 1]) }

  /** The text kept is the part of the input between two runs of dropped
      characters, and neither of its own ends is one. */
  lemma {:induction false} TrimStartCuts(s: string, drop: char -> bool) returns (head: string)
    ensures s == head + TrimStart(s, drop) && Only(head, drop) && CleanStart(TrimStart(s, drop), drop)
  {
    head := "";
    if s != "" && drop(s[0]) {
      var rest := TrimStartCuts(s[1..], drop);
      head := [s[0]] + rest;
      Associates([s[0]], rest, TrimStart(s, drop));
      assert s == [s[0]] + s[1..];
    }
  }

  lemma {:induction false} TrimEndCuts(s: string, drop: char -> bool)
    ensures var r := TrimEnd(s, drop);
            r <= s && Only(s[|r|..], drop) && CleanEnd(r, drop)
  {
    if s != "" && drop(s[|s| - 1]) {
      var t := s[..|s| - 1];
      TrimEndCuts(t, drop);
      var r := TrimEnd(s, drop);
      assert s[|r|..] == t[|r|..] + [s[|s| - 1]];
    }
  }

  /** Text without dropped characters at its end, followed by a run of them, is
      what trimming leaves. */
  lemma {:induction false} TrimEndOf(s: string, tail: string, drop: char -> bool)
    requires CleanEnd(s, drop) && Only(tail, drop)
    ensures TrimEnd(s + tail, drop) == s
    decreases |tail|
  {
    if tail == "" {
      assert s + tail == s;
    } else {
      var t := s + tail;
      assert t[|t| - 1] == tail[|tail| - 1];
      assert t[..|t| - 1] == s + tail[..|tail| - 1];
      TrimEndOf(s, tail[..|tail| - 1], drop);
    }
  }

  lemma {:induction false} TrimStartOf(head: string, s: string, drop: char -> bool)
    requires CleanStart(s, drop) && Only(head, drop)
    ensures TrimStart(head + s, drop) == s
    decreases |head|
  {
    if head == "" {
      assert head + s == s;
    } else {
      assert (head + s)[1..] == head[1..] + s;
      TrimStartOf(head[1..], s, drop);
    }
  }

  ghost predicate TrimmedTo(s: string, r: string, drop: char -> bool) {
    && CleanStart(r, drop) && CleanEnd(r, drop)
    && exists head, tail :: Around(s, head, r, tail, drop)
  }

  predicate Around(s: string, head: string, r: string, tail: string, drop: char -> bool) {
    Only(head, drop) && Only(tail, drop) && s == head + r + tail
  }

  lemma TrimEndKeepsStart(s: string, drop: char -> bool)
    requires CleanStart(s, drop)
    ensures CleanStart(TrimEnd(s, drop), drop)
  {
  }

  lemma TrimCuts(s: string, drop: char -> bool)
    ensures TrimmedTo(s, Trim(s, drop), drop)
  {
    var m, r := TrimStart(s, drop), Trim(s, drop);
    var head := TrimStartCuts(s, drop);
    TrimEndCuts(m, drop);
    TrimEndKeepsStart(m, drop);
    var tail := m[|r|..];
    Associates(head, r, tail);
    assert m == r + tail;
    assert Around(s, head, r, tail, drop);
  }

  /** Trimming is the only way to cut a text so. */
  lemma TrimExactly(s: string, r: string, drop: char -> bool)
    ensures r == Trim(s, drop) <==> TrimmedTo(s, r, drop)
  {
    TrimCuts(s, drop);
    if TrimmedTo(s, r, drop) {
      var head, tail :| Around(s, head, r, tail, drop);
      if r == "" {
        assert s == (head + tail) + r;
        TrimStartOf(head + tail, r, drop);
      } else {
        assert s == head + (r + tail);
        assert (r + tail)[0] == r[0];
        TrimStartOf(head, r + tail, drop);
        TrimEndOf(r, tail, drop);
      }
    }
  }

  lemma TrimBlank(s: string, drop: char -> bool)
    ensures Trim(s, drop) == "" <==> Only(s, drop)
  {
    TrimExactly(s, "", drop);
    if Only(s, drop) {
      assert s == s + "" + "";
      assert Around(s, s, "", "", drop);
    }
  }

  lemma Associates(a: string, b: string, c: string)
    ensures a + (b + c) == (a + b) + c
  {
  }

  /** The characters that Python's `strip` removes. */
  predicate IsSpace(c: char) {
    || '\t' <= c <= '\r' || '\U{1c}' <= c <= ' ' || c == '\U{85}' || c == '\U{a0}' || c == '\U{1680}'
    || '\U{2000}' <= c <= '\U{200a}' || c == '\U{2028}' || c == '\U{2029}' || c == '\U{202f}' || c == '\U{205f}'
    || c == '\U{3000}'
  }

  lemma SpacesExactly(c: char)
    ensures IsSpace(c) <==>
            c as int in {9, 10, 11, 12, 13, 28, 29, 30, 31, 32, 133, 160, 5760,
                         8192, 8193, 8194, 8195, 8196, 8197, 8198, 8199, 8200, 8201, 8202,
                         8232, 8233, 8239, 8287, 12288}
  {
  }
}
