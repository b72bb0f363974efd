/**
  Organization slugs: a readable stem made of the name's alphanumeric runs,
  cut to length, and eight random hexadecimal digits.
 */
module Slug {
  import opened Text

  predicate IsAlnum(c: char) { 'a' <= c <= 'z' || '0' <= c <= '9' }

  predicate IsHex(c: char) { 'a' <= c <= 'f' || '0' <= c <= '9' }

  predicate IsHyphen(c: char) { c == '-' }

  // --------------------------------------------------------------- generation

  /** `encode("ascii", "ignore").decode().lower()` */
  function AsciiLower(s: string): string {
    if s == "" then ""
    else if s[0] >= '\U{80}' then AsciiLower(s[1..])
    else [if 'A' <= s[0] <= 'Z' then (s[0] as int + 32) as char else s[0]] + AsciiLower(s[1..])
  }

  /** The alphanumeric run a text starts with, and the text after it. */
  function Word(s: string): string {
    if s != "" && IsAlnum(s[0]) then [s[0]] + Word(s[1..]) else ""
  }

  function SkipWord(s: string): (r: string)
    ensures |r| <= |s|
    ensures s != "" && IsAlnum(s[0]) ==> |r| < |s|
  {
    if s != "" && IsAlnum(s[0]) then SkipWord(s[1..]) else s
  }

  /** The text after the run of other characters it starts with. */
  function SkipGap(s: string): (r: string)
    ensures |r| <= |s|
    ensures s != "" && !IsAlnum(s[0]) ==> |r| < |s|
  {
    if s != "" && !IsAlnum(s[0]) then SkipGap(s[1..]) else s
  }

  /** `re.sub(r"[^a-z0-9]+", "-", s)` */
  function Collapse(s: string): string
    decreases |s|
  {
    if s == "" then ""
    else if IsAlnum(s[0]) then [s[0]] + Collapse(s[1..])
    else "-" + Collapse(SkipGap(s))
  }

  predicate IsSuffix(s: string) { |s| == 8 && forall i :: 0 <= i < |s| ==> IsHex(s[i]) }

  function Stem(name: string): string {
    var stem := Trim(Collapse(AsciiLower(name)), IsHyphen);
    if stem == "" then "organization" else stem
  }

  function Cut(s: string, n: nat): string { if |s| <= n then s else s[..n] }

  /** `generate`, given the decomposed name and the random suffix */
  function Generate(name: string, suffix: string): string
    requires IsSuffix(suffix)
  {
    TrimEnd(Cut(Stem(name), 96 - |suffix| - 1), IsHyphen) + "-" + suffix
  }

  // ----------------------------------------------------------- what a stem is

  /** The maximal alphanumeric runs of a text, in order. */
  function Runs(s: string): seq<string>
    decreases |s|
  {
    if s == "" then []
    else if IsAlnum(s[0]) then [Word(s)] + Runs(SkipWord(s))
    else Runs(s[1..])
  }

  function Hyphenated(words: seq<string>): string {
    if words == [] then "" else if |words| == 1 then words[0] else words[0] + "-" + Hyphenated(words[1..])
  }

  predicate IsWord(w: string) { w != "" && forall i :: 0 <= i < |w| ==> IsAlnum(w[i]) }

  predicate AreWords(words: seq<string>) { forall i :: 0 <= i < |words| ==> IsWord(words[i]) }

  lemma {:induction false} WordEnds(s: string)
    ensures forall i :: 0 <= i < |Word(s)| ==> IsAlnum(Word(s)[i])
    ensures SkipWord(s) != "" ==> !IsAlnum(SkipWord(s)[0])
  {
    if s != "" && IsAlnum(s[0]) { WordEnds(s[1..]); }
  }

  lemma {:induction false} WordCollapses(s: string)
    ensures Collapse(s) == Word(s) + Collapse(SkipWord(s))
  {
    if s != "" && IsAlnum(s[0]) {
      WordCollapses(s[1..]);
      Associates([s[0]], Word(s[1..]), Collapse(SkipWord(s[1..])));
    } else {
      assert "" + Collapse(s) == Collapse(s);
    }
  }

  lemma {:induction false} GapCut(s: string)
    ensures SkipGap(s) != "" ==> IsAlnum(SkipGap(s)[0])
    ensures Runs(SkipGap(s)) == Runs(s)
  {
    if s != "" && !IsAlnum(s[0]) { GapCut(s[1..]); }
  }

  lemma {:induction false} RunsAreWords(s: string)
    ensures AreWords(Runs(s))
    decreases |s|
  {
    if s != "" {
      WordEnds(s);
      RunsAreWords(if IsAlnum(s[0]) then SkipWord(s) else s[1..]);
    }
  }

  predicate HyphenOrNone(s: string) { s == "" || s == "-" }

  lemma {:induction false} NoRuns(s: string)
    requires Runs(s) == [] && (s == "" || IsAlnum(s[0]))
    ensures s == ""
  {
  }

  lemma Rejoin(w: string, h: string, tail: string)
    ensures w + ("-" + (h + tail)) == (w + "-" + h) + tail
  {
  }

  /** From a text that starts with a run, what collapses is its runs joined by
      single hyphens, and perhaps one hyphen more. */
  lemma {:induction false} CollapseJoins(s: string) returns (tail: string)
    requires s == "" || IsAlnum(s[0])
    ensures HyphenOrNone(tail) && Collapse(s) == Hyphenated(Runs(s)) + tail
    decreases |s|
  {
    tail := "";
    if s != "" {
      var w, gap := Word(s), SkipWord(s);
      WordEnds(s);
      WordCollapses(s);
      assert Runs(s) == [w] + Runs(gap);
      if gap != "" {
        var rest := SkipGap(gap);
        GapCut(gap);
        tail := CollapseJoins(rest);
        Rejoin(w, Hyphenated(Runs(rest)), tail);
        if Runs(rest) == [] {
          NoRuns(rest);
          tail := "-";
        } else {
          assert Runs(s)[1..] == Runs(rest);
        }
      }
    }
  }

  lemma CollapseAround(s: string) returns (head: string, tail: string)
    ensures HyphenOrNone(head) && HyphenOrNone(tail)
    ensures Collapse(s) == head + Hyphenated(Runs(s)) + tail
  {
    GapCut(s);
    tail := CollapseJoins(SkipGap(s));
    var h := Hyphenated(Runs(s));
    if s != "" && !IsAlnum(s[0]) {
      head := "-";
      assert head + (h + tail) == head + h + tail;
    } else {
      head := "";
      assert head + h + tail == h + tail;
    }
  }

  lemma {:induction false} HyphenatedEnds(words: seq<string>)
    requires AreWords(words) && words != []
    ensures var h := Hyphenated(words); h != "" && IsAlnum(h[0]) && IsAlnum(h[|h| - 1])
  {
    assert IsWord(words[0]);
    if |words| > 1 { HyphenatedEnds(words[1..]); }
  }

  /** The stem is the alphanumeric runs of the lower-cased ASCII part of the
      name, joined by single hyphens; without any run it is the default. */
  lemma StemIsRuns(name: string)
    ensures var runs := Runs(AsciiLower(name));
            AreWords(runs) && Stem(name) == if runs == [] then "organization" else Hyphenated(runs)
  {
    var s := AsciiLower(name);
    var runs := Runs(s);
    RunsAreWords(s);
    var head, tail := CollapseAround(s);
    var h := Hyphenated(runs);
    if runs != [] { HyphenatedEnds(runs); }
    assert Around(Collapse(s), head, h, tail, IsHyphen);
    assert TrimmedTo(Collapse(s), h, IsHyphen);
    TrimExactly(Collapse(s), h, IsHyphen);
  }

  // ------------------------------------------------------- what a stem keeps

  /** The letters and digits of a text, in order. */
  function Letters(s: string): string {
    if s == "" then "" else (if 'a' <= s[0] <= 'z' || '0' <= s[0] <= '9' then [s[0]] else "") + Letters(s[1..])
  }

  lemma {:induction false} LettersJoin(a: string, b: string)
    ensures Letters(a + b) == Letters(a) + Letters(b)
  {
    if a == "" {
      assert a + b == b;
    } else {
      assert (a + b)[1..] == a[1..] + b;
      LettersJoin(a[1..], b);
    }
  }

  lemma {:induction false} WordIsLetters(s: string)
    ensures Letters(Word(s)) == Word(s) && s == Word(s) + SkipWord(s)
  {
    if s != "" && IsAlnum(s[0]) {
      WordIsLetters(s[1..]);
      assert s == [s[0]] + s[1..];
    }
  }

  lemma {:induction false} RunsKeepLetters(s: string)
    ensures Letters(Hyphenated(Runs(s))) == Letters(s)
    decreases |s|
  {
    if s != "" {
      if IsAlnum(s[0]) {
        var w, rest := Word(s), SkipWord(s);
        WordIsLetters(s);
        LettersJoin(w, rest);
        RunsKeepLetters(rest);
        if Runs(rest) != [] {
          LettersJoin("-", Hyphenated(Runs(rest)));
          LettersJoin(w, "-" + Hyphenated(Runs(rest)));
          assert Runs(s)[1..] == Runs(rest);
          Associates(w, "-", Hyphenated(Runs(rest)));
        }
      } else {
        RunsKeepLetters(s[1..]);
      }
    }
  }

  /** The stem's letters and digits are those of the lower-cased ASCII part of the
      name, none lost and none added; a name without any gets the default. */
  lemma StemKeepsLetters(name: string)
    ensures var kept := Letters(AsciiLower(name));
            if kept == "" then Stem(name) == "organization" else Letters(Stem(name)) == kept
  {
    var s := AsciiLower(name);
    StemIsRuns(name);
    RunsKeepLetters(s);
    if Runs(s) != [] {
      HyphenatedEnds(Runs(s));
    }
  }

  /** The lower-cased ASCII part of a name, one character after the other. */
  lemma {:induction false} AsciiLowerExactly(s: string, c: char)
    ensures AsciiLower("") == ""
    ensures c as int > 127 ==> AsciiLower(s + [c]) == AsciiLower(s)
    ensures 'A' <= c <= 'Z' ==> AsciiLower(s + [c]) == AsciiLower(s) + [(c as int - 'A' as int + 'a' as int) as char]
    ensures c as int <= 127 && !('A' <= c <= 'Z') ==> AsciiLower(s + [c]) == AsciiLower(s) + [c]
  {
    if s == "" {
      assert s + [c] == [c] && [c][1..] == "";
    } else {
      assert (s + [c])[1..] == s[1..] + [c];
      AsciiLowerExactly(s[1..], c);
    }
  }

  // ------------------------------------------------------------------- shape

  /** Alphanumeric runs joined by single hyphens. */
  predicate Shaped(s: string) {
    && s != "" && IsAlnum(s[0]) && IsAlnum(s[|s| - 1])
    && (forall i :: 0 <= i < |s| ==> IsAlnum(s[i]) || s[i] == '-')
    && (forall i :: 0 <= i < |s| - 1 ==> IsAlnum(s[i]) || IsAlnum(s[i + 1]))
  }

  lemma ShapedJoins(a: string, b: string)
    requires Shaped(a) && Shaped(b)
    ensures Shaped(a + "-" + b)
  {
  }

  lemma {:induction false} HyphenatedIsShaped(words: seq<string>)
    requires AreWords(words) && words != []
    ensures Shaped(Hyphenated(words))
  {
    assert IsWord(words[0]);
    if |words| > 1 {
      HyphenatedIsShaped(words[1..]);
      ShapedJoins(words[0], Hyphenated(words[1..]));
    }
  }

  lemma StemIsShaped(name: string)
    ensures Shaped(Stem(name))
  {
    var runs := Runs(AsciiLower(name));
    StemIsRuns(name);
    if runs == [] {
      assert IsWord("organization");
    } else {
      HyphenatedIsShaped(runs);
    }
  }

  /** Cutting a shaped text and dropping a hyphen left at its end keeps it so. */
  lemma CutIsShaped(s: string, n: nat)
    requires Shaped(s) && n > 0
    ensures var r := TrimEnd(Cut(s, n), IsHyphen); 
            && Shaped(r) && r <= s && |r| <= n
            && r == (if |s| <= n then s else if s[n - 1] == '-' then s[..n - 1] else s[..n])
  {
    var cut := Cut(s, n);
    if |s| > n && s[n - 1] == '-' {
      assert cut[..n - 1] == s[..n - 1] && IsAlnum(s[n - 2]);
    }
  }

  /** Every slug is runs joined by single hyphens, ends in a hyphen and its
      suffix, starts like its stem, which it holds whole when it fits, and is
      accepted by `Organization`. */
  lemma SlugIsWellFormed(name: string, suffix: string)
    requires IsSuffix(suffix)
    ensures var slug := Generate(name, suffix);
            var kept := slug[..|slug| - 9];
            && 1 <= |slug| <= 96 && Shaped(slug)
            && slug == kept + "-" + suffix && Shaped(kept) && kept <= Stem(name)
            && kept == (if |Stem(name)| <= 87 then Stem(name)
                        else if Stem(name)[86] == '-' then Stem(name)[..86] else Stem(name)[..87])
            && (forall i :: 0 <= i < |slug| ==> 'a' <= slug[i] <= 'z' || '0' <= slug[i] <= '9' || slug[i] == '-')
  {
    StemIsShaped(name);
    CutIsShaped(Stem(name), 87);
    var kept := TrimEnd(Cut(Stem(name), 96 - |suffix| - 1), IsHyphen);
    assert IsWord(suffix);
    ShapedJoins(kept, suffix);
    var slug := Generate(name, suffix);
    assert slug[..|slug| - 9] == kept;
  }

  /** Two slugs that coincide drew the same suffix, whatever the names. */
  lemma SuffixesSeparate(a: string, b: string, x: string, y: string)
    requires IsSuffix(x) && IsSuffix(y) && Generate(a, x) == Generate(b, y)
    ensures x == y
  {
    var s := Generate(a, x);
    assert x == s[|s| - 8..] == y;
  }
}
