/**
 * The string operations of Python that the extractor relies on, written out:
 * `str.isspace`, `str.strip`, `str.upper` (ASCII letters), `sub in s`,
 * `s.split("\n")`, `sep.join(parts)`, and the two substitutions that tidy a
 * captured description.  Also the first/last-match index scans that the
 * extractor's `for ... break` loops perform.
 */
module Text {

  function Min(a: int, b: int): int { if a < b then a else b }
  function Max(a: int, b: int): int { if a < b then b else a }

  /** Python's `str.isspace()`: what `str.strip()` removes and what `\s` matches in a `str` pattern. */
  predicate IsSpace(c: char) {
    SpaceFrom(c, 0)
  }

  /** The ranges of characters `str.isspace()` accepts. */
  const SpaceRanges: seq<(char, char)> := [
    ('\t', '\r'), ('\U{1c}', ' '), ('\U{85}', '\U{85}'), ('\U{a0}', '\U{a0}'), ('\U{1680}', '\U{1680}'),
    ('\U{2000}', '\U{200a}'), ('\U{2028}', '\U{2029}'), ('\U{202f}', '\U{202f}'), ('\U{205f}', '\U{205f}'),
    ('\U{3000}', '\U{3000}')]

  /** `c` lies in one of the ranges from the `k`-th on. */
  predicate SpaceFrom(c: char, k: nat)
    decreases |SpaceRanges| - k
  {
    k < |SpaceRanges| && (SpaceRanges[k].0 <= c <= SpaceRanges[k].1 || SpaceFrom(c, k + 1))
  }

  /** `\d`, restricted to ASCII digits. */
  predicate IsDigit(c: char) { '0' <= c <= '9' }

  /** `[A-Z]` */
  predicate IsUpper(c: char) { 'A' <= c <= 'Z' }

  predicate AllDigits(s: string) {
    forall i :: 0 <= i < |s| ==> IsDigit(s[i])
  }

  /** `re.match(r'^\d{lo,hi}$', s)` on a string without a line break. */
  predicate IsNumber(s: string, lo: nat, hi: nat) {
    lo <= |s| <= hi && AllDigits(s)
  }

  // ---------------------------------------------------------------- strip

  /** The index of the first character at or after `i` that is not whitespace (`|s|` if none). */
  function SkipSpace(s: string, i: nat): (k: nat)
    requires i <= |s|
    ensures i <= k <= |s|
    decreases |s| - i
  {
    if i < |s| && IsSpace(s[i]) then SkipSpace(s, i + 1) else i
  }

  /** The leading-whitespace scan stops at a character that is not whitespace, or at the end. */
  lemma {:induction false} SkipSpaceStops(s: string, i: nat)
    requires i <= |s|
    ensures SkipSpace(s, i) < |s| ==> !IsSpace(s[SkipSpace(s, i)])
    decreases |s| - i
  {
    if i < |s| && IsSpace(s[i]) {
      SkipSpaceStops(s, i + 1);
    }
  }

  /**
   * Python's `str.strip()`: leading and trailing whitespace dropped one
   * character at a time.
   */
  function Strip(s: string): (r: string)
    ensures |r| <= |s|
    decreases |s|
  {
    if s == [] then s
    else if IsSpace(s[0]) then Strip(s[1..])
    else if IsSpace(s[|s| - 1]) then Strip(s[..|s| - 1])
    else s
  }

  /** Every line stripped, in order. */
  function StripAll(lines: seq<string>): (texts: seq<string>)
    ensures |texts| == |lines|
    decreases |lines|
  {
    if lines == [] then [] else StripAll(lines[..|lines| - 1]) + [Strip(lines[|lines| - 1])]
  }

  /** The `j`-th stripped line is line `j` stripped. */
  lemma {:induction false} StripAllAt(lines: seq<string>, j: nat)
    requires j < |lines|
    ensures StripAll(lines)[j] == Strip(lines[j])
    decreases |lines|
  {
    if j < |lines| - 1 {
      StripAllAt(lines[..|lines| - 1], j);
    }
  }

  /** What `strip()` leaves is blank or has no whitespace at either end. */
  lemma {:induction false} StripIsStripped(s: string)
    ensures Strip(s) != [] ==> IsStripped(Strip(s))
    decreases |s|
  {
    if s != [] && IsSpace(s[0]) {
      StripIsStripped(s[1..]);
    } else if s != [] && IsSpace(s[|s| - 1]) {
      StripIsStripped(s[..|s| - 1]);
    }
  }

  /** Every character `strip()` keeps is one of the string's. */
  lemma {:induction false} StripKeepsOnly(s: string, c: char)
    ensures c in Strip(s) ==> c in s
    decreases |s|
  {
    if s != [] && IsSpace(s[0]) {
      StripKeepsOnly(s[1..], c);
    } else if s != [] && IsSpace(s[|s| - 1]) {
      StripKeepsOnly(s[..|s| - 1], c);
    }
  }

  /** Stripping a line with no line break leaves none. */
  lemma StripKeepsNoBreak(s: string)
    ensures '\n' !in s ==> '\n' !in Strip(s)
  {
    StripKeepsOnly(s, '\n');
  }

  /** Stripping a string whose last character is not whitespace keeps that character last. */
  lemma {:induction false} StripKeepsLast(s: string)
    requires s != [] && !IsSpace(s[|s| - 1])
    ensures Strip(s) != [] && Strip(s)[|Strip(s)| - 1] == s[|s| - 1]
    decreases |s|
  {
    if IsSpace(s[0]) {
      StripKeepsLast(s[1..]);
    }
  }

  /** Stripping a string whose first character is not whitespace keeps that character first. */
  lemma {:induction false} StripKeepsFirst(s: string)
    requires s != [] && !IsSpace(s[0])
    ensures Strip(s) != [] && Strip(s)[0] == s[0]
    decreases |s|
  {
    if IsSpace(s[|s| - 1]) {
      StripKeepsFirst(s[..|s| - 1]);
    }
  }

  /** Non-empty, with no whitespace at either end: what `strip()` leaves of a line that is not blank. */
  predicate IsStripped(s: string) {
    s != [] && !IsSpace(s[0]) && !IsSpace(s[|s| - 1])
  }

  /** A stripped string is its own `strip()`. */
  lemma StripFixesStripped(s: string)
    requires IsStripped(s)
    ensures Strip(s) == s
  {
  }

  /** Stripping a stripped string changes nothing. */
  lemma StripIdempotent(s: string)
    ensures Strip(Strip(s)) == Strip(s)
  {
    StripIsStripped(s);
    if Strip(s) != [] {
      StripFixesStripped(Strip(s));
    }
  }

  /**
   * `strip()` keeps one contiguous slice `s[i..j]` and drops only whitespace
   * before and after it.
   */
  lemma {:induction false} StripBounds(s: string) returns (i: nat, j: nat)
    ensures i <= j <= |s| && Strip(s) == s[i..j]
    ensures forall k :: 0 <= k < i ==> IsSpace(s[k])
    ensures forall k :: j <= k < |s| ==> IsSpace(s[k])
    decreases |s|
  {
    if s == [] {
      i, j := 0, 0;
    } else if IsSpace(s[0]) {
      var i', j' := StripBounds(s[1..]);
      i, j := i' + 1, j' + 1;
      assert s[1..][i'..j'] == s[i..j];
      forall k | 1 <= k < i ensures IsSpace(s[k]) {
        assert s[k] == s[1..][k - 1];
      }
      forall k | j <= k < |s| ensures IsSpace(s[k]) {
        assert s[k] == s[1..][k - 1];
      }
    } else if IsSpace(s[|s| - 1]) {
      var t := s[..|s| - 1];
      i, j := StripBounds(t);
      assert t[i..j] == s[i..j];
      forall k | j <= k < |s| - 1 ensures IsSpace(s[k]) {
        assert s[k] == t[k];
      }
    } else {
      i, j := 0, |s|;
      assert s[0..|s|] == s;
    }
  }

  // ---------------------------------------------------------------- case and search

  function UpperChar(c: char): char {
    if 'a' <= c <= 'z' then (c as int - 32) as char else c
  }

  /**
   * Python's `str.upper()`, for ASCII letters: same length, each lower-case
   * letter replaced by its upper-case partner, and every other character kept.
   */
  function Upper(s: string): (u: string)
    ensures |u| == |s|
    ensures forall i :: 0 <= i < |s| && 'a' <= s[i] <= 'z' ==> IsUpper(u[i])
    ensures forall i :: 0 <= i < |s| && 'a' <= s[i] <= 'z' ==> u[i] as int == s[i] as int - 32
    ensures forall i :: 0 <= i < |s| && !('a' <= s[i] <= 'z') ==> u[i] == s[i]
  {
    seq(|s|, i requires 0 <= i < |s| => UpperChar(s[i]))
  }

  predicate StartsWith(s: string, prefix: string) {
    |prefix| <= |s| && s[..|prefix|] == prefix
  }

  /** Python's `sub in s`: only a string at least as long as `sub` can hold it. */
  predicate Contains(s: string, sub: string)
    ensures Contains(s, sub) ==> |sub| <= |s|
    decreases |s|
  {
    StartsWith(s, sub) || (|s| > 0 && Contains(s[1..], sub))
  }

  /** `t` occurs in `s` starting at position `i`. */
  predicate OccursAt(s: string, t: string, i: nat) {
    i + |t| <= |s| && s[i..i + |t|] == t
  }

  /** An occurrence of `t` at position `i` of `s` makes `t in s` hold. */
  lemma {:induction false} ContainsAt(s: string, t: string, i: nat)
    requires OccursAt(s, t, i)
    ensures Contains(s, t)
    decreases i
  {
    if i == 0 {
      assert s[..|t|] == t;
    } else {
      assert s[1..][i - 1..i - 1 + |t|] == s[i..i + |t|];
      ContainsAt(s[1..], t, i - 1);
    }
  }

  /** `t in s` holds only at some position where `t` occurs. */
  lemma {:induction false} ContainsWitness(s: string, t: string) returns (i: nat)
    requires Contains(s, t)
    ensures OccursAt(s, t, i)
    decreases |s|
  {
    if StartsWith(s, t) {
      assert s[0..|t|] == t;
      i := 0;
    } else {
      var k := ContainsWitness(s[1..], t);
      assert s[k + 1..k + 1 + |t|] == s[1..][k..k + |t|];
      i := k + 1;
    }
  }

  /** A string holding `a + b + c` holds `b`. */
  lemma ContainsPart(s: string, a: string, b: string, c: string)
    requires Contains(s, a + b + c)
    ensures Contains(s, b)
  {
    var t := a + b + c;
    var i := ContainsWitness(s, t);
    assert s[i..i + |t|] == t;
    forall k | 0 <= k < |b| ensures s[i + |a| + k] == b[k] {
      assert s[i + |a| + k] == s[i..i + |t|][|a| + k];
      assert t[|a| + k] == b[k];
    }
    assert s[i + |a|..i + |a| + |b|] == b;
    ContainsAt(s, b, i + |a|);
  }

  // ---------------------------------------------------------------- split and join

  /** Python's `s.split("\n")`: never empty, and no part holds a line break. */
  function SplitLines(s: string): (parts: seq<string>)
    ensures |parts| >= 1
    ensures forall k :: 0 <= k < |parts| ==> '\n' !in parts[k]
    decreases |s|
  {
    if |s| == 0 then [""]
    else
      var rest := SplitLines(s[1..]);
      if s[0] == '\n' then [""] + rest
      else [[s[0]] + rest[0]] + rest[1..]
  }

  /** Python's `sep.join(parts)`. */
  function JoinWith(sep: string, parts: seq<string>): string
    decreases |parts|
  {
    if |parts| == 0 then ""
    else if |parts| == 1 then parts[0]
    else parts[0] + sep + JoinWith(sep, parts[1..])
  }

  /** A string that ends with `b` holds whatever `b` holds. */
  lemma ContainsInSuffix(a: string, b: string, t: string)
    requires Contains(b, t)
    ensures Contains(a + b, t)
  {
    var i := ContainsWitness(b, t);
    assert (a + b)[|a| + i..|a| + i + |t|] == b[i..i + |t|];
    ContainsAt(a + b, t, |a| + i);
  }

  /** The joined text holds each of its parts. */
  lemma {:induction false} JoinHoldsPart(sep: string, parts: seq<string>, k: nat)
    requires k < |parts|
    ensures Contains(JoinWith(sep, parts), parts[k])
    decreases |parts|
  {
    var s := JoinWith(sep, parts);
    if k == 0 {
      assert s[..|parts[0]|] == parts[0];
      ContainsAt(s, parts[0], 0);
    } else {
      JoinHoldsPart(sep, parts[1..], k - 1);
      assert s == (parts[0] + sep) + JoinWith(sep, parts[1..]);
      ContainsInSuffix(parts[0] + sep, JoinWith(sep, parts[1..]), parts[k]);
    }
  }

  lemma JoinHoldsParts(sep: string, parts: seq<string>)
    ensures forall k :: 0 <= k < |parts| ==> Contains(JoinWith(sep, parts), parts[k])
  {
    forall k | 0 <= k < |parts| ensures Contains(JoinWith(sep, parts), parts[k]) {
      JoinHoldsPart(sep, parts, k);
    }
  }

  /** Joining the parts of a split with line breaks gives back the text. */
  lemma {:induction false} SplitThenJoin(s: string)
    ensures JoinWith("\n", SplitLines(s)) == s
    decreases |s|
  {
    if |s| > 0 {
      var rest := SplitLines(s[1..]);
      SplitThenJoin(s[1..]);
      if s[0] == '\n' {
        assert SplitLines(s) == [""] + rest;
        assert ([""] + rest)[1..] == rest;
      } else {
        var parts := SplitLines(s);
        assert parts == [[s[0]] + rest[0]] + rest[1..];
        assert parts[1..] == rest[1..];
        if |rest| > 1 {
          assert JoinWith("\n", rest) == rest[0] + "\n" + JoinWith("\n", rest[1..]);
        }
      }
    }
  }

  /** Splitting `p + t` where `p` has no line break glues `p` onto the first part of `t`. */
  lemma {:induction false} SplitUnbrokenPrefix(p: string, t: string)
    requires '\n' !in p
    ensures SplitLines(p + t) == [p + SplitLines(t)[0]] + SplitLines(t)[1..]
    decreases |p|
  {
    if |p| > 0 {
      assert (p + t)[1..] == p[1..] + t;
      assert p[0] != '\n';
      SplitUnbrokenPrefix(p[1..], t);
      assert [p[0]] + (p[1..] + SplitLines(t)[0]) == p + SplitLines(t)[0];
    } else {
      var parts := SplitLines(t);
      assert p + t == t;
      assert p + parts[0] == parts[0];
      assert parts == [parts[0]] + parts[1..];
    }
  }

  /** Splitting parts joined with line breaks gives back the parts, when none holds a line break. */
  lemma {:induction false} JoinThenSplit(parts: seq<string>)
    requires |parts| >= 1
    requires forall k :: 0 <= k < |parts| ==> '\n' !in parts[k]
    ensures SplitLines(JoinWith("\n", parts)) == parts
    decreases |parts|
  {
    if |parts| == 1 {
      SplitUnbrokenPrefix(parts[0], "");
      assert parts[0] + "" == parts[0];
    } else {
      var tail := JoinWith("\n", parts[1..]);
      JoinThenSplit(parts[1..]);
      assert JoinWith("\n", parts) == parts[0] + ("\n" + tail);
      SplitUnbrokenPrefix(parts[0], "\n" + tail);
      assert ("\n" + tail)[1..] == tail;
      assert SplitLines("\n" + tail) == [""] + parts[1..];
      assert parts[0] + "" == parts[0];
    }
  }

  // ---------------------------------------------------------------- description tidying

  /** The characters of `s` that are not whitespace, in order. */
  function NonSpace(s: string): string
    decreases |s|
  {
    if s == [] then []
    else if IsSpace(s[0]) then NonSpace(s[1..])
    else [s[0]] + NonSpace(s[1..])
  }

  /** Skipping a whitespace run loses no character that is not whitespace. */
  lemma {:induction false} SkipSpaceKeepsNonSpace(s: string, k: nat)
    requires k <= |s|
    ensures NonSpace(s[SkipSpace(s, k)..]) == NonSpace(s[k..])
    decreases |s| - k
  {
    if k < |s| && IsSpace(s[k]) {
      assert s[k..][1..] == s[k + 1..];
      SkipSpaceKeepsNonSpace(s, k + 1);
    }
  }

  /** `NonSpace` of a concatenation is the concatenation of the parts' `NonSpace`. */
  lemma {:induction false} NonSpaceAppend(a: string, b: string)
    ensures NonSpace(a + b) == NonSpace(a) + NonSpace(b)
    decreases |a|
  {
    if a != [] {
      assert (a + b)[0] == a[0] && (a + b)[1..] == a[1..] + b;
      NonSpaceAppend(a[1..], b);
    } else {
      assert a + b == b;
    }
  }

  /** A string made only of whitespace has no character that is not whitespace. */
  lemma {:induction false} NonSpaceOfSpaces(s: string)
    requires forall k :: 0 <= k < |s| ==> IsSpace(s[k])
    ensures NonSpace(s) == []
    decreases |s|
  {
    if s != [] {
      NonSpaceOfSpaces(s[1..]);
    }
  }

  /** Every character `NonSpace` keeps is a character of `s` that is not whitespace. */
  lemma {:induction false} NonSpaceKeepsOnly(s: string, c: char)
    ensures c in NonSpace(s) ==> c in s && !IsSpace(c)
    decreases |s|
  {
    if s != [] {
      NonSpaceKeepsOnly(s[1..], c);
    }
  }

  /** `strip()` removes whitespace only: every other character is kept, in order. */
  lemma StripKeepsNonSpace(s: string)
    ensures NonSpace(Strip(s)) == NonSpace(s)
  {
    var i, j := StripBounds(s);
    assert s == s[..i] + s[i..j] + s[j..];
    NonSpaceOfSpaces(s[..i]);
    NonSpaceOfSpaces(s[j..]);
    NonSpaceAppend(s[..i] + s[i..j], s[j..]);
    NonSpaceAppend(s[..i], s[i..j]);
  }

  lemma SpaceIsSpace()
    ensures IsSpace(' ')
  {
    assert SpaceFrom(' ', 1);
  }

  /**
   * `re.sub(r'\s+', ' ', s)`: every run of whitespace becomes one space, and
   * the characters that are not whitespace are kept, in order.
   */
  function CollapseSpaces(s: string): (r: string)
    ensures |r| == 0 <==> |s| == 0
    ensures |s| > 0 && !IsSpace(s[0]) ==> r[0] == s[0]
    ensures |s| > 0 && IsSpace(s[0]) ==> r[0] == ' '
    ensures NonSpace(r) == NonSpace(s)
    decreases |s|
  {
    if |s| == 0 then ""
    else if IsSpace(s[0]) then
      var rest := CollapseSpaces(s[SkipSpace(s, 1)..]);
      SkipSpaceKeepsNonSpace(s, 1);
      SpaceIsSpace();
      assert (" " + rest)[1..] == rest;
      " " + rest
    else
      var rest := CollapseSpaces(s[1..]);
      assert ([s[0]] + rest)[1..] == rest;
      [s[0]] + rest
  }

  /** After collapsing, the only whitespace left is single spaces. */
  lemma {:induction false} CollapsedSpacesAreSingle(s: string)
    ensures forall i :: 0 <= i < |CollapseSpaces(s)| && IsSpace(CollapseSpaces(s)[i]) ==> CollapseSpaces(s)[i] == ' '
    ensures forall i :: 0 <= i < |CollapseSpaces(s)| - 1 ==> !(CollapseSpaces(s)[i] == ' ' && CollapseSpaces(s)[i + 1] == ' ')
    decreases |s|
  {
    if |s| > 0 {
      var r := CollapseSpaces(s);
      var t := if IsSpace(s[0]) then s[SkipSpace(s, 1)..] else s[1..];
      var rest := CollapseSpaces(t);
      CollapsedSpacesAreSingle(t);
      SkipSpaceStops(s, 1);
      assert r == [r[0]] + rest;
      assert rest != [] && IsSpace(s[0]) ==> rest[0] == t[0] && !IsSpace(t[0]);
      assert r[0] == ' ' ==> IsSpace(s[0]);
      forall i | 0 <= i < |r| && IsSpace(r[i]) ensures r[i] == ' ' {
        if i > 0 { assert r[i] == rest[i - 1]; }
      }
      forall i | 0 <= i < |r| - 1 ensures !(r[i] == ' ' && r[i + 1] == ' ') {
        assert r[i + 1] == rest[i];
        if i > 0 { assert r[i] == rest[i - 1]; }
      }
    }
  }

  // ---------------------------------------------------------------- words

  /** `s` without its leading whitespace. */
  function DropSpaces(s: string): (t: string)
    ensures |t| <= |s| && t == s[|s| - |t|..]
    ensures t == [] || !IsSpace(t[0])
    decreases |s|
  {
    if s != [] && IsSpace(s[0]) then DropSpaces(s[1..]) else s
  }

  /** The length of the run of characters that are not whitespace at the start of `s`. */
  function LeadingWord(s: string): (k: nat)
    ensures k <= |s|
    ensures s != [] && !IsSpace(s[0]) ==> k >= 1
    decreases |s|
  {
    if s == [] || IsSpace(s[0]) then 0 else 1 + LeadingWord(s[1..])
  }

  /** Python's `s.split()`: the maximal runs of characters that are not whitespace, in order. */
  function Words(s: string): (ws: seq<string>)
    decreases |s|
  {
    var t := DropSpaces(s);
    if t == [] then [] else [t[..LeadingWord(t)]] + Words(t[LeadingWord(t)..])
  }

  /** The leading word ends at whitespace or at the end of the string. */
  lemma {:induction false} LeadingWordStops(s: string)
    ensures LeadingWord(s) < |s| ==> IsSpace(s[LeadingWord(s)])
    decreases |s|
  {
    if s != [] && !IsSpace(s[0]) {
      LeadingWordStops(s[1..]);
      assert s[1..][LeadingWord(s[1..])..] == s[LeadingWord(s)..];
    }
  }

  /** Skipping whitespace by index is dropping it. */
  lemma {:induction false} SkipSpaceIsDrop(s: string, i: nat)
    requires i <= |s|
    ensures s[SkipSpace(s, i)..] == DropSpaces(s[i..])
    decreases |s| - i
  {
    if i < |s| && IsSpace(s[i]) {
      assert s[i..][1..] == s[i + 1..];
      SkipSpaceIsDrop(s, i + 1);
    }
  }

  /** Collapsing copies a leading word unchanged. */
  lemma {:induction false} CollapseLeadingWord(s: string)
    ensures CollapseSpaces(s) == s[..LeadingWord(s)] + CollapseSpaces(s[LeadingWord(s)..])
    decreases |s|
  {
    if s != [] && !IsSpace(s[0]) {
      var k := LeadingWord(s);
      CollapseLeadingWord(s[1..]);
      assert s[1..][LeadingWord(s[1..])..] == s[k..];
      assert [s[0]] + s[1..][..k - 1] == s[..k];
    }
  }

  /** Collapsing turns a leading whitespace run into one space. */
  lemma CollapseLeadingSpaces(u: string)
    requires u != [] && IsSpace(u[0])
    ensures CollapseSpaces(u) == " " + CollapseSpaces(DropSpaces(u))
  {
    SkipSpaceIsDrop(u, 1);
  }

  /** Dropping leading whitespace keeps a last character that is not whitespace. */
  lemma {:induction false} DropSpacesKeepsLast(u: string)
    requires u != [] && !IsSpace(u[|u| - 1])
    ensures DropSpaces(u) != [] && DropSpaces(u)[|DropSpaces(u)| - 1] == u[|u| - 1]
    decreases |u|
  {
    if IsSpace(u[0]) {
      DropSpacesKeepsLast(u[1..]);
    }
  }

  /** A string with no whitespace at either end collapses to its words joined by single spaces. */
  lemma {:induction false} CollapseStrippedIsJoinedWords(s: string)
    requires s == [] || IsStripped(s)
    ensures CollapseSpaces(s) == JoinWith(" ", Words(s))
    decreases |s|, 1
  {
    if s != [] {
      var k := LeadingWord(s);
      CollapseLeadingWord(s);
      if k == |s| {
        assert DropSpaces(s) == s;
        assert s[k..] == [] && s[..k] == s;
        assert Words(s) == [s];
      } else {
        CollapseWordThenRest(s, k);
      }
    }
  }

  /**
   * The step of `CollapseStrippedIsJoinedWords` for a string holding more
   * than one word: the first word, one space, then the rest collapsed.
   */
  lemma {:induction false} CollapseWordThenRest(s: string, k: nat)
    requires IsStripped(s) && k == LeadingWord(s) < |s|
    requires CollapseSpaces(s) == s[..k] + CollapseSpaces(s[k..])
    ensures CollapseSpaces(s) == JoinWith(" ", Words(s))
    decreases |s|, 0
  {
    var u := s[k..];
    WordsCons(s);
    LeadingWordStops(s);
    CollapseLeadingSpaces(u);
    var t := DropSpaces(u);
    RestAfterWord(s, k);
    WordsDrop(u);
    CollapseStrippedIsJoinedWords(t);
    WordsCons(t);
    var j := JoinWith(" ", Words(t));
    calc {
      CollapseSpaces(s);
      s[..k] + CollapseSpaces(u);
      s[..k] + (" " + j);
      { ConcatAssoc(s[..k], " ", j); }
      s[..k] + " " + j;
      { JoinCons(" ", s[..k], Words(t)); }
      JoinWith(" ", [s[..k]] + Words(t));
      JoinWith(" ", Words(s));
    }
  }

  /** What follows the first word of a stripped string with more words is, once its leading whitespace is dropped, stripped and shorter. */
  lemma RestAfterWord(s: string, k: nat)
    requires IsStripped(s) && 1 <= k < |s|
    ensures IsStripped(DropSpaces(s[k..])) && |DropSpaces(s[k..])| < |s|
  {
    var u := s[k..];
    assert u[|u| - 1] == s[|s| - 1];
    DropSpacesKeepsLast(u);
  }

  /** Concatenation regroups freely. */
  lemma ConcatAssoc(a: string, b: string, c: string)
    ensures a + (b + c) == a + b + c
  {
  }

  /** Joining a part in front of at least one more puts the separator between them. */
  lemma JoinCons(sep: string, w: string, ws: seq<string>)
    requires ws != []
    ensures JoinWith(sep, [w] + ws) == w + sep + JoinWith(sep, ws)
  {
    assert ([w] + ws)[1..] == ws;
  }

  /** Leading whitespace before a non-empty rest stays in front of it. */
  lemma {:induction false} DropSpacesAppend(x: string, y: string)
    ensures DropSpaces(x + y) == if DropSpaces(x) == [] then DropSpaces(y) else DropSpaces(x) + y
    decreases |x|
  {
    if x == [] {
      assert x + y == y;
    } else if IsSpace(x[0]) {
      assert (x + y)[1..] == x[1..] + y;
      DropSpacesAppend(x[1..], y);
    }
  }

  /** A trailing whitespace character does not change the leading word. */
  lemma {:induction false} LeadingWordAppendSpace(x: string, c: char)
    requires IsSpace(c)
    ensures LeadingWord(x + [c]) == LeadingWord(x)
    decreases |x|
  {
    if x != [] && !IsSpace(x[0]) {
      assert (x + [c])[1..] == x[1..] + [c];
      LeadingWordAppendSpace(x[1..], c);
    }
  }

  /** A trailing whitespace character adds no word. */
  lemma {:induction false} WordsAppendSpace(x: string, c: char)
    requires IsSpace(c)
    ensures Words(x + [c]) == Words(x)
    decreases |x|, 1
  {
    DropSpacesAppend(x, [c]);
    var tx := DropSpaces(x);
    if tx != [] {
      WordsAppendSpaceAfterWord(x, c, tx);
    } else {
      assert DropSpaces([c]) == DropSpaces([c][1..]);
      assert DropSpaces(x + [c]) == [];
    }
  }

  /** The step of `WordsAppendSpace` once the leading whitespace of `x` is skipped. */
  lemma {:induction false} WordsAppendSpaceAfterWord(x: string, c: char, tx: string)
    requires IsSpace(c) && tx == DropSpaces(x) != []
    requires DropSpaces(x + [c]) == tx + [c]
    ensures Words(x + [c]) == Words(x)
    decreases |x|, 0
  {
    var t := tx + [c];
    LeadingWordAppendSpace(tx, c);
    var k := LeadingWord(tx);
    WordsDrop(x + [c]);
    WordsDrop(x);
    WordsCons(t);
    WordsCons(tx);
    SlicesOfAppend(tx, c, k);
    WordsAppendSpace(tx[k..], c);
  }

  /** Cutting `a + [c]` at a point inside `a`. */
  lemma SlicesOfAppend(a: string, c: char, k: nat)
    requires k <= |a|
    ensures (a + [c])[..k] == a[..k] && (a + [c])[k..] == a[k..] + [c]
  {
  }

  /** Leading whitespace adds no word. */
  lemma WordsDrop(s: string)
    ensures Words(s) == Words(DropSpaces(s))
  {
    var t := DropSpaces(s);
    assert DropSpaces(t) == t;
  }

  /** A string that starts with a word splits into that word and the words of the rest. */
  lemma WordsCons(t: string)
    requires t != [] && !IsSpace(t[0])
    ensures Words(t) == [t[..LeadingWord(t)]] + Words(t[LeadingWord(t)..])
  {
    assert DropSpaces(t) == t;
  }

  /** A leading whitespace character adds no word. */
  lemma WordsSkipSpace(s: string)
    requires s != [] && IsSpace(s[0])
    ensures Words(s) == Words(s[1..])
  {
    assert DropSpaces(s) == DropSpaces(s[1..]);
  }

  /** `strip()` changes no word. */
  lemma {:induction false} WordsOfStrip(s: string)
    ensures Words(Strip(s)) == Words(s)
    decreases |s|
  {
    if s != [] && IsSpace(s[0]) {
      WordsSkipSpace(s);
      WordsOfStrip(s[1..]);
    } else if s != [] && IsSpace(s[|s| - 1]) {
      var x := s[..|s| - 1];
      assert s == x + [s[|s| - 1]];
      WordsAppendSpace(x, s[|s| - 1]);
      WordsOfStrip(x);
    }
  }

  /**
   * `re.sub(r'\s+', ' ', s.strip())` is `" ".join(s.split())`: the words
   * kept in order, each whitespace run between two of them turned into
   * exactly one space.
   */
  lemma CollapseIsJoinedWords(s: string)
    ensures CollapseSpaces(Strip(s)) == JoinWith(" ", Words(s))
  {
    StripIsStripped(s);
    CollapseStrippedIsJoinedWords(Strip(s));
    WordsOfStrip(s);
  }

  /**
   * `re.sub(r'[&\s]+$', '', s)` on a string with no line break: the longest
   * trailing run of `&` and whitespace is removed.
   */
  function TrimTrailingAmpersands(s: string): (r: string)
    ensures |r| <= |s| && r == s[..|r|]
    ensures r == [] || (r[|r| - 1] != '&' && !IsSpace(r[|r| - 1]))
    ensures forall i :: |r| <= i < |s| ==> s[i] == '&' || IsSpace(s[i])
  {
    if |s| > 0 && (s[|s| - 1] == '&' || IsSpace(s[|s| - 1])) then TrimTrailingAmpersands(s[..|s| - 1])
    else s
  }

  /**
   * `re.sub(r'[&\s]+$', '', s)` drops, of the characters that are not
   * whitespace, only a trailing run of `&`.
   */
  lemma TrimKeepsNonSpace(s: string)
    ensures NonSpace(TrimTrailingAmpersands(s)) <= NonSpace(s)
    ensures forall k :: |NonSpace(TrimTrailingAmpersands(s))| <= k < |NonSpace(s)| ==> NonSpace(s)[k] == '&'
  {
    var r := TrimTrailingAmpersands(s);
    var x := s[|r|..];
    assert s == r + x;
    NonSpaceAppend(r, x);
    forall k | 0 <= k < |NonSpace(x)| ensures NonSpace(x)[k] == '&' {
      var c := NonSpace(x)[k];
      NonSpaceKeepsOnly(x, c);
      var h :| 0 <= h < |x| && x[h] == c;
      assert x[h] == s[|r| + h];
    }
  }

  /** Whitespace in `s` is single spaces only, never two in a row. */
  predicate SingleSpaced(s: string) {
    && (forall i :: 0 <= i < |s| && IsSpace(s[i]) ==> s[i] == ' ')
    && (forall i :: 0 <= i < |s| - 1 ==> !(s[i] == ' ' && s[i + 1] == ' '))
  }

  /** Every slice of a single-spaced string is single-spaced. */
  lemma SingleSpacedSlice(s: string, i: nat, j: nat)
    requires i <= j <= |s| && SingleSpaced(s)
    ensures SingleSpaced(s[i..j])
  {
    var t := s[i..j];
    forall k | 0 <= k < |t| - 1 ensures !(t[k] == ' ' && t[k + 1] == ' ') {
      assert t[k] == s[i + k] && t[k + 1] == s[i + k + 1];
    }
  }

  // ---------------------------------------------------------------- first / last match scans

  /**
   * The least `k` in `[lo, hi)` with `p(k)`, or -1 when there is none: what a
   * `for k in range(lo, hi): if p(k): ... break` loop settles on.
   */
  function FirstIn(lo: int, hi: int, p: int -> bool): (r: int)
    requires 0 <= lo
    ensures r == -1 || (lo <= r < hi && p(r))
    ensures forall k :: lo <= k < hi && (r == -1 || k < r) ==> !p(k)
    decreases hi - lo
  {
    if lo >= hi then -1
    else if p(lo) then lo
    else FirstIn(lo + 1, hi, p)
  }

  /** The greatest `k` in `[lo, hi)` with `p(k)`, or -1: the last value a loop that keeps overwriting holds. */
  function LastIn(lo: int, hi: int, p: int -> bool): (r: int)
    requires 0 <= lo
    ensures r == -1 || (lo <= r < hi && p(r))
    ensures forall k :: lo <= k < hi && (r == -1 || k > r) ==> !p(k)
    decreases hi - lo
  {
    if lo >= hi then -1
    else if p(hi - 1) then hi - 1
    else LastIn(lo, hi - 1, p)
  }

  /** A witness `i` with no earlier match is what `FirstIn` returns. */
  lemma FirstInAt(lo: int, hi: int, p: int -> bool, i: int)
    requires 0 <= lo <= i < hi && p(i)
    requires forall k :: lo <= k < i ==> !p(k)
    ensures FirstIn(lo, hi, p) == i
  {
  }

  /** With no match in the range, `FirstIn` returns -1. */
  lemma FirstInNone(lo: int, hi: int, p: int -> bool)
    requires 0 <= lo
    requires forall k :: lo <= k < hi ==> !p(k)
    ensures FirstIn(lo, hi, p) == -1
  {
  }
}
