/**
 * Strategy B of `extract_all_items`: line items laid out in vertical columns.
 * HS-code lines in the search window are each followed, within nine lines,
 * by their description; from the first description on, up to thirty lines
 * are read for quantity, rate and total columns, which are then zipped with
 * the descriptions.
 */
module Vertical {
  import opened Text
  import opened Patterns
  import opened Sections

  // ---------------------------------------------------------------- line tests

  /** `re.match(r'^\d{8}$', ln.strip())` on the stripped line `t`: an eight-digit HS code. */
  predicate IsHsCode(t: string) {
    IsNumber(t, 8, 8)
  }

  /** The index of the first character at or after `i` that is not a digit (`|s|` if none). */
  function SkipDigits(s: string, i: nat): (k: nat)
    requires i <= |s|
    ensures i <= k <= |s|
    ensures k < |s| ==> !IsDigit(s[k])
    decreases |s| - i
  {
    if i < |s| && IsDigit(s[i]) then SkipDigits(s, i + 1) else i
  }

  /**
   * `re.match(r'^\d+\s+(KGS|NOS|PCS)', t)`: a run of digits, a run of
   * whitespace, then one of the three units.  Neither run can give back a
   * character to the next part, so the match is decided by the longest runs.
   */
  predicate StartsWithCountAndUnit(t: string) {
    var a := SkipDigits(t, 0);
    var b := SkipSpace(t, a);
    0 < a < b && b + 3 <= |t| && t[b..b + 3] in {"KGS", "NOS", "PCS"}
  }

  /** The description test of lines 162-167 on a stripped line `t`, given the descriptions found so far. */
  predicate DescriptionTest(t: string, found: seq<string>) {
    && t != ""
    && IsUpper(t[0])
    && !IsDigits(t)
    && !StartsWithCountAndUnit(t)
    && |t| > 5
    && t !in found
  }

  /** What a vertical description looks like: more than five characters, the first an upper-case letter. */
  predicate IsDescriptionShape(t: string) {
    |t| > 5 && IsUpper(t[0])
  }

  /** A description-shaped line not found yet. */
  predicate LooksLikeDescription(t: string, found: seq<string>) {
    IsDescriptionShape(t) && t !in found
  }

  /**
   * The two digit tests of the description filter can never reject a line
   * that starts with an upper-case letter: the filter is the shape test plus
   * "not found yet".
   */
  lemma DescriptionTestSimplifies(t: string, found: seq<string>)
    ensures DescriptionTest(t, found) <==> LooksLikeDescription(t, found)
  {
    if t != "" && IsUpper(t[0]) {
      assert !IsDigit(t[0]);
      assert SkipDigits(t, 0) == 0;
    }
  }

  /** The first line in `[j, end)` that, stripped, looks like a new description; -1 if none does. */
  function FirstDescription(lines: seq<string>, j: nat, end: nat, found: seq<string>): (r: int)
    requires end <= |lines|
    ensures r == -1 || (j <= r < end && LooksLikeDescription(StripAll(lines)[r], found))
    decreases end - j
  {
    if j >= end then -1
    else if LooksLikeDescription(StripAll(lines)[j], found) then j
    else FirstDescription(lines, j + 1, end, found)
  }

  /** No line in `[j, end)` before the one `FirstDescription` settles on looks like a new description. */
  lemma {:induction false} FirstDescriptionIsFirst(lines: seq<string>, j: nat, end: nat, found: seq<string>, x: nat)
    requires end <= |lines| && j <= x < end
    requires var r := FirstDescription(lines, j, end, found); r == -1 || x < r
    ensures !LooksLikeDescription(StripAll(lines)[x], found)
    decreases end - j
  {
    if x > j {
      FirstDescriptionIsFirst(lines, j + 1, end, found, x);
    }
  }

  /**
   * The line the description lookahead after the code on line `i` settles on
   * (lines 159-170): the first of the next nine lines, inside the window,
   * that looks like a new description; -1 if none does.
   */
  function DescriptionAfter(lines: seq<string>, i: nat, hi: nat, found: seq<string>): (j: int)
    requires hi <= |lines|
    ensures j == -1 || (i < j < Min(i + 10, hi) && LooksLikeDescription(StripAll(lines)[j], found))
  {
    FirstDescription(lines, i + 1, Min(i + 10, hi), found)
  }

  // ---------------------------------------------------------------- the description pass

  /**
   * What the description pass has found: the descriptions, the lines they are
   * on, and the lines of the HS codes they follow.
   */
  datatype Found = Found(descriptions: seq<string>, indices: seq<int>, codes: seq<int>)

  /**
   * Each description was found after a code line read before line `i`, on
   * one of the nine lines that follow it, inside the window `[lo, hi)`.
   */
  predicate InWindow(f: Found, lo: int, hi: int, i: int) {
    |f.descriptions| == |f.indices| == |f.codes| &&
    forall k :: 0 <= k < |f.indices| ==> lo <= f.codes[k] < f.indices[k] < Min(f.codes[k] + 10, hi) && f.codes[k] < i
  }

  predicate Increasing(xs: seq<int>) {
    forall a, b :: 0 <= a < b < |xs| ==> xs[a] < xs[b]
  }

  /**
   * Reading line `i` of the window `[.., hi)` in the description pass
   * (lines 155-170): an HS-code line appends the first new description among
   * its next nine lines, if there is one.
   */
  function ReadLine(lines: seq<string>, hi: nat, i: nat, f: Found): (g: Found)
    requires i < hi <= |lines|
    requires |f.descriptions| == |f.indices| == |f.codes|
    ensures |g.descriptions| == |g.indices| == |g.codes|
  {
    var j := if IsHsCode(StripAll(lines)[i]) then DescriptionAfter(lines, i, hi, f.descriptions) else -1;
    if j >= 0 then Found(f.descriptions + [StripAll(lines)[j]], f.indices + [j], f.codes + [i])
    else f
  }

  /** The description pass over the window `[lo, hi)` once lines `lo` to `i - 1` are read. */
  function Scan(lines: seq<string>, lo: nat, hi: nat, i: nat): (f: Found)
    requires lo <= i <= hi <= |lines|
    ensures |f.descriptions| == |f.indices| == |f.codes|
    decreases i - lo
  {
    if i == lo then Found([], [], []) else ReadLine(lines, hi, i - 1, Scan(lines, lo, hi, i - 1))
  }

  /** Every description is the stripped line it was found on, and follows an HS-code line. */
  predicate Located(lines: seq<string>, f: Found) {
    && |f.descriptions| == |f.indices| == |f.codes|
    && forall k :: 0 <= k < |f.indices| ==>
      && 0 <= f.codes[k] < f.indices[k] < |lines|
      && IsHsCode(StripAll(lines)[f.codes[k]])
      && f.descriptions[k] == StripAll(lines)[f.indices[k]]
  }

  /** No description is found twice. */
  predicate Distinct(ds: seq<string>) {
    forall a, b :: 0 <= a < b < |ds| ==> ds[a] != ds[b]
  }

  predicate AllDescriptions(ds: seq<string>) {
    forall k :: 0 <= k < |ds| ==> IsDescriptionShape(ds[k])
  }

  /** The descriptions found are located, distinct and description-shaped. */
  predicate Clean(lines: seq<string>, f: Found) {
    Located(lines, f) && Distinct(f.descriptions) && AllDescriptions(f.descriptions)
  }

  /** Reading one more line keeps the descriptions located, distinct and description-shaped. */
  lemma ReadLineKeepsClean(lines: seq<string>, hi: nat, i: nat, f: Found)
    requires i < hi <= |lines| && Clean(lines, f)
    ensures Clean(lines, ReadLine(lines, hi, i, f))
  {
    if IsHsCode(StripAll(lines)[i]) {
      var j := DescriptionAfter(lines, i, hi, f.descriptions);
      if j >= 0 {
        var t := StripAll(lines)[j];
        var ds := f.descriptions + [t];
        forall a, b | 0 <= a < b < |ds| ensures ds[a] != ds[b] {
          if b == |ds| - 1 {
            assert ds[a] == f.descriptions[a];
          }
        }
      }
    }
  }

  /** Each description lies after its code, within nine lines, inside the window; the codes are read in order. */
  predicate Anchored(f: Found, lo: int, hi: int, i: int) {
    InWindow(f, lo, hi, i) && Increasing(f.codes)
  }

  /** Reading line `i` keeps each description after its code and the codes in order. */
  lemma ReadLineKeepsOrdered(lines: seq<string>, lo: nat, hi: nat, i: nat, f: Found)
    requires lo <= i < hi <= |lines| && Anchored(f, lo, hi, i)
    ensures Anchored(ReadLine(lines, hi, i, f), lo, hi, i + 1)
  {
    var g := ReadLine(lines, hi, i, f);
    if g != f {
      var j := DescriptionAfter(lines, i, hi, f.descriptions);
      assert i < j < Min(i + 10, hi);
      assert g.codes == f.codes + [i] && g.indices == f.indices + [j];
      forall k | 0 <= k < |g.indices|
        ensures lo <= g.codes[k] < g.indices[k] < Min(g.codes[k] + 10, hi) && g.codes[k] < i + 1
      {
        if k < |f.indices| {
          assert g.codes[k] == f.codes[k] && g.indices[k] == f.indices[k];
        }
      }
      forall a, b | 0 <= a < b < |g.codes| ensures g.codes[a] < g.codes[b] {
        assert g.codes[a] == f.codes[a];
      }
    }
  }

  /**
   * The description pass reads the code lines in order, and finds each
   * description on one of the nine lines after its code, inside the window.
   */
  lemma ScanInWindow(lines: seq<string>, lo: nat, hi: nat, i: nat)
    requires lo <= i <= hi <= |lines|
    ensures Anchored(Scan(lines, lo, hi, i), lo, hi, i)
  {
    var k := lo;
    while k < i
      invariant lo <= k <= i
      invariant Anchored(Scan(lines, lo, hi, k), lo, hi, k)
    {
      ReadLineKeepsOrdered(lines, lo, hi, k, Scan(lines, lo, hi, k));
      k := k + 1;
    }
  }

  /**
   * The description pass finds distinct descriptions, each the stripped
   * line it was found on, more than five characters long and starting with
   * an upper-case letter, each after an HS-code line.
   */
  lemma ScanFindsDescriptions(lines: seq<string>, lo: nat, hi: nat, i: nat)
    requires lo <= i <= hi <= |lines|
    ensures Clean(lines, Scan(lines, lo, hi, i))
  {
    var k := lo;
    while k < i
      invariant lo <= k <= i
      invariant Clean(lines, Scan(lines, lo, hi, k))
    {
      ReadLineKeepsClean(lines, hi, k, Scan(lines, lo, hi, k));
      k := k + 1;
    }
  }

  /** Reading more lines only appends to the code lines recorded. */
  lemma {:induction false} ScanCodesGrow(lines: seq<string>, lo: nat, hi: nat, i: nat, k: nat)
    requires lo <= i <= k <= hi <= |lines|
    ensures Scan(lines, lo, hi, i).codes <= Scan(lines, lo, hi, k).codes
    decreases k - i
  {
    if i < k {
      ScanCodesGrow(lines, lo, hi, i, k - 1);
    }
  }

  /**
   * The description pass misses no description: an HS-code line of the
   * window that takes no description has, among the nine lines after it
   * inside the window, none that looks like a description not found before.
   */
  lemma ScanMissesNoDescription(lines: seq<string>, lo: nat, hi: nat, c: nat)
    requires lo <= c < hi <= |lines| && IsHsCode(StripAll(lines)[c])
    ensures c !in Scan(lines, lo, hi, hi).codes ==>
      forall j :: c < j < Min(c + 10, hi) ==>
        !LooksLikeDescription(StripAll(lines)[j], Scan(lines, lo, hi, c).descriptions)
  {
    var f := Scan(lines, lo, hi, c);
    var found := f.descriptions;
    if DescriptionAfter(lines, c, hi, found) >= 0 {
      assert Scan(lines, lo, hi, c + 1).codes == f.codes + [c];
      ScanCodesGrow(lines, lo, hi, c + 1, hi);
      assert Scan(lines, lo, hi, hi).codes[|f.codes|] == c;
    } else {
      forall j | c < j < Min(c + 10, hi) ensures !LooksLikeDescription(StripAll(lines)[j], found) {
        FirstDescriptionIsFirst(lines, c + 1, Min(c + 10, hi), found, j);
      }
    }
  }

  /** The description test of lines 162-167, as the extractor writes it, on one stripped line. */
  method TestDescription(t: string, found: seq<string>) returns (b: bool)
    ensures b == LooksLikeDescription(t, found)
  {
    DescriptionTestSimplifies(t, found);
    b := DescriptionTest(t, found);
  }

  /** The lookahead after one code line (lines 159-170). */
  method FindDescription(lines: seq<string>, i: nat, hi: nat, found: seq<string>) returns (j: int)
    requires hi <= |lines|
    ensures j == DescriptionAfter(lines, i, hi, found)
  {
    var k := i + 1;
    while k < Min(i + 10, hi)
      invariant DescriptionAfter(lines, i, hi, found) == FirstDescription(lines, k, Min(i + 10, hi), found)
      decreases hi - k
    {
      var lineText := Strip(lines[k]);
      StripAllAt(lines, k);
      var isDescription := TestDescription(lineText, found);
      if isDescription {
        return k;
      }
      k := k + 1;
    }
    j := -1;
  }

  /**
   * The description pass (lines 149-170): every HS-code line of the window
   * not yet processed takes the first new description among its next lines.
   */
  method CollectDescriptions(lines: seq<string>, lo: nat, hi: nat) returns (descriptions: seq<string>, indices: seq<int>)
    requires lo <= hi <= |lines|
    ensures descriptions == Scan(lines, lo, hi, hi).descriptions
    ensures indices == Scan(lines, lo, hi, hi).indices
  {
    descriptions := [];
    indices := [];
    ghost var codes: seq<int> := [];
    var hsCodeIndices: set<int> := {};
    for i := lo to hi
      invariant Found(descriptions, indices, codes) == Scan(lines, lo, hi, i)
      invariant forall x :: x in hsCodeIndices ==> x < i
    {
      var ln := lines[i];
      StripAllAt(lines, i);
      var j := -1;
      if IsHsCode(Strip(ln)) && i !in hsCodeIndices {
        hsCodeIndices := hsCodeIndices + {i};
        j := FindDescription(lines, i, hi, descriptions);
      }
      if j >= 0 {
        StripAllAt(lines, j);
        descriptions := descriptions + [Strip(lines[j])];
        indices := indices + [j];
        codes := codes + [i];
      }
    }
  }

  // ---------------------------------------------------------------- the column pass

  /** The quantity, rate and total columns collected so far. */
  datatype Columns = Columns(quantities: seq<string>, rates: seq<string>, totals: seq<string>)

  const NoColumns: Columns := Columns([], [], [])

  /** `re.match(r'^(KGS|NOS|PCS|MTR|LTR|UNT|BOX)$', line.strip())` */
  predicate IsUnit(t: string) {
    t in Units
  }

  /** The end of the unit lookahead after line `i`: `min(i + 5, len(lines))`. */
  function LookaheadEnd(lines: seq<string>, i: nat): nat {
    Min(i + 5, |lines|)
  }

  /** Some line in `[j, end)` is a unit token on its own. */
  predicate UnitWithin(lines: seq<string>, j: nat, end: nat)
    requires end <= |lines|
    decreases end - j
  {
    j < end && (IsUnit(StripAll(lines)[j]) || UnitWithin(lines, j + 1, end))
  }

  /** The unit lookahead (lines 187-190): one of the next four lines is a unit token on its own. */
  predicate UnitAhead(lines: seq<string>, i: nat) {
    UnitWithin(lines, i + 1, LookaheadEnd(lines, i))
  }

  /**
   * Reading one stripped line of the column pass (lines 183-198) with `n`
   * descriptions, `unitAhead` telling whether a unit token follows it: the
   * three tests run one after the other, each on the columns as the earlier
   * ones left them. Each column either stays as it was or gains this line
   * at its end, and only when the line has that column's digit count (and,
   * for a quantity, a unit follows); a column holding `n` entries is full.
   */
  function ColumnStep(line: string, unitAhead: bool, n: nat, c: Columns): (c': Columns)
    ensures c'.quantities == c.quantities || (IsNumber(line, 2, 4) && unitAhead && c'.quantities == c.quantities + [line])
    ensures c'.rates == c.rates || (IsNumber(line, 1, 2) && c'.rates == c.rates + [line])
    ensures c'.totals == c.totals || (IsNumber(line, 3, 5) && c'.totals == c.totals + [line])
    ensures |c.quantities| >= n ==> c'.quantities == c.quantities
    ensures |c.rates| >= n ==> c'.rates == c.rates
    ensures |c.totals| >= n ==> c'.totals == c.totals
  {
    var q := if IsNumber(line, 2, 4) && |c.quantities| < n && unitAhead then c.quantities + [line] else c.quantities;
    var r := if IsNumber(line, 1, 2) && |q| > |c.rates| && |c.rates| < n then c.rates + [line] else c.rates;
    var t := if IsNumber(line, 3, 5) && |r| > |c.totals| && |c.totals| < n then c.totals + [line] else c.totals;
    Columns(q, r, t)
  }

  /** The column pass from line `start` once lines `start` to `i - 1` are read. */
  function ColumnsUpTo(lines: seq<string>, start: nat, n: nat, i: nat): Columns
    requires start <= i <= |lines|
    decreases i - start
  {
    if i == start then NoColumns
    else ColumnStep(StripAll(lines)[i - 1], UnitAhead(lines, i - 1), n, ColumnsUpTo(lines, start, n, i - 1))
  }

  /** The column pass (lines 182-198): thirty lines from `start`, or to the end. */
  function ColumnsOf(lines: seq<string>, start: nat, n: nat): Columns
    requires start <= |lines|
  {
    ColumnsUpTo(lines, start, n, Min(start + 30, |lines|))
  }

  /**
   * The columns' invariant: no more totals than rates, no more rates than
   * quantities, no more quantities than descriptions; quantities of two to
   * four digits, rates of one or two, totals of three to five.
   */
  predicate Ordered(c: Columns, n: nat) {
    && |c.totals| <= |c.rates| <= |c.quantities| <= n
    && (forall k :: 0 <= k < |c.quantities| ==> IsNumber(c.quantities[k], 2, 4))
    && (forall k :: 0 <= k < |c.rates| ==> IsNumber(c.rates[k], 1, 2))
    && (forall k :: 0 <= k < |c.totals| ==> IsNumber(c.totals[k], 3, 5))
  }

  /** Reading a line keeps the columns ordered. */
  lemma ColumnStepKeepsOrdered(line: string, unitAhead: bool, n: nat, c: Columns)
    requires Ordered(c, n)
    ensures Ordered(ColumnStep(line, unitAhead, n, c), n)
  {
  }

  /** The column pass always leaves its columns ordered. */
  lemma {:induction false} ColumnsOrdered(lines: seq<string>, start: nat, n: nat, i: nat)
    requires start <= i <= |lines|
    ensures Ordered(ColumnsUpTo(lines, start, n, i), n)
    decreases i - start
  {
    if i > start {
      ColumnsOrdered(lines, start, n, i - 1);
      ColumnStepKeepsOrdered(StripAll(lines)[i - 1], UnitAhead(lines, i - 1), n, ColumnsUpTo(lines, start, n, i - 1));
    }
  }

  /**
   * A two-digit line followed by a unit, read while as many rates as
   * quantities are held and a quantity is still missing, becomes a quantity
   * and then, in the same step, a rate as well.
   */
  lemma TwoDigitLineIsQuantityAndRate(line: string, n: nat, c: Columns)
    requires Ordered(c, n) && IsNumber(line, 2, 2)
    requires |c.rates| == |c.quantities| < n
    ensures var c' := ColumnStep(line, true, n, c);
      c'.quantities == c.quantities + [line] && c'.rates == c.rates + [line]
  {
  }

  /**
   * A three- or four-digit line followed by a unit, read while a total is
   * owed to a rate and a quantity is still missing, becomes a quantity and
   * then, in the same step, a total as well.
   */
  lemma LongLineIsQuantityAndTotal(line: string, n: nat, c: Columns)
    requires Ordered(c, n) && IsNumber(line, 3, 4)
    requires |c.quantities| < n && |c.rates| > |c.totals|
    ensures var c' := ColumnStep(line, true, n, c);
      c'.quantities == c.quantities + [line] && c'.totals == c.totals + [line]
      && c'.rates == c.rates
  {
  }

  /** The unit lookahead after a candidate quantity (lines 187-190). */
  method HasUnitAhead(lines: seq<string>, i: nat) returns (found: bool)
    ensures found == UnitAhead(lines, i)
  {
    var j := i + 1;
    while j < LookaheadEnd(lines, i)
      invariant UnitAhead(lines, i) == UnitWithin(lines, j, LookaheadEnd(lines, i))
      decreases LookaheadEnd(lines, i) - j
    {
      StripAllAt(lines, j);
      if IsUnit(Strip(lines[j])) {
        return true;
      }
      j := j + 1;
    }
    found := false;
  }

  /** One line of the column pass (lines 183-198): the quantity, rate and total tests in turn. */
  method ReadColumnLine(lines: seq<string>, i: nat, n: nat, c: Columns) returns (c': Columns)
    requires i < |lines|
    ensures c' == ColumnStep(StripAll(lines)[i], UnitAhead(lines, i), n, c)
  {
    var quantities, rates, totals := c.quantities, c.rates, c.totals;
    var line := Strip(lines[i]);
    StripAllAt(lines, i);
    if IsNumber(line, 2, 4) && |quantities| < n {
      var unit := HasUnitAhead(lines, i);
      if unit {
        quantities := quantities + [line];
      }
    }
    if IsNumber(line, 1, 2) && |quantities| > |rates| && |rates| < n {
      rates := rates + [line];
    }
    if IsNumber(line, 3, 5) && |rates| > |totals| && |totals| < n {
      totals := totals + [line];
    }
    c' := Columns(quantities, rates, totals);
  }

  /** The column pass (lines 178-198) for `n` descriptions, from line `start`. */
  method CollectColumns(lines: seq<string>, start: nat, n: nat) returns (quantities: seq<string>, rates: seq<string>, totals: seq<string>)
    requires start <= |lines|
    ensures Columns(quantities, rates, totals) == ColumnsOf(lines, start, n)
  {
    quantities := [];
    rates := [];
    totals := [];
    for i := start to Min(start + 30, |lines|)
      invariant Columns(quantities, rates, totals) == ColumnsUpTo(lines, start, n, i)
    {
      var c := ReadColumnLine(lines, i, n, Columns(quantities, rates, totals));
      quantities, rates, totals := c.quantities, c.rates, c.totals;
    }
  }

  // ---------------------------------------------------------------- zipping

  /** `col[k] if k < len(col) else ""` */
  function Cell(col: seq<string>, k: nat): string {
    if k < |col| then col[k] else ""
  }

  /**
   * One item per description, with the k-th entry of each column or ""
   * (lines 201-208): the descriptions keep their order, item k takes the k-th
   * entry of each column, and a column shorter than the descriptions leaves
   * the later items' cells empty.
   */
  function ZipItems(descriptions: seq<string>, c: Columns): (items: seq<Item>)
    ensures |items| == |descriptions|
    ensures forall k :: 0 <= k < |items| ==> items[k].description == descriptions[k]
    ensures forall k :: 0 <= k < |items| && k < |c.quantities| ==> items[k].qty == c.quantities[k]
    ensures forall k :: 0 <= k < |items| && k < |c.rates| ==> items[k].rate == c.rates[k]
    ensures forall k :: 0 <= k < |items| && k < |c.totals| ==> items[k].total == c.totals[k]
    ensures forall k :: 0 <= k < |items| && k >= |c.quantities| ==> items[k].qty == ""
    ensures forall k :: 0 <= k < |items| && k >= |c.rates| ==> items[k].rate == ""
    ensures forall k :: 0 <= k < |items| && k >= |c.totals| ==> items[k].total == ""
  {
    seq(|descriptions|, k requires 0 <= k < |descriptions| =>
      Item(descriptions[k], Cell(c.quantities, k), Cell(c.rates, k), Cell(c.totals, k)))
  }

  /** The item-building loop (lines 201-208). */
  method ZipColumns(descriptions: seq<string>, quantities: seq<string>, rates: seq<string>, totals: seq<string>) returns (items: seq<Item>)
    ensures items == ZipItems(descriptions, Columns(quantities, rates, totals))
  {
    items := [];
    for idx := 0 to |descriptions|
      invariant |items| == idx
      invariant forall k :: 0 <= k < idx ==>
        items[k] == Item(descriptions[k], Cell(quantities, k), Cell(rates, k), Cell(totals, k))
    {
      var qty := if idx < |quantities| then quantities[idx] else "";
      var rate := if idx < |rates| then rates[idx] else "";
      var total := if idx < |totals| then totals[idx] else "";
      items := items + [Item(descriptions[idx], qty, rate, total)];
    }
  }

  // ---------------------------------------------------------------- the strategy

  /** The description pass over the window the markers select (lines 136-170). */
  function DescriptionPass(lines: seq<string>, m: Markers): (f: Found)
    requires m.itemStart < |lines|
    ensures |f.descriptions| == |f.indices|
    ensures forall k :: 0 <= k < |f.indices| ==> 0 < f.indices[k] < |lines|
  {
    var w := VerticalWindow(lines, m);
    ScanInWindow(lines, w.lo, w.hi, w.hi);
    assert InWindow(Scan(lines, w.lo, w.hi, w.hi), w.lo, w.hi, w.hi);
    Scan(lines, w.lo, w.hi, w.hi)
  }

  /** Strategy B's items (lines 133-208): exactly one per description the description pass finds. */
  function VerticalItems(lines: seq<string>, m: Markers): (items: seq<Item>)
    requires m.itemStart < |lines|
    ensures |items| == |DescriptionPass(lines, m).descriptions|
  {
    var f := DescriptionPass(lines, m);
    if f.descriptions == [] then []
    else ZipItems(f.descriptions, ColumnsOf(lines, f.indices[0], |f.descriptions|))
  }

  function DescriptionsOf(items: seq<Item>): seq<string> {
    seq(|items|, k requires 0 <= k < |items| => items[k].description)
  }

  /** What one Strategy B item looks like. */
  predicate IsVerticalItem(it: Item) {
    && IsDescriptionShape(it.description)
    && (it.qty == "" || IsNumber(it.qty, 2, 4))
    && (it.rate == "" || IsNumber(it.rate, 1, 2))
    && (it.total == "" || IsNumber(it.total, 3, 5))
    && (it.total != "" ==> it.rate != "")
    && (it.rate != "" ==> it.qty != "")
  }

  predicate AllVertical(items: seq<Item>) {
    forall k :: 0 <= k < |items| ==> IsVerticalItem(items[k])
  }

  /** Zipping ordered columns with description-shaped lines gives vertical items, one per description. */
  lemma ZipOrderedColumns(descriptions: seq<string>, c: Columns)
    requires AllDescriptions(descriptions) && Ordered(c, |descriptions|)
    ensures AllVertical(ZipItems(descriptions, c))
    ensures DescriptionsOf(ZipItems(descriptions, c)) == descriptions
  {
    var items := ZipItems(descriptions, c);
    forall k | 0 <= k < |items| ensures IsVerticalItem(items[k]) {
      assert items[k] == Item(descriptions[k], Cell(c.quantities, k), Cell(c.rates, k), Cell(c.totals, k));
    }
  }

  /**
   * Strategy B gives one item per description found, in order, the
   * descriptions distinct; item k's cells are the k-th entries of the
   * columns read from the first description's line on, or "" past a
   * column's end; each cell is "" or a number of the column's width, with
   * no total without a rate and no rate without a quantity.
   */
  lemma VerticalItemsShape(lines: seq<string>, m: Markers)
    requires m.itemStart < |lines|
    ensures DescriptionsOf(VerticalItems(lines, m)) == DescriptionPass(lines, m).descriptions
    ensures Distinct(DescriptionsOf(VerticalItems(lines, m)))
    ensures AllVertical(VerticalItems(lines, m))
    ensures var f := DescriptionPass(lines, m);
      f.descriptions != [] ==>
        var c := ColumnsOf(lines, f.indices[0], |f.descriptions|);
        forall k :: 0 <= k < |VerticalItems(lines, m)| ==>
          && VerticalItems(lines, m)[k].qty == Cell(c.quantities, k)
          && VerticalItems(lines, m)[k].rate == Cell(c.rates, k)
          && VerticalItems(lines, m)[k].total == Cell(c.totals, k)
  {
    var w := VerticalWindow(lines, m);
    var f := DescriptionPass(lines, m);
    ScanFindsDescriptions(lines, w.lo, w.hi, w.hi);
    assert Distinct(f.descriptions) && AllDescriptions(f.descriptions);
    if f.descriptions != [] {
      var start := f.indices[0];
      ColumnsOrdered(lines, start, |f.descriptions|, Min(start + 30, |lines|));
      ZipOrderedColumns(f.descriptions, ColumnsOf(lines, start, |f.descriptions|));
    }
  }
}
