/**
 * The text normalizer, `clean_lines`: the full text recovered from a
 * document becomes its sequence of stripped, non-blank lines, in order.
 */
module Normalizer {
  import opened Text

  /** The stripped parts that are not blank, in their original order. */
  function NonBlank(parts: seq<string>): (kept: seq<string>)
    ensures |kept| <= |parts|
    decreases |parts|
  {
    if parts == [] then []
    else
      var s := Strip(parts[|parts| - 1]);
      NonBlank(parts[..|parts| - 1]) + (if s != "" then [s] else [])
  }

  /** Every kept part is non-blank and already stripped, and keeps the parts' freedom from line breaks. */
  lemma {:induction false} NonBlankIsClean(parts: seq<string>)
    ensures forall k :: 0 <= k < |NonBlank(parts)| ==> IsStripped(NonBlank(parts)[k])
    ensures (forall k :: 0 <= k < |parts| ==> '\n' !in parts[k]) ==> forall k :: 0 <= k < |NonBlank(parts)| ==> '\n' !in NonBlank(parts)[k]
    decreases |parts|
  {
    if parts != [] {
      var init := parts[..|parts| - 1];
      var last := parts[|parts| - 1];
      NonBlankIsClean(init);
      StripIsStripped(last);
      StripKeepsNoBreak(last);
      assert forall k :: 0 <= k < |init| ==> init[k] == parts[k];
    }
  }

  /** `clean_lines(text)`: every line non-blank, already stripped, and free of line breaks. */
  function CleanLines(text: string): (lines: seq<string>)
    ensures forall k :: 0 <= k < |lines| ==> IsStripped(lines[k]) && '\n' !in lines[k]
  {
    NonBlankIsClean(SplitLines(text));
    NonBlank(SplitLines(text))
  }

  /** The positions of the parts that `NonBlank` keeps. */
  function Survivors(parts: seq<string>): (idx: seq<int>)
    decreases |parts|
  {
    if parts == [] then []
    else Survivors(parts[..|parts| - 1]) + (if Strip(parts[|parts| - 1]) != "" then [|parts| - 1] else [])
  }

  /**
   * `kept` holds the stripped parts at the increasing positions `idx`, and
   * every part at a position outside `idx` is blank.
   */
  predicate KeptAt(parts: seq<string>, idx: seq<int>, kept: seq<string>) {
    && |idx| == |kept|
    && (forall k :: 0 <= k < |idx| ==> 0 <= idx[k] < |parts| && kept[k] == Strip(parts[idx[k]]))
    && (forall a, b :: 0 <= a < b < |idx| ==> idx[a] < idx[b])
    && (forall j :: 0 <= j < |parts| && j !in idx ==> Strip(parts[j]) == "")
  }

  /** Appending one part keeps `KeptAt`, whether or not that part is blank. */
  lemma KeptAtStep(init: seq<string>, last: string, idx: seq<int>, kept: seq<string>)
    requires KeptAt(init, idx, kept)
    ensures var s := Strip(last);
      KeptAt(init + [last], idx + (if s != "" then [|init|] else []), kept + (if s != "" then [s] else []))
  {
    var parts := init + [last];
    var s := Strip(last);
    var idx' := idx + (if s != "" then [|init|] else []);
    forall j | 0 <= j < |parts| && j !in idx' ensures Strip(parts[j]) == "" {
      if j < |init| {
        assert parts[j] == init[j];
      }
    }
  }

  /**
   * `NonBlank` keeps exactly the parts that are not blank after stripping, in
   * their original order: the k-th kept line is the stripped part at the k-th
   * surviving position, the positions increase, and every other part is blank.
   */
  lemma {:induction false} NonBlankKeepsOrder(parts: seq<string>)
    ensures KeptAt(parts, Survivors(parts), NonBlank(parts))
    decreases |parts|
  {
    if parts != [] {
      var init := parts[..|parts| - 1];
      NonBlankKeepsOrder(init);
      KeptAtStep(init, parts[|parts| - 1], Survivors(init), NonBlank(init));
      assert init + [parts[|parts| - 1]] == parts;
    }
  }

  /** `clean_lines` keeps the lines of `text.split("\n")` that are not blank, stripped, in their order. */
  lemma CleanLinesKeepsOrder(text: string)
    ensures KeptAt(SplitLines(text), Survivors(SplitLines(text)), CleanLines(text))
  {
    NonBlankKeepsOrder(SplitLines(text));
  }

  /** Every line is non-blank and already stripped. */
  predicate AllStripped(lines: seq<string>) {
    forall k :: 0 <= k < |lines| ==> IsStripped(lines[k])
  }

  /** One more clean line passes through too. */
  lemma NonBlankFixesStep(init: seq<string>, last: string)
    requires NonBlank(init) == init && IsStripped(last)
    ensures NonBlank(init + [last]) == init + [last]
  {
    StripFixesStripped(last);
    assert (init + [last])[..|init|] == init;
  }

  /** Lines that are already stripped and non-blank pass through unchanged. */
  lemma {:induction false} NonBlankFixesCleanLines(lines: seq<string>)
    requires AllStripped(lines)
    ensures NonBlank(lines) == lines
    decreases |lines|
  {
    if lines != [] {
      var init := lines[..|lines| - 1];
      var last := lines[|lines| - 1];
      assert AllStripped(init);
      NonBlankFixesCleanLines(init);
      NonBlankFixesStep(init, last);
      assert init + [last] == lines;
    }
  }

  /** Normalising the text rebuilt from normalised lines gives the same lines. */
  lemma CleanLinesIdempotent(text: string)
    ensures CleanLines(JoinWith("\n", CleanLines(text))) == CleanLines(text)
  {
    var lines := CleanLines(text);
    if lines == [] {
      assert SplitLines("") == [""];
      assert Strip("") == "";
      assert NonBlank([""]) == NonBlank([]) + [];
    } else {
      JoinThenSplit(lines);
      NonBlankFixesCleanLines(lines);
    }
  }
}
