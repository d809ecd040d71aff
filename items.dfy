/**
 * `extract_all_items`: Strategy A (records written on a single line, found
 * by the horizontal item pattern) when it yields any item, else Strategy B (vertical columns) when it yields any, else a single
 * item from two whole-text searches (Strategy C).
 */
module Items {
  import opened Wrappers
  import opened Text
  import opened Patterns
  import opened Sections
  import opened Horizontal
  import opened Vertical

  /**
   * Strategy C (lines 210-235): one item whose description is the cleaned
   * capture of the fallback description search, and whose quantity, rate and
   * total come from the first `<qty> <unit> <rate> <total>` match; "" where a
   * search does not match.
   */
  function FallbackItem(text: string, rx: Searches): (it: Item)
    ensures rx.fallbackAmounts(text).None? ==> it.qty == "" && it.rate == "" && it.total == ""
    ensures rx.fallbackAmounts(text).Some? ==>
      var a := rx.fallbackAmounts(text).value; it.qty == a.qty && it.rate == a.rate && it.total == a.total
    ensures rx.fallbackDescription(text).None? ==> it.description == ""
    ensures rx.fallbackDescription(text).Some? ==>
      it.description == CleanDescription(rx.fallbackDescription(text).value.rawDescription)
  {
    var description := match rx.fallbackDescription(text)
      case Some(d) => CleanDescription(d.rawDescription)
      case None => "";
    match rx.fallbackAmounts(text)
    case Some(a) => Item(description, a.qty, a.rate, a.total)
    case None => Item(description, "", "", "")
  }

  /** The items of one document, from its clean lines and its full text. */
  function AllItems(lines: seq<string>, text: string, rx: Searches): (items: seq<Item>)
    ensures |items| >= 1
  {
    var m := LocateMarkers(lines);
    var horizontal := HorizontalItems(rx.itemRecords(HorizontalSearchText(lines, text, m)));
    if horizontal != [] then horizontal
    else
      var vertical := VerticalItems(lines, m);
      if vertical != [] then vertical else [FallbackItem(text, rx)]
  }

  /** With sound patterns, the fallback's amounts are all found together, as runs of digits, or not at all. */
  lemma FallbackAmounts(text: string, rx: Searches)
    requires Sound(rx)
    ensures var it := FallbackItem(text, rx);
      || (it.qty == "" && it.rate == "" && it.total == "")
      || (IsDigits(it.qty) && IsDigits(it.rate) && IsDigits(it.total))
  {
  }

  /**
   * The fallback's description is "" only when its search did not match:
   * a sound capture starts with an upper-case letter, which cleaning keeps.
   */
  lemma FallbackDescriptionFound(text: string, rx: Searches)
    requires Sound(rx)
    ensures FallbackItem(text, rx).description == "" <==> rx.fallbackDescription(text).None?
  {
    if rx.fallbackDescription(text).Some? {
      var raw := rx.fallbackDescription(text).value.rawDescription;
      CleanKeepsLeadingLetter(raw);
    }
  }

  /** Cleaning a capture that starts with an upper-case letter leaves a non-empty description. */
  lemma CleanKeepsLeadingLetter(raw: string)
    requires raw != [] && IsUpper(raw[0])
    ensures CleanDescription(raw) != []
  {
    StripKeepsFirst(raw);
    var s := Strip(raw);
    CollapseKeepsFirst(s);
    var c := CollapseSpaces(s);
    AmpersandsKeepFirst(c);
    var t := TrimTrailingAmpersands(c);
    StripKeepsFirst(t);
  }

  /** Collapsing whitespace keeps a first character that is not whitespace. */
  lemma CollapseKeepsFirst(s: string)
    requires s != [] && IsUpper(s[0])
    ensures CollapseSpaces(s) != [] && CollapseSpaces(s)[0] == s[0]
  {
  }

  /** Dropping trailing `&` and whitespace keeps a leading letter. */
  lemma AmpersandsKeepFirst(s: string)
    requires s != [] && IsUpper(s[0])
    ensures TrimTrailingAmpersands(s) != [] && TrimTrailingAmpersands(s)[0] == s[0]
  {
  }

  /**
   * An item with an empty description can only be the fallback: Strategy A
   * keeps descriptions of at least ten characters, Strategy B of more than
   * five.  Then it is the document's only item.
   */
  lemma EmptyDescriptionMeansFallback(lines: seq<string>, text: string, rx: Searches, k: nat)
    requires k < |AllItems(lines, text, rx)| && AllItems(lines, text, rx)[k].description == ""
    ensures AllItems(lines, text, rx) == [FallbackItem(text, rx)]
  {
    var m := LocateMarkers(lines);
    var ms := rx.itemRecords(HorizontalSearchText(lines, text, m));
    HorizontalItemsClean(ms);
    if HorizontalItems(ms) == [] {
      VerticalItemsShape(lines, m);
    }
  }

  /**
   * With sound patterns, every item's quantity, rate and total is "" or a
   * run of digits, whichever strategy produced it.
   */
  lemma ItemAmountsAreDigits(lines: seq<string>, text: string, rx: Searches)
    requires Sound(rx)
    ensures var items := AllItems(lines, text, rx);
      forall k :: 0 <= k < |items| ==> AmountsShape(items[k])
  {
    var m := LocateMarkers(lines);
    var searchText := HorizontalSearchText(lines, text, m);
    HorizontalAmountsAreDigits(searchText, rx);
    VerticalItemsShape(lines, m);
    FallbackAmounts(text, rx);
    var items := AllItems(lines, text, rx);
    forall k | 0 <= k < |items| ensures AmountsShape(items[k]) {
      if HorizontalItems(rx.itemRecords(searchText)) == [] && VerticalItems(lines, m) != [] {
        assert IsVerticalItem(items[k]);
      }
    }
  }

  /** Quantity, rate and total are each "" or a run of digits. */
  predicate AmountsShape(it: Item) {
    && (it.qty == "" || IsDigits(it.qty))
    && (it.rate == "" || IsDigits(it.rate))
    && (it.total == "" || IsDigits(it.total))
  }

  /** Strategy B (lines 133-208): the description pass over the window, then the column pass from the first description. */
  method CollectVertical(lines: seq<string>, m: Markers) returns (items: seq<Item>)
    requires m.itemStart < |lines|
    ensures items == VerticalItems(lines, m)
  {
    items := [];
    var searchRangeStart := 0;
    var searchRangeEnd := |lines|;
    if m.invoiceStart > 0 && m.itemStart > m.invoiceStart {
      searchRangeStart := Max(0, m.invoiceStart - 50);
      searchRangeEnd := m.itemStart;
    } else if m.itemStart > 0 {
      searchRangeStart := Max(0, m.itemStart - 50);
      searchRangeEnd := Min(m.itemStart + 100, |lines|);
    }
    assert VerticalWindow(lines, m) == Window(searchRangeStart, searchRangeEnd);
    var descriptions, descIndices := CollectDescriptions(lines, searchRangeStart, searchRangeEnd);
    if descriptions != [] {
      var searchStart := if descIndices != [] then descIndices[0] else 0;
      assert descIndices == DescriptionPass(lines, m).indices;
      var quantities, rates, totals := CollectColumns(lines, searchStart, |descriptions|);
      items := ZipColumns(descriptions, quantities, rates, totals);
    }
  }

  /** Strategy C (lines 210-235): the item the two fallback searches fill in. */
  method BuildFallbackItem(text: string, rx: Searches) returns (item: Item)
    ensures item == FallbackItem(text, rx)
  {
    item := Item("", "", "", "");
    var mDesc := rx.fallbackDescription(text);
    if mDesc.Some? {
      item := item.(description := CleanDescription(mDesc.value.rawDescription));
    }
    var mQty := rx.fallbackAmounts(text);
    if mQty.Some? {
      item := item.(qty := mQty.value.qty, rate := mQty.value.rate, total := mQty.value.total);
    }
  }

  /** `extract_all_items(lines, text)` (lines 80-235). */
  method ExtractAllItems(lines: seq<string>, text: string, rx: Searches) returns (items: seq<Item>)
    ensures items == AllItems(lines, text, rx)
  {
    var m := FindSectionMarkers(lines);
    var searchText := text;
    if m.invoiceStart > 0 && m.itemStart > m.invoiceStart {
      searchText := JoinWith(" ", lines[m.invoiceStart..m.itemStart]);
    } else if m.itemStart > 0 {
      searchText := JoinWith(" ", lines[m.itemStart..Min(m.itemStart + 100, |lines|)]);
    }
    assert searchText == HorizontalSearchText(lines, text, m);
    items := CollectHorizontal(rx.itemRecords(searchText));
    if items == [] {
      items := CollectVertical(lines, m);
    }
    if items == [] {
      var item := BuildFallbackItem(text, rx);
      items := items + [item];
    }
  }
}
