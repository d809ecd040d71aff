/**
 * The section markers of a shipping bill (`PART - II - INVOICE DETAILS`,
 * `PART - III - ITEM DETAILS`) and the search windows the item strategies
 * derive from them.
 */
module Sections {
  import opened Text

  /** The invoice-section test: `"PART - II - INVOICE DETAILS" in ln or ("INVOICE" in ln and "DETAILS" in ln)`. */
  predicate IsInvoiceMarker(line: string) {
    Contains(line, "PART - II - INVOICE DETAILS") || (Contains(line, "INVOICE") && Contains(line, "DETAILS"))
  }

  /**
   * The item-section test once the `item_section_start < 0` guard is known
   * to hold (it does whenever the test runs, since the loop stops at the
   * first item line).
   */
  predicate IsItemMarker(line: string) {
    Contains(line, "PART - III - ITEM DETAILS") || Contains(line, "ITEM DETAILS")
  }

  /** The invoice test is the plain `"INVOICE" in ln and "DETAILS" in ln`: the long form adds nothing. */
  lemma InvoiceMarkerIsInvoiceAndDetails(line: string)
    ensures IsInvoiceMarker(line) <==> Contains(line, "INVOICE") && Contains(line, "DETAILS")
  {
    if Contains(line, "PART - II - INVOICE DETAILS") {
      assert "PART - II - INVOICE DETAILS" == "PART - II - " + "INVOICE" + " DETAILS";
      ContainsPart(line, "PART - II - ", "INVOICE", " DETAILS");
      assert "PART - II - INVOICE DETAILS" == "PART - II - INVOICE " + "DETAILS" + "";
      ContainsPart(line, "PART - II - INVOICE ", "DETAILS", "");
    }
  }

  /** The item test is the plain `"ITEM DETAILS" in ln`: the long form adds nothing. */
  lemma ItemMarkerIsItemDetails(line: string)
    ensures IsItemMarker(line) <==> Contains(line, "ITEM DETAILS")
  {
    if Contains(line, "PART - III - ITEM DETAILS") {
      assert "PART - III - ITEM DETAILS" == "PART - III - " + "ITEM DETAILS" + "";
      ContainsPart(line, "PART - III - ", "ITEM DETAILS", "");
    }
  }

  function InvoiceMarkerAt(lines: seq<string>): int -> bool {
    i => 0 <= i < |lines| && IsInvoiceMarker(lines[i])
  }

  function ItemMarkerAt(lines: seq<string>): int -> bool {
    i => 0 <= i < |lines| && IsItemMarker(lines[i])
  }

  /** `invoice_section_start` and `item_section_start`; -1 where no marker was seen. */
  datatype Markers = Markers(invoiceStart: int, itemStart: int)

  /**
   * Where the marker loop stops: the item marker is the first item line; the
   * invoice marker is the last invoice line at or before it (every later
   * invoice line overwrites the earlier), or the last one of all when there
   * is no item line.
   */
  function LocateMarkers(lines: seq<string>): (m: Markers)
    ensures -1 <= m.itemStart < |lines| && -1 <= m.invoiceStart < |lines|
    ensures m.itemStart >= 0 ==> m.invoiceStart <= m.itemStart
  {
    var item := FirstIn(0, |lines|, ItemMarkerAt(lines));
    var inv := LastIn(0, if item >= 0 then item + 1 else |lines|, InvoiceMarkerAt(lines));
    Markers(inv, item)
  }

  /**
   * The markers in the plain terms of the substring tests: the item marker is
   * the first line holding `ITEM DETAILS`, and the invoice marker is the last
   * line up to it holding both `INVOICE` and `DETAILS`.
   */
  lemma MarkersAreFirstItemAndLastInvoice(lines: seq<string>)
    ensures var m := LocateMarkers(lines);
      && (m.itemStart >= 0 ==> Contains(lines[m.itemStart], "ITEM DETAILS"))
      && (forall k :: 0 <= k < |lines| && (m.itemStart == -1 || k < m.itemStart) ==> !Contains(lines[k], "ITEM DETAILS"))
      && (m.invoiceStart >= 0 ==> Contains(lines[m.invoiceStart], "INVOICE") && Contains(lines[m.invoiceStart], "DETAILS"))
      && (forall k :: m.invoiceStart < k < |lines| && (m.itemStart == -1 || k <= m.itemStart) ==>
            !(Contains(lines[k], "INVOICE") && Contains(lines[k], "DETAILS")))
  {
    var m := LocateMarkers(lines);
    if m.itemStart >= 0 {
      ItemMarkerIsItemDetails(lines[m.itemStart]);
    }
    if m.invoiceStart >= 0 {
      InvoiceMarkerIsInvoiceAndDetails(lines[m.invoiceStart]);
    }
    forall k | 0 <= k < |lines| && (m.itemStart == -1 || k < m.itemStart)
      ensures !Contains(lines[k], "ITEM DETAILS")
    {
      assert !ItemMarkerAt(lines)(k);
      ItemMarkerIsItemDetails(lines[k]);
    }
    forall k | m.invoiceStart < k < |lines| && (m.itemStart == -1 || k <= m.itemStart)
      ensures !(Contains(lines[k], "INVOICE") && Contains(lines[k], "DETAILS"))
    {
      assert !InvoiceMarkerAt(lines)(k);
      InvoiceMarkerIsInvoiceAndDetails(lines[k]);
    }
  }

  /**
   * The marker loop (lines 90-95): every invoice line overwrites the invoice
   * marker, and the first item line sets the item marker and stops the loop.
   */
  method FindSectionMarkers(lines: seq<string>) returns (m: Markers)
    ensures m == LocateMarkers(lines)
  {
    var invoiceStart := -1;
    var itemStart := -1;
    var i := 0;
    while i < |lines|
      invariant 0 <= i <= |lines|
      invariant itemStart == -1
      invariant invoiceStart == LastIn(0, i, InvoiceMarkerAt(lines))
      invariant forall k :: 0 <= k < i ==> !ItemMarkerAt(lines)(k)
    {
      var ln := lines[i];
      if IsInvoiceMarker(ln) {
        invoiceStart := i;
      }
      assert invoiceStart == LastIn(0, i + 1, InvoiceMarkerAt(lines));
      if Contains(ln, "PART - III - ITEM DETAILS") || (itemStart < 0 && Contains(ln, "ITEM DETAILS")) {
        itemStart := i;
        FirstInAt(0, |lines|, ItemMarkerAt(lines), i);
        return Markers(invoiceStart, itemStart);
      }
      i := i + 1;
    }
    FirstInNone(0, |lines|, ItemMarkerAt(lines));
    m := Markers(invoiceStart, itemStart);
  }

  // ---------------------------------------------------------------- search windows

  /** Both markers found, the invoice one on a line after the first and before the item one. */
  predicate InvoiceWindow(m: Markers) {
    m.invoiceStart > 0 && m.itemStart > m.invoiceStart
  }

  /** Otherwise, an item marker on a line after the first. */
  predicate ItemWindow(m: Markers) {
    !InvoiceWindow(m) && m.itemStart > 0
  }

  /**
   * The text the horizontal pattern searches (lines 98-106): the invoice
   * section's lines joined by spaces, else up to 100 lines from the item
   * marker joined by spaces, else the whole text. Only the window's lines are
   * searched, and each of them occurs in the searched text.
   */
  function HorizontalSearchText(lines: seq<string>, text: string, m: Markers): (t: string)
    requires m.itemStart < |lines|
    ensures InvoiceWindow(m) ==> t == JoinWith(" ", lines[m.invoiceStart..m.itemStart])
    ensures ItemWindow(m) ==> t == JoinWith(" ", lines[m.itemStart..Min(m.itemStart + 100, |lines|)])
    ensures InvoiceWindow(m) ==> forall k :: m.invoiceStart <= k < m.itemStart ==> Contains(t, lines[k])
    ensures ItemWindow(m) ==> forall k :: m.itemStart <= k < Min(m.itemStart + 100, |lines|) ==> Contains(t, lines[k])
    ensures !InvoiceWindow(m) && !ItemWindow(m) ==> t == text
  {
    if InvoiceWindow(m) then
      var window := lines[m.invoiceStart..m.itemStart];
      JoinHoldsParts(" ", window);
      assert forall k :: m.invoiceStart <= k < m.itemStart ==> lines[k] == window[k - m.invoiceStart];
      JoinWith(" ", window)
    else if ItemWindow(m) then
      var window := lines[m.itemStart..Min(m.itemStart + 100, |lines|)];
      JoinHoldsParts(" ", window);
      assert forall k :: m.itemStart <= k < Min(m.itemStart + 100, |lines|) ==> lines[k] == window[k - m.itemStart];
      JoinWith(" ", window)
    else text
  }

  /** A range `[lo, hi)` of line positions. */
  datatype Window = Window(lo: nat, hi: nat)

  /**
   * The lines the vertical strategy scans for codes (lines 136-146): from 50
   * lines before the invoice marker to the item marker, else from 50 lines
   * before to 100 lines after the item marker, else every line.
   */
  function VerticalWindow(lines: seq<string>, m: Markers): (w: Window)
    requires m.itemStart < |lines|
    ensures w.lo <= w.hi <= |lines|
    ensures InvoiceWindow(m) ==> w.hi == m.itemStart && w.lo == Max(0, m.invoiceStart - 50)
    ensures ItemWindow(m) ==> w.hi == Min(m.itemStart + 100, |lines|) && w.lo == Max(0, m.itemStart - 50)
    ensures !InvoiceWindow(m) && !ItemWindow(m) ==> w == Window(0, |lines|)
  {
    if InvoiceWindow(m) then Window(Max(0, m.invoiceStart - 50), m.itemStart)
    else if ItemWindow(m) then Window(Max(0, m.itemStart - 50), Min(m.itemStart + 100, |lines|))
    else Window(0, |lines|)
  }

  /**
   * A marker on the very first line counts as no marker: with the item
   * marker on line 0 both strategies search everything, and with the invoice
   * marker on line 0 they fall back to the item-marker windows.
   */
  lemma FirstLineMarkerIgnored(lines: seq<string>, text: string)
    ensures var m := LocateMarkers(lines);
      && (m.itemStart == 0 ==>
            HorizontalSearchText(lines, text, m) == text && VerticalWindow(lines, m) == Window(0, |lines|))
      && (m.invoiceStart == 0 && m.itemStart > 0 ==>
            HorizontalSearchText(lines, text, m) == JoinWith(" ", lines[m.itemStart..Min(m.itemStart + 100, |lines|)])
            && VerticalWindow(lines, m) == Window(Max(0, m.itemStart - 50), Min(m.itemStart + 100, |lines|)))
  {
  }

  /** An item marker on the same line as the last invoice marker selects the item-marker windows. */
  lemma SameLineMarkers(lines: seq<string>, text: string)
    ensures var m := LocateMarkers(lines);
      m.itemStart > 0 && m.invoiceStart == m.itemStart ==>
        HorizontalSearchText(lines, text, m) == JoinWith(" ", lines[m.itemStart..Min(m.itemStart + 100, |lines|)])
  {
  }
}
