/**
 * The row expansion of `process_shipping_bills` (lines 262-277): one output
 * row per extracted item, the document's common fields repeated on each, and
 * the rate prefixed with the currency code.
 */
module Rows {
  import opened Text
  import opened Patterns
  import opened Normalizer
  import opened CommonFields
  import opened Items

  /** One output row: SB Date, SB NO, Consignee Name, Inv No, Description, Qty, Rate, Total, Exchange Rate. */
  datatype Row = Row(
    sbDate: string,
    sbNo: string,
    consigneeName: string,
    invNo: string,
    description: string,
    qty: string,
    rate: string,
    total: string,
    exchangeRate: string)

  /**
   * `f"{currency} {rate}" if currency and rate else rate`: the cell is empty
   * exactly when the rate is, always ends with the rate, and is the bare rate
   * when there is no currency.
   */
  function RateWithCurrency(currency: string, rate: string): (cell: string)
    ensures cell == "" <==> rate == ""
    ensures |rate| <= |cell| && cell[|cell| - |rate|..] == rate
    ensures currency == "" ==> cell == rate
  {
    if currency != "" && rate != "" then currency + " " + rate else rate
  }

  function SpaceAt(s: string): int -> bool {
    i => 0 <= i < |s| && s[i] == ' '
  }

  /**
   * Reads a Rate cell back: the part before its last space is the currency
   * and the part after it the rate; a cell without a space is a bare rate.
   */
  function SplitRate(cell: string): (string, string) {
    var p := LastIn(0, |cell|, SpaceAt(cell));
    if p < 0 then ("", cell) else (cell[..p], cell[p + 1..])
  }

  /** A priced cell `<currency> <rate>` splits at the space before the rate. */
  lemma PricedCellSplits(currency: string, rate: string)
    requires currency != "" && ' ' !in rate
    ensures SplitRate(currency + " " + rate) == (currency, rate)
  {
    var cell := currency + " " + rate;
    var p := LastIn(0, |cell|, SpaceAt(cell));
    assert SpaceAt(cell)(|currency|);
    forall k | |currency| < k < |cell| ensures !SpaceAt(cell)(k) {
      assert cell[k] == rate[k - |currency| - 1];
    }
    assert p == |currency|;
    assert cell[..p] == currency;
    assert cell[p + 1..] == rate;
  }

  /** A cell without a space reads back as a bare rate. */
  lemma BareCellSplits(rate: string)
    requires ' ' !in rate
    ensures SplitRate(rate) == ("", rate)
  {
    var p := LastIn(0, |rate|, SpaceAt(rate));
    forall k | 0 <= k < |rate| ensures !SpaceAt(rate)(k) {
      assert rate[k] != ' ';
    }
    assert p < 0;
  }

  /**
   * The Rate cell keeps both parts: reading it back gives the rate, and the
   * currency whenever there was a rate to prefix.
   */
  lemma RateCellRoundTrip(currency: string, rate: string)
    requires ' ' !in rate
    ensures SplitRate(RateWithCurrency(currency, rate)) == (if rate != "" then currency else "", rate)
  {
    if currency != "" && rate != "" {
      PricedCellSplits(currency, rate);
    } else {
      BareCellSplits(rate);
    }
  }

  /** The row of one item: the common fields, the item's fields, and the rate prefixed with the currency. */
  function RowOf(f: Fields, it: Item): (r: Row)
    ensures r.rate == RateWithCurrency(f.currency, it.rate)
    ensures r.rate == "" <==> it.rate == ""
    ensures |it.rate| <= |r.rate| && r.rate[|r.rate| - |it.rate|..] == it.rate
    ensures (r.sbDate, r.sbNo, r.consigneeName, r.invNo, r.exchangeRate) ==
      (f.sbDate, f.sbNo, f.consigneeName, f.invNo, f.exchangeRate)
    ensures (r.description, r.qty, r.total) == (it.description, it.qty, it.total)
  {
    Row(f.sbDate, f.sbNo, f.consigneeName, f.invNo,
        it.description, it.qty, RateWithCurrency(f.currency, it.rate), it.total, f.exchangeRate)
  }

  function RowsOf(f: Fields, items: seq<Item>): seq<Row> {
    seq(|items|, k requires 0 <= k < |items| => RowOf(f, items[k]))
  }

  /** The rows of one document's text: one per extracted item, so never none. */
  function DocumentRows(text: string, rx: Searches): (rows: seq<Row>)
    ensures |rows| == |AllItems(CleanLines(text), text, rx)| >= 1
  {
    var lines := CleanLines(text);
    RowsOf(CommonFieldsOf(lines, text, rx), AllItems(lines, text, rx))
  }

  /** The cell shapes of a row: the common fields', the item's amounts, and a rate cell `[<CODE> ]<digits>` or "". */
  predicate IsRow(r: Row) {
    && (r.sbDate == "" || IsSbDate(r.sbDate))
    && (r.sbNo == "" || IsNumber(r.sbNo, 7, 8))
    && (r.invNo == "" || IsInvoiceNumber(r.invNo))
    && (r.exchangeRate == "" || IsDecimal(r.exchangeRate))
    && (r.qty == "" || IsDigits(r.qty))
    && (r.total == "" || IsDigits(r.total))
    && (r.rate == "" || IsDigits(r.rate) || IsPricedRate(r.rate))
  }

  /** A rate prefixed with a currency code: `<CODE> <digits>`. */
  predicate IsPricedRate(cell: string) {
    var (code, rate) := SplitRate(cell);
    code in CurrencyCodes && IsDigits(rate)
  }

  /** Digits never hold a space. */
  lemma DigitsHaveNoSpace(s: string)
    requires IsDigits(s)
    ensures ' ' !in s
  {
  }

  /**
   * Every document gives at least one row, one per item in order, each
   * carrying the document's common fields and the item's description,
   * quantity and total; its rate cell is the item's rate behind the
   * document's currency, empty exactly when the item's rate is.
   */
  lemma DocumentRowsRepeatCommonFields(text: string, rx: Searches)
    ensures var lines := CleanLines(text);
      var f := CommonFieldsOf(lines, text, rx);
      var items := AllItems(lines, text, rx);
      var rows := DocumentRows(text, rx);
      && |rows| == |items| >= 1
      && forall k :: 0 <= k < |rows| ==>
        && rows[k].sbDate == f.sbDate && rows[k].sbNo == f.sbNo
        && rows[k].consigneeName == f.consigneeName && rows[k].invNo == f.invNo
        && rows[k].exchangeRate == f.exchangeRate
        && rows[k].description == items[k].description
        && rows[k].qty == items[k].qty && rows[k].total == items[k].total
        && rows[k].rate == RateWithCurrency(f.currency, items[k].rate)
        && (rows[k].rate == "" <==> items[k].rate == "")
  {
    var lines := CleanLines(text);
    var f := CommonFieldsOf(lines, text, rx);
    var items := AllItems(lines, text, rx);
    var rows := DocumentRows(text, rx);
    assert rows == RowsOf(f, items);
    forall k | 0 <= k < |rows| ensures rows[k] == RowOf(f, items[k]) {
    }
  }

  /** With sound patterns, every row has the cell shapes of `IsRow`. */
  lemma DocumentRowsShape(text: string, rx: Searches)
    requires Sound(rx)
    ensures forall k :: 0 <= k < |DocumentRows(text, rx)| ==> IsRow(DocumentRows(text, rx)[k])
  {
    var lines := CleanLines(text);
    var f := CommonFieldsOf(lines, text, rx);
    var items := AllItems(lines, text, rx);
    CommonFieldsShape(lines, text, rx);
    ItemAmountsAreDigits(lines, text, rx);
    var rows := DocumentRows(text, rx);
    forall k | 0 <= k < |rows| ensures IsRow(rows[k]) {
      var it := items[k];
      assert AmountsShape(it);
      assert rows[k] == RowOf(f, it);
      if f.currency != "" && it.rate != "" {
        DigitsHaveNoSpace(it.rate);
        RateCellRoundTrip(f.currency, it.rate);
        assert IsPricedRate(rows[k].rate);
      }
    }
  }

  /** The row loop (lines 262-277). */
  method ExpandRows(f: Fields, items: seq<Item>) returns (rows: seq<Row>)
    ensures rows == RowsOf(f, items)
  {
    rows := [];
    for k := 0 to |items|
      invariant |rows| == k
      invariant forall j :: 0 <= j < k ==> rows[j] == RowOf(f, items[j])
    {
      var item := items[k];
      var rateWithCurrency := if f.currency != "" && item.rate != "" then f.currency + " " + item.rate else item.rate;
      var row := Row(f.sbDate, f.sbNo, f.consigneeName, f.invNo,
                     item.description, item.qty, rateWithCurrency, item.total, f.exchangeRate);
      rows := rows + [row];
    }
  }

  /** One document of `process_shipping_bills`, from its recovered text (lines 253-277). */
  method ProcessDocument(text: string, rx: Searches) returns (rows: seq<Row>)
    ensures rows == DocumentRows(text, rx)
  {
    var lines := CleanLines(text);
    var commonData := ExtractCommonFields(lines, text, rx);
    var items := ExtractAllItems(lines, text, rx);
    rows := ExpandRows(commonData, items);
  }
}
