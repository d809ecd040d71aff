/**
 * `extract_common_fields`: the six document-level fields of a shipping bill
 * (SB date, SB number, consignee, invoice number, currency, exchange rate),
 * each "" until a scan or a search fills it.
 *
 * The line scans are written out: the functions below say which line each
 * scan settles on, and `ExtractCommonFields` performs the scans with the
 * loops and breaks of the extractor and is proved to agree with them.
 */
module CommonFields {
  import opened Text
  import opened Wrappers
  import opened Patterns

  /** The record of common fields; "" where nothing was found. */
  datatype Fields = Fields(
    sbDate: string,
    sbNo: string,
    consigneeName: string,
    invNo: string,
    currency: string,
    exchangeRate: string)

  /** The record every field of which still holds its default. */
  const Empty: Fields := Fields("", "", "", "", "", "")

  // ---------------------------------------------------------------- consignee

  /** `"CONSIGNEE" in ln.upper()` */
  predicate IsConsigneeLabel(line: string) {
    Contains(Upper(line), "CONSIGNEE")
  }

  function ConsigneeLabelAt(lines: seq<string>): int -> bool {
    i => 0 <= i < |lines| && IsConsigneeLabel(lines[i])
  }

  /** `name` is "" or a line right after a consignee label. */
  predicate FollowsConsigneeLabel(lines: seq<string>, name: string) {
    name == "" || exists i :: 1 <= i < |lines| && IsConsigneeLabel(lines[i - 1]) && name == lines[i]
  }

  /**
   * The line after the first consignee label, or "" when there is no label
   * or the first one is the last line.
   */
  function ConsigneeName(lines: seq<string>): (name: string)
    ensures FollowsConsigneeLabel(lines, name)
  {
    var i := FirstIn(0, |lines|, ConsigneeLabelAt(lines));
    if 0 <= i && i + 1 < |lines| then lines[i + 1] else ""
  }

  /** With a first consignee label at `i`, the name is the next line, or "" when `i` is the last line. */
  lemma ConsigneeAfterFirstLabel(lines: seq<string>, i: nat)
    requires i < |lines| && IsConsigneeLabel(lines[i])
    requires forall k :: 0 <= k < i ==> !IsConsigneeLabel(lines[k])
    ensures ConsigneeName(lines) == (if i + 1 < |lines| then lines[i + 1] else "")
  {
    FirstInAt(0, |lines|, ConsigneeLabelAt(lines), i);
  }

  /** With no consignee label at all, the name is "". */
  lemma ConsigneeWithoutLabel(lines: seq<string>)
    requires forall k :: 0 <= k < |lines| ==> !IsConsigneeLabel(lines[k])
    ensures ConsigneeName(lines) == ""
  {
    FirstInNone(0, |lines|, ConsigneeLabelAt(lines));
  }

  // ---------------------------------------------------------------- currency

  /** `"CURRENC" in ln.upper() or "INVOICE" in ln.upper()` */
  predicate IsCurrencyLabel(line: string) {
    Contains(Upper(line), "CURRENC") || Contains(Upper(line), "INVOICE")
  }

  /** A line that, stripped, is exactly one of the twelve currency codes. */
  function CodeLineAt(lines: seq<string>): int -> bool {
    j => 0 <= j < |lines| && StripAll(lines)[j] in CurrencyCodes
  }

  /** The end of the window of lines a label at `i` looks through: `min(i + 10, len(lines))`. */
  function WindowEnd(lines: seq<string>, i: nat): nat {
    Min(i + 10, |lines|)
  }

  /** The first code line among the nine lines after `i`, or -1. */
  function CodeAfter(lines: seq<string>, i: nat): (j: int)
    ensures j == -1 || (i < j < WindowEnd(lines, i) && StripAll(lines)[j] in CurrencyCodes)
  {
    FirstIn(i + 1, WindowEnd(lines, i), CodeLineAt(lines))
  }

  /** Some line among the nine after `i` is a code line. */
  predicate HasCodeAfter(lines: seq<string>, i: nat) {
    exists j :: i < j < WindowEnd(lines, i) && CodeLineAt(lines)(j)
  }

  /** A label line whose window holds a code: where the label scan stops. */
  function CurrencyHitAt(lines: seq<string>): int -> bool {
    i => 0 <= i < |lines| && IsCurrencyLabel(lines[i]) && HasCodeAfter(lines, i)
  }

  /** What the label scan sets Currency to: the code found for the first label that has one, else "". */
  function ScannedCurrency(lines: seq<string>): (c: string)
    ensures c == "" || c in CurrencyCodes
  {
    var i := FirstIn(0, |lines|, CurrencyHitAt(lines));
    if i >= 0 then
      var j := CodeAfter(lines, i);
      if j >= 0 then StripAll(lines)[j] else assert false; ""
    else ""
  }

  /** The Currency field: the label scan's code, or the `1 <CODE> INR` search when the scan found none. */
  function CurrencyOf(lines: seq<string>, text: string, rx: Searches): (c: string)
    ensures ScannedCurrency(lines) != "" ==> c == ScannedCurrency(lines)
    ensures c != "" && c != ScannedCurrency(lines) ==> rx.currencyToInr(text) == Some(c)
  {
    var c := ScannedCurrency(lines);
    if c != "" then c else rx.currencyToInr(text).GetOr("")
  }

  // ---------------------------------------------------------------- exchange rate

  /** The Exchange Rate field: the anchored search's rate if it matched, else the loose search's, else "". */
  function ExchangeRateOf(text: string, rx: Searches): (r: string)
    ensures rx.anchoredRate(text).Some? ==> r == rx.anchoredRate(text).value.value
    ensures r != "" && rx.anchoredRate(text).None? ==> rx.looseRate(text).Some? && r == rx.looseRate(text).value.value
  {
    match rx.anchoredRate(text)
    case Some(q) => q.value
    case None => match rx.looseRate(text)
      case Some(q) => q.value
      case None => ""
  }

  // ---------------------------------------------------------------- the record

  /** `extract_common_fields(lines, text)` */
  function CommonFieldsOf(lines: seq<string>, text: string, rx: Searches): (f: Fields)
    ensures rx.sbDate(text).Some? ==> f.sbDate == rx.sbDate(text).value
    ensures rx.sbNo(text).Some? ==> f.sbNo == rx.sbNo(text).value
    ensures rx.invNo(text).Some? ==> f.invNo == rx.invNo(text).value
    ensures f.sbDate != "" ==> rx.sbDate(text) == Some(f.sbDate)
    ensures f.sbNo != "" ==> rx.sbNo(text) == Some(f.sbNo)
    ensures f.invNo != "" ==> rx.invNo(text) == Some(f.invNo)
    ensures FollowsConsigneeLabel(lines, f.consigneeName)
    ensures ScannedCurrency(lines) != "" ==> f.currency in CurrencyCodes
  {
    var sbDate := rx.sbDate(text).GetOr("");
    var sbNo := rx.sbNo(text).GetOr("");
    var invNo := rx.invNo(text).GetOr("");
    assert sbDate != "" || rx.sbDate(text).Some? ==> rx.sbDate(text) == Some(sbDate);
    assert sbNo != "" || rx.sbNo(text).Some? ==> rx.sbNo(text) == Some(sbNo);
    assert invNo != "" || rx.invNo(text).Some? ==> rx.invNo(text) == Some(invNo);
    var currency := CurrencyOf(lines, text, rx);
    assert ScannedCurrency(lines) != "" ==> currency in CurrencyCodes;
    Fields(sbDate, sbNo, ConsigneeName(lines), invNo, currency, ExchangeRateOf(text, rx))
  }

  /**
   * The label scan finds a code exactly when some label line has a code
   * line among the nine lines after it.
   */
  lemma ScannedCurrencyFound(lines: seq<string>)
    ensures ScannedCurrency(lines) != "" <==>
      exists i :: 0 <= i < |lines| && IsCurrencyLabel(lines[i]) && HasCodeAfter(lines, i)
  {
    var i := FirstIn(0, |lines|, CurrencyHitAt(lines));
    if i >= 0 {
      assert CurrencyHitAt(lines)(i);
    } else {
      forall i' | 0 <= i' < |lines| ensures !(IsCurrencyLabel(lines[i']) && HasCodeAfter(lines, i')) {
        assert !CurrencyHitAt(lines)(i');
      }
    }
  }

  /**
   * The scan's code is the first one found: take the first label `i` whose
   * window holds a code, and the first code line `j` of that window; Currency
   * is that code.
   */
  lemma ScannedCurrencyIsFirst(lines: seq<string>, i: nat, j: nat)
    requires i < j < WindowEnd(lines, i) && IsCurrencyLabel(lines[i]) && StripAll(lines)[j] in CurrencyCodes
    requires forall k :: i < k < j ==> StripAll(lines)[k] !in CurrencyCodes
    requires forall h :: 0 <= h < i && IsCurrencyLabel(lines[h]) ==>
      forall k :: h < k < WindowEnd(lines, h) ==> StripAll(lines)[k] !in CurrencyCodes
    ensures ScannedCurrency(lines) == StripAll(lines)[j]
  {
    FirstInAt(i + 1, WindowEnd(lines, i), CodeLineAt(lines), j);
    forall h | 0 <= h < i ensures !CurrencyHitAt(lines)(h) {
      if IsCurrencyLabel(lines[h]) {
        FirstInNone(h + 1, WindowEnd(lines, h), CodeLineAt(lines));
      }
    }
    FirstInAt(0, |lines|, CurrencyHitAt(lines), i);
  }

  /**
   * Currency is "" or one of the twelve codes, and the `1 <CODE> INR` search
   * decides it only when the label scan found nothing.
   */
  lemma CurrencyIsACode(lines: seq<string>, text: string, rx: Searches)
    requires Sound(rx)
    ensures var c := CurrencyOf(lines, text, rx);
      && (c == "" || c in CurrencyCodes)
      && (ScannedCurrency(lines) != "" ==> c == ScannedCurrency(lines))
      && (ScannedCurrency(lines) == "" ==> c == rx.currencyToInr(text).GetOr(""))
  {
  }

  /**
   * Exchange Rate is "" or made of digits and dots; the anchored search
   * decides it whenever it matched, and the loose one only otherwise.
   */
  lemma ExchangeRateIsDecimal(text: string, rx: Searches)
    requires Sound(rx)
    ensures var r := ExchangeRateOf(text, rx);
      && (r == "" || IsDecimal(r))
      && (rx.anchoredRate(text).Some? ==> r == rx.anchoredRate(text).value.value)
      && (rx.anchoredRate(text).None? && rx.looseRate(text).Some? ==> r == rx.looseRate(text).value.value)
      && (rx.anchoredRate(text).None? && rx.looseRate(text).None? ==> r == "")
  {
  }

  /** Every field is "" or has the shape its pattern captures. */
  lemma CommonFieldsShape(lines: seq<string>, text: string, rx: Searches)
    requires Sound(rx)
    ensures var f := CommonFieldsOf(lines, text, rx);
      && (f.sbDate == "" || IsSbDate(f.sbDate))
      && (f.sbNo == "" || IsNumber(f.sbNo, 7, 8))
      && (f.invNo == "" || IsInvoiceNumber(f.invNo))
      && (f.currency == "" || f.currency in CurrencyCodes)
      && (f.exchangeRate == "" || IsDecimal(f.exchangeRate))
  {
    CurrencyIsACode(lines, text, rx);
    ExchangeRateIsDecimal(text, rx);
  }

  // ---------------------------------------------------------------- the scans

  /** The consignee scan (lines 39-43): the line after the first label, then stop. */
  method ScanConsignee(lines: seq<string>) returns (name: string)
    ensures name == ConsigneeName(lines)
  {
    name := "";
    var i := 0;
    while i < |lines|
      invariant 0 <= i <= |lines|
      invariant forall k :: 0 <= k < i ==> !ConsigneeLabelAt(lines)(k)
    {
      if IsConsigneeLabel(lines[i]) {
        if i + 1 < |lines| {
          name := lines[i + 1];
        }
        FirstInAt(0, |lines|, ConsigneeLabelAt(lines), i);
        return;
      }
      i := i + 1;
    }
    FirstInNone(0, |lines|, ConsigneeLabelAt(lines));
  }

  /** The inner scan (lines 50-54): the first code line among the nine lines after `i`, or -1. */
  method FindCodeAfter(lines: seq<string>, i: nat) returns (j: int)
    ensures j == CodeAfter(lines, i)
  {
    j := i + 1;
    while j < WindowEnd(lines, i)
      invariant i + 1 <= j
      invariant forall k :: i + 1 <= k < j ==> !CodeLineAt(lines)(k)
    {
      StripAllAt(lines, j);
      if Strip(lines[j]) in CurrencyCodes {
        FirstInAt(i + 1, WindowEnd(lines, i), CodeLineAt(lines), j);
        return;
      }
      j := j + 1;
    }
    FirstInNone(i + 1, WindowEnd(lines, i), CodeLineAt(lines));
    j := -1;
  }

  /** The label scan (lines 47-56): for each label, the first code line among the next nine lines. */
  method ScanCurrency(lines: seq<string>) returns (c: string)
    ensures c == ScannedCurrency(lines)
  {
    var i := 0;
    while i < |lines|
      invariant 0 <= i <= |lines|
      invariant forall k :: 0 <= k < i ==> !CurrencyHitAt(lines)(k)
    {
      if IsCurrencyLabel(lines[i]) {
        var j := FindCodeAfter(lines, i);
        if j >= 0 {
          StripAllAt(lines, j);
          c := Strip(lines[j]);
          FirstInAt(0, |lines|, CurrencyHitAt(lines), i);
          return;
        }
      }
      i := i + 1;
    }
    FirstInNone(0, |lines|, CurrencyHitAt(lines));
    c := "";
  }

  /**
   * `extract_common_fields` as the extractor runs it: the record starts at
   * its defaults and each search or scan overwrites one field.
   */
  method ExtractCommonFields(lines: seq<string>, text: string, rx: Searches) returns (f: Fields)
    ensures f == CommonFieldsOf(lines, text, rx)
  {
    f := Empty;

    var m := rx.sbDate(text);
    if m.Some? { f := f.(sbDate := m.value); }
    m := rx.sbNo(text);
    if m.Some? { f := f.(sbNo := m.value); }
    m := rx.invNo(text);
    if m.Some? { f := f.(invNo := m.value); }

    var name := ScanConsignee(lines);
    f := f.(consigneeName := name);

    var c := ScanCurrency(lines);
    f := f.(currency := c);
    // Fallback: the `1 <CODE> INR` search, only when the scan found nothing.
    if f.currency == "" {
      m := rx.currencyToInr(text);
      if m.Some? { f := f.(currency := m.value); }
    }

    // Exchange rate: anchored search first, loose search otherwise.
    var q := rx.anchoredRate(text);
    if q.Some? {
      f := f.(exchangeRate := q.value.value);
    } else {
      q := rx.looseRate(text);
      if q.Some? { f := f.(exchangeRate := q.value.value); }
    }
  }
}
