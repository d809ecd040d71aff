/**
 * The vocabulary of the shipping-bill extractor: the fixed code and unit
 * sets, the line-item record it builds, and the free-text pattern searches.
 *
 * The searches that scan the whole text with a regular expression
 * (`re.search` / `re.finditer`) are parameters of the model, gathered in
 * `Searches`; `Sound` states what each pattern guarantees about the groups it
 * captures, and nothing more.  The whole-line tests are written out where
 * they are used.
 */
module Patterns {
  import opened Text
  import opened Wrappers

  /** The currency codes of the label scan and of the `1 <CODE> INR` fallback: twelve, CHF included. */
  const CurrencyCodes: set<string> :=
    {"SGD", "USD", "EUR", "GBP", "AED", "MYR", "INR", "JPY", "CNY", "AUD", "CAD", "CHF"}

  /** The only codes the two exchange-rate patterns accept. */
  const RateCodes: set<string> := {"SGD", "USD", "EUR", "GBP", "AED", "MYR"}

  /** The unit tokens of the item record pattern and of the vertical unit lookahead. */
  const Units: set<string> := {"KGS", "NOS", "PCS", "MTR", "LTR", "UNT", "BOX"}

  /** One extracted line item: Description, Qty, Rate, Total; "" where nothing was found. */
  datatype Item = Item(description: string, qty: string, rate: string, total: string)

  // ---------------------------------------------------------------- what the searches capture

  /** A match of the horizontal item pattern: HS code, raw description, quantity, unit, rate, total. */
  datatype ItemRecord = ItemRecord(code: string, rawDescription: string, qty: string, unit: string, rate: string, total: string)

  /** A match of the fallback description pattern: HS code and raw description. */
  datatype DescriptionRecord = DescriptionRecord(code: string, rawDescription: string)

  /** A match of the fallback `<qty> <unit> <rate> <total>` pattern. */
  datatype AmountRecord = AmountRecord(qty: string, unit: string, rate: string, total: string)

  /** A match of an exchange-rate pattern: the currency code it read (not captured) and the rate (captured). */
  datatype RateQuote = RateQuote(code: string, value: string)

  /**
   * The pattern searches the extractor runs, each as the function from the
   * searched string to what it captures (None when the pattern does not occur).
   */
  datatype Searches = Searches(
    sbDate: string -> Option<string>,                          // `(\d{1,2}-[A-Z]{3}-\d{2,4})`
    sbNo: string -> Option<string>,                            // `\b(\d{7,8})\b`
    invNo: string -> Option<string>,                           // `(JT[-/A-Z0-9]+)`
    currencyToInr: string -> Option<string>,                   // `1\s+(<12 codes>)\s+INR`
    anchoredRate: string -> Option<RateQuote>,                 // `EXCHANGE\s+RATE.*?1\s+(?:<6 codes>)\s+(?:INR)?\s*([\d\.]+)`
    looseRate: string -> Option<RateQuote>,                    // `1\s+(?:<6 codes>)\s+INR\s+([\d\.]+)`
    itemRecords: string -> seq<ItemRecord>,                    // every match of the item pattern, in order
    fallbackDescription: string -> Option<DescriptionRecord>,  // `\b(\d{8})\s+([A-Z][A-Z\s&/,.\-]+?)(?=\s+\d+\s+(?:KGS|NOS|PCS|MTR|LTR))`
    fallbackAmounts: string -> Option<AmountRecord>            // `(\d+)\s+(<7 units>)\s+(\d+)\s+(\d+)`
  )

  /** `\d+` */
  predicate IsDigits(s: string) { s != "" && AllDigits(s) }

  /** `[\d\.]+` */
  predicate IsDecimal(s: string) {
    s != "" && forall i :: 0 <= i < |s| ==> IsDigit(s[i]) || s[i] == '.'
  }

  /** `\d{1,2}-[A-Z]{3}-\d{2,4}` with a day of `day` digits. */
  predicate IsDateWithDay(s: string, day: nat) {
    && day + 5 <= |s|
    && 2 <= |s| - day - 5 <= 4
    && AllDigits(s[..day])
    && s[day] == '-'
    && IsUpper(s[day + 1]) && IsUpper(s[day + 2]) && IsUpper(s[day + 3])
    && s[day + 4] == '-'
    && AllDigits(s[day + 5..])
  }

  predicate IsSbDate(s: string) { IsDateWithDay(s, 1) || IsDateWithDay(s, 2) }

  /** `JT[-/A-Z0-9]+` */
  predicate IsInvoiceNumber(s: string) {
    |s| >= 3 && s[..2] == "JT"
    && forall i :: 2 <= i < |s| ==> s[i] == '-' || s[i] == '/' || IsUpper(s[i]) || IsDigit(s[i])
  }

  /** `[A-Z][A-Z\s&/,.\-]+?`: at least two characters, the first an upper-case letter. */
  predicate IsRawDescription(s: string) {
    |s| >= 2 && IsUpper(s[0])
    && forall i :: 0 <= i < |s| ==> IsUpper(s[i]) || IsSpace(s[i]) || s[i] in "&/,.-"
  }

  predicate IsItemRecord(m: ItemRecord) {
    IsNumber(m.code, 8, 8) && IsRawDescription(m.rawDescription) && IsDigits(m.qty)
    && m.unit in Units && IsDigits(m.rate) && IsDigits(m.total)
  }

  predicate IsAmountRecord(a: AmountRecord) {
    IsDigits(a.qty) && a.unit in Units && IsDigits(a.rate) && IsDigits(a.total)
  }

  predicate IsRateQuote(q: RateQuote) { q.code in RateCodes && IsDecimal(q.value) }

  /** What each pattern guarantees about the text it captures. */
  ghost predicate Sound(rx: Searches) {
    && (forall t :: rx.sbDate(t).Some? ==> IsSbDate(rx.sbDate(t).value))
    && (forall t :: rx.sbNo(t).Some? ==> IsNumber(rx.sbNo(t).value, 7, 8))
    && (forall t :: rx.invNo(t).Some? ==> IsInvoiceNumber(rx.invNo(t).value))
    && (forall t :: rx.currencyToInr(t).Some? ==> rx.currencyToInr(t).value in CurrencyCodes)
    && (forall t :: rx.anchoredRate(t).Some? ==> IsRateQuote(rx.anchoredRate(t).value))
    && (forall t :: rx.looseRate(t).Some? ==> IsRateQuote(rx.looseRate(t).value))
    && (forall t, m :: m in rx.itemRecords(t) ==> IsItemRecord(m))
    && (forall t :: rx.fallbackDescription(t).Some? ==>
          IsNumber(rx.fallbackDescription(t).value.code, 8, 8)
          && IsRawDescription(rx.fallbackDescription(t).value.rawDescription))
    && (forall t :: rx.fallbackAmounts(t).Some? ==> IsAmountRecord(rx.fallbackAmounts(t).value))
  }

  /**
   * How a captured description is tidied (lines 113-114 and 222-223): strip,
   * collapse whitespace runs to one space, drop trailing `&` and whitespace,
   * strip again. The result is the capture's words joined by single spaces,
   * with a trailing run of `&` and whitespace dropped; so it keeps the
   * capture's characters that are not whitespace, in order, except that
   * trailing run of `&`, and separates them by single spaces only.
   */
  function CleanDescription(raw: string): (d: string)
    ensures d == [] || (d[|d| - 1] != '&' && !IsSpace(d[|d| - 1]))
    ensures d == [] || !IsSpace(d[0])
    ensures SingleSpaced(d)
    ensures NonSpace(d) <= NonSpace(raw)
    ensures forall k :: |NonSpace(d)| <= k < |NonSpace(raw)| ==> NonSpace(raw)[k] == '&'
    ensures d == Strip(TrimTrailingAmpersands(JoinWith(" ", Words(raw))))
  {
    CollapseIsJoinedWords(raw);
    CleanEnds(raw);
    CleanIsSingleSpaced(raw);
    CleanKeepsWords(raw);
    Strip(Tidied(raw))
  }

  /** The description before its final strip: stripped, collapsed, trailing `&` and whitespace dropped. */
  function Tidied(raw: string): string {
    TrimTrailingAmpersands(CollapseSpaces(Strip(raw)))
  }

  /** The cleaned description neither starts with whitespace nor ends with `&` or whitespace. */
  lemma CleanEnds(raw: string)
    ensures var d := Strip(Tidied(raw));
      && (d == [] || (d[|d| - 1] != '&' && !IsSpace(d[|d| - 1])))
      && (d == [] || !IsSpace(d[0]))
  {
    var t := Tidied(raw);
    StripIsStripped(t);
    if t != [] {
      StripKeepsLast(t);
    }
  }

  /** The cleaned description is a slice of the collapsed text, so it is single-spaced. */
  lemma CleanIsSingleSpaced(raw: string)
    ensures SingleSpaced(Strip(Tidied(raw)))
  {
    var b := CollapseSpaces(Strip(raw));
    var t := Tidied(raw);
    CollapsedSpacesAreSingle(Strip(raw));
    assert SingleSpaced(b);
    var i, j := StripBounds(t);
    assert Strip(t) == b[i..j];
    SingleSpacedSlice(b, i, j);
  }

  /** Each step keeps the characters that are not whitespace, except that the trim drops a trailing run of `&`. */
  lemma CleanKeepsWords(raw: string)
    ensures var d := Strip(Tidied(raw));
      && NonSpace(d) <= NonSpace(raw)
      && forall k :: |NonSpace(d)| <= k < |NonSpace(raw)| ==> NonSpace(raw)[k] == '&'
  {
    var b := CollapseSpaces(Strip(raw));
    StripKeepsNonSpace(raw);
    assert NonSpace(b) == NonSpace(raw);
    TrimKeepsNonSpace(b);
    StripKeepsNonSpace(Tidied(raw));
  }
}
