# Shipping-bill extraction, modelled in Dafny

This project models the core of `extract_shipping_bills.py`. That program turns the text of an Indian shipping-bill PDF into spreadsheet rows, one row per line item. The model covers four stages:

- **Normalizer** (`clean_lines`): the full text becomes its stripped, non-blank lines.
- **Common fields** (`extract_common_fields`): the SB date, SB number, consignee, invoice number, currency and exchange rate.
  - The consignee and the currency come from line scans, which are written out.
  - The other fields come from whole-text pattern searches.
- **Line items** (`extract_all_items`):
  - the section markers (`PART - II - INVOICE DETAILS`, `PART - III - ITEM DETAILS`) and the search windows they select;
  - Strategy A: records written on a single line, found by the horizontal item pattern in the window's lines joined by spaces, else in the whole text. Each match that is no fragment and whose key is new gives one item;
  - Strategy B: vertical columns. A description is taken after each HS-code line, then the quantity, rate and total columns are collected and zipped;
  - Strategy C: the fallback item built from two whole-text searches.
- **Rows** (the loop of `process_shipping_bills`): one row per item. Each row repeats the common fields and prefixes the rate with the currency.

Each loop of the extractor is a `method` with loop invariants. It is proved equal to a function that defines its result. The properties the extractor relies on are then proved about those functions as lemmas. The extractor keeps its state in local lists, sets and dictionaries and has no objects, so the model has no classes.

The whole-text regular-expression searches are parameters of the model, gathered in the record `Patterns.Searches`:

- lines 24, 29, 34, 60, 66 and 71;
- the item pattern of line 108;
- the fallback patterns of lines 220 and 227.

The predicate `Patterns.Sound` states what each pattern guarantees about the groups it captures, and lemmas that need such facts assume `Sound`. Whole-line tests (`^\d{8}$`, the unit and currency tokens, the substring tests) and the description clean-up substitutions are written out in full.

Python's string operations are modelled in the module `Text`:

- `str.strip`, on whitespace as `str.isspace` defines it;
- `str.upper` on ASCII letters;
- `sub in s`;
- `split("\n")` and `" ".join`.

Two details of the currency code are easy to misread, and the model follows what the code does:

- The currency tests accept twelve codes, CHF included (lines 52 and 60), though the comment at line 46 lists seven.
- The label scan looks at the nine lines after a label, though the comment at line 49 says ten (`range(i+1, min(i+10, len(lines)))`). It does not stop at the first `CURRENC`/`INVOICE` line: a label whose next nine lines hold no code is passed over, and the scan goes on to the next label (lines 47-56). `CommonFields.ScannedCurrencyIsFirst` states this.

## Model

| member | source | states |
|---|---|---|
| Normalizer.CleanLines | extract_shipping_bills.py:8-10 | every normalised line is non-blank, has no whitespace at either end and holds no line break |
| Normalizer.NonBlankKeepsOrder | extract_shipping_bills.py:10 | the kept lines are exactly the stripped parts that are not blank, at increasing positions, in order; every part left out strips to "" |
| Normalizer.CleanLinesKeepsOrder | extract_shipping_bills.py:8-10 | `clean_lines` keeps exactly the non-blank lines of `text.split("\n")`, stripped, in their order |
| Normalizer.NonBlankFixesCleanLines | extract_shipping_bills.py:10 | lines already stripped and non-blank pass through the filter unchanged |
| Normalizer.CleanLinesIdempotent | extract_shipping_bills.py:8-10 | normalising the text rebuilt from normalised lines gives the same lines |
| Text.SplitThenJoin | extract_shipping_bills.py:9 | joining the parts of `split("\n")` with line breaks gives back the text |
| Text.JoinThenSplit | extract_shipping_bills.py:9 | splitting parts joined by line breaks gives back the parts, when none holds a line break |
| Text.StripIsStripped | extract_shipping_bills.py:10 | what `strip()` leaves is "" or has no whitespace at either end |
| Text.StripIdempotent | extract_shipping_bills.py:10 | stripping twice is stripping once |
| Text.Strip | extract_shipping_bills.py:10 | `strip()` never lengthens a line (StripBounds, StripIsStripped and StripIdempotent pin the result) |
| Text.StripBounds | extract_shipping_bills.py:10 | `strip()` keeps one slice `s[i..j]` and drops only whitespace before and after it; with StripIsStripped this pins the result |
| Text.StripKeepsNonSpace | extract_shipping_bills.py:10 | `strip()` keeps every character that is not whitespace, in order |
| Text.SplitLines | extract_shipping_bills.py:9 | `split("\n")` gives at least one part, and no part holds a line break |
| Text.CollapseSpaces | extract_shipping_bills.py:113 | `re.sub(r'\s+', ' ', ·)` keeps the characters that are not whitespace, in order; it gives "" only for "", keeps a first character that is not whitespace, and turns a leading whitespace run into one space (CollapseIsJoinedWords gives the whole result: one space per run between words) |
| Text.CollapseIsJoinedWords | extract_shipping_bills.py:113 | `re.sub(r'\s+', ' ', s.strip())` is `" ".join(s.split())`: the words of `s` in order, each whitespace run between two of them turned into exactly one space |
| Text.CollapseStrippedIsJoinedWords | extract_shipping_bills.py:113 | on a string with no whitespace at either end, `re.sub(r'\s+', ' ', ·)` gives its words joined by single spaces |
| Text.WordsOfStrip | extract_shipping_bills.py:113 | `strip()` changes no word: `s.strip().split() == s.split()` |
| Text.Upper | extract_shipping_bills.py:40-48 | `upper()` keeps the length, maps each ASCII lower-case letter to its upper-case partner (code point minus 32) and changes no other character |
| Text.Contains | extract_shipping_bills.py:91-93 | `sub in s` holds only when `s` is at least as long as `sub` |
| Text.ContainsAt | extract_shipping_bills.py:91-93 | an occurrence of `sub` at any position of `s` makes `sub in s` hold |
| Text.ContainsWitness | extract_shipping_bills.py:91-93 | `sub in s` holds only at a position where `sub` occurs |
| Text.JoinHoldsPart | extract_shipping_bills.py:100-105 | the text `" ".join(parts)` holds each of its parts |
| Text.CollapsedSpacesAreSingle | extract_shipping_bills.py:113 | after `re.sub(r'\s+', ' ', ·)` the only whitespace left is single spaces, never two in a row (which spaces remain is pinned by CollapseIsJoinedWords) |
| Text.TrimTrailingAmpersands | extract_shipping_bills.py:114 | `re.sub(r'[&\s]+$', '', ·)` keeps a prefix that ends in neither `&` nor whitespace, and removes only `&` and whitespace |
| Text.TrimKeepsNonSpace | extract_shipping_bills.py:114 | of the characters that are not whitespace, `re.sub(r'[&\s]+$', '', ·)` drops only a trailing run of `&` |
| Patterns.CleanDescription | extract_shipping_bills.py:113-114 | a cleaned description is the capture's words joined by single spaces, with a trailing run of `&` and whitespace removed and then stripped; so it is "" or starts with a non-whitespace character and ends with neither `&` nor whitespace; its whitespace is single spaces only; it keeps the capture's characters that are not whitespace, in order, except a trailing run of `&` |
| Patterns.CleanKeepsWords | extract_shipping_bills.py:113-114 | the three clean-up steps keep the capture's characters that are not whitespace, except a trailing run of `&` |
| Patterns.CleanIsSingleSpaced | extract_shipping_bills.py:113-114 | after the clean-up no whitespace other than single spaces is left |
| CommonFields.ConsigneeAfterFirstLabel | extract_shipping_bills.py:39-43 | with the first `CONSIGNEE` line at `i`, the name is line `i + 1`, or "" when `i` is the last line |
| CommonFields.ConsigneeWithoutLabel | extract_shipping_bills.py:39-43 | with no `CONSIGNEE` line the name stays "" |
| CommonFields.ConsigneeName | extract_shipping_bills.py:39-43 | the consignee name is "" or a line right after a `CONSIGNEE` line |
| CommonFields.ScanConsignee | extract_shipping_bills.py:39-43 | the consignee loop with its `break` computes the name above |
| CommonFields.FindCodeAfter | extract_shipping_bills.py:50-54 | the inner loop finds the first line among the nine after the label that strips to a currency code, or none |
| CommonFields.ScanCurrency | extract_shipping_bills.py:47-56 | the label loop and its two `break`s compute the scanned currency |
| CommonFields.ScannedCurrency | extract_shipping_bills.py:47-56 | the label scan leaves Currency "" or one of the twelve codes |
| CommonFields.CurrencyOf | extract_shipping_bills.py:45-62 | a code found by the label scan is the Currency; any other non-empty Currency is the capture of the `1 <CODE> INR` search |
| CommonFields.ScannedCurrencyFound | extract_shipping_bills.py:47-56 | the scan finds a code if and only if some label line has a code line among the nine lines after it |
| CommonFields.ScannedCurrencyIsFirst | extract_shipping_bills.py:47-56 | the scanned code is the first code line after the first label whose window holds one |
| CommonFields.CurrencyIsACode | extract_shipping_bills.py:45-62 | Currency is "" or one of the twelve codes; the `1 <CODE> INR` search decides it exactly when the scan found nothing |
| CommonFields.ExchangeRateOf | extract_shipping_bills.py:64-73 | the anchored search's rate wins whenever it matches; otherwise a non-empty rate is the loose search's |
| CommonFields.ExchangeRateIsDecimal | extract_shipping_bills.py:64-73 | Exchange Rate is "" or digits and dots; the anchored search wins whenever it matches, the loose one only otherwise |
| CommonFields.CommonFieldsOf | extract_shipping_bills.py:13-75 | SB date, SB number and invoice number are their search's capture when it matches, and "" otherwise; the consignee is "" or the line after a label; a scanned currency is one of the twelve codes |
| CommonFields.CommonFieldsShape | extract_shipping_bills.py:13-75 | every common field is "" or has the shape its pattern captures |
| CommonFields.ExtractCommonFields | extract_shipping_bills.py:13-75 | the extractor's sequence of searches and scans fills the record the field functions define |
| Sections.LocateMarkers | extract_shipping_bills.py:90-95 | both markers are -1 or a line index, and the invoice marker never lies after the item marker |
| Sections.FindSectionMarkers | extract_shipping_bills.py:90-95 | the marker loop with its `break` computes the markers |
| Sections.MarkersAreFirstItemAndLastInvoice | extract_shipping_bills.py:90-95 | the item marker is the first line holding `ITEM DETAILS`; the invoice marker is the last line up to it holding both `INVOICE` and `DETAILS` |
| Sections.InvoiceMarkerIsInvoiceAndDetails | extract_shipping_bills.py:91 | the long invoice-marker form adds nothing to `"INVOICE" in ln and "DETAILS" in ln` |
| Sections.ItemMarkerIsItemDetails | extract_shipping_bills.py:93 | the long item-marker form adds nothing to `"ITEM DETAILS" in ln` |
| Sections.HorizontalSearchText | extract_shipping_bills.py:97-106 | Strategy A searches exactly the invoice-section lines joined by spaces, else the item-window lines (at most 100) joined by spaces, else the whole text; each window line occurs in it |
| Sections.VerticalWindow | extract_shipping_bills.py:136-146 | the Strategy B range lies within the lines: from `max(0, invoice - 50)` up to the item marker, else from `max(0, item - 50)` to `min(item + 100, len(lines))`, else everything |
| Sections.FirstLineMarkerIgnored | extract_shipping_bills.py:98-146 | a marker on line 0 counts as no marker in both the Strategy A and Strategy B windows |
| Sections.SameLineMarkers | extract_shipping_bills.py:90-106 | when both markers fall on one line after the first, Strategy A searches the item-marker window |
| Horizontal.KeptFrom | extract_shipping_bills.py:111-131 | the kept matches are no more than the matches, none is a fragment, and none has a key taken before |
| Horizontal.HorizontalItems | extract_shipping_bills.py:108-131 | Strategy A gives at most one item per match, and no item's description is a fragment |
| Horizontal.CollectHorizontal | extract_shipping_bills.py:109-131 | the Strategy A loop yields the items of the non-fragment matches whose key is new, in match order |
| Horizontal.KeptKeysDistinct | extract_shipping_bills.py:120-124 | no two Strategy A items share an (HS code, quantity, rate, total) key |
| Horizontal.SeenAfterIsKeptKeys | extract_shipping_bills.py:116-124 | every non-fragment match's key ends up in `seen_items`, which holds exactly the kept items' keys |
| Horizontal.KeptAppend | extract_shipping_bills.py:111-131 | one more match adds its item exactly when it is no fragment and its key was not taken before |
| Horizontal.RepeatAddsNothing | extract_shipping_bills.py:120-124 | a match repeated later in the text adds no item |
| Horizontal.HorizontalItemsClean | extract_shipping_bills.py:112-118 | every Strategy A description has at least ten characters and a space, and neither starts with whitespace nor ends with `&` or whitespace |
| Horizontal.HorizontalAmountsAreDigits | extract_shipping_bills.py:108-131 | with sound patterns every Strategy A quantity, rate and total is a run of digits |
| Vertical.DescriptionAfter | extract_shipping_bills.py:159-170 | the lookahead after an HS-code line settles on none or on a line of the window among the nine after it that passes the description test |
| Vertical.Scan | extract_shipping_bills.py:149-170 | the description pass records one line index and one HS-code line per description (ScanInWindow and ScanFindsDescriptions state where they lie) |
| Vertical.DescriptionTestSimplifies | extract_shipping_bills.py:162-167 | the description test holds if and only if the line has more than five characters, starts with an upper-case letter and is new; the two digit tests never reject |
| Vertical.FirstDescriptionIsFirst | extract_shipping_bills.py:159-170 | no line before the one the lookahead settles on passes the description test |
| Vertical.FindDescription | extract_shipping_bills.py:159-170 | the lookahead loop settles on the first passing line among the next nine inside the window, or none |
| Vertical.CollectDescriptions | extract_shipping_bills.py:149-170 | the description pass over the window computes the descriptions and their line indices |
| Vertical.ScanFindsDescriptions | extract_shipping_bills.py:154-170 | each description found is the stripped line it sits on, follows an HS-code line, is description-shaped and distinct from the others |
| Vertical.ScanMissesNoDescription | extract_shipping_bills.py:149-170 | an HS-code line that takes no description has no line among the nine after it, inside the window, that looks like a description not found before |
| Vertical.ScanInWindow | extract_shipping_bills.py:154-170 | each description lies on one of the nine lines after its code, inside the window, and the codes are read in order |
| Vertical.HasUnitAhead | extract_shipping_bills.py:187-190 | the unit lookahead answers whether one of the next four lines strips to a unit token |
| Vertical.ColumnStep | extract_shipping_bills.py:183-198 | one line leaves each column as it was or adds itself at the column's end, only with that column's digit count (and, for a quantity, a unit ahead), and never to a full column |
| Vertical.ReadColumnLine | extract_shipping_bills.py:183-198 | reading one line applies the quantity, rate and total tests in turn, each on the lists the earlier tests left |
| Vertical.CollectColumns | extract_shipping_bills.py:178-198 | the column loop over thirty lines from the first description computes the three columns |
| Vertical.ColumnsOrdered | extract_shipping_bills.py:182-198 | there are never more totals than rates, rates than quantities, or quantities than descriptions; the entries have 2-4, 1-2 and 3-5 digits |
| Vertical.TwoDigitLineIsQuantityAndRate | extract_shipping_bills.py:185-194 | a two-digit line followed by a unit becomes a quantity and, in the same step, a rate |
| Vertical.LongLineIsQuantityAndTotal | extract_shipping_bills.py:185-198 | a three- or four-digit line followed by a unit, while a total is owed, becomes a quantity and a total but not a rate |
| Vertical.ZipItems | extract_shipping_bills.py:201-208 | one item per description, in order; item k's quantity, rate and total are the k-th entries of their columns, or "" past a column's end |
| Vertical.ZipColumns | extract_shipping_bills.py:201-208 | the zip loop builds one item per description, taking "" where a column is short |
| Vertical.ZipOrderedColumns | extract_shipping_bills.py:201-208 | zipping ordered columns keeps the descriptions in order and gives items with no total without a rate and no rate without a quantity |
| Vertical.VerticalItems | extract_shipping_bills.py:133-208 | Strategy B gives exactly one item per description its description pass finds |
| Vertical.VerticalItemsShape | extract_shipping_bills.py:133-208 | Strategy B gives one item per description found, in order and distinct; item k's cells are the k-th entries of the columns collected from the first description's line on, or "" past a column's end; each cell is of its column's width or "" |
| Items.CollectVertical | extract_shipping_bills.py:133-208 | Strategy B as run: the window, then the description pass, then the columns from the first description and the zip |
| Items.FallbackItem | extract_shipping_bills.py:210-233 | Strategy C's amounts are the amounts search's captures, or all "" when it does not match; the description is the cleaned capture of its search, or "" when it does not match |
| Items.BuildFallbackItem | extract_shipping_bills.py:210-233 | Strategy C fills the description and the three amounts from the two fallback searches, "" where one does not match |
| Items.FallbackAmounts | extract_shipping_bills.py:226-231 | with sound patterns the fallback's quantity, rate and total are all "" or all runs of digits |
| Items.FallbackDescriptionFound | extract_shipping_bills.py:219-224 | with sound patterns the fallback description is "" if and only if its search did not match |
| Items.AllItems | extract_shipping_bills.py:80-235 | every document yields at least one item |
| Items.ExtractAllItems | extract_shipping_bills.py:80-235 | the extractor tries Strategy A, then B if A found nothing, then C if B found nothing |
| Items.EmptyDescriptionMeansFallback | extract_shipping_bills.py:80-235 | an item with an empty description can only be the fallback, and then it is the document's only item |
| Items.ItemAmountsAreDigits | extract_shipping_bills.py:80-235 | with sound patterns every item's quantity, rate and total is "" or a run of digits, whichever strategy made it |
| Rows.RateWithCurrency | extract_shipping_bills.py:264 | the Rate cell is "" exactly when the rate is, always ends with the rate, and is the bare rate without a currency |
| Rows.RowOf | extract_shipping_bills.py:262-275 | a row copies the common fields and its item's cells; its Rate is the item's rate behind the document's currency (RateWithCurrency), so it ends with the item's rate and is "" exactly when that is |
| Rows.RateCellRoundTrip | extract_shipping_bills.py:264 | the Rate cell reads back as the currency and the rate, the currency only when there was a rate to prefix |
| Rows.ExpandRows | extract_shipping_bills.py:262-277 | the row loop builds one row per item, in order |
| Rows.ProcessDocument | extract_shipping_bills.py:253-277 | one document's rows: normalise, extract the common fields and the items, expand |
| Rows.DocumentRows | extract_shipping_bills.py:253-277 | a document gives exactly one row per extracted item, so at least one |
| Rows.DocumentRowsRepeatCommonFields | extract_shipping_bills.py:262-277 | every document gives at least one row, one per item; every row repeats the common fields and its item's cells; its Rate is the item's rate behind the document's currency, "" exactly when the item's rate is |
| Rows.DocumentRowsShape | extract_shipping_bills.py:262-277 | with sound patterns every row's cells have their fields' shapes, the Rate being "", digits, or `<CODE> <digits>` |

## Left out

- Reading PDFs with `fitz`, listing the input folder, the progress `print`, and writing the DataFrame to CSV and Excel (lines 240-251 and 279-296) are I/O. The model starts from a document's recovered text.
- `app.py` is not part of this model.
- The regular-expression engine is not modelled. The whole-text searches are parameters (`Patterns.Searches`). `Patterns.Sound` states only the shape of what each pattern captures, not where in the text the match falls or which match comes first.
- `\d` and `[A-Z]` are modelled on ASCII characters, and `str.upper()` on ASCII letters only. Python's `\d` also accepts other Unicode decimal digits.
- Strip, whitespace collapsing and `[&\s]+$` use the whitespace set of `str.isspace()`, which is what `\s` matches in a `str` pattern. The model applies `[&\s]+$` to strings with no line break, where `$` has no second reading.
- Integers stay strings throughout, as in the extractor; nothing is converted, so no width or overflow applies.
