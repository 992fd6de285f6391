# hledger exporter, modelled in Dafny

This project models the core of a Prometheus exporter for an hledger
journal. The exporter periodically runs three kinds of hledger reports and
turns their text into eight gauge vectors:

- **balance reports** (`hledger bal expenses|assets|income`):
  - one gauge entry per (account, currency);
  - one total per currency.
- **the monthly expense register** (`hledger reg expenses --monthly` as CSV):
  - one entry per (category, currency, month, month tag).
- **the expense postings** (`hledger print expenses` as CSV):
  - summed per normalised payee and month.

The model covers everything that lies between a report's text and the
gauges' contents:

- Go's string functions: `TrimSpace`, `Fields`, `Split`, `Contains`,
  `TrimPrefix`, `ToLower` and `ReplaceAll`.
- `strconv.ParseFloat`, read as an exact decimal.
- The currency glyph table.
- The `2006-01` and `2006-01-02` time layouts and the previous-month
  computation.
- The regular expression `\s*\(.*?\)\s*` that normalises payees.
- The report, register and posting loops, as imperative methods over
  gauge objects.

Each gauge vector is a `Gauges.Gauge` object whose `values` map is updated
in place by `Reset` and `Set`. The class `Exporter.Exporter` holds the eight
gauges, and its methods are the source's collection functions.

The reports are parameters: a report is `Some(text)` or `Some(records)`, or
`None` when the command or the CSV reader failed. The clock's month is also a
parameter (`YearMonth`).

Module layout, with dependencies in order:

| module | what it holds |
|---|---|
| `Wrappers` | `Option` |
| `GoStrings` | Go string functions |
| `Numbers` | decimal numerals |
| `Amounts` | `parseAmount`, the glyph table and amount tokens |
| `Months` | month labels, dates and month tags |
| `Gauges` | gauge vectors and writes |
| `Balances` | the balance report |
| `Monthly` | the monthly register |
| `Payees` | `normalizePayee` |
| `PayeeTotals` | payee aggregation |
| `Exporter` | the gauge registry and the collection runs |

In five places the program behaves differently from what a reader of its
design would expect. The model follows the code:

- **A failed command leaves the gauges as they were.** Every collection
  function returns before `Reset` when its command (or the CSV reader)
  fails, so the gauges keep their former values: nothing clears them when a
  report cannot be had. See `Exporter.Collected` and the `None` cases of the
  collection methods.
- **The total gauges are never reset.** A total line only overwrites its own
  currency's entry (`Exporter.CollectBalances`).
- **A payee debit with a currency glyph is dropped.** The code parses the
  debit column without stripping a glyph, so a debit such as `€5.00` is not
  a number and the posting is dropped instead of being counted. See
  `PayeeTotals.GlyphDebitDropped`.
- **A short register date panics.** A register record with at least six
  columns whose date is shorter than seven characters makes `rec[1][:7]`
  panic, where the record was evidently meant to be skipped like any other
  malformed one. This is modelled as the `Panic` effect, which ends the run.
- **`normalizePayee` is not idempotent as written.** A normalised payee is
  meant to be a canonical key that normalises to itself, but the code does
  not have that property; see "## Findings". The payee aggregation follows
  the code as written (`Payees.NormalizePayeeAsWritten`).

## Model

| member | source | states |
|---|---|---|
| GoStrings.IsPerlSpace | main.go:97 | The `\s` class of the payee pattern is contained in `unicode.IsSpace` |
| GoStrings.TrimLeftFacts | main.go:139 | What the left trim drops is white space; what it keeps is a suffix that does not start with white space |
| GoStrings.TrimRightFacts | main.go:139 | What the right trim drops is white space; what it keeps is a prefix that does not end with white space |
| GoStrings.TrimSpace | main.go:139 | `strings.TrimSpace` never lengthens its input, and the result has no white space at either end |
| GoStrings.TrimSpaceFacts | main.go:139 | `TrimSpace` returns a slice of its input; everything it drops before and after that slice is white space, and the slice neither starts nor ends with white space; it is empty exactly when the input is all white space; a text without edge white space is its own trim |
| GoStrings.TrimSpaceIdempotent | main.go:139 | Trimming twice is trimming once |
| GoStrings.TrimSpaceOfTrimmed | main.go:96 | A text with no white space at either end is unchanged by `TrimSpace` |
| GoStrings.WordLength | main.go:143 | The leading run of non-space runes: every rune in it is non-space and the rune after it is white space |
| GoStrings.Fields | main.go:143 | Every field `strings.Fields` returns is a non-empty run of non-space runes |
| GoStrings.FieldsSpaced | main.go:143 | The fields, laid out with the white space around and between them, give back the text, with a non-empty white-space gap between two fields; there are no fields exactly when the text is all white space |
| GoStrings.FieldsUnique | main.go:143 | The fields are the maximal runs: words separated by white-space gaps are exactly the fields of the text they make |
| GoStrings.FieldsOfTrimmed | main.go:143-144 | A trimmed, non-empty line has exactly one field when it holds no white space, and that field is the whole line |
| GoStrings.FieldsSkipSpaces | main.go:143 | Leading white space of any length does not change the fields |
| GoStrings.FieldsWordThen | main.go:143 | A word followed by white space or nothing is the first field |
| GoStrings.FieldsSkipSpace | main.go:143 | Leading white space does not change the fields |
| GoStrings.FieldsAppend | main.go:143 | A word, one white-space rune, then more text: the word is the first field and the rest are the fields of the remainder |
| GoStrings.FieldsOfWord | main.go:143 | A run of non-space runes is exactly one field |
| GoStrings.IndexOf | main.go:138 | The first occurrence of a rune, or the length when there is none |
| GoStrings.Split | main.go:138 | `strings.Split` gives at least one piece |
| GoStrings.SplitFacts | main.go:138 | `strings.Split` on "\n" gives a single piece exactly when the text holds no separator; no piece holds the separator, and joining the pieces with the separator gives back the text |
| GoStrings.Contains | main.go:140 | `strings.Contains` holds exactly when the pattern occurs at some offset |
| GoStrings.TrimPrefix | main.go:175 | `strings.TrimPrefix` removes the prefix exactly once when the text starts with it, and otherwise returns the text unchanged |
| GoStrings.LowerChar | main.go:96 | Lower-casing maps an ASCII capital to the letter 32 code points above it, yields no ASCII capital and changes nothing else |
| GoStrings.ToLower | main.go:96 | `strings.ToLower` keeps the length and lower-cases rune by rune |
| GoStrings.ToLowerOfLower | main.go:96 | Lower-case text is unchanged by `ToLower` |
| GoStrings.RemoveCommas | main.go:92 | `ReplaceAll(s, ",", "")` leaves no comma and never lengthens the text |
| GoStrings.RemoveCommasAppend | main.go:92 | Removing commas distributes over concatenation |
| GoStrings.RemoveCommaDropped | main.go:92 | A comma anywhere is dropped |
| GoStrings.RemoveCommasWithout | main.go:92 | Text without a comma is unchanged |
| Numbers.DigitsValueAppend | main.go:92 | The value of concatenated digit strings is the first value shifted by the second's length, plus the second value |
| Numbers.NatDigits | main.go:92 | The shortest numeral of a natural number reads back as that number |
| Numbers.PadZeros | main.go:92 | Zero padding keeps a numeral's value |
| Numbers.ParseMantissa | main.go:92 | A parsed mantissa is non-negative and starts with a digit or '.' |
| Numbers.ParseNumber | main.go:92 | `ParseFloat` accepts only a sign, a digit or '.' first; an unsigned number is non-negative |
| Numbers.MantissaOfNumeral | main.go:92 | The numeral whole.frac reads as its exact decimal value |
| Numbers.NumberOfNumeral | main.go:92 | An unsigned numeral whole.frac parses to its exact decimal value |
| Numbers.NegatedNumeral | main.go:92 | A '-' before a plain numeral negates its value |
| Numbers.ShowParses | main.go:92 | Round trip: any m / 10^k printed with k fraction digits parses back to m / 10^k |
| Amounts.CurrencyCode | main.go:152 | The glyph table maps "€" to EUR, "$" to USD and every other key to "" |
| Amounts.DecodeAmount | main.go:167-174 | An amount token decodes exactly when the text after its first rune parses; the value is that number and the currency is the first rune's code |
| Amounts.ParseAmount | main.go:91-93 | On text without a comma, `parseAmount` is `ParseFloat` itself |
| Amounts.CommaInsensitive | main.go:91-93 | `parseAmount` ignores a thousands separator wherever it stands |
| Amounts.ParseAmountOfShow | main.go:91-93 | Round trip: `parseAmount` reads a printed number back as its value |
| Amounts.ParseAmountOfNumeral | main.go:91-93 | `parseAmount` reads whole.frac as its exact decimal value |
| Amounts.DecodeShownAmount | main.go:167-174 | A glyph followed by a printed number decodes to that number, in that glyph's currency |
| Amounts.DecodeEuroExample | main.go:167-174 | "€1,234.56" decodes to 1234.56 EUR |
| Amounts.DecodeDollarExample | main.go:167-174 | "$12.3" decodes to 12.3 USD |
| Amounts.DecodeUnknownGlyphExample | main.go:174 | "£7.5" keeps its amount with an empty currency |
| Amounts.DecodeNonNumberExample | main.go:169-173 | "€abc" does not decode |
| Months.Previous | main.go:200-201 | The month before now: the same year and month - 1, or December of the previous year in January; never now itself |
| Months.PreviousNext | main.go:200-201 | Previous and Next undo each other |
| Months.Digits | main.go:199 | A fixed-width, zero-padded digit string |
| Months.DigitsValueOfDigits | main.go:199 | A fixed-width digit string reads back as its number |
| Months.DigitsOfDigitsValue | main.go:270 | Every digit string is the fixed-width form of its own value |
| Months.FormatYearMonth | main.go:199 | The "2006-01" form is seven characters with '-' at index 4 |
| Months.FormatYearMonthInjective | main.go:199-201 | Distinct months get distinct labels, so "current" and "previous" never coincide |
| Months.MonthTag | main.go:221-226 | The tag is "current" exactly for now's month, "previous" exactly for the month before, and "" for every other label |
| Months.MonthTagExample | main.go:221-226 | With the clock at April 2024, "2024-03" is "previous" and "2024-01" has no tag; in January, December of the year before is "previous" |
| Months.DaysIn | main.go:270 | A month has 28 to 31 days |
| Months.ParseDate | main.go:270 | "2006-01-02" parsing accepts exactly the YYYY-MM-DD digit shape whose month and day exist, and only yields valid dates |
| Months.FormatDate | main.go:281 | Formatting a valid date yields the YYYY-MM-DD shape |
| Months.ParseFormatDate | main.go:270-281 | Round trip: a formatted date parses back to itself |
| Months.FormatParseDate | main.go:270-281 | Round trip: an accepted string is the formatted form of its date |
| Months.MonthOfParsedDate | main.go:270-281 | The "2006-01" month of a parsed date is the first seven characters of its text |
| Gauges.LastWrite | main.go:176 | A key has no last write exactly when no write touches it; otherwise the value is that of a write to it that no later write overrides |
| Gauges.ApplyFacts | main.go:137-177 | After a sequence of `Set` calls (`Gauges.Apply`), the keys are the old keys plus the written ones; a written key holds its last written value; every other key keeps its old value |
| Gauges.ApplyConcat | main.go:138-177 | Performing two batches of writes in turn is performing their concatenation |
| Gauges.LastWriteSkips | main.go:176 | Writes to other keys do not change the last write to a key |
| Gauges.Gauge.constructor | main.go:26-32 | A new gauge vector is empty |
| Gauges.Gauge.Reset | main.go:137 | `Reset` empties the gauge vector |
| Gauges.Gauge.Set | main.go:176 | `WithLabelValues(...).Set(v)` sets one entry and leaves the others unchanged |
| Balances.ClassifyTrimmed | main.go:139-176 | A trimmed report line: filler is skipped; a total has a known currency and is a single field led by a glyph; an account line has at least two fields |
| Balances.ClassifyTrimmedMeaning | main.go:139-176 | A trimmed report line: blank lines and "----" lines are skipped; a lone glyph-led token is a total, kept exactly when it decodes, with a known currency; any other line is an account line exactly when it has two or more fields whose first decodes, and its account is the second field with the prefix trimmed |
| Balances.ClassifyLine | main.go:139-176 | A raw report line is trimmed first: a total has a known currency, and a line of nothing but white space is skipped |
| Balances.TotalIsWholeLine | main.go:144-152 | A total is a whole trimmed line holding no white space; its one field is the line, and the total is that line decoded as an amount token |
| Balances.ClassifyReportAt | main.go:138-139 | Entry i of a classified report is line i, trimmed and classified |
| Balances.ReportSnoc | main.go:138-177 | The writes of the first i + 1 lines are those of the first i, then those of line i |
| Balances.EntryWrites | main.go:176 | A report makes at most one account write per line |
| Balances.TotalWrites | main.go:153-160 | A report makes at most one total write per line |
| Balances.AccountGaugeOfReport | main.go:137-177 | After collecting a report (`Balances.AccountGauge`), the account gauge holds a label exactly when some line of the report writes it |
| Balances.ReportTotalsOfReport | main.go:144-160 | A report (`Balances.ReportTotals`) makes the total write (currency, value) exactly when one of its lines is that total |
| Balances.TotalWritesFrom | main.go:144-160 | A total write comes from a total line, and every total line makes one |
| Balances.AccountGaugeEntries | main.go:137-177 | After the report loop the account gauge holds exactly the labels some line wrote, each with the amount of the last line that wrote it |
| Balances.TotalGaugeKeys | main.go:152-160 | Collecting totals only ever adds the keys "EUR" and "USD" to a total gauge |
| Balances.TotalIgnoresPrefix | main.go:144-161 | Whether a line is a total, and which total, does not depend on the account prefix |
| Balances.EntryWritesConcat | main.go:138-177 | The account writes of consecutive pieces of a report are the writes of the whole report |
| Balances.TotalWritesConcat | main.go:138-177 | The total writes of consecutive pieces of a report are the writes of the whole report |
| Balances.NonEntryTransparent | main.go:140-172 | A skipped line, a total line or an unparsable line leaves the account writes of the lines around it as they were |
| Balances.NonTotalTransparent | main.go:140-176 | A line that is not a total leaves the total writes of the lines around it as they were |
| Balances.TotalCurrenciesKnown | main.go:152-160 | Every total write of a classified report is keyed EUR or USD |
| Balances.LastEntryWins | main.go:176 | The last account write to a label comes from the last line that writes that label, and there is none exactly when no line writes it |
| Balances.ClassifyEntry | main.go:163-176 | A two-field line whose first field decodes sets (trimmed account, currency) to the amount |
| Balances.ClassifyTotal | main.go:144-161 | A lone glyph-led token that decodes is a total in its currency |
| Balances.EntryLineExample | main.go:163-176 | "€120.00  expenses:food:groceries" sets ("food:groceries", "EUR") to 120 |
| Balances.SeparatorExample | main.go:140-142 | The dashed rule is skipped |
| Balances.TotalLineExample | main.go:144-161 | A lone "€120.00" is the EUR total 120 |
| Balances.ReportWritesExample | main.go:138-177 | An account line, a separator and a total make one account write and one total write |
| Monthly.ClassifyRecord | main.go:204-227 | A register record: the header and records with fewer than six columns are ignored; a date shorter than seven characters panics; a record writes exactly when its trimmed amount decodes, under (category without "expenses:", currency, first seven characters of the date, that month's tag) |
| Monthly.RunRecords | main.go:203-228 | The loop makes at most one write per record |
| Monthly.PanicIsFinal | main.go:207 | Once a record has panicked, later records change nothing |
| Monthly.PanicsIff | main.go:203-207 | The loop panics exactly when some data record with six columns has a date shorter than seven characters |
| Monthly.WritesTagged | main.go:221-227 | Every write carries the month tag of its own month label |
| Monthly.GaugeTagsAgree | main.go:196-228 | Every entry of the monthly gauge (`Monthly.MonthlyGauge`) is tagged "current" exactly when its month is the clock's month, "previous" exactly when it is the month before, and "" otherwise |
| Monthly.HeaderIgnored | main.go:204-206 | The header record never writes, whatever it holds |
| Monthly.RecordExample | main.go:203-227 | A record dated "2024-04-01" for "expenses:food" with "€12.3", in April 2024, writes ("food", "EUR", "2024-04", "current") = 12.3 |
| Payees.SpaceRun | main.go:97 | The greedy `\s*`: every rune in the run is `\s` and the rune after it is not |
| Payees.CloseOffset | main.go:97 | The lazy `.*?\)` stops at the first ')'; without the `s` flag it cannot cross a line break; with it, it finds a ')' exactly when there is one |
| Payees.CloseOffsetFinds | main.go:97 | A ')' that `.` can reach is found: the lazy `.*?\)` stops at it or at an earlier ')' |
| Payees.MatchLength | main.go:97 | A match at offset 0 is at least two runes long and has '(' after its leading white space, with a reachable ')' after it |
| Payees.MatchLengthFacts | main.go:97 | Some prefix of the text matches `\s*\(.*?\)\s*` exactly when the measured length is positive, so 0 means no match; the measured prefix is itself a match with no ')' inside its group, and the rune after it is not `\s` |
| Payees.StripGroups | main.go:97 | `ReplaceAllString(s, "")` never lengthens the text |
| Payees.StripGroupsKeeps | main.go:97 | Deleting groups only removes runes |
| Payees.NormalizePayeeAsWritten | main.go:95-99 | `normalizePayee` as written never lengthens its input and yields lower-case text |
| Payees.NormalizePayeeSingleLine | main.go:95-99 | As written, a description without a line break loses every group, and the result differs from the corrected normaliser only by a final trim |
| Payees.StripGroupsSingleLine | main.go:97 | Without a line break, the `s` flag makes no difference to the groups deleted |
| Payees.CloseOffsetSingleLine | main.go:97 | Without a line break, the `s` flag makes no difference to where `.*?\)` stops |
| Payees.NormalizePayeeFacts | main.go:95-99 | The corrected normaliser (`Payees.NormalizePayee`) yields a payee with no white space at either end, no capital letter and no parenthesised group |
| Payees.StripGroupsLower | main.go:96-97 | Lower-case text stays lower-case when its groups are deleted |
| Payees.StripGroupsNoGroup | main.go:97 | When `.` crosses line breaks, the deletion leaves no group behind |
| Payees.StripGroupsOfNoGroup | main.go:97 | Text without a group is left unchanged |
| Payees.NormalizePayeeIdempotent | main.go:95-99 | Normalising a normalised payee changes nothing |
| Payees.AsWrittenNotIdempotent | main.go:95-99 | As written, "(\n(x))" normalises to "()", which normalises to "" |
| Payees.AsWrittenKeepsVerticalTab | main.go:95-99 | As written, "a\v(x)" normalises to "a\v", which normalises to "a" |
| Payees.KeepPlain | main.go:97 | A run of runes with no `\s` and no '(' is kept as it is |
| Payees.CloseAt | main.go:97 | The lazy `.*?\)` stops at the first ')' after a stretch that holds none |
| Payees.NormalizePayeeAsWrittenExample | main.go:95-99 | As written, "Coffee Shop (ref 42)" becomes "coffee shop" |
| Payees.NormalizePayeeExample | main.go:95-99 | The corrected normaliser also makes "Coffee Shop (ref 42)" "coffee shop" |
| PayeeTotals.ColumnsOf | main.go:260-264 | The five columns the aggregation reads are trimmed: none has white space at either end, and none is longer than its raw column |
| PayeeTotals.ClassifyColumns | main.go:260-287 | A posting is kept exactly when its account starts with "expenses:", its date parses and its debit is a positive number; it then carries the description normalised by `normalizePayee` as written, the date's first seven characters, the commodity's code and the debit |
| PayeeTotals.ClassifyPosting | main.go:255-258 | The header and records with fewer than twelve columns are dropped; a kept debit is positive |
| PayeeTotals.Postings | main.go:255-288 | At most one posting is kept per record, and each kept posting is positive |
| PayeeTotals.PostingsSnoc | main.go:255-288 | The postings of the first i + 1 records are those of the first i, then record i's |
| PayeeTotals.AddPosting | main.go:283-286 | `totals[desc][month] += amount` adds the payee to the keys and no other |
| PayeeTotals.CurrencyWrites | main.go:287 | One write `currencies[desc] = currency` per posting |
| PayeeTotals.TotalsAreSums | main.go:283-287 | The nested map (`PayeeTotals.TotalsOf`) holds a payee exactly when some posting is for it, and a month under that payee exactly when some posting is for both; each entry is the sum of those postings' amounts |
| PayeeTotals.AddPostingAt | main.go:283-286 | One addition, seen from a single (payee, month) entry |
| PayeeTotals.SumPositive | main.go:276-286 | Every sum is non-negative, and a sum over at least one posting is positive |
| PayeeTotals.CurrencyKeys | main.go:283-287 | The currency map and the sums have the same payees |
| PayeeTotals.CurrencyOfLastPosting | main.go:287 | In the currency map (`PayeeTotals.CurrenciesOf`), a payee's currency is the commodity of its last posting |
| PayeeTotals.LabelOf | main.go:292-299 | The label of a sum is (payee, the payee's currency, month, the month's tag) |
| PayeeTotals.Labels | main.go:290-301 | The labels of a set of emitted pairs |
| PayeeTotals.EmittedAdd | main.go:290-301 | Emitting one more pair sets one more entry |
| PayeeTotals.PayeeGaugeEntry | main.go:290-301 | Every (payee, month) with postings has a payee gauge entry (`PayeeTotals.PayeeGauge`), equal to the sum of those postings |
| PayeeTotals.PayeeGaugeKeys | main.go:290-301 | Every payee gauge entry comes from a (payee, month) with postings, under that pair's label |
| PayeeTotals.Aggregate | main.go:248-288 | The aggregation loop leaves the sums of the kept postings and each payee's last currency |
| PayeeTotals.AggregateRecord | main.go:255-288 | One iteration folds record i into the sums and the currency map |
| PayeeTotals.Accumulate | main.go:283-287 | `+=` and the currency assignment for one posting extend the sums and the currency map by that posting |
| PayeeTotals.TotalsSnoc | main.go:283-286 | The sums after one more posting add that posting |
| PayeeTotals.CurrenciesSnoc | main.go:287 | One more posting sets its payee's currency |
| PayeeTotals.Emit | main.go:290-301 | The emit loops fill an emptied gauge with exactly one entry per (payee, month) sum, whatever order the maps are iterated in |
| PayeeTotals.GlyphDebitDropped | main.go:263-278 | A debit that starts with a currency glyph is not a number, so the posting is dropped |
| PayeeTotals.GlyphLedNotNumber | main.go:91-93 | `parseAmount` rejects a glyph-led token |
| Exporter.Exporter.constructor | main.go:25-89 | The eight gauge vectors are distinct and all empty |
| Exporter.CollectBalances | main.go:127-178 | A failed report leaves the account gauge and the total gauge unchanged; otherwise the account gauge is emptied and refilled from the report's account lines, and the report's totals are written over the total gauge |
| Exporter.CollectLines | main.go:137-177 | The report loop on an emptied account gauge: the gauge ends holding the account writes of all lines, and the total gauge the old values overwritten by all total writes |
| Exporter.CollectLine | main.go:138-177 | One iteration extends both gauges by the writes of line i |
| Exporter.ApplyLine | main.go:144-176 | An account line sets its entry of the account gauge; a total sets its entry of the selected total gauge; a skipped line changes nothing |
| Exporter.Exporter.CollectAllBalances | main.go:309-311 | The three balance collections each update only their own account gauge and their own total gauge (the one the switch on the account type selects) |
| Exporter.Exporter.CollectMonthlyExpenses | main.go:180-229 | A failed register leaves the monthly gauge unchanged; otherwise the gauge holds the register's writes up to the first panic, and `panicked` says whether a record panicked |
| Exporter.Exporter.MonthlyStep | main.go:203-228 | One iteration writes record i's entry, or ignores it, or panics |
| Exporter.RunStep | main.go:203-228 | The run over the first i + 1 records is the run over the first i, then record i's effect |
| Exporter.Exporter.CollectExpenseTotalsByPayee | main.go:231-302 | A failed export leaves the payee gauge unchanged; otherwise the gauge is emptied and holds one sum per (payee, month) of the kept postings, payees normalised as written |
| Exporter.Exporter.CollectMonthlyAndPayees | main.go:312-313 | The register is collected, then the payee export, unless the register panicked; the payee gauge is then unchanged |
| Exporter.Exporter.UpdateMetrics | main.go:304-314 | A refresh cycle: the six balance gauges as the three balance collections leave them, then the monthly gauge and the payee gauge as the register and the export leave them |

## Left out

- **Fetching the journal:** `fetchJournal` (HTTP download, environment variables, file write) is not modelled. The journal only reaches the model through the report texts, which are parameters.
- **Running hledger and reading CSV:** the subprocesses and `encoding/csv` are not modelled. A report is its captured text (or its parsed records), or `None` when the command or the CSV reader failed. Which command line each collection runs is not modelled either.
- **Logging, the Prometheus registry, the HTTP handler, `main` and the five-minute refresh goroutine:** these are I/O or concurrency. So is the window in which a concurrent scrape can see a gauge that has been reset and not yet refilled.
- **The panic itself:** the model does not say what happens after a panic in the register loop. Its effect is recorded as `panicked`: the loop stops and the payee export is skipped. In the program, the unrecovered panic ends the process.
- **The clock:** `time.Now` is a parameter `now: YearMonth`, with years 1 to 9999. The monthly and payee collections each read the clock, so they get separate parameters.
- **Map iteration order:** Go's random iteration order over `totals` is not modelled. `PayeeTotals.Emit` proves the result is the same for every order, because it iterates over a set chosen arbitrarily.
- Label-cardinality checks of `WithLabelValues` are not modelled: every call in the source passes the declared number of labels.
- Numbers.ParseNumber: models `strconv.ParseFloat` on decimal numerals with an optional exponent, as an exact real number, so it is weaker than the source in three ways. A numeral outside the float64 range, such as "1e400", is accepted with its exact value, where `ParseFloat` returns a range error and the source skips the line. float64 rounding is not modelled. `inf`, `nan`, hexadecimal floats and underscores are treated as unparsable, where `ParseFloat` accepts them.
- PayeeTotals.Accumulate: sums are exact reals. float64 rounding of `+=` is not modelled.
- GoStrings.LowerChar: lower-cases ASCII letters only; `unicode.ToLower` of non-ASCII letters is not modelled.
- **Strings are sequences of runes:** slicing a string's first rune off (`utf8.DecodeRuneInString`) is `s[1..]`. `rec[1][:7]` takes seven runes, which is the same as seven bytes for the ASCII dates hledger prints. Invalid UTF-8 is not modelled.
- Exporter.CollectBalances: the account type arrives as the total gauge that `switch accountType` selects (`Exporter.Exporter.TotalGauge`), not as a string. It is selected once per report rather than once per total line, which gives the same result. The switch's silent fall-through for other account types is not modelled, because `updateMetrics` only passes "expenses", "assets" and "income".
- Go map aliasing is not modelled: the nested `totals` map is a value of type `map<string, map<string, real>>`.

## Findings

| source | as written | input that shows it | evidently intended | confidence | as-written member | corrected member |
|---|---|---|---|---|---|---|
| main.go:95-99 | `.` in `\s*\(.*?\)\s*` does not cross a line break, so a '(' cut off from its ')' by "\n" survives and pairs with a later ')' only on the second pass | "(\n(x))" normalises to "()", and "()" normalises to "" | Normalisation is idempotent: a normalised payee normalises to itself | not executed | Payees.AsWrittenNotIdempotent | Payees.NormalizePayeeIdempotent |
| main.go:95-99 | The trim runs before the groups are deleted, and a vertical tab is white space to `TrimSpace` but not to `\s`, so it stays at the end of the result | "a\v(x)" normalises to "a\v", and "a\v" normalises to "a" | A normalised payee has no white space at either end and normalises to itself | not executed | Payees.AsWrittenKeepsVerticalTab | Payees.NormalizePayeeFacts |

`Payees.NormalizePayee` is the corrected definition: `.` crosses line breaks (the `s` flag), and the result is trimmed again after the groups are deleted. It serves only as the corrected half of these findings. The payee aggregation (`PayeeTotals.ClassifyColumns`) follows the code as written and uses `Payees.NormalizePayeeAsWritten`. On a description without a line break the two differ only by the final trim (`Payees.NormalizePayeeSingleLine`).
