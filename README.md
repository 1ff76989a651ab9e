# FCA invoice pipeline: a verified model

This project models the vendor-invoice pipeline of a parts-department web application. The pipeline takes one combined PDF statement from FCA (Mopar Canada) holding many invoices. It gets the text of every page and cuts the page stream into invoices. It then reads each invoice's number and its summary page, and maps each summary account code to an internal general-ledger (GL) account. It also writes small text-only PDF files. Around the pipeline sit a few web rules: a role check on views, the due-bill checklist and "send to parts" handlers, and the expiry date of a service request.

The repository holds two independent parsers, and they disagree with each other. Each is modelled as written, in its own module:

- `Fca` models parsers/fca.py, the dictionary-style parser. `Segmentation` uses it.
- `FcaRecords` models the parsing half of invoices/fca_parser.py, the record-style parser.

The two files differ in their regular expressions, their account tables, their invoice-kind tables and their amount types. They also cut statements into invoices differently:

- pdf_utils.py opens an invoice at a page with a header and the "INVOICE NUMBER" label. It drops the pages before the first such page.
- fca_parser.py cuts at every page that contains `09308000` followed by a capital letter.

The two parsers are kept separate, as the code has them. The code raises `ValueError` with two different messages, which the model names `MissingPrefix` and `UnparseableTypeCode`. The code has two divergent tables, and each is kept as the code has it.

Modules:

| file | module | models |
|---|---|---|
| fca.dfy | `Fca` | parsers/fca.py |
| fca_records.dfy | `FcaRecords` | invoices/fca_parser.py: amounts, the summary pattern, account mapping, sections, `parse` |
| pdf_writer.dfy | `MinimalPdf` | invoices/fca_parser.py: `_escape_pdf_text` and `_simple_pdf` |
| segmentation.dfy | `Segmentation` | pdf_utils.py |
| ingestion.dfy | `Ingestion` | invoices/ingestion.py |
| role_gate.dfy | `RoleGate` | web/decorators.py |
| duebills.dfy | `DueBills` | web/views.py, `duebill_items_update` and `duebill_send_to_parts` |
| service_requests.dfy | `ServiceRequests` | service_requests/models.py `save` and web/forms.py `clean` |
| text.dfy, seqs.dfy, gather.dfy, wrappers.dfy | `Text`, `Seqs`, `Gathering`, `Wrappers` | Python string operations, sequence lemmas, "collect until the first failure", Option and Result |

Each regular expression of the source is a hand-written matcher that follows Python's `re` for that pattern:

- `search` takes the leftmost position.
- `match` anchors at the start.
- Greedy runs take the longest run and give characters back as the pattern needs.
- The lazy `.*?` takes the shortest run.

In parsers/fca.py, amounts are integer cents, because every amount pattern there is digits and commas followed by `.` and two digits. Tax rates are reals. In invoices/fca_parser.py, amounts are exact `Decimal` values, held as units and a scale.

Loops of the source are methods with loops, proved equal to a function. The function's properties are proved as lemmas:

- `parse_summary` and `map_accounts_to_internal`;
- `_split_into_invoices`, `_parse_summary` and `_simple_pdf`;
- `process_combined_pdf`;
- the pypdf and tesseract loops;
- the checklist loop.

Objects whose fields the source updates are classes:

- `DueBills.DueBillRequest`;
- `ServiceRequests.ServiceRequest`;
- `ServiceRequests.ServiceRequestForm`.

## Model

| member | source | states |
|---|---|---|
| Fca.KeepUpperAlnum | parsers/fca.py:47 | what `re.sub(r"[^0-9A-Z]", "", ...)` keeps is only digits and capitals |
| Fca.NormalizeAlnum | parsers/fca.py:45-47 | `normalize_alnum` returns only characters in 0-9 and A-Z |
| Fca.NormalizeAlnumConcat | parsers/fca.py:45-47 | normalisation distributes over concatenation, so the surviving characters keep their order |
| Fca.KeepUpperAlnumConcat | parsers/fca.py:47 | the character filter distributes over concatenation |
| Fca.NormalizeAlnumChar | parsers/fca.py:45-47 | one character survives, upper-cased, exactly when it is an ASCII letter or digit |
| Fca.NormalizeAlnumFixesNormal | parsers/fca.py:45-47 | text made only of 0-9 and A-Z is returned unchanged |
| Fca.NormalizeAlnumIdempotent | parsers/fca.py:45-47 | `normalize_alnum` is idempotent |
| Fca.NormalizeDropsSpace | parsers/fca.py:45-47 | a space between two normalised texts disappears |
| Fca.UpperIdempotent | parsers/fca.py:55 | `upper()` applied twice is `upper()` once |
| Fca.LiteralAtIgnoreCaseUpper | parsers/fca.py:39-42 | a case-insensitive literal matches in the upper-cased text exactly where it matches in the text |
| Fca.RunEndSpaceUpper | parsers/fca.py:39-42 | upper-casing does not move the end of a run of white space |
| Fca.WordsAtUpper | parsers/fca.py:39-42 | a header pattern `W1\s+W2...` matches at a position of the upper-cased text exactly when it matches there in the text |
| Fca.SearchWordsUpper | parsers/fca.py:54 | searching a header pattern gives the same answer on the upper-cased text |
| Fca.DetectInvoiceStartIgnoresCase | parsers/fca.py:50-56 | upper-casing a page never changes whether `detect_invoice_start` holds |
| Fca.DetectInvoiceStartNeedsLabel | parsers/fca.py:50-56 | a start page is non-empty, has a header pattern and has "INVOICE NUMBER" in its upper-cased text |
| Fca.ParseInvoiceDate | parsers/fca.py:59-66 | the date parser's failure gives "" and no error; otherwise its ISO date is returned |
| Fca.MatchTypeCode | parsers/fca.py:81 | `([A-Z]{1,2})([0-9]+)` anchored: 1-2 capitals then the longest digit run, two letters tried first; no match exactly when the text starts with neither a capital and a digit nor two capitals and a digit |
| Fca.TypeCodeThenDigits | parsers/fca.py:81-87 | a 1-2 letter code followed by digits splits into exactly that code and those digits |
| Fca.ParseInvoiceNumber | parsers/fca.py:76-88 | fails with MissingPrefix exactly when the normalised number lacks `09308000`, and with UnparseableTypeCode exactly when the remainder has no type code; on success the type code and digits are the `([A-Z]{1,2})([0-9]+)` split of the remainder after the prefix (`MatchTypeCode`), the key is that code followed by those digits, and the description is the table's entry for the code or "unknown" |
| Fca.ParseInvoiceMetadata | parsers/fca.py:69-98 | fails exactly when the invoice number fails, with its error; otherwise the raw and normalised numbers, the type code, its description and the normalised key (the name of the invoice's files) are those of the first page's number, and the raw date and its ISO form (possibly "") come from its date field |
| Fca.WeeklyInvoiceNumber | parsers/fca.py:76-87 | "09308000W " followed by digits gives norm "09308000W"+digits, code "W", "weekly invoice", key "W"+digits |
| Fca.CommaFreeDigits | parsers/fca.py:129 | removing the commas from a `[0-9,]` amount leaves only digits |
| Fca.TrailingAmount | parsers/fca.py:108-109 | the trailing amount starts after a white-space character, is `[0-9,]+` then `.` and two digits up to the end of the line, and its value is those digits in cents |
| Fca.AccountMatchShape | parsers/fca.py:108 | an account line yields a non-empty `[A-Z0-9.]+` code, a description starting and ending with a non-space, and both normalised keys |
| Fca.DescriptionEnds | parsers/fca.py:108 | the `(.*\S)` description between the two white-space runs starts and ends with a non-space |
| Fca.TotalMatch | parsers/fca.py:109-110 | `amount_pattern` matches exactly when the line ends in a white-space character and a `[0-9,]+\.\d{2}` amount and the text before that character starts with a label alternative; the label group is that text (the greedy `.*` runs to the last space) and the amount is the trailing amount in cents |
| Fca.Classify | parsers/fca.py:113-138 | a line is a GST/HST line exactly when `gst_pattern` finds one; otherwise an account line exactly when `account_pattern` matches; otherwise a total exactly when `amount_pattern` matches |
| Fca.GstRateShape | parsers/fca.py:111 | the rate group `[0-9.]+` consists of digits and dots |
| Fca.GstLazyRateShape | parsers/fca.py:111 | the same for the lazy `.*?` search after "GST/HST" |
| Fca.SummaryLines | parsers/fca.py:102 | the stripped non-blank lines are all non-empty |
| Fca.ParseSummary | parsers/fca.py:101-140 | `parse_summary` returns the summary function of its text: totals, accounts and tax, or the first unparseable rate |
| Fca.SummarizeLines | parsers/fca.py:113-138 | the loop over the lines computes the totals, accounts and tax of all lines, or stops at the first bad rate |
| Fca.SummaryStep | parsers/fca.py:113-138 | one more line: a bad rate aborts, an account line appends its entry, a GST/HST line replaces the tax, a total line sets its normalised key |
| Fca.FirstBadRateOfPrefix | parsers/fca.py:116 | once a rate fails to convert, the later lines cannot change the error |
| Fca.FirstBadRateNone | parsers/fca.py:116 | the summary fails exactly when some GST/HST rate fails `float` |
| Fca.FirstBadRateFirst | parsers/fca.py:116 | the error names the earliest bad rate |
| Fca.TaxOfLastGst | parsers/fca.py:114-118 | the tax is that of the last GST/HST line |
| Fca.TaxOfNoGst | parsers/fca.py:106 | without a GST/HST line the tax stays at 0 and 0.0 |
| Fca.TotalsOfLast | parsers/fca.py:134-138 | a total is stored under its normalised label, and the last line with that key wins |
| Fca.TotalsOfKeys | parsers/fca.py:134-138 | only total lines create keys |
| Fca.AccountsOfLines | parsers/fca.py:120-132 | the account entries are exactly those of the account lines, in line order |
| Fca.MapGstAccount | parsers/fca.py:143-144 | "201105" exactly for a non-negative amount, "201100" exactly for a negative one |
| Fca.MapAccountsToInternal | parsers/fca.py:147-174 | the loop returns the mapped accounts of the summary followed by the tax entry when the tax is non-zero |
| Fca.MapAccountsShape | parsers/fca.py:150-160 | one entry per account, in order, with its code, description and amount; mapped exactly when its raw code is in the table, with that GL account and label |
| Fca.MappedAccountsTax | parsers/fca.py:162-172 | one extra entry exactly for a non-zero tax, last. The tax amount pattern has no sign, so this entry is always 201105 / "tax payable" |
| Fca.MappedAccountsBalance | parsers/fca.py:147-174 | the mapped amounts add up to the account amounts plus the tax |
| Fca.MapAccountsSum | parsers/fca.py:150-160 | mapping the accounts preserves their total |
| FcaRecords.UnsignedDecimal | invoices/fca_parser.py:49 | an unsigned plain-notation `Decimal` is non-negative |
| FcaRecords.UnsignedNumeral | invoices/fca_parser.py:49 | `a.b` reads as the digits of a and b at the scale of b |
| FcaRecords.ParseNumeral | invoices/fca_parser.py:49 | `Decimal("a.b")` is the digits of a and b at the scale of b |
| FcaRecords.StripNone | invoices/fca_parser.py:45 | text with no white space at either end is its own `strip()` |
| FcaRecords.CleanAmountIgnoresCommas | invoices/fca_parser.py:45 | commas never change whether or what an amount reads as |
| FcaRecords.CleanedAsIs | invoices/fca_parser.py:45 | comma-free, already stripped text passes the cleaning unchanged |
| FcaRecords.CleanPlainAmount | invoices/fca_parser.py:44-49 | an amount not opening with `(` reads exactly as `Decimal` reads it, failing when it fails |
| FcaRecords.ParenthesisedValue | invoices/fca_parser.py:46-48 | parentheses around a number negate what `Decimal` reads |
| FcaRecords.CleanParenthesisedAmount | invoices/fca_parser.py:46-48 | "(n)" reads exactly when n does, as minus n |
| FcaRecords.CleanUnclosedAmount | invoices/fca_parser.py:44-49 | an opening parenthesis without its closing one is an InvalidAmount error |
| FcaRecords.ClosedNumeral | invoices/fca_parser.py:46-48 | "(a.b)" reads as minus a.b at scale 2 |
| FcaRecords.ClosedAmount | invoices/fca_parser.py:46-48 | a number in parentheses reads as its negative |
| FcaRecords.SearchLeftmost | invoices/fca_parser.py:170 | `search` returns the match at the leftmost matching position |
| FcaRecords.SearchFound | invoices/fca_parser.py:170 | a match found is at a position before which nothing matches |
| FcaRecords.SearchNone | invoices/fca_parser.py:170-172 | `search` finds nothing exactly when no position matches |
| FcaRecords.SummaryMatchSound | invoices/fca_parser.py:36-39 | every match reported is a way for `SUMMARY_LINE_RE` to match at that position |
| FcaRecords.SummaryMatchComplete | invoices/fca_parser.py:36-39 | whichever way the pattern can match at a position, that match is reported |
| FcaRecords.MatchFixOnlyCloses | invoices/fca_parser.py:36-39 | the corrected pattern matches where the written one does, and differs only by the `)` of an amount that opened with `(` and, as written, ends in a digit |
| FcaRecords.SearchFixOnlyCloses | invoices/fca_parser.py:36-39 | the same holds for the leftmost search of the two patterns |
| FcaRecords.CleanOpenAmount | invoices/fca_parser.py:44-49 | any amount that opens with `(` and ends in a digit is an InvalidAmount error |
| FcaRecords.CorrectionOnlyRescues | invoices/fca_parser.py:169-186 | the corrected pattern reads a line exactly when the written one does, and reads it differently only where the written one fails |
| FcaRecords.CorrectedRecordsAgree | invoices/fca_parser.py:167-187 | every summary that reads as written reads the same with the corrected pattern |
| FcaRecords.CorrectionRescuesCredit | invoices/fca_parser.py:167-187 | a summary holding one line `CODE (a.b)` fails as written with InvalidAmount("(a.b") and reads as minus a.b when corrected |
| FcaRecords.CreditLinePattern | invoices/fca_parser.py:37 | a line `CODE (a.b)` fits the pattern with the amount's point after the digits and `)` after the decimals |
| FcaRecords.WrittenCreditMatch | invoices/fca_parser.py:37 | as written, `CODE (a.b)` matches with amount "(a.b", without its `)` |
| FcaRecords.CorrectedCreditMatch | invoices/fca_parser.py:37 | corrected, `CODE (a.b)` matches with amount "(a.b)" |
| FcaRecords.WrittenRejectsCredit | invoices/fca_parser.py:170-175 | such a line is an InvalidAmount("(a.b") error |
| FcaRecords.WrittenCreditSinksSummary | invoices/fca_parser.py:167-187 | one such line anywhere makes the whole summary fail |
| FcaRecords.CreditLineIsNegative | invoices/fca_parser.py:170-186 | corrected, such a line is an account line with amount minus a.b |
| FcaRecords.StartPageIff | invoices/fca_parser.py:41 | a page starts an invoice exactly when `09308000` followed by a capital occurs on it |
| FcaRecords.SearchKind | invoices/fca_parser.py:41 | the `kind` group found is never empty |
| FcaRecords.MapAccount | invoices/fca_parser.py:189-199 | a code in ACCOUNT_MAP (other than "GST/HST") gets that table entry's GL account and description; no GL account exactly for a code that is neither "GST/HST" nor in ACCOUNT_MAP, and then the description is "Unmapped"; every GL account has six digits |
| FcaRecords.GstBySign | invoices/fca_parser.py:190-193 | GST/HST is 201105 exactly for a non-negative amount and 201100 exactly for a negative one |
| FcaRecords.Record | invoices/fca_parser.py:176-186 | the account line keeps the code and amount, takes its GL account and description from `_map_account`, and has the note "No mapping configured" exactly when it has no GL account |
| FcaRecords.ParseSummary | invoices/fca_parser.py:167-187 | `_parse_summary` returns the account lines of all summary lines, or the first amount error |
| FcaRecords.RecordsStep | invoices/fca_parser.py:169-186 | one more line: skipped without a match, appended when it reads, the error when its amount fails |
| FcaRecords.RecordsOfOk | invoices/fca_parser.py:167-187 | the summary reads exactly when no line has a bad amount; otherwise the error is that of the first such line |
| FcaRecords.RecordsOfOrder | invoices/fca_parser.py:167-187 | one account line per matching line, in order |
| FcaRecords.SummaryCodeNonEmpty | invoices/fca_parser.py:37 | the code group is never empty |
| FcaRecords.UpperHasNoLower | invoices/fca_parser.py:174 | the upper-cased code holds no lower-case letter |
| FcaRecords.LineRecordShape | invoices/fca_parser.py:174-177 | an account line's code is non-empty and in capitals, and it has a note exactly when it has no GL account |
| FcaRecords.StartIndicesSpec | invoices/fca_parser.py:132-135 | the recorded indices are exactly the start pages, ascending |
| FcaRecords.Starts | invoices/fca_parser.py:132-135 | the start indices are start pages, ascending, and include every start page |
| FcaRecords.FindStarts | invoices/fca_parser.py:132-135 | the first loop collects exactly the start indices |
| FcaRecords.CutAt | invoices/fca_parser.py:140-144 | the second loop slices from each start to the next start or the end |
| FcaRecords.SplitIntoInvoices | invoices/fca_parser.py:131-144 | `_split_into_invoices` returns the sections of the statement |
| FcaRecords.SectionsStartOnce | invoices/fca_parser.py:140-144 | with start pages, there is one section per start page, beginning at it and holding no other |
| FcaRecords.NoStartInside | invoices/fca_parser.py:141-143 | no page between a start and the next start is a start page |
| FcaRecords.SectionsCover | invoices/fca_parser.py:137-144 | without start pages the one section is the statement; with them, the sections concatenate to the pages from the first start, and the pages dropped before it hold no invoice number |
| FcaRecords.Title | invoices/fca_parser.py:115-119 | the title is never empty |
| FcaRecords.ParseSection | invoices/fca_parser.py:146-165 | `_parse_section` returns the section function: kind from the first start page, summary from the last page, or the error |
| FcaRecords.SectionShape | invoices/fca_parser.py:146-165 | the summary is the last page; the type is "Unknown" exactly without a known kind; the title is the label, followed by the kind in parentheses when there is one |
| FcaRecords.FirstStartIsKind | invoices/fca_parser.py:150-155 | there is no code exactly when no page of the section is a start page, and a code is never empty |
| FcaRecords.Parse | invoices/fca_parser.py:126-129 | `parse` on extracted pages returns every section parsed in order, or the first error |
| FcaRecords.ParseAllShape | invoices/fca_parser.py:129 | the statement parses exactly when every section does, into one invoice per section, in order |
| FcaRecords.InvoiceCodesFromStartPages | invoices/fca_parser.py:131-155 | with start pages, invoice i carries the kind printed on start page i |
| FcaRecords.EmptyStatementFails | invoices/fca_parser.py:157 | a statement without pages fails like `pages[-1]` on an empty list |
| MinimalPdf.Utf8Char | invoices/fca_parser.py:63 | a character encodes to 1-4 bytes, and to one byte exactly when it is ASCII |
| MinimalPdf.Utf8Concat | invoices/fca_parser.py:63 | UTF-8 encoding distributes over concatenation |
| MinimalPdf.AsciiLength | invoices/fca_parser.py:63 | ASCII text encodes to one byte per character |
| MinimalPdf.EscapePdfTextCons | invoices/fca_parser.py:52-53 | the three replacements act character by character, because the backslash is replaced first |
| MinimalPdf.EscapePdfTextConcat | invoices/fca_parser.py:52-53 | escaping distributes over concatenation |
| MinimalPdf.EscapeCharwise | invoices/fca_parser.py:52-53 | each backslash and parenthesis gets a backslash in front, and nothing else is added |
| MinimalPdf.EscapeRoundTrip | invoices/fca_parser.py:52-53 | un-escaping a literal string body as a PDF reader does (ISO 32000-1, section 7.3.4.2) gives back the original text |
| MinimalPdf.ContentStream | invoices/fca_parser.py:57-63 | the content lines are the title at y = 780, then line k at y = 754 - 16k, joined by newlines |
| MinimalPdf.ObjectBytes | invoices/fca_parser.py:70 | every object written is non-empty |
| MinimalPdf.Written | invoices/fca_parser.py:65-81 | after n objects the parts are the header and objects 1..n |
| MinimalPdf.OffsetsOf | invoices/fca_parser.py:69 | one recorded offset per part after the header |
| MinimalPdf.Add | invoices/fca_parser.py:68-70 | `_add` records the running byte length and appends the object and a newline |
| MinimalPdf.WriteObjects | invoices/fca_parser.py:72-81 | the header and five objects are written in order, with their offsets |
| MinimalPdf.SimplePdf | invoices/fca_parser.py:56-96 | `_simple_pdf` returns the laid-out file of its title and lines |
| MinimalPdf.LayoutSplit | invoices/fca_parser.py:94-96 | the file is the parts, then the table, then the trailer |
| MinimalPdf.OffsetsOfAt | invoices/fca_parser.py:69 | the offset recorded for part k is the byte length of the parts before it |
| MinimalPdf.PartAtOffset | invoices/fca_parser.py:69-70 | at the offset recorded for part k, the file holds exactly part k |
| MinimalPdf.OffsetsAscending | invoices/fca_parser.py:69 | the first object starts right after the header, the offsets strictly increase, and all lie before the table |
| MinimalPdf.ObjectsShape | invoices/fca_parser.py:72-81 | six parts; the header comes first and is 15 bytes; no part is empty |
| MinimalPdf.ObjectStartsWithNumber | invoices/fca_parser.py:74-81 | object k begins with `k 0 obj` |
| MinimalPdf.ObjectAtOffset | invoices/fca_parser.py:68-81 | at the offset recorded for object k, the file holds object k, which begins with `k 0 obj` |
| MinimalPdf.StreamLength | invoices/fca_parser.py:80 | `/Length` reads back as the byte length of the UTF-8 content stream, and exactly those bytes lie between `stream\n` and `\nendstream` (ISO 32000-1, section 7.3.8) |
| MinimalPdf.XrefRows | invoices/fca_parser.py:84-86 | the table holds the free entry, then one in-use entry per offset |
| MinimalPdf.XrefText | invoices/fca_parser.py:84-94 | the table is `xref`, `0 n` and one newline-terminated row per entry |
| MinimalPdf.SizeCountsRows | invoices/fca_parser.py:84-95 | the `0 n` count and the trailer's `/Size` both equal the number of rows in the table, the free entry included |
| MinimalPdf.XrefEntryReads | invoices/fca_parser.py:86 | below 10^10 an entry is 19 ASCII characters whose first ten digits read back as the offset |
| MinimalPdf.XrefRowsShape | invoices/fca_parser.py:84-86 | the six rows of the table are each 19 ASCII characters |
| MinimalPdf.TerminatedRow | invoices/fca_parser.py:94 | rows of 19 characters, each followed by a newline, put row j at byte 20j |
| MinimalPdf.XrefEntryAt | invoices/fca_parser.py:83-94 | row k of the table is the 20 bytes at 9 + 20k after the table start (ISO 32000-1, section 7.5.4) |
| MinimalPdf.TrailerReadsStart | invoices/fca_parser.py:88-92 | the trailer ends with `startxref`, the table offset in decimal, and `%%EOF` |
| MinimalPdf.StartXrefPointsAtTable | invoices/fca_parser.py:83-95 | at the offset the trailer names, the file reads `xref\n`, and the file ends with the trailer (ISO 32000-1, section 7.5.5) |
| MinimalPdf.RowDigits | invoices/fca_parser.py:83-94 | the ten digits of table row k are in the file and read back as the offset recorded for object k |
| MinimalPdf.ReaderFindsPart | invoices/fca_parser.py:69-94 | following table row k's digits to that offset finds what part k begins with |
| MinimalPdf.OffsetBelow | invoices/fca_parser.py:83 | every recorded offset lies at or before the table |
| Segmentation.StepCloses | pdf_utils.py:86-91 | a start page with an invoice open closes it and opens a new one, keeping the scan invariant |
| Segmentation.StepOpens | pdf_utils.py:93-95 | the first start page opens the first invoice |
| Segmentation.StepJoins | pdf_utils.py:93-95 | another page joins the open invoice |
| Segmentation.StepSkips | pdf_utils.py:93 | pages before the first start page are passed over |
| Segmentation.StepKeeps | pdf_utils.py:82-95 | every page keeps the scan invariant |
| Segmentation.ScanKeeps | pdf_utils.py:82-95 | after any number of pages, the closed invoices and the open one are as the invariant says |
| Segmentation.SegmentsShape | pdf_utils.py:82-100 | each invoice begins with a start page and holds no other; one invoice per start page; the invoices concatenate to the pages from the first start page to the end |
| Segmentation.NoStartNoSegments | pdf_utils.py:72-102 | a statement with no start page gives no invoices, and no error |
| Segmentation.ClosedPrefix | pdf_utils.py:86-91 | the invoices closed so far are the first of the statement's invoices |
| Segmentation.StartFlags | pdf_utils.py:83-84 | page i opens an invoice exactly when `detect_invoice_start` holds for its text, "" standing in for no text |
| Segmentation.TextsAt | pdf_utils.py:95 | the texts kept are those of the invoice's pages, in order |
| Segmentation.TextsAtSnoc | pdf_utils.py:94-95 | appending a page and appending its text keep the two lists aligned |
| Segmentation.FinalizeInvoice | pdf_utils.py:31-69 | `_finalize_invoice` returns the finalisation function's result and writes two files only when it succeeds |
| Segmentation.FinalizeOutcome | pdf_utils.py:37-46 | nothing exactly for no pages; otherwise it fails exactly when the first page's metadata or the last page's summary fails, with the metadata error first and otherwise the summary error; on success it holds those, the mapped accounts and files named by the key |
| Segmentation.FilesDistinct | pdf_utils.py:48-50 | the three files of an invoice are different files |
| Segmentation.FilesKeyed | pdf_utils.py:48-49 | two invoices share a file exactly when they share a key |
| Segmentation.WritesInOrder | pdf_utils.py:53-54 | for each invoice in turn: all its pages, then its last page alone |
| Segmentation.CloseInvoice | pdf_utils.py:87-89 | finalising the open invoice extends the results and the files written, or reports the first failure |
| Segmentation.ScanPage | pdf_utils.py:82-95 | one page of the loop keeps the loop state, or its failure is the run's error with all its files written |
| Segmentation.ScannedClose | pdf_utils.py:86-95 | a start page with an invoice open: the open invoice is closed and the page opens the next |
| Segmentation.ScannedJoin | pdf_utils.py:93-95 | a page joins the open invoice, or a start page opens the first one |
| Segmentation.ScannedSkip | pdf_utils.py:93 | a page with no invoice open that is no start page leaves the state alone |
| Segmentation.Flush | pdf_utils.py:97-100 | the invoice still open at the end is finalised too |
| Segmentation.ProcessCombinedPdf | pdf_utils.py:72-102 | `process_combined_pdf` returns the results of the statement's invoices, or its first error, and writes the statement's files |
| Segmentation.FinalizeAtSome | pdf_utils.py:37-38 | finalising yields something exactly when there are pages |
| Segmentation.InvoiceFinalized | pdf_utils.py:97-99 | every invoice of the statement yields a result or an error, never None |
| Segmentation.EveryInvoiceFinalized | pdf_utils.py:86-99 | no invoice is silently dropped |
| Segmentation.ProcessOk | pdf_utils.py:72-102 | the run succeeds exactly when no invoice fails; then one result per start page, in order, and the two files of each invoice, invoice by invoice |
| Segmentation.ProcessErr | pdf_utils.py:86-100 | a failing run raises the first failing invoice's error and has written the files of exactly the invoices before it |
| Ingestion.OrEmpty | invoices/ingestion.py:58 | `extract_text() or ""` for every page |
| Ingestion.CleanedShape | invoices/ingestion.py:27-28 | every cleaned page is non-empty and stripped |
| Ingestion.CleanedAppend | invoices/ingestion.py:28 | cleaning works page by page, keeping document order |
| Ingestion.CleanedEmpty | invoices/ingestion.py:28 | nothing is left exactly when every page is blank |
| Ingestion.CleanedKeeps | invoices/ingestion.py:28 | a character no raw page holds is in no cleaned page |
| Ingestion.ExtractTextWithPypdf | invoices/ingestion.py:49-61 | the loop returns the stripped non-blank page texts, in order |
| Ingestion.PopplerPages | invoices/ingestion.py:19-28 | pdftotext's result is pages exactly when it ran and exited with 0; then no page holds a form feed |
| Ingestion.ExtractTextWithTesseract | invoices/ingestion.py:31-46 | the OCR loop returns the OCR function: pdftoppm's failure, or one page per image until the first tesseract failure |
| Ingestion.OcrOnePagePerImage | invoices/ingestion.py:41-46 | successful OCR means every run exited with 0, and gives one stripped page per image, in order, blank ones kept |
| Ingestion.PypdfFirst | invoices/ingestion.py:69-72 | when pypdf finds text, its pages are the answer, whatever the external programs would do |
| Ingestion.PypdfFailureSwallowed | invoices/ingestion.py:73-79 | a pypdf exception of any kind behaves like a pypdf result with no text |
| Ingestion.PopplerSecond | invoices/ingestion.py:79-88 | without pypdf text, pdftotext's pages are the answer exactly when it succeeded and some page is longer than 40 characters; otherwise OCR decides |
| Ingestion.OnlyOcrFails | invoices/ingestion.py:86-90 | only OCR can make extraction fail; a missing program becomes the RuntimeError naming pdftoppm and tesseract; other errors pass unchanged; FileNotFoundError never escapes |
| RoleGate.AnonymousRedirected | web/decorators.py:12-14 | an anonymous request is redirected to login with its own path, whatever the roles |
| RoleGate.CallViewExactly | web/decorators.py:15-17 | the view runs exactly for a signed-in superuser or holder of a listed role; PermissionDenied exactly for the other signed-in users |
| RoleGate.OnlyRoleSetMatters | web/decorators.py:7 | the order and repetition of the roles do not matter |
| RoleGate.DueBillsRefuse | web/views.py:264 | service and accounting staff who are not superusers are refused the due-bill views |
| DueBills.Checked | web/views.py:273-278 | after the update every item has its target status, and nothing else changes |
| DueBills.CheckedTargets | web/views.py:273-278 | an item is installed exactly when its id was ticked and pending otherwise, whatever it was before; id, description and part number are unchanged |
| DueBills.ChangedIdsSnoc | web/views.py:276-279 | the next item is saved exactly when its status differs from its target |
| DueBills.NoChangedIds | web/views.py:276-279 | nothing is saved exactly when every item already has its target |
| DueBills.NoChangesExactly | web/views.py:273-279 | nothing is saved exactly when the checklist is already as submitted |
| DueBills.ChecklistIdempotent | web/views.py:270-279 | submitting the same form twice changes nothing the second time, and saves nothing |
| DueBills.ChangedIdsBound | web/views.py:273-279 | at most one save per item |
| DueBills.SendRuleShape | web/views.py:312-319 | sending stamps the first sending time; an open request becomes in progress and no other status changes; sending twice changes nothing |
| DueBills.DueBillRequest.TickItems | web/views.py:273-279 | the loop sets every item to its target, saves the changed ones in order and counts them |
| DueBills.DueBillRequest.ItemsUpdate | web/views.py:264-286 | a request the role gate refuses or a non-POST changes nothing; a POST applies the checklist and flashes success exactly when something was saved, else info |
| DueBills.DueBillRequest.SendToParts | web/views.py:306-321 | a request the role gate refuses or a non-POST changes nothing; a POST applies the send rule with the matching message; items never change |
| ServiceRequests.SavedShape | service_requests/models.py:50-53 | with a receive date the expiry is 30 days later; without one the record is unchanged; no other field changes |
| ServiceRequests.SavedIdempotent | service_requests/models.py:51-52 | saving twice stores what saving once does |
| ServiceRequests.ServiceRequest.constructor | service_requests/models.py:26-45 | defaults: Mopar warranty, status open, no dates, no users, empty texts |
| ServiceRequests.ServiceRequest.Save | service_requests/models.py:50-53 | `save` stores the record with the expiry rule applied |
| ServiceRequests.CleanShape | web/forms.py:79-84 | with a receive date the cleaned expiry is 30 days later; without one the data is returned untouched; no other key changes |
| ServiceRequests.CleanIdempotent | web/forms.py:79-84 | cleaning cleaned data again changes nothing |
| ServiceRequests.FormAgreesWithSave | web/forms.py:82-83 | saving a record with the cleaned dates stores the expiry the form shows |
| ServiceRequests.ServiceRequestForm.Clean | web/forms.py:79-84 | `clean` updates the cleaned data by the expiry rule and returns it |

## Left out

- **PDF libraries and external programs.** pypdf, pdfplumber, PyPDF2, pdftotext, pdftoppm and tesseract are not modelled. What each produced is an input: page texts, an exit status and output, or an exception.
- **Writing page subsets.** `save_pdf_subset` is modelled as the record of a file path and the page indices it holds.
- **Mapping PDF.** mapping_pdf.py (`build_summary_mapping_pdf`, reportlab) is not part of this model. The mapping file it writes appears only as a file name in `Segmentation.InvoiceInfo`.
- **Timing and file access.** Timeouts and temporary directories are not modelled. Nor are the 60-second `_run` limit and file system errors, apart from the exceptions they raise.
- **UTF-8 decoding.** Decoding with `"ignore"` is not modelled: the programs' output is taken as already decoded text.
- **Other helpers.** `parse_text_cache` (a wrapper over `json.loads`) and `render_summary_pdf` are left out. So are `render_mapping_pdf` (timestamped with `datetime.utcnow`) and `encode_pdf_for_download` (base64).
- **Parse entry point.** `FCAInvoiceParser.parse` is modelled from the extracted page texts onwards. The call to `extract_pdf_text` is `Ingestion`'s business.
- Fca.ParseInvoiceDate: the date parser is a parameter. It stands for `str.title` and `strptime("%B %d, %Y")` with ISO formatting, which are not modelled; only "failure gives the empty string" is stated.
- **Case handling.** `str.upper()`, `re.IGNORECASE` and `\d` are modelled for ASCII only. Python's Unicode case mappings of non-ASCII letters (such as the Kelvin sign) are not.
- **Floats.** `float` in parsers/fca.py is not modelled as IEEE arithmetic. Amounts are exact integer cents, and the GST/HST rate is an exact real; `float` rejecting a rate such as "." or "1.2.3" is the InvalidRate error.
- **`Decimal` input.** `Decimal` is modelled for plain notation only: optional sign, digits, at most one point. The summary pattern's amount group cannot capture exponents, "Infinity", "NaN" or underscores, so these never reach it. The 28-digit context rounding is not modelled (values are exact), and negative zero is not distinguished from zero.
- MinimalPdf.XrefEntryReads: stated for offsets below 10^10. Beyond that, `{off:010d}` prints more than ten digits and a table row is longer than 20 bytes.
- MinimalPdf.XrefEntryAt: stated for files whose table starts below 10^10 bytes, for the same reason.
- MinimalPdf.RowDigits: stated for files whose table starts below 10^10 bytes, for the same reason.
- MinimalPdf.ReaderFindsPart: stated for files whose table starts below 10^10 bytes, for the same reason.
- **Django machinery.** `get_object_or_404` and the persistence of `save()` are not modelled, nor `messages` storage and redirects. Django's `super().clean()` field validation and `TimeStampedModel` timestamps are not modelled either. A saved item is recorded as its id in `written`.
- **Time and dates.** `timezone.now()` is the `now` parameter. Dates are day numbers, and the `date.max` overflow of adding 30 days is not modelled.
- **Dictionary order.** The `totals` dictionary of parsers/fca.py is a map, so the order in which its keys were first inserted is not kept. Nothing in the pipeline reads that order.
- **Related objects.** Users referred to by service requests are ids. The due-bill request holds its items as a sequence.
- The rest of web/views.py, the other Django models, settings, admin, main.py and the management command are outside the pipeline and are not part of this model.

## Findings

| source | as written | input that shows it | evidently intended | confidence | as-written member | corrected member |
|---|---|---|---|---|---|---|
| invoices/fca_parser.py:37 | The amount group `[(),0-9\-]+\.\d{2}` ends at the two decimals. So for a negative amount printed in parentheses, the closing `)` stays outside the group. `_clean_amount` then sees `(1234.56` without `)`, and `Decimal` raises, which fails the whole `_parse_summary`. | the summary line `ARC01012 (1,234.56)` | the line is an account line with amount -1234.56, as `_clean_amount`'s parenthesis branch (invoices/fca_parser.py:46-48) expects | not executed | FcaRecords.WrittenRejectsCredit | FcaRecords.CreditLineIsNegative |

`FcaRecords.WrittenCreditMatch` and `FcaRecords.WrittenCreditSinksSummary` show the rest of the written behaviour:

- the match without the `)`;
- the failure of any summary that holds such a line.

The summary pipeline (`FcaRecords.RecordsOf`, `ParseSummary`, `ParseSection`, `Parse`) uses the pattern as written, `FcaRecords.SummaryMatchAt`. The corrected pattern `FcaRecords.CorrectedMatchAt` keeps the `)` when the amount opened with `(`, and `FcaRecords.CorrectedRecordsOf` reads a summary with it:

- `FcaRecords.CorrectedCreditMatch` shows what it matches.
- `FcaRecords.MatchFixOnlyCloses` and `FcaRecords.SearchFixOnlyCloses` show that it changes no other match.
- `FcaRecords.CorrectionOnlyRescues` and `FcaRecords.CorrectedRecordsAgree` show that it changes only lines and summaries that fail as written.
- `FcaRecords.CorrectionRescuesCredit` shows a summary that fails as written and reads once corrected.
