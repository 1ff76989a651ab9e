/**
  * The parsing half of invoices/fca_parser.py: the text of a multi-invoice
  * FCA statement, one string per page, is cut into invoices at the pages
  * that carry an invoice number (`09308000` followed by the invoice kind),
  * and the last page of each invoice is read as its account summary, each
  * summary line becoming an account line with an internal GL account.
  *
  * The two regular expressions are written out as matchers over positions.
  * Amounts are `Decimal` values kept exactly as units and a scale.
  */
module FcaRecords {
  import opened Wrappers
  import opened Text
  import opened Seqs
  import opened Gathering

  const InvoicePrefix := "09308000"

  /** The invoice kinds the statement knows, by the letters after the prefix. */
  const InvoiceKindLabels: map<string, string> := map[
    "W" := "Weekly invoice",
    "CF" := "Fleet credit memo",
    "DM" := "Debit memo",
    "C" := "Credit memo"
  ]

  datatype Target = Target(glAccount: string, description: string)

  /** FCA summary codes and the internal account each is booked to. */
  const AccountMap: map<string, Target> := map[
    "ARC01012" := Target("604190", "Warranty chargebacks"),
    "ARC01217" := Target("704004", "Freight (dealer generated return)"),
    "ARC01224" := Target("104000", "Parts (D2D obsolete)"),
    "ARC01002" := Target("104000", "Parts (core return)"),
    "ARC01003" := Target("104000", "Parts (late return)"),
    "ARC01004" := Target("604190", "Warranty deduction"),
    "ARC01007" := Target("704004", "Freight deduction"),
    "ARC01010" := Target("704000", "Handling charge"),
    "ARC01017" := Target("604190", "Warranty adjustment"),
    "ARC01221" := Target("104000", "Parts (price protection)"),
    "ENV.CONTAINER" := Target("704005", "Environmental containers")
  ]

  /** A `Decimal` in plain notation: `units` times 10 to the power `-scale`. */
  datatype Dec = Dec(units: int, scale: nat)

  /** What goes wrong: an amount `Decimal` rejects, or a section without pages (`pages[-1]`). */
  datatype ParseError = InvalidAmount(text: string) | NoPages

  datatype SummaryAccountLine = SummaryAccountLine(
    sourceCode: string, amount: Dec, glAccount: Option<string>, description: string, note: Option<string>)

  datatype ParsedInvoice = ParsedInvoice(
    invoiceCode: Option<string>, invoiceType: string, summaryPage: string, accounts: seq<SummaryAccountLine>)

  // ---------------------------------------------------------------- amounts

  /**
    * `Decimal(s)` for plain notation: surrounding white space, an optional
    * sign, then digits with at most one point and at least one digit.
    */
  function ParseDecimal(s: string): Option<Dec> {
    var t := Strip(s);
    if |t| > 0 && t[0] == '-' then Negated(UnsignedDecimal(t[1..]))
    else if |t| > 0 && t[0] == '+' then UnsignedDecimal(t[1..])
    else UnsignedDecimal(t)
  }

  /** Digits with at most one point and at least one digit, read as units and a scale. */
  function UnsignedDecimal(body: string): (r: Option<Dec>)
    ensures r.Some? ==> r.value.units >= 0
  {
    var i := RunEnd(body, 0, IsDigit);
    if i == |body| then
      if i == 0 then None else Some(Dec(DigitsValue(body), 0))
    else if body[i] != '.' || !AllDigits(body[i + 1..]) || (i + 1 == |body| && i == 0) then None
    else
      var digits := body[..i] + body[i + 1..];
      assert AllDigits(digits) by {
        forall k | 0 <= k < |digits| ensures IsDigit(digits[k]) {
          if k >= i {
            assert digits[k] == body[i + 1..][k - i];
          }
        }
      }
      Some(Dec(DigitsValue(digits), |body| - i - 1))
  }

  /** `a.b` reads as the number with the digits of `a` and `b` and the scale of `b`. */
  lemma UnsignedNumeral(a: string, b: string)
    requires |a| > 0 && AllDigits(a) && AllDigits(b)
    ensures UnsignedDecimal(a + "." + b) == Some(Dec(DigitsValue(a + b), |b|))
  {
    var s := a + "." + b;
    RunEndAt(s, 0, |a|, IsDigit);
    assert s[..|a|] == a && s[|a| + 1..] == b;
  }

  /** Text with no white space at either end is what `strip()` leaves. */
  lemma StripNone(s: string)
    requires |s| > 0 && !IsSpace(s[0]) && !IsSpace(s[|s| - 1])
    ensures Strip(s) == s
  {
    StripByAt(s, IsSpace, 0, |s|);
    assert s[0..|s|] == s;
  }

  /** A numeral `a.b` reads as the number with the digits of `a` and `b` and the scale of `b`. */
  lemma ParseNumeral(a: string, b: string)
    requires |a| > 0 && AllDigits(a) && AllDigits(b)
    ensures ParseDecimal(a + "." + b) == Some(Dec(DigitsValue(a + b), |b|))
  {
    var s := a + "." + b;
    assert !IsSpace(s[0]) && !IsSpace(s[|s| - 1]);
    StripNone(s);
    UnsignedNumeral(a, b);
  }

  predicate IsParen(c: char) { c == '(' || c == ')' }

  /** `_clean_amount`: commas dropped; an amount in parentheses is negative. */
  function CleanAmount(raw: string): Result<Dec, ParseError> {
    match AmountValue(Strip(RemoveCommas(raw)))
    case Some(d) => Ok(d)
    case None => Err(InvalidAmount(raw))
  }

  /** The value of an amount after commas and surrounding white space are gone. */
  function AmountValue(cleaned: string): Option<Dec> {
    if |cleaned| > 0 && cleaned[0] == '(' && cleaned[|cleaned| - 1] == ')' then
      Negated(ParseDecimal(StripBy(cleaned, IsParen)))
    else ParseDecimal(cleaned)
  }

  /** `Decimal * Decimal("-1")`, failures passed on. */
  function Negated(d: Option<Dec>): Option<Dec> {
    match d
    case Some(v) => Some(Dec(-v.units, v.scale))
    case None => None
  }

  /** Commas are thousands separators: they never change what an amount reads as. */
  lemma CleanAmountIgnoresCommas(raw: string)
    ensures CleanAmount(RemoveCommas(raw)).Ok? == CleanAmount(raw).Ok?
    ensures CleanAmount(raw).Ok? ==> CleanAmount(RemoveCommas(raw)).value == CleanAmount(raw).value
  {
    RemoveCommasNone(RemoveCommas(raw));
  }

  /** Without commas and with no white space at either end, an amount is left as it is before it is read. */
  lemma CleanedAsIs(s: string)
    requires |s| > 0 && ',' !in s && !IsSpace(s[0]) && !IsSpace(s[|s| - 1])
    ensures Strip(RemoveCommas(s)) == s
  {
    RemoveCommasNone(s);
    StripNone(s);
  }

  /** An amount that does not open with a parenthesis reads as `Decimal` reads it. */
  lemma CleanPlainAmount(n: string)
    requires |n| > 0 && ',' !in n && !IsSpace(n[0]) && !IsSpace(n[|n| - 1]) && n[0] != '('
    ensures CleanAmount(n).Ok? <==> ParseDecimal(n).Some?
    ensures CleanAmount(n).Ok? ==> CleanAmount(n).value == ParseDecimal(n).value
  {
    CleanedAsIs(n);
  }

  /** Parentheses around a number negate it. */
  lemma ParenthesisedValue(n: string)
    requires |n| > 0 && !IsParen(n[0]) && !IsParen(n[|n| - 1])
    ensures AmountValue("(" + n + ")") == Negated(ParseDecimal(n))
  {
    var s := "(" + n + ")";
    assert s[0] == '(' && s[|s| - 1] == ')';
    assert s[1] == n[0] && s[|s| - 2] == n[|n| - 1];
    StripByAt(s, IsParen, 1, |s| - 1);
    assert s[1..|s| - 1] == n;
    assert StripBy(s, IsParen) == n;
  }

  /** An amount in parentheses reads as the negative of the amount inside. */
  lemma CleanParenthesisedAmount(n: string)
    requires |n| > 0 && ',' !in n && !IsParen(n[0]) && !IsParen(n[|n| - 1])
    ensures CleanAmount("(" + n + ")").Ok? <==> ParseDecimal(n).Some?
    ensures CleanAmount("(" + n + ")").Ok? ==>
      var d := ParseDecimal(n).value;
      CleanAmount("(" + n + ")").value == Dec(-d.units, d.scale)
  {
    var s := "(" + n + ")";
    assert ',' !in s by {
      forall k | 0 <= k < |s| ensures s[k] != ',' {
        if 1 <= k <= |n| {
          assert s[k] == n[k - 1];
        }
      }
    }
    CleanedAsIs(s);
    ParenthesisedValue(n);
  }

  /** An opening parenthesis without its closing one is not a number. */
  lemma CleanUnclosedAmount(n: string)
    requires |n| > 0 && ',' !in n && n[|n| - 1] != ')' && !IsSpace(n[|n| - 1])
    ensures CleanAmount("(" + n).Err? && CleanAmount("(" + n).error == InvalidAmount("(" + n)
  {
    var s := "(" + n;
    assert ',' !in s by {
      forall k | 0 <= k < |s| ensures s[k] != ',' {
        if 1 <= k {
          assert s[k] == n[k - 1];
        }
      }
    }
    assert s[|s| - 1] == n[|n| - 1];
    CleanedAsIs(s);
    assert AmountValue(s) == ParseDecimal(s);
    StripNone(s);
    RunEndAt(s, 0, 0, IsDigit);
    assert UnsignedDecimal(s).None?;
  }

  // --------------------------------------------------------------- matching

  /** `re.search`: the match found at the leftmost position from `i` on. */
  function Search<M>(s: string, i: nat, at: (string, nat) -> Option<M>): Option<M>
    requires i <= |s|
    decreases |s| - i
  {
    if at(s, i).Some? || i == |s| then at(s, i) else Search(s, i + 1, at)
  }

  lemma {:induction false} SearchLeftmost<M>(s: string, i: nat, j: nat, at: (string, nat) -> Option<M>)
    requires i <= j <= |s| && at(s, j).Some?
    requires forall k :: i <= k < j ==> at(s, k).None?
    ensures Search(s, i, at) == at(s, j)
    decreases j - i
  {
    if i < j {
      SearchLeftmost(s, i + 1, j, at);
    }
  }

  /** A match found is the one at the leftmost position where there is one. */
  lemma {:induction false} SearchFound<M>(s: string, i: nat, at: (string, nat) -> Option<M>)
    requires i <= |s| && Search(s, i, at).Some?
    ensures exists k :: i <= k <= |s| && at(s, k) == Search(s, i, at) && forall j :: i <= j < k ==> at(s, j).None?
    decreases |s| - i
  {
    if at(s, i).None? {
      SearchFound(s, i + 1, at);
      var k :| i + 1 <= k <= |s| && at(s, k) == Search(s, i + 1, at) && forall j :: i + 1 <= j < k ==> at(s, j).None?;
      assert forall j :: i <= j < k ==> at(s, j).None?;
    }
  }

  lemma {:induction false} SearchNone<M>(s: string, i: nat, at: (string, nat) -> Option<M>)
    requires i <= |s|
    ensures Search(s, i, at).None? <==> forall k :: i <= k <= |s| ==> at(s, k).None?
    decreases |s| - i
  {
    if i < |s| {
      SearchNone(s, i + 1, at);
    }
  }

  /** `[A-Z0-9./]` under IGNORECASE. */
  predicate IsCodeChar(c: char) { IsUpper(c) || IsLower(c) || IsDigit(c) || c == '.' || c == '/' }

  /** `[(),0-9\-]`. */
  predicate IsAmountChar(c: char) { c == '(' || c == ')' || c == ',' || IsDigit(c) || c == '-' }

  datatype LineMatch = LineMatch(code: string, amount: string)

  /**
    * The summary-line pattern can match at `i` with the code in `[i, e)`,
    * white space in `[e, w)`, and the amount in `[w, a + 3)` with its
    * point at `a`.
    */
  predicate SummaryPatternAt(line: string, i: nat, e: nat, w: nat, a: nat) {
    i < e < w < a && a + 3 <= |line|
    && (forall k :: i <= k < e ==> IsCodeChar(line[k]))
    && (forall k :: e <= k < w ==> IsSpace(line[k]))
    && (forall k :: w <= k < a ==> IsAmountChar(line[k]))
    && line[a] == '.' && IsDigit(line[a + 1]) && IsDigit(line[a + 2])
  }

  /**
    * Where the amount group ends when its point is at `a`. As written the
    * group stops after the two decimals; with `closing`, an amount that
    * opened with a parenthesis also takes the `)` right after them.
    */
  function AmountEnd(line: string, w: nat, a: nat, closing: bool): nat
    requires w < a && a + 3 <= |line|
  {
    if closing && line[w] == '(' && a + 3 < |line| && line[a + 3] == ')' then a + 4 else a + 3
  }

  /** The summary-line pattern anchored at `i`: the code and amount groups. */
  function MatchWith(line: string, i: nat, closing: bool): Option<LineMatch> {
    if i > |line| then None
    else
      var e := RunEnd(line, i, IsCodeChar);
      var w := RunEnd(line, e, IsSpace);
      var a := RunEnd(line, w, IsAmountChar);
      if i < e < w < a && a + 3 <= |line| && line[a] == '.' && IsDigit(line[a + 1]) && IsDigit(line[a + 2])
      then Some(LineMatch(line[i..e], line[w..AmountEnd(line, w, a, closing)]))
      else None
  }

  /** `SUMMARY_LINE_RE.match(line, i)`, as written. */
  function SummaryMatchAt(line: string, i: nat): Option<LineMatch> {
    MatchWith(line, i, false)
  }

  /** The summary-line pattern with the closing parenthesis of a negative amount kept in the group. */
  function CorrectedMatchAt(line: string, i: nat): Option<LineMatch> {
    MatchWith(line, i, true)
  }

  /** A match is a way for the pattern to match. */
  lemma SummaryMatchSound(line: string, i: nat, closing: bool)
    requires MatchWith(line, i, closing).Some?
    ensures exists e: nat, w: nat, a: nat ::
      SummaryPatternAt(line, i, e, w, a)
      && MatchWith(line, i, closing) == Some(LineMatch(line[i..e], line[w..AmountEnd(line, w, a, closing)]))
  {
    var e := RunEnd(line, i, IsCodeChar);
    var w := RunEnd(line, e, IsSpace);
    var a := RunEnd(line, w, IsAmountChar);
    assert SummaryPatternAt(line, i, e, w, a);
  }

  /**
    * Whichever way the pattern can match at `i`, the matcher reports that
    * match: the character classes leave backtracking no other choice.
    */
  lemma SummaryMatchComplete(line: string, i: nat, e: nat, w: nat, a: nat, closing: bool)
    requires SummaryPatternAt(line, i, e, w, a)
    ensures MatchWith(line, i, closing).Some?
    ensures MatchWith(line, i, closing).value == LineMatch(line[i..e], line[w..AmountEnd(line, w, a, closing)])
  {
    assert !IsCodeChar(line[e]) by { assert IsSpace(line[e]); }
    RunEndAt(line, i, e, IsCodeChar);
    assert !IsSpace(line[w]) by { assert IsAmountChar(line[w]); }
    RunEndAt(line, e, w, IsSpace);
    RunEndAt(line, w, a, IsAmountChar);
  }

  /**
    * The correction only ever changes a match whose amount opens with a
    * parenthesis, and then only by the `)` that follows its decimals.
    */
  lemma MatchFixOnlyCloses(line: string, i: nat)
    ensures CorrectedMatchAt(line, i).Some? <==> SummaryMatchAt(line, i).Some?
    ensures CorrectedMatchAt(line, i) != SummaryMatchAt(line, i) ==>
      var fixed, written := CorrectedMatchAt(line, i).value, SummaryMatchAt(line, i).value;
      fixed.code == written.code && |written.amount| > 0 && written.amount[0] == '('
      && IsDigit(written.amount[|written.amount| - 1]) && fixed.amount == written.amount + ")"
  {
    if CorrectedMatchAt(line, i).Some? {
      var e := RunEnd(line, i, IsCodeChar);
      var w := RunEnd(line, e, IsSpace);
      var a := RunEnd(line, w, IsAmountChar);
      if AmountEnd(line, w, a, true) == a + 4 {
        assert line[w..a + 4] == line[w..a + 3] + [line[a + 3]];
      }
    }
  }

  /** `SUMMARY_LINE_RE.search(line)`, as written. */
  function SummarySearch(line: string): Option<LineMatch> {
    Search(line, 0, SummaryMatchAt)
  }

  /** `SUMMARY_LINE_RE.search(line)` with the corrected amount group. */
  function CorrectedSearch(line: string): Option<LineMatch> {
    Search(line, 0, CorrectedMatchAt)
  }

  /** `INVOICE_START_RE.match(page, i)`: the `kind` group, a maximal run of capitals. */
  function StartMatchAt(page: string, i: nat): Option<string> {
    var p := i + |InvoicePrefix|;
    if LiteralAt(page, i, InvoicePrefix) && p < |page| && IsUpper(page[p]) then
      Some(page[p..RunEnd(page, p, IsUpper)])
    else None
  }

  /** `INVOICE_START_RE.search(page)`. */
  function InvoiceStart(page: string): Option<string> {
    Search(page, 0, StartMatchAt)
  }

  predicate IsStartPage(page: string) { InvoiceStart(page).Some? }

  /** A page starts an invoice exactly when the prefix followed by a capital occurs on it. */
  lemma StartPageIff(page: string)
    ensures IsStartPage(page) <==>
      exists i :: 0 <= i <= |page| && LiteralAt(page, i, InvoicePrefix) && i + 8 < |page| && IsUpper(page[i + 8])
  {
    assert |InvoicePrefix| == 8;
    SearchNone(page, 0, StartMatchAt);
    if IsStartPage(page) {
      SearchFound(page, 0, StartMatchAt);
      var k :| 0 <= k <= |page| && StartMatchAt(page, k) == InvoiceStart(page);
      assert LiteralAt(page, k, InvoicePrefix) && k + 8 < |page| && IsUpper(page[k + 8]);
    } else {
      forall i | 0 <= i <= |page| && LiteralAt(page, i, InvoicePrefix) && i + 8 < |page|
        ensures !IsUpper(page[i + 8])
      {
        assert StartMatchAt(page, i).None?;
      }
    }
  }

  // ---------------------------------------------------------------- mapping

  /** `_map_account`: GST/HST by the sign of the amount, then the account table. */
  function MapAccount(code: string, amount: Dec): (r: (Option<string>, string))
    ensures r.0.None? <==> code != "GST/HST" && code !in AccountMap
    ensures r.0.Some? ==> |r.0.value| == 6
    ensures code != "GST/HST" && code in AccountMap ==> r == (Some(AccountMap[code].glAccount), AccountMap[code].description)
    ensures r.0.None? ==> r.1 == "Unmapped"
  {
    if code == "GST/HST" then
      if amount.units >= 0 then (Some("201105"), "GST/HST payable") else (Some("201100"), "GST/HST tax credit")
    else if code in AccountMap then (Some(AccountMap[code].glAccount), AccountMap[code].description)
    else (None, "Unmapped")
  }

  /** GST/HST collected is payable; GST/HST paid is a tax credit. */
  lemma GstBySign(amount: Dec)
    ensures MapAccount("GST/HST", amount).0 == Some("201105") <==> amount.units >= 0
    ensures MapAccount("GST/HST", amount).0 == Some("201100") <==> amount.units < 0
  {
  }

  /** The account line for one matched summary line. */
  function Record(code: string, amount: Dec): (line: SummaryAccountLine)
    ensures line.sourceCode == code && line.amount == amount
    ensures line.note.None? <==> line.glAccount.Some?
    ensures line.glAccount == MapAccount(code, amount).0 && line.description == MapAccount(code, amount).1
    ensures line.note.Some? ==> line.note.value == "No mapping configured"
  {
    var (gl, desc) := MapAccount(code, amount);
    SummaryAccountLine(code, amount, gl, desc, if gl.Some? && gl.value != "" then None else Some("No mapping configured"))
  }

  /** A summary-line match read as an account line, or the amount's error. */
  function MatchRecord(found: Option<LineMatch>): Option<Result<SummaryAccountLine, ParseError>> {
    match found
    case None => None
    case Some(m) =>
      var code := Upper(m.code);
      match CleanAmount(m.amount)
      case Err(e) => Some(Err(e))
      case Ok(amount) => Some(Ok(Record(code, amount)))
  }

  /** One line of the summary page: nothing when it does not match, else its account line or the amount's error. */
  function LineRecord(raw: string): Option<Result<SummaryAccountLine, ParseError>> {
    MatchRecord(SummarySearch(raw))
  }

  /** One line of the summary page read with the corrected pattern. */
  function CorrectedLineRecord(raw: string): Option<Result<SummaryAccountLine, ParseError>> {
    MatchRecord(CorrectedSearch(raw))
  }

  /** The account lines of `lines` in order, or the first amount that fails to read. */
  function RecordsOf(lines: seq<string>): Result<seq<SummaryAccountLine>, ParseError> {
    Gather(lines, LineRecord)
  }

  /** The account lines of `lines` read with the corrected pattern. */
  function CorrectedRecordsOf(lines: seq<string>): Result<seq<SummaryAccountLine>, ParseError> {
    Gather(lines, CorrectedLineRecord)
  }

  function SummaryRecords(summaryText: string): Result<seq<SummaryAccountLine>, ParseError> {
    RecordsOf(SplitLines(summaryText))
  }

  /** `_parse_summary`. */
  method ParseSummary(summaryText: string) returns (r: Result<seq<SummaryAccountLine>, ParseError>)
    ensures r == SummaryRecords(summaryText)
  {
    var lines := SplitLines(summaryText);
    var records: seq<SummaryAccountLine> := [];
    for i := 0 to |lines|
      invariant RecordsOf(lines[..i]) == Ok(records)
    {
      RecordsStep(lines, i, records);
      var m := SummarySearch(lines[i]);
      if m.None? {
        continue;
      }
      var code := Upper(m.value.code);
      var amount := CleanAmount(m.value.amount);
      if amount.Err? {
        GatherErrPersists(lines, i + 1, LineRecord);
        return Err(amount.error);
      }
      var (gl, desc) := MapAccount(code, amount.value);
      var note := if gl.Some? && gl.value != "" then None else Some("No mapping configured");
      records := records + [SummaryAccountLine(code, amount.value, gl, desc, note)];
      assert records[|records| - 1] == Record(code, amount.value);
    }
    assert lines[..|lines|] == lines;
    return Ok(records);
  }

  /** One more line of the summary page. */
  lemma RecordsStep(lines: seq<string>, i: nat, records: seq<SummaryAccountLine>)
    requires i < |lines| && RecordsOf(lines[..i]) == Ok(records)
    ensures LineRecord(lines[i]).None? ==> RecordsOf(lines[..i + 1]) == Ok(records)
    ensures LineRecord(lines[i]).Some? && LineRecord(lines[i]).value.Ok? ==>
      RecordsOf(lines[..i + 1]) == Ok(records + [LineRecord(lines[i]).value.value])
    ensures Fails(LineRecord(lines[i])) ==>
      RecordsOf(lines[..i + 1]).Err? && RecordsOf(lines[..i + 1]).error == LineRecord(lines[i]).value.error
  {
    assert lines[..i + 1][..i] == lines[..i];
  }

  /** A line the summary pattern matches but whose amount does not read. */
  predicate BadAmountLine(raw: string) {
    Fails(LineRecord(raw))
  }

  /**
    * A summary reads exactly when none of its lines is a bad amount line;
    * otherwise its error is that of its first bad amount line.
    */
  lemma {:induction false} RecordsOfOk(lines: seq<string>)
    ensures RecordsOf(lines).Ok? <==> forall k :: 0 <= k < |lines| ==> !BadAmountLine(lines[k])
    ensures RecordsOf(lines).Err? ==> exists k ::
              0 <= k < |lines| && LineRecord(lines[k]) == Some(Err(RecordsOf(lines).error))
              && forall j :: 0 <= j < k ==> !BadAmountLine(lines[j])
  {
    GatherOk(lines, LineRecord);
    if RecordsOf(lines).Err? {
      GatherFirstError(lines, LineRecord);
    }
  }

  /** The lines `SUMMARY_LINE_RE` finds something on, in order. */
  function Matching(lines: seq<string>): seq<string> {
    Kept(lines, LineRecord)
  }

  /** A summary that reads has one account line per matching line, in order. */
  lemma {:induction false} RecordsOfOrder(lines: seq<string>)
    requires RecordsOf(lines).Ok?
    ensures |RecordsOf(lines).value| == |Matching(lines)|
    ensures forall k :: 0 <= k < |Matching(lines)| ==>
              SummarySearch(Matching(lines)[k]).Some? && LineRecord(Matching(lines)[k]) == Some(Ok(RecordsOf(lines).value[k]))
  {
    GatherOrder(lines, LineRecord);
  }

  /** The code group of a summary line is never empty. */
  lemma SummaryCodeNonEmpty(line: string)
    requires SummarySearch(line).Some?
    ensures |SummarySearch(line).value.code| > 0
  {
    SearchFound(line, 0, SummaryMatchAt);
  }

  /** `upper()` leaves no lower-case letter. */
  lemma UpperHasNoLower(s: string)
    ensures forall k :: 0 <= k < |Upper(s)| ==> !IsLower(Upper(s)[k])
  {
  }

  /** An account line names a code in capitals, and has a note exactly when it has no account. */
  lemma LineRecordShape(raw: string)
    requires LineRecord(raw).Some? && LineRecord(raw).value.Ok?
    ensures var rec := LineRecord(raw).value.value;
      |rec.sourceCode| > 0 && (forall k :: 0 <= k < |rec.sourceCode| ==> !IsLower(rec.sourceCode[k]))
      && (rec.note.None? <==> rec.glAccount.Some?)
  {
    var m := SummarySearch(raw).value;
    SummaryCodeNonEmpty(raw);
    UpperHasNoLower(m.code);
    var amount := CleanAmount(m.amount).value;
    assert LineRecord(raw).value.value == Record(Upper(m.code), amount);
  }

  // ------------------------------------------------ negative summary amounts

  /** The numeral `a.b`. */
  function Numeral(a: string, b: string): string {
    a + "." + b
  }

  /** A summary line whose amount is printed in parentheses, as negative amounts are: `CODE (a.b)`. */
  function CreditLine(c: string, a: string, b: string): string {
    c + " " + ("(" + Numeral(a, b)) + ")"
  }

  /** The code and amount characters such a line is made of. */
  predicate CreditParts(c: string, a: string, b: string) {
    |c| > 0 && (forall k :: 0 <= k < |c| ==> IsCodeChar(c[k]))
    && |a| > 0 && AllDigits(a) && |b| == 2 && AllDigits(b)
  }

  /** A numeral has no comma, and begins and ends with a digit. */
  lemma NumeralChars(a: string, b: string)
    requires |a| > 0 && AllDigits(a) && |b| == 2 && AllDigits(b)
    ensures var n := Numeral(a, b);
      |n| == |a| + 3 && ',' !in n && IsDigit(n[0]) && IsDigit(n[|n| - 1])
  {
    var n := Numeral(a, b);
    assert n[0] == a[0] && n[|n| - 1] == b[1];
    forall k | 0 <= k < |n| ensures n[k] != ',' {
      if k < |a| {
        assert n[k] == a[k];
      } else if k > |a| {
        assert n[k] == b[k - |a| - 1];
      }
    }
  }

  /** The characters of a credit line, position by position. */
  lemma CreditLineChars(c: string, a: string, b: string)
    requires |b| == 2
    ensures var line, p := CreditLine(c, a, b), |c| + 2 + |a|;
      |line| == p + 4 && line[|c|] == ' ' && line[|c| + 1] == '('
      && line[p] == '.' && line[p + 1] == b[0] && line[p + 2] == b[1] && line[p + 3] == ')'
      && (forall k :: 0 <= k < |c| ==> line[k] == c[k])
      && (forall k :: 0 <= k < |a| ==> line[|c| + 2 + k] == a[k])
  {
  }

  /** The code and the parenthesis-opened amount of a credit line, as slices. */
  lemma CreditLineGroups(c: string, a: string, b: string)
    ensures var line, u := CreditLine(c, a, b), "(" + Numeral(a, b);
      |line| == |c| + 2 + |u| && line[0..|c|] == c && line[|c| + 1..|c| + 1 + |u|] == u
      && line[|c| + 1..] == u + ")"
  {
    var line, u := CreditLine(c, a, b), "(" + Numeral(a, b);
    var front := c + " " + u;
    assert line[..|front|] == front;
    assert front[..|c| + 1] == c + " ";
    assert front[|c| + 1..] == u;
    assert line[|c| + 1..] == front[|c| + 1..] + ")";
  }

  /** A line laid out as code, one space, `(`, digits, point and two digits fits the summary pattern. */
  lemma CreditPatternAt(line: string, e: nat, p: nat)
    requires 0 < e && e + 2 < p && p + 3 <= |line|
    requires forall k :: 0 <= k < e ==> IsCodeChar(line[k])
    requires line[e] == ' ' && line[e + 1] == '('
    requires forall k :: e + 2 <= k < p ==> IsDigit(line[k])
    requires line[p] == '.' && IsDigit(line[p + 1]) && IsDigit(line[p + 2])
    ensures SummaryPatternAt(line, 0, e, e + 1, p)
  {
  }

  /** Where the pattern sits on a credit line: code, one space, then the amount from its parenthesis. */
  lemma CreditLinePattern(c: string, a: string, b: string)
    requires CreditParts(c, a, b)
    ensures var line, p := CreditLine(c, a, b), |c| + 2 + |a|;
      |line| == p + 4 && SummaryPatternAt(line, 0, |c|, |c| + 1, p) && line[p + 3] == ')'
  {
    var line, p := CreditLine(c, a, b), |c| + 2 + |a|;
    CreditLineChars(c, a, b);
    assert forall k :: |c| + 2 <= k < p ==> IsDigit(line[k]) by {
      forall k | |c| + 2 <= k < p ensures IsDigit(line[k]) {
        assert line[k] == a[k - |c| - 2];
      }
    }
    CreditPatternAt(line, |c|, p);
  }

  /** As written, the pattern finds the code and the amount without its closing parenthesis. */
  lemma WrittenCreditMatch(c: string, a: string, b: string)
    requires CreditParts(c, a, b)
    ensures SummarySearch(CreditLine(c, a, b)).Some?
    ensures SummarySearch(CreditLine(c, a, b)).value == LineMatch(c, "(" + Numeral(a, b))
  {
    var line, p := CreditLine(c, a, b), |c| + 2 + |a|;
    CreditLinePattern(c, a, b);
    CreditLineGroups(c, a, b);
    SummaryMatchComplete(line, 0, |c|, |c| + 1, p, false);
    SearchLeftmost(line, 0, 0, SummaryMatchAt);
  }

  /** Corrected, the pattern finds the code and the whole parenthesised amount. */
  lemma CorrectedCreditMatch(c: string, a: string, b: string)
    requires CreditParts(c, a, b)
    ensures CorrectedSearch(CreditLine(c, a, b)).Some?
    ensures CorrectedSearch(CreditLine(c, a, b)).value == LineMatch(c, "(" + Numeral(a, b) + ")")
  {
    var line, p := CreditLine(c, a, b), |c| + 2 + |a|;
    CreditLinePattern(c, a, b);
    CreditLineGroups(c, a, b);
    SummaryMatchComplete(line, 0, |c|, |c| + 1, p, true);
    assert AmountEnd(line, |c| + 1, p, true) == |line|;
    SearchLeftmost(line, 0, 0, CorrectedMatchAt);
  }

  /**
    * As written, the amount group of `CODE (1,234.56)` stops before the
    * closing parenthesis, so `Decimal` is handed `(1234.56` and fails.
    */
  lemma WrittenRejectsCredit(c: string, a: string, b: string)
    requires CreditParts(c, a, b)
    ensures LineRecord(CreditLine(c, a, b)) == Some(Err(InvalidAmount("(" + Numeral(a, b))))
  {
    WrittenCreditMatch(c, a, b);
    NumeralChars(a, b);
    CleanUnclosedAmount(Numeral(a, b));
  }

  /** With the pattern as written, one credit line makes the whole summary fail. */
  lemma WrittenCreditSinksSummary(lines: seq<string>, k: nat, c: string, a: string, b: string)
    requires k < |lines| && lines[k] == CreditLine(c, a, b) && CreditParts(c, a, b)
    ensures RecordsOf(lines).Err?
  {
    WrittenRejectsCredit(c, a, b);
    GatherOk(lines, LineRecord);
  }

  /** With the closing parenthesis kept, a credit line reads as the negative amount it prints. */
  lemma CreditLineIsNegative(c: string, a: string, b: string)
    requires CreditParts(c, a, b)
    ensures CorrectedLineRecord(CreditLine(c, a, b)) == Some(Ok(Record(Upper(c), Dec(-(DigitsValue(a + b) as int), 2))))
  {
    CorrectedCreditMatch(c, a, b);
    ClosedNumeral(a, b);
  }

  /** A summary of one credit line fails as written and reads, as its negative amount, once corrected. */
  lemma CorrectionRescuesCredit(c: string, a: string, b: string)
    requires CreditParts(c, a, b)
    ensures RecordsOf([CreditLine(c, a, b)]).Err?
    ensures RecordsOf([CreditLine(c, a, b)]).error == InvalidAmount("(" + Numeral(a, b))
    ensures CorrectedRecordsOf([CreditLine(c, a, b)]).Ok?
    ensures CorrectedRecordsOf([CreditLine(c, a, b)]).value == [Record(Upper(c), Dec(-(DigitsValue(a + b) as int), 2))]
  {
    var lines := [CreditLine(c, a, b)];
    assert lines[..0] == [];
    assert Gather(lines[..0], LineRecord) == Ok([]);
    assert Gather(lines[..0], CorrectedLineRecord) == Ok([]);
    WrittenRejectsCredit(c, a, b);
    CreditLineIsNegative(c, a, b);
  }

  /** An amount that opens with a parenthesis and ends in a digit is not a number. */
  lemma CleanOpenAmount(u: string)
    requires |u| > 0 && u[0] == '(' && IsDigit(u[|u| - 1])
    ensures CleanAmount(u) == Err(InvalidAmount(u))
  {
    var r := RemoveCommas(u);
    RemoveCommasFirst(u);
    RemoveCommasLast(u);
    StripNone(r);
    assert AmountValue(r) == ParseDecimal(r);
    RunEndAt(r, 0, 0, IsDigit);
    assert UnsignedDecimal(r).None?;
  }

  /** The search of the corrected pattern lands where the written one does, and differs only by a `)`. */
  lemma {:induction false} SearchFixOnlyCloses(line: string, i: nat)
    requires i <= |line|
    ensures Search(line, i, CorrectedMatchAt).Some? <==> Search(line, i, SummaryMatchAt).Some?
    ensures Search(line, i, CorrectedMatchAt) != Search(line, i, SummaryMatchAt) ==>
      var fixed, written := Search(line, i, CorrectedMatchAt).value, Search(line, i, SummaryMatchAt).value;
      fixed.code == written.code && |written.amount| > 0 && written.amount[0] == '('
      && IsDigit(written.amount[|written.amount| - 1]) && fixed.amount == written.amount + ")"
    decreases |line| - i
  {
    MatchFixOnlyCloses(line, i);
    if CorrectedMatchAt(line, i).None? && i < |line| {
      SearchFixOnlyCloses(line, i + 1);
    }
  }

  /**
    * The correction reads exactly the lines the written pattern reads, and
    * reads them differently only where the written pattern fails.
    */
  lemma CorrectionOnlyRescues(raw: string)
    ensures CorrectedLineRecord(raw).Some? <==> LineRecord(raw).Some?
    ensures CorrectedLineRecord(raw) != LineRecord(raw) ==> Fails(LineRecord(raw))
  {
    SearchFixOnlyCloses(raw, 0);
    if CorrectedSearch(raw) != SummarySearch(raw) {
      CleanOpenAmount(SummarySearch(raw).value.amount);
    }
  }

  /** Every summary that reads as written reads the same once corrected. */
  lemma CorrectedRecordsAgree(lines: seq<string>)
    requires RecordsOf(lines).Ok?
    ensures CorrectedRecordsOf(lines) == RecordsOf(lines)
  {
    forall raw ensures !Fails(LineRecord(raw)) ==> CorrectedLineRecord(raw) == LineRecord(raw) {
      CorrectionOnlyRescues(raw);
    }
    GatherAgree(lines, LineRecord, CorrectedLineRecord);
  }

  /** `(a.b)` reads as minus `a.b`. */
  lemma {:induction false} ClosedNumeral(a: string, b: string)
    requires |a| > 0 && AllDigits(a) && |b| == 2 && AllDigits(b)
    ensures CleanAmount("(" + Numeral(a, b) + ")").Ok?
    ensures CleanAmount("(" + Numeral(a, b) + ")").value == Dec(-(DigitsValue(a + b) as int), 2)
  {
    var n := Numeral(a, b);
    NumeralChars(a, b);
    ParseNumeral(a, b);
    ClosedAmount(n, Dec(DigitsValue(a + b), 2));
  }

  /** A number in parentheses reads as its negative. */
  lemma ClosedAmount(n: string, d: Dec)
    requires |n| > 0 && ',' !in n && IsDigit(n[0]) && IsDigit(n[|n| - 1]) && ParseDecimal(n) == Some(d)
    ensures CleanAmount("(" + n + ")").Ok? && CleanAmount("(" + n + ")").value == Dec(-d.units, d.scale)
  {
    CleanParenthesisedAmount(n);
  }

  // --------------------------------------------------------------- sections

  /** The indices of the start pages among the first `n` pages. */
  function StartIndices(pages: seq<string>, n: nat): seq<nat>
    requires n <= |pages|
  {
    if n == 0 then [] else StartIndices(pages, n - 1) + (if IsStartPage(pages[n - 1]) then [n - 1] else [])
  }

  /** They are exactly the start pages among the first `n`, ascending. */
  lemma {:induction false} StartIndicesSpec(pages: seq<string>, n: nat)
    requires n <= |pages|
    ensures forall k :: 0 <= k < |StartIndices(pages, n)| ==>
      StartIndices(pages, n)[k] < n && IsStartPage(pages[StartIndices(pages, n)[k]])
    ensures forall k, m :: 0 <= k < m < |StartIndices(pages, n)| ==> StartIndices(pages, n)[k] < StartIndices(pages, n)[m]
    ensures forall j :: 0 <= j < n && IsStartPage(pages[j]) ==> j in StartIndices(pages, n)
  {
    if n > 0 {
      StartIndicesSpec(pages, n - 1);
    }
  }

  /** The indices of the start pages of the statement, ascending. */
  function Starts(pages: seq<string>): (idx: seq<nat>)
    ensures forall k :: 0 <= k < |idx| ==> idx[k] < |pages| && IsStartPage(pages[idx[k]])
    ensures forall k, m :: 0 <= k < m < |idx| ==> idx[k] < idx[m]
    ensures forall j :: 0 <= j < |pages| && IsStartPage(pages[j]) ==> j in idx
  {
    StartIndicesSpec(pages, |pages|);
    StartIndices(pages, |pages|)
  }

  function SectionEnd(starts: seq<nat>, i: nat, total: nat): nat
    requires i < |starts|
  {
    if i + 1 < |starts| then starts[i + 1] else total
  }

  /** The invoices of a statement: from each start page up to the next; the whole document when there is none. */
  function Sections(pages: seq<string>): seq<seq<string>> {
    var starts := Starts(pages);
    if starts == [] then [pages]
    else seq(|starts|, i requires 0 <= i < |starts| => pages[starts[i]..SectionEnd(starts, i, |pages|)])
  }

  /** `_split_into_invoices`. */
  method SplitIntoInvoices(pages: seq<string>) returns (slices: seq<seq<string>>)
    ensures slices == Sections(pages)
  {
    var startIndices := FindStarts(pages);
    if startIndices == [] {
      return [pages];
    }
    slices := CutAt(pages, startIndices);
  }

  /** The first loop of `_split_into_invoices`: the indices of the start pages. */
  method FindStarts(pages: seq<string>) returns (startIndices: seq<nat>)
    ensures startIndices == Starts(pages)
  {
    startIndices := [];
    for idx := 0 to |pages|
      invariant startIndices == StartIndices(pages, idx)
    {
      if InvoiceStart(pages[idx]).Some? {
        startIndices := startIndices + [idx];
      }
    }
  }

  /** The second loop of `_split_into_invoices`: the slices between consecutive starts. */
  method CutAt(pages: seq<string>, startIndices: seq<nat>) returns (slices: seq<seq<string>>)
    requires startIndices == Starts(pages) != []
    ensures slices == Sections(pages)
  {
    slices := [];
    for i := 0 to |startIndices|
      invariant |slices| == i
      invariant forall j :: 0 <= j < i ==> slices[j] == pages[startIndices[j]..SectionEnd(startIndices, j, |pages|)]
    {
      var start := startIndices[i];
      var end := if i + 1 < |startIndices| then startIndices[i + 1] else |pages|;
      slices := slices + [pages[start..end]];
    }
  }

  /**
    * With at least one start page there is one invoice per start page:
    * invoice i runs from start page i up to the next start page (or the
    * end), and no page inside it but the first is a start page.
    */
  lemma SectionsStartOnce(pages: seq<string>)
    requires Starts(pages) != []
    ensures |Sections(pages)| == |Starts(pages)|
    ensures forall i :: 0 <= i < |Starts(pages)| ==>
      var start, end := Starts(pages)[i], SectionEnd(Starts(pages), i, |pages|);
      start < end <= |pages| && Sections(pages)[i] == pages[start..end] && IsStartPage(pages[start])
      && forall j :: start < j < end ==> !IsStartPage(pages[j])
  {
    var starts := Starts(pages);
    forall i | 0 <= i < |starts|
      ensures var start, end := starts[i], SectionEnd(starts, i, |pages|);
        start < end <= |pages| && Sections(pages)[i] == pages[start..end] && IsStartPage(pages[start])
        && forall j :: start < j < end ==> !IsStartPage(pages[j])
    {
      var end := SectionEnd(starts, i, |pages|);
      forall j | starts[i] < j < end
        ensures !IsStartPage(pages[j])
      {
        NoStartInside(pages, i, j);
      }
    }
  }

  /** Between one start page and the next there is no start page. */
  lemma NoStartInside(pages: seq<string>, i: nat, j: nat)
    requires i < |Starts(pages)| && Starts(pages)[i] < j < SectionEnd(Starts(pages), i, |pages|)
    ensures !IsStartPage(pages[j])
  {
  }

  /**
    * The invoices together are the statement from the first start page on;
    * the pages dropped before it hold no invoice number. Without a start
    * page the one section is the whole statement.
    */
  lemma SectionsCover(pages: seq<string>)
    ensures Starts(pages) == [] ==> Flatten(Sections(pages)) == pages
    ensures Starts(pages) != [] ==> Flatten(Sections(pages)) == pages[Starts(pages)[0]..]
    ensures Starts(pages) != [] ==> forall j :: 0 <= j < Starts(pages)[0] ==> !IsStartPage(pages[j])
  {
    var starts, sections := Starts(pages), Sections(pages);
    if starts == [] {
      assert sections == [pages];
      assert sections[..0] == [];
    } else {
      SectionsPrefix(pages, |sections|);
      assert sections[..|sections|] == sections;
    }
  }

  lemma {:induction false} SectionsPrefix(pages: seq<string>, n: nat)
    requires Starts(pages) != [] && 1 <= n <= |Starts(pages)|
    ensures Flatten(Sections(pages)[..n]) == pages[Starts(pages)[0]..SectionEnd(Starts(pages), n - 1, |pages|)]
  {
    var starts, sections := Starts(pages), Sections(pages);
    FlattenTake(sections, n);
    var b, c := starts[n - 1], SectionEnd(starts, n - 1, |pages|);
    assert sections[n - 1] == pages[b..c];
    if n == 1 {
      assert sections[..0] == [];
    } else {
      SectionsPrefix(pages, n - 1);
      PagesJoin(pages, starts[0], b, c);
    }
  }

  lemma PagesJoin(pages: seq<string>, a: nat, b: nat, c: nat)
    requires a <= b <= c <= |pages|
    ensures pages[a..b] + pages[b..c] == pages[a..c]
  {
  }

  // ---------------------------------------------------------------- invoices

  /** The kind on the first page of `pages` that carries an invoice number. */
  function FirstStart(pages: seq<string>): Option<string> {
    if pages == [] then None
    else if InvoiceStart(pages[0]).Some? then InvoiceStart(pages[0])
    else FirstStart(pages[1..])
  }

  /** `INVOICE_KIND_LABELS.get(code, "Unknown")`, "Unknown" also without a code. */
  function KindLabel(code: Option<string>): string {
    match code
    case None => "Unknown"
    case Some(c) => if c in InvoiceKindLabels then InvoiceKindLabels[c] else "Unknown"
  }

  /** One invoice: its number from its first start page, its summary from its last page. */
  function Section(pages: seq<string>): Result<ParsedInvoice, ParseError> {
    if pages == [] then Err(NoPages)
    else
      var summary := pages[|pages| - 1];
      match SummaryRecords(summary)
      case Err(e) => Err(e)
      case Ok(accounts) => Ok(ParsedInvoice(FirstStart(pages), KindLabel(FirstStart(pages)), summary, accounts))
  }

  /** `_parse_section`. */
  method ParseSection(pages: seq<string>) returns (r: Result<ParsedInvoice, ParseError>)
    ensures r == Section(pages)
  {
    var invoiceCode: Option<string> := None;
    var invoiceType := "Unknown";
    var i := 0;
    while i < |pages|
      invariant 0 <= i <= |pages|
      invariant FirstStart(pages) == FirstStart(pages[i..])
      invariant invoiceCode == None && invoiceType == "Unknown"
    {
      var match_ := InvoiceStart(pages[i]);
      if match_.Some? {
        invoiceCode := match_;
        invoiceType := KindLabel(invoiceCode);
        break;
      }
      assert pages[i..][1..] == pages[i + 1..];
      i := i + 1;
    }
    if |pages| == 0 {
      return Err(NoPages);
    }
    var summaryText := pages[|pages| - 1];
    var accounts := ParseSummary(summaryText);
    if accounts.Err? {
      return Err(accounts.error);
    }
    return Ok(ParsedInvoice(invoiceCode, invoiceType, summaryText, accounts.value));
  }

  /** `ParsedFCAInvoice.title`. */
  function Title(inv: ParsedInvoice): (t: string)
    ensures |t| > 0
  {
    var heading := if inv.invoiceType == "" then "Unknown invoice" else inv.invoiceType;
    var suffix := if inv.invoiceCode.Some? && inv.invoiceCode.value != "" then " (" + inv.invoiceCode.value + ")" else "";
    heading + suffix
  }

  /**
    * A parsed invoice is named by its kind's label ("Unknown" for a kind
    * not in the table) followed by the invoice kind in parentheses when its
    * pages carry an invoice number; its summary is its last page.
    */
  lemma SectionShape(pages: seq<string>)
    requires Section(pages).Ok?
    ensures var inv := Section(pages).value;
      inv.summaryPage == pages[|pages| - 1]
      && Ok(inv.accounts) == SummaryRecords(pages[|pages| - 1])
      && (inv.invoiceType != "Unknown" <==> inv.invoiceCode.Some? && inv.invoiceCode.value in InvoiceKindLabels)
      && (inv.invoiceCode.None? ==> Title(inv) == "Unknown")
      && (inv.invoiceCode.Some? ==> Title(inv) == KindLabel(inv.invoiceCode) + " (" + inv.invoiceCode.value + ")")
  {
    var inv := Section(pages).value;
    FirstStartIsKind(pages);
  }

  lemma {:induction false} FirstStartIsKind(pages: seq<string>)
    ensures FirstStart(pages).Some? ==> |FirstStart(pages).value| > 0
    ensures FirstStart(pages).None? <==> forall k :: 0 <= k < |pages| ==> !IsStartPage(pages[k])
  {
    if pages != [] {
      FirstStartIsKind(pages[1..]);
      var m := InvoiceStart(pages[0]);
      if m.Some? {
        SearchKind(pages[0], 0);
      }
      assert forall k :: 1 <= k < |pages| ==> pages[k] == pages[1..][k - 1];
    }
  }

  lemma {:induction false} SearchKind(page: string, i: nat)
    requires i <= |page|
    ensures Search(page, i, StartMatchAt).Some? ==> |Search(page, i, StartMatchAt).value| > 0
    decreases |page| - i
  {
    if StartMatchAt(page, i).None? && i < |page| {
      SearchKind(page, i + 1);
    }
  }

  // ------------------------------------------------------------- statements

  /** One section as a step of the statement's walk: it always yields its invoice or its error. */
  function SectionStep(pages: seq<string>): Option<Result<ParsedInvoice, ParseError>> {
    Some(Section(pages))
  }

  /** Every section parsed in order; the first failure is the statement's. */
  function ParseAll(sections: seq<seq<string>>): Result<seq<ParsedInvoice>, ParseError> {
    Gather(sections, SectionStep)
  }

  /**
    * `FCAInvoiceParser.parse` after the text has been extracted: one parsed
    * invoice per section, or the first error.
    */
  method Parse(pages: seq<string>) returns (r: Result<seq<ParsedInvoice>, ParseError>)
    ensures r == ParseAll(Sections(pages))
  {
    var sections := SplitIntoInvoices(pages);
    var invoices: seq<ParsedInvoice> := [];
    for i := 0 to |sections|
      invariant ParseAll(sections[..i]) == Ok(invoices)
    {
      assert sections[..i + 1][..i] == sections[..i];
      var s := ParseSection(sections[i]);
      if s.Err? {
        GatherErrPersists(sections, i + 1, SectionStep);
        return Err(s.error);
      }
      invoices := invoices + [s.value];
    }
    assert sections[..|sections|] == sections;
    return Ok(invoices);
  }

  /**
    * A statement parses into one invoice per section, in order; with start
    * pages, invoice i carries the kind printed on start page i.
    */
  lemma {:induction false} ParseAllShape(sections: seq<seq<string>>)
    ensures ParseAll(sections).Ok? <==> forall i :: 0 <= i < |sections| ==> Section(sections[i]).Ok?
    ensures ParseAll(sections).Ok? ==>
      |ParseAll(sections).value| == |sections|
      && forall i :: 0 <= i < |sections| ==> Section(sections[i]) == Ok(ParseAll(sections).value[i])
  {
    GatherOk(sections, SectionStep);
    if ParseAll(sections).Ok? {
      KeptAll(sections, SectionStep);
      GatherOrder(sections, SectionStep);
    }
  }

  /** With start pages, invoice i is named by the kind on start page i. */
  lemma InvoiceCodesFromStartPages(pages: seq<string>)
    requires Starts(pages) != [] && ParseAll(Sections(pages)).Ok?
    ensures var invs := ParseAll(Sections(pages)).value;
      |invs| == |Starts(pages)|
      && forall i :: 0 <= i < |invs| ==> invs[i].invoiceCode == InvoiceStart(pages[Starts(pages)[i]])
  {
    var sections := Sections(pages);
    ParseAllShape(sections);
    SectionsStartOnce(pages);
  }

  /** A statement with no pages at all fails like `pages[-1]` on an empty list. */
  lemma EmptyStatementFails()
    ensures ParseAll(Sections([])) == Err(NoPages)
  {
    assert Sections([]) == [[]];
    assert Sections([])[..0] == [];
  }
}
