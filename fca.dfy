/**
  * The dictionary-style FCA invoice parser (parsers/fca.py): invoice-start
  * detection, invoice-number metadata, the summary-page classifier and the
  * mapping of FCA account codes to internal GL accounts.
  *
  * Each regular expression of the source is a hand-written matcher that
  * follows Python's `re` semantics for that one pattern: `search` tries start
  * positions from the left, `match` anchors at the start, greedy quantifiers
  * take the longest run first and lazy ones the shortest. Amounts, which the
  * patterns always capture as `digits-and-commas "." two-digits`, are integer
  * cents.
  */
module Fca {
  import opened Wrappers
  import opened Text

  const InvoicePrefix: string := "09308000"

  /** INVOICE_TYPE_MAP: invoice type code to description. */
  const InvoiceTypeMap: map<string, string> := map[
    "W" := "weekly invoice",
    "WD" := "weekly deferred invoice",
    "WH" := "hazmat training invoice",
    "CH" := "hazmat credit invoice",
    "C" := "weekly MRA/misc credit memo",
    "CA" := "weekly D2D obsolete credit memo",
    "CE" := "parts exchange credit memo",
    "CF" := "fleet credit memo",
    "CG" := "weekly D2D guaranteed credit memo",
    "CI" := "weekly ARO guaranteed parts returns",
    "CM" := "weekly other guaranteed parts returns",
    "CP" := "weekly D2D backorder credit memo",
    "WA" := "AER invoice"
  ]

  datatype GlTarget = GlTarget(glAccount: string, glLabel: string)

  /** FCA_TO_INTERNAL_GL: raw FCA account code to internal GL account and label. */
  const FcaToInternalGl: map<string, GlTarget> := map[
    "ARC01012" := GlTarget("604190", "warranty chargebacks"),
    "ARC01217" := GlTarget("704004", "freight"),
    "ARC01222" := GlTarget("704004", "freight (dealer locator charge)"),
    "ARC01224" := GlTarget("10400", "parts (D2D obsolete)"),
    "ARC01226" := GlTarget("101100", "guaranteed backorder credit memo"),
    "ARC13309" := GlTarget("101100", "fleet credit memo / national fleet maintenance"),
    "ARC19000" := GlTarget("10400", "parts (battery core consolidation)"),
    "ARC31101" := GlTarget("10400", "parts (deposit part values)"),
    "ARC45012" := GlTarget("704004", "freight (transportation charge)"),
    "ARC08994" := GlTarget("10400", "parts (sheet metal repair)"),
    "ENV.CONTAINER" := GlTarget("10400", "parts (environmental container)"),
    "ENV.LUBRICANT" := GlTarget("10400", "parts (environmental lubricant)")
  ]

  // ------------------------------------------------------------ normalize_alnum

  predicate IsUpperAlnum(c: char) { IsDigit(c) || IsUpper(c) }

  predicate IsAsciiLetter(c: char) { IsUpper(c) || IsLower(c) }

  /** `re.sub(r"[^0-9A-Z]", "", s)`. */
  function KeepUpperAlnum(s: string): (r: string)
    ensures forall k :: 0 <= k < |r| ==> IsUpperAlnum(r[k])
  {
    if s == [] then [] else (if IsUpperAlnum(s[0]) then [s[0]] else []) + KeepUpperAlnum(s[1..])
  }

  /** normalize_alnum: upper-case, then drop everything outside 0-9 and A-Z. */
  function NormalizeAlnum(s: string): (r: string)
    ensures forall k :: 0 <= k < |r| ==> IsUpperAlnum(r[k])
  {
    KeepUpperAlnum(Upper(s))
  }

  /** Normalisation works character by character: it distributes over concatenation. */
  lemma {:induction false} NormalizeAlnumConcat(a: string, b: string)
    ensures NormalizeAlnum(a + b) == NormalizeAlnum(a) + NormalizeAlnum(b)
  {
    assert Upper(a + b) == Upper(a) + Upper(b);
    KeepUpperAlnumConcat(Upper(a), Upper(b));
  }

  lemma {:induction false} KeepUpperAlnumConcat(a: string, b: string)
    ensures KeepUpperAlnum(a + b) == KeepUpperAlnum(a) + KeepUpperAlnum(b)
  {
    if a == [] {
      assert a + b == b;
    } else {
      assert (a + b)[0] == a[0];
      assert (a + b)[1..] == a[1..] + b;
      KeepUpperAlnumConcat(a[1..], b);
    }
  }

  /** A single character survives, upper-cased, exactly when it is an ASCII letter or digit. */
  lemma NormalizeAlnumChar(c: char)
    ensures NormalizeAlnum([c]) == if IsDigit(c) || IsAsciiLetter(c) then [UpperChar(c)] else []
  {
    assert Upper([c]) == [UpperChar(c)];
    assert KeepUpperAlnum([UpperChar(c)]) == (if IsUpperAlnum(UpperChar(c)) then [UpperChar(c)] else []) + KeepUpperAlnum([]);
  }

  /** Text made only of 0-9 and A-Z is left as it is. */
  lemma {:induction false} NormalizeAlnumFixesNormal(s: string)
    requires forall k :: 0 <= k < |s| ==> IsUpperAlnum(s[k])
    ensures NormalizeAlnum(s) == s
  {
    if s != [] {
      assert Upper(s) == [UpperChar(s[0])] + Upper(s[1..]);
      NormalizeAlnumFixesNormal(s[1..]);
      assert KeepUpperAlnum(Upper(s)) == [s[0]] + KeepUpperAlnum(Upper(s[1..]));
    } else {
      assert Upper(s) == [];
    }
  }

  /** normalize_alnum is idempotent. */
  lemma NormalizeAlnumIdempotent(s: string)
    ensures NormalizeAlnum(NormalizeAlnum(s)) == NormalizeAlnum(s)
  {
    NormalizeAlnumFixesNormal(NormalizeAlnum(s));
  }

  // ------------------------------------------------------- detect_invoice_start

  /**
    * The words of a pattern `W1\s+W2\s+...\s+Wn` match at `i`, letters compared
    * without regard to case. Every word starts with a non-space character, so
    * the greedy `\s+` must take the whole run of white space.
    */
  predicate WordsAt(s: string, i: nat, words: seq<string>)
    requires i <= |s|
    decreases |words|
  {
    if words == [] then true
    else
      LiteralAtIgnoreCase(s, i, words[0]) &&
      (|words| == 1 ||
        var j := i + |words[0]|;
        var k := RunEnd(s, j, IsSpace);
        k > j && WordsAt(s, k, words[1..]))
  }

  /** `pattern.search(s)` for a word pattern: some start position at or after `i` matches. */
  predicate SearchWords(s: string, i: nat, words: seq<string>)
    requires i <= |s|
    decreases |s| - i
  {
    WordsAt(s, i, words) || (i < |s| && SearchWords(s, i + 1, words))
  }

  /** HEADER_PATTERNS, both compiled with re.IGNORECASE. */
  const MoparHeader: seq<string> := ["MOPAR", "CANADA", "INC.", "-", "PARTS", "INVOICE"]
  const AerHeader: seq<string> := ["AER", "INVOICE"]

  predicate HasHeader(text: string) {
    SearchWords(text, 0, MoparHeader) || SearchWords(text, 0, AerHeader)
  }

  /** detect_invoice_start: a header pattern AND the literal "INVOICE NUMBER", on non-empty text. */
  predicate DetectInvoiceStart(text: string) {
    if text == [] then false
    else HasHeader(text) && Contains(Upper(text), "INVOICE NUMBER")
  }

  lemma UpperIdempotent(s: string)
    ensures Upper(Upper(s)) == Upper(s)
  {
  }

  lemma {:induction false} WordsAtUpper(s: string, i: nat, words: seq<string>)
    requires i <= |s|
    ensures WordsAt(Upper(s), i, words) == WordsAt(s, i, words)
    decreases |words|
  {
    if words != [] {
      LiteralAtIgnoreCaseUpper(s, i, words[0]);
      var j := i + |words[0]|;
      if |words| > 1 && j <= |s| {
        RunEndSpaceUpper(s, j);
        WordsAtUpper(s, RunEnd(s, j, IsSpace), words[1..]);
      }
    }
  }

  lemma LiteralAtIgnoreCaseUpper(s: string, i: nat, lit: string)
    ensures LiteralAtIgnoreCase(Upper(s), i, lit) == LiteralAtIgnoreCase(s, i, lit)
  {
    if i + |lit| <= |s| {
      forall j | i <= j < i + |lit|
        ensures UpperChar(Upper(s)[j]) == UpperChar(s[j])
      {
        assert Upper(s)[j] == UpperChar(s[j]);
      }
    }
  }

  lemma {:induction false} RunEndSpaceUpper(s: string, j: nat)
    requires j <= |s|
    ensures RunEnd(Upper(s), j, IsSpace) == RunEnd(s, j, IsSpace)
    decreases |s| - j
  {
    if j < |s| && IsSpace(s[j]) {
      RunEndSpaceUpper(s, j + 1);
    }
  }

  lemma {:induction false} SearchWordsUpper(s: string, i: nat, words: seq<string>)
    requires i <= |s|
    ensures SearchWords(Upper(s), i, words) == SearchWords(s, i, words)
    decreases |s| - i
  {
    WordsAtUpper(s, i, words);
    if i < |s| {
      SearchWordsUpper(s, i + 1, words);
    }
  }

  /** Detection ignores case: upper-casing a page never changes whether it starts an invoice. */
  lemma DetectInvoiceStartIgnoresCase(text: string)
    ensures DetectInvoiceStart(Upper(text)) == DetectInvoiceStart(text)
  {
    SearchWordsUpper(text, 0, MoparHeader);
    SearchWordsUpper(text, 0, AerHeader);
    UpperIdempotent(text);
  }

  /** A page that starts an invoice is non-empty and carries the "INVOICE NUMBER" label. */
  lemma DetectInvoiceStartNeedsLabel(text: string)
    requires DetectInvoiceStart(text)
    ensures text != [] && Contains(Upper(text), "INVOICE NUMBER") && HasHeader(text)
  {
  }

  // ------------------------------------------------------ _parse_invoice_date

  /**
    * _parse_invoice_date: the stripped text goes to a date parser (title-casing,
    * `strptime("%B %d, %Y")` and ISO formatting are behind `parseDate`); a
    * failure gives the empty string instead of an error.
    */
  function ParseInvoiceDate(raw: string, parseDate: string -> Option<string>): (iso: string)
    ensures parseDate(Strip(raw)).None? ==> iso == ""
    ensures parseDate(Strip(raw)).Some? ==> iso == parseDate(Strip(raw)).value
  {
    parseDate(Strip(raw)).GetOr("")
  }

  // --------------------------------------------------- parse_invoice_metadata

  datatype FieldKind = NumberField | DateField

  /** `[0-9A-Z\s]` and `[A-Z\s,0-9]` under re.IGNORECASE. */
  predicate InFieldClass(kind: FieldKind, c: char) {
    match kind
    case NumberField => IsDigit(c) || IsAsciiLetter(c) || IsSpace(c)
    case DateField => IsAsciiLetter(c) || IsSpace(c) || c == ',' || IsDigit(c)
  }

  function FieldLabel(kind: FieldKind): string {
    match kind
    case NumberField => "NUMBER"
    case DateField => "DATE"
  }

  /**
    * `INVOICE\s+<LABEL>\s*:\s*(<class>+)` tried at position `i`. The greedy
    * `\s*` after the colon takes the whole run of white space when a
    * non-space class character follows it; otherwise it gives back one space
    * character, which alone becomes the group; with no space at all there is
    * no match here.
    */
  function FieldAt(s: string, i: nat, kind: FieldKind): Option<string>
    requires i <= |s|
  {
    if !LiteralAtIgnoreCase(s, i, "INVOICE") then None
    else
      var k := RunEnd(s, i + 7, IsSpace);
      if k == i + 7 || !LiteralAtIgnoreCase(s, k, FieldLabel(kind)) then None
      else
      var colon := RunEnd(s, k + |FieldLabel(kind)|, IsSpace);
      if colon == |s| || s[colon] != ':' then None
      else
        var w := RunEnd(s, colon + 1, IsSpace);
        if w < |s| && InFieldClass(kind, s[w]) then Some(s[w..RunEnd(s, w, c => InFieldClass(kind, c))])
        else if w > colon + 1 then Some(s[w - 1..w])
        else None
  }

  /** `re.search` of the field pattern from position `i` on: the leftmost match. */
  function SearchField(s: string, i: nat, kind: FieldKind): Option<string>
    requires i <= |s|
    decreases |s| - i
  {
    match FieldAt(s, i, kind)
    case Some(g) => Some(g)
    case None => if i < |s| then SearchField(s, i + 1, kind) else None
  }

  /** `match.group(1).strip() if match else ""`. */
  function FieldText(s: string, kind: FieldKind): string {
    match SearchField(s, 0, kind)
    case Some(g) => Strip(g)
    case None => ""
  }

  /**
    * `re.match(r"([A-Z]{1,2})([0-9]+)", rem)`: two letters are tried before
    * one, and the digit run is the longest one.
    */
  function MatchTypeCode(rem: string): (r: Option<(string, string)>)
    ensures r.Some? ==>
      var (code, digits) := r.value;
      && 1 <= |code| <= 2 && (forall k :: 0 <= k < |code| ==> IsUpper(code[k]))
      && |digits| >= 1 && AllDigits(digits)
      && |code| + |digits| <= |rem|
      && code + digits == rem[..|code| + |digits|]
      && (|code| + |digits| < |rem| ==> !IsDigit(rem[|code| + |digits|]))
      && (|code| == 1 ==> !(|rem| >= 3 && IsUpper(rem[1]) && IsDigit(rem[2])))
    ensures r.None? <==>
      !(|rem| >= 2 && IsUpper(rem[0]) && (IsDigit(rem[1]) || (|rem| >= 3 && IsUpper(rem[1]) && IsDigit(rem[2]))))
  {
    if |rem| >= 3 && IsUpper(rem[0]) && IsUpper(rem[1]) && IsDigit(rem[2]) then
      var e := RunEnd(rem, 2, IsDigit);
      Some((rem[..2], rem[2..e]))
    else if |rem| >= 2 && IsUpper(rem[0]) && IsDigit(rem[1]) then
      var e := RunEnd(rem, 1, IsDigit);
      Some((rem[..1], rem[1..e]))
    else None
  }

  datatype MetadataError = MissingPrefix | UnparseableTypeCode

  datatype InvoiceNumber = InvoiceNumber(norm: string, typeCode: string, typeDesc: string, keyNorm: string)

  predicate StartsWith(s: string, prefix: string) {
    |prefix| <= |s| && s[..|prefix|] == prefix
  }

  /** The invoice-number half of parse_invoice_metadata: prefix check, type code split, lookup. */
  function ParseInvoiceNumber(raw: string): (r: Result<InvoiceNumber, MetadataError>)
    ensures r == Err(MissingPrefix) <==> !StartsWith(NormalizeAlnum(raw), InvoicePrefix)
    ensures r == Err(UnparseableTypeCode) <==>
      StartsWith(NormalizeAlnum(raw), InvoicePrefix) && MatchTypeCode(NormalizeAlnum(raw)[8..]).None?
    ensures r.Ok? ==>
      var n := r.value;
      && n.norm == NormalizeAlnum(raw)
      && StartsWith(n.norm, InvoicePrefix)
      && StartsWith(n.norm[8..], n.keyNorm)
      && 2 <= |n.keyNorm|
      && n.typeDesc == (if n.typeCode in InvoiceTypeMap then InvoiceTypeMap[n.typeCode] else "unknown")
      && StartsWith(n.keyNorm, n.typeCode)
      && MatchTypeCode(n.norm[8..]).Some?
      && n.typeCode == MatchTypeCode(n.norm[8..]).value.0
      && n.keyNorm == n.typeCode + MatchTypeCode(n.norm[8..]).value.1
  {
    var norm := NormalizeAlnum(raw);
    if !StartsWith(norm, InvoicePrefix) then Err(MissingPrefix)
    else
      var remainder := norm[|InvoicePrefix|..];
      match MatchTypeCode(remainder)
      case None => Err(UnparseableTypeCode)
      case Some((code, digits)) =>
        Ok(InvoiceNumber(norm, code, if code in InvoiceTypeMap then InvoiceTypeMap[code] else "unknown", code + digits))
  }

  datatype InvoiceMetadata = InvoiceMetadata(
    numberRaw: string,
    numberNorm: string,
    typeCode: string,
    typeDesc: string,
    keyNorm: string,
    dateRaw: string,
    dateIso: string)

  /** parse_invoice_metadata: fails exactly as the invoice-number half fails; a bad date is not an error. */
  function ParseInvoiceMetadata(firstPage: string, parseDate: string -> Option<string>): (r: Result<InvoiceMetadata, MetadataError>)
    ensures ParseInvoiceNumber(FieldText(firstPage, NumberField)).Err? <==> r.Err?
    ensures r.Err? ==> r.error == ParseInvoiceNumber(FieldText(firstPage, NumberField)).error
    ensures r.Ok? ==>
      && r.value.numberRaw == FieldText(firstPage, NumberField)
      && r.value.numberNorm == NormalizeAlnum(r.value.numberRaw)
      && StartsWith(r.value.numberNorm, InvoicePrefix)
      && r.value.typeCode == ParseInvoiceNumber(r.value.numberRaw).value.typeCode
      && r.value.typeDesc == ParseInvoiceNumber(r.value.numberRaw).value.typeDesc
      && r.value.keyNorm == ParseInvoiceNumber(r.value.numberRaw).value.keyNorm
      && r.value.dateRaw == FieldText(firstPage, DateField)
      && r.value.dateIso == ParseInvoiceDate(r.value.dateRaw, parseDate)
  {
    var numberRaw := FieldText(firstPage, NumberField);
    var dateRaw := FieldText(firstPage, DateField);
    match ParseInvoiceNumber(numberRaw)
    case Err(e) => Err(e)
    case Ok(n) =>
      Ok(InvoiceMetadata(numberRaw, n.norm, n.typeCode, n.typeDesc, n.keyNorm, dateRaw, ParseInvoiceDate(dateRaw, parseDate)))
  }

  /**
    * A weekly invoice number printed with a space before its digits, such as
    * "09308000W 123456", normalises to "09308000W123456", has type code "W"
    * and key "W123456".
    */
  lemma WeeklyInvoiceNumber(digits: string)
    requires |digits| >= 1 && AllDigits(digits)
    ensures ParseInvoiceNumber("09308000W " + digits)
      == Ok(InvoiceNumber("09308000W" + digits, "W", "weekly invoice", "W" + digits))
  {
    var raw := "09308000W " + digits;
    var norm := "09308000W" + digits;
    assert forall k :: 0 <= k < 9 ==> IsUpperAlnum("09308000W"[k]);
    NormalizeDropsSpace("09308000W", digits);
    assert "09308000W" + " " + digits == raw;
    assert norm[..8] == InvoicePrefix;
    assert norm[8..] == "W" + digits;
    TypeCodeThenDigits("W", digits);
    assert "W" in InvoiceTypeMap && InvoiceTypeMap["W"] == "weekly invoice";
  }

  /** One space between two normalised texts disappears. */
  lemma NormalizeDropsSpace(a: string, b: string)
    requires forall k :: 0 <= k < |a| ==> IsUpperAlnum(a[k])
    requires forall k :: 0 <= k < |b| ==> IsUpperAlnum(b[k])
    ensures NormalizeAlnum(a + " " + b) == a + b
  {
    NormalizeAlnumConcat(a + " ", b);
    NormalizeAlnumConcat(a, " ");
    NormalizeAlnumFixesNormal(a);
    NormalizeAlnumFixesNormal(b);
    NormalizeAlnumChar(' ');
  }

  /** A one- or two-letter code followed by nothing but digits splits into exactly those parts. */
  lemma TypeCodeThenDigits(code: string, digits: string)
    requires 1 <= |code| <= 2 && forall k :: 0 <= k < |code| ==> IsUpper(code[k])
    requires |digits| >= 1 && AllDigits(digits)
    ensures MatchTypeCode(code + digits) == Some((code, digits))
  {
    var rem := code + digits;
    assert rem[..|code|] == code;
    assert rem[|code|..] == digits;
    assert forall k :: |code| <= k < |rem| ==> IsDigit(rem[k]) by {
      forall k | |code| <= k < |rem| ensures IsDigit(rem[k]) {
        assert rem[k] == digits[k - |code|];
      }
    }
    if |code| == 1 {
      assert !IsUpper(rem[1]) && IsDigit(rem[1]);
      assert RunEnd(rem, 1, IsDigit) == |rem|;
      assert rem[..1] == code && rem[1..|rem|] == digits;
    } else {
      assert IsUpper(rem[1]) && IsDigit(rem[2]);
      assert RunEnd(rem, 2, IsDigit) == |rem|;
      assert rem[..2] == code && rem[2..|rem|] == digits;
    }
  }

  // -------------------------------------------------------------- parse_summary

  predicate IsDigitOrComma(c: char) { IsDigit(c) || c == ',' }
  predicate IsDigitOrDot(c: char) { IsDigit(c) || c == '.' }
  predicate IsAccountCodeChar(c: char) { IsUpper(c) || IsDigit(c) || c == '.' }

  /** `float(t.replace(",", ""))` in cents for a text `[0-9,]+` "." two digits. */
  function AmountCents(intPart: string, frac: string): (cents: nat)
    requires forall k :: 0 <= k < |intPart| ==> IsDigitOrComma(intPart[k])
    requires |frac| == 2 && AllDigits(frac)
  {
    CommaFreeDigits(intPart);
    DigitsValue(RemoveCommas(intPart)) * 100 + DigitsValue(frac)
  }

  lemma {:induction false} CommaFreeDigits(s: string)
    requires forall k :: 0 <= k < |s| ==> IsDigitOrComma(s[k])
    ensures AllDigits(RemoveCommas(s))
  {
    if s != [] {
      CommaFreeDigits(s[1..]);
    }
  }

  /** `[0-9,]+\.\d{2}` at `q`: where it ends and its value. '.' is outside [0-9,], so the run is the longest one. */
  function AmountAt(s: string, q: nat): Option<(nat, nat)>
    requires q <= |s|
  {
    var e := RunEnd(s, q, IsDigitOrComma);
    if e > q && e + 3 <= |s| && s[e] == '.' && IsDigit(s[e + 1]) && IsDigit(s[e + 2]) then
      Some((e + 3, AmountCents(s[q..e], s[e + 1..e + 3])))
    else None
  }

  /** Backtracking of the greedy `[^0-9]*` in front of the amount: its end tried from `j` down to `p`. */
  function AmountBacktrack(s: string, p: nat, j: nat): Option<nat>
    requires p <= j <= |s|
    decreases j
  {
    match AmountAt(s, j)
    case Some((_, cents)) => Some(cents)
    case None => if j > p then AmountBacktrack(s, p, j - 1) else None
  }

  /** `@\s*([0-9.]+)%[^0-9]*([0-9,]+\.\d{2})` with the '@' at `a`: the rate text and the amount. */
  function GstAfterAt(s: string, a: nat): Option<(string, nat)>
    requires a < |s|
  {
    var r0 := RunEnd(s, a + 1, IsSpace);
    var r1 := RunEnd(s, r0, IsDigitOrDot);
    if r1 > r0 && r1 < |s| && s[r1] == '%' then
      var p := r1 + 1;
      match AmountBacktrack(s, p, RunEnd(s, p, c => !IsDigit(c)))
      case Some(cents) => Some((s[r0..r1], cents))
      case None => None
    else None
  }

  /** The lazy `.*?` before '@': the first '@' from `a` on after which the rest matches; `.` stops at '\n'. */
  function GstLazy(s: string, a: nat): Option<(string, nat)>
    requires a <= |s|
    decreases |s| - a
  {
    if a == |s| then None
    else if s[a] == '@' && GstAfterAt(s, a).Some? then GstAfterAt(s, a)
    else if s[a] == '\n' then None
    else GstLazy(s, a + 1)
  }

  /** gst_pattern.search: `GST/HST.*?@\s*([0-9.]+)%[^0-9]*([0-9,]+\.\d{2})`, re.IGNORECASE. */
  function GstSearch(s: string, i: nat): Option<(string, nat)>
    requires i <= |s|
    decreases |s| - i
  {
    if LiteralAtIgnoreCase(s, i, "GST/HST") && GstLazy(s, i + 7).Some? then GstLazy(s, i + 7)
    else if i < |s| then GstSearch(s, i + 1)
    else None
  }

  /**
    * `\s+([0-9,]+\.\d{2})$` at the end of a line: the start `q` of the amount
    * and its value. The amount's run is the longest one, as a space must
    * precede it.
    */
  function TrailingAmount(s: string): (r: Option<(nat, nat)>)
    ensures r.Some? ==> 1 <= r.value.0 <= |s| && IsSpace(s[r.value.0 - 1])
    ensures r.Some? ==>
      var q := r.value.0;
      && q < |s| - 3 && s[|s| - 3] == '.' && IsDigit(s[|s| - 2]) && IsDigit(s[|s| - 1])
      && (forall k :: q <= k < |s| - 3 ==> IsDigitOrComma(s[k]))
      && r.value.1 == AmountCents(s[q..|s| - 3], s[|s| - 2..])
  {
    if |s| < 4 || s[|s| - 3] != '.' || !IsDigit(s[|s| - 2]) || !IsDigit(s[|s| - 1]) then None
    else
      var e := |s| - 3;
      var q := RunStart(s, e, IsDigitOrComma);
      if q < e && q >= 1 && IsSpace(s[q - 1]) then Some((q, AmountCents(s[q..e], s[e + 1..])))
      else None
  }

  datatype AccountEntry = AccountEntry(
    codeRaw: string,
    codeNorm: string,
    descriptionRaw: string,
    descriptionNorm: string,
    amount: nat)

  /**
    * account_pattern.match: `^([A-Z0-9.]+)\s+(.*\S)\s+([0-9,]+\.\d{2})$`, case
    * sensitive. The lines it is applied to hold no '\n' (SplitLines), so `$` is
    * the end of the line and `.` matches every character.
    */
  function AccountMatch(line: string): Option<AccountEntry> {
    var c := RunEnd(line, 0, IsAccountCodeChar);
    var d := RunEnd(line, c, IsSpace);
    if c == 0 || d == c then None
    else
      match TrailingAmount(line)
      case None => None
      case Some((q, cents)) =>
        var w := RunStart(line, q, IsSpace);
        if w <= d then None
        else
          var code := line[..c];
          var desc := line[d..w];
          Some(AccountEntry(code, NormalizeAlnum(code), desc, NormalizeAlnum(desc), cents))
  }

  /**
    * What an account line yields: a code of one or more code characters, a
    * description that starts and ends with a non-space, and the two keys
    * normalised from them.
    */
  lemma AccountMatchShape(line: string)
    ensures var r := AccountMatch(line);
      r.Some? ==>
      && |r.value.codeRaw| >= 1
      && (forall k :: 0 <= k < |r.value.codeRaw| ==> IsAccountCodeChar(r.value.codeRaw[k]))
      && r.value.codeNorm == NormalizeAlnum(r.value.codeRaw)
      && r.value.descriptionNorm == NormalizeAlnum(r.value.descriptionRaw)
      && |r.value.descriptionRaw| >= 1
      && !IsSpace(r.value.descriptionRaw[0])
      && !IsSpace(r.value.descriptionRaw[|r.value.descriptionRaw| - 1])
  {
    var c := RunEnd(line, 0, IsAccountCodeChar);
    var d := RunEnd(line, c, IsSpace);
    if c == 0 || d == c || TrailingAmount(line).None? {
      assert AccountMatch(line).None?;
    } else {
      var q := TrailingAmount(line).value.0;
      var w := RunStart(line, q, IsSpace);
      if w <= d {
        assert AccountMatch(line).None?;
      } else {
        var r := AccountMatch(line).value;
        assert r.descriptionRaw == line[d..w] && r.codeRaw == line[..c];
        DescriptionEnds(line, c, q);
      }
    }
  }

  /** What lies between the spaces after `c` and the spaces before `q` starts and ends with a non-space. */
  lemma DescriptionEnds(line: string, c: nat, q: nat)
    requires c <= q <= |line|
    requires RunEnd(line, c, IsSpace) < RunStart(line, q, IsSpace)
    ensures var desc := line[RunEnd(line, c, IsSpace)..RunStart(line, q, IsSpace)];
      !IsSpace(desc[0]) && !IsSpace(desc[|desc| - 1])
  {
  }

  /** The label alternatives of amount_pattern, each followed by `.*`, under re.IGNORECASE. */
  predicate IsTotalLabel(caption: string) {
    || LiteralAtIgnoreCase(caption, 0, "TOTAL")
    || WordsAt(caption, 0, ["DISCOUNTS", "EARNED"])
    || WordsAt(caption, 0, ["NET", "INVOICE", "AMOUNT"])
    || WordsAt(caption, 0, ["NET", "AMOUNT"])
    || Contains(Upper(caption), "TOTAL")
  }

  /**
    * amount_pattern.match. The label's trailing `.*` is greedy, so the label
    * runs up to the last space before the amount.
    */
  function TotalMatch(line: string): (r: Option<(string, nat)>)
    ensures r.Some? <==> TrailingAmount(line).Some? && IsTotalLabel(line[..TrailingAmount(line).value.0 - 1])
    ensures r.Some? ==>
      var (caption, cents) := r.value;
      && IsTotalLabel(caption) && |caption| < |line| && caption == line[..|caption|]
      && IsSpace(line[|caption|])
      && TrailingAmount(line).value == (|caption| + 1, cents)
  {
    match TrailingAmount(line)
    case None => None
    case Some((q, cents)) =>
      var caption := line[..q - 1];
      if IsTotalLabel(caption) then Some((caption, cents)) else None
  }

  datatype LineKind =
    | GstLine(rateText: string, rate: Option<real>, amount: nat)
    | AccountLine(entry: AccountEntry)
    | TotalLine(caption: string, amount: nat)
    | Unmatched

  /**
    * The loop body's priority: GST/HST first, then account lines, then totals.
    * A GST/HST line carries `float` of its rate, None where `float` raises.
    */
  function Classify(line: string): (k: LineKind)
    ensures k.GstLine? <==> GstSearch(line, 0).Some?
    ensures k.GstLine? ==> (k.rateText, k.amount) == GstSearch(line, 0).value
    ensures k.AccountLine? <==> GstSearch(line, 0).None? && AccountMatch(line).Some?
    ensures k.TotalLine? <==> GstSearch(line, 0).None? && AccountMatch(line).None? && TotalMatch(line).Some?
  {
    match GstSearch(line, 0)
    case Some((rateText, amount)) =>
      GstRateShape(line, 0);
      GstLine(rateText, RateValue(rateText), amount)
    case None =>
      match AccountMatch(line)
      case Some(e) => AccountLine(e)
      case None =>
        match TotalMatch(line)
        case Some((caption, amount)) => TotalLine(caption, amount)
        case None => Unmatched
  }

  /** `float(t)` for a text of digits and dots: valid with at most one dot and at least one digit. */
  function RateValue(t: string): Option<real>
    requires forall k :: 0 <= k < |t| ==> IsDigitOrDot(t[k])
  {
    var dot := RunEnd(t, 0, IsDigit);
    if dot == |t| then
      if |t| == 0 then None else Some(DigitsValue(t) as real)
    else
      var frac := t[dot + 1..];
      if !AllDigits(frac) || (dot == 0 && |frac| == 0) then None
      else Some(DigitsValue(t[..dot]) as real + DigitsValue(frac) as real / Pow10(|frac|) as real)
  }

  /** The rate group always consists of digits and dots. */
  lemma {:induction false} GstRateShape(s: string, i: nat)
    requires i <= |s| && GstSearch(s, i).Some?
    ensures forall k :: 0 <= k < |GstSearch(s, i).value.0| ==> IsDigitOrDot(GstSearch(s, i).value.0[k])
    decreases |s| - i
  {
    if !(LiteralAtIgnoreCase(s, i, "GST/HST") && GstLazy(s, i + 7).Some?) {
      GstRateShape(s, i + 1);
    } else {
      GstLazyRateShape(s, i + 7);
    }
  }

  lemma {:induction false} GstLazyRateShape(s: string, a: nat)
    requires a <= |s| && GstLazy(s, a).Some?
    ensures forall k :: 0 <= k < |GstLazy(s, a).value.0| ==> IsDigitOrDot(GstLazy(s, a).value.0[k])
    decreases |s| - a
  {
    if !(s[a] == '@' && GstAfterAt(s, a).Some?) {
      GstLazyRateShape(s, a + 1);
    }
  }

  /** `[line.strip() for line in text.splitlines() if line.strip()]`. */
  function SummaryLines(lines: seq<string>): (r: seq<string>)
    ensures forall k :: 0 <= k < |r| ==> r[k] != []
  {
    if lines == [] then []
    else SummaryLines(lines[..|lines| - 1]) + (if Strip(lines[|lines| - 1]) != [] then [Strip(lines[|lines| - 1])] else [])
  }

  /** The classification of each line. */
  function Kinds(lines: seq<string>): (ks: seq<LineKind>)
    ensures |ks| == |lines| && forall k :: 0 <= k < |lines| ==> ks[k] == Classify(lines[k])
  {
    seq(|lines|, k requires 0 <= k < |lines| => Classify(lines[k]))
  }

  datatype TaxInfo = TaxInfo(amount: nat, rate: real)

  const NoTax := TaxInfo(0, 0.0)

  datatype SummaryData = SummaryData(totals: map<string, nat>, accounts: seq<AccountEntry>, tax: TaxInfo)

  datatype SummaryError = InvalidRate(rateText: string)

  predicate IsBadRate(k: LineKind) {
    k.GstLine? && k.rate.None?
  }

  /** The rate text of the first GST/HST line whose rate `float` rejects, if any. */
  function FirstBadRate(ks: seq<LineKind>): Option<string> {
    if ks == [] then None
    else
      var last := ks[|ks| - 1];
      var earlier := FirstBadRate(ks[..|ks| - 1]);
      if earlier.Some? then earlier
      else if IsBadRate(last) then Some(last.rateText)
      else None
  }

  /** The account entries of the lines, in line order. */
  function AccountsOf(ks: seq<LineKind>): seq<AccountEntry> {
    if ks == [] then []
    else
      var last := ks[|ks| - 1];
      AccountsOf(ks[..|ks| - 1]) + (if last.AccountLine? then [last.entry] else [])
  }

  /** The tax of the last GST/HST line, or no tax. */
  function TaxOf(ks: seq<LineKind>): TaxInfo {
    if ks == [] then NoTax
    else
      var last := ks[|ks| - 1];
      if last.GstLine? && last.rate.Some? then TaxInfo(last.amount, last.rate.value)
      else TaxOf(ks[..|ks| - 1])
  }

  /** The totals of the lines, keyed by normalised label. */
  function TotalsOf(ks: seq<LineKind>): map<string, nat> {
    if ks == [] then map[]
    else
      var last := ks[|ks| - 1];
      var earlier := TotalsOf(ks[..|ks| - 1]);
      if last.TotalLine? then earlier[NormalizeAlnum(last.caption) := last.amount] else earlier
  }

  /** The outcome of the loop over the classified lines: the first unparseable rate aborts it. */
  function SummaryOf(ks: seq<LineKind>): Result<SummaryData, SummaryError> {
    match FirstBadRate(ks)
    case Some(t) => Err(InvalidRate(t))
    case None => Ok(SummaryData(TotalsOf(ks), AccountsOf(ks), TaxOf(ks)))
  }

  /** parse_summary as a whole. */
  function Summary(text: string): Result<SummaryData, SummaryError> {
    SummaryOf(Kinds(SummaryLines(SplitLines(text))))
  }

  /** parse_summary: one pass over the non-blank stripped lines. */
  method ParseSummary(summaryText: string) returns (r: Result<SummaryData, SummaryError>)
    ensures r == Summary(summaryText)
  {
    var lines := SummaryLines(SplitLines(summaryText));
    r := SummarizeLines(lines);
  }

  /** The loop of parse_summary over the stripped lines. */
  method SummarizeLines(lines: seq<string>) returns (r: Result<SummaryData, SummaryError>)
    ensures r == SummaryOf(Kinds(lines))
  {
    ghost var ks := Kinds(lines);
    var totals: map<string, nat> := map[];
    var accounts: seq<AccountEntry> := [];
    var tax := NoTax;
    for i := 0 to |lines|
      invariant FirstBadRate(ks[..i]).None?
      invariant totals == TotalsOf(ks[..i])
      invariant accounts == AccountsOf(ks[..i])
      invariant tax == TaxOf(ks[..i])
    {
      var kind := Classify(lines[i]);
      assert ks[i] == kind;
      SummaryStep(ks, i);
      match kind
      case GstLine(rateText, rate, amount) =>
        if rate.None? {
          FirstBadRateOfPrefix(ks, i + 1);
          return Err(InvalidRate(rateText));
        }
        tax := TaxInfo(amount, rate.value);
      case AccountLine(entry) =>
        accounts := accounts + [entry];
      case TotalLine(caption, amount) =>
        totals := totals[NormalizeAlnum(caption) := amount];
      case Unmatched =>
    }
    assert ks[..|lines|] == ks;
    r := Ok(SummaryData(totals, accounts, tax));
  }

  /** One more line of the summary, while no rate has failed. */
  lemma SummaryStep(ks: seq<LineKind>, i: nat)
    requires i < |ks| && FirstBadRate(ks[..i]).None?
    ensures FirstBadRate(ks[..i + 1]) == (if IsBadRate(ks[i]) then Some(ks[i].rateText) else None)
    ensures AccountsOf(ks[..i + 1]) == AccountsOf(ks[..i]) + (if ks[i].AccountLine? then [ks[i].entry] else [])
    ensures TaxOf(ks[..i + 1]) ==
      (if ks[i].GstLine? && ks[i].rate.Some? then TaxInfo(ks[i].amount, ks[i].rate.value) else TaxOf(ks[..i]))
    ensures TotalsOf(ks[..i + 1]) ==
      (if ks[i].TotalLine? then TotalsOf(ks[..i])[NormalizeAlnum(ks[i].caption) := ks[i].amount] else TotalsOf(ks[..i]))
  {
    assert ks[..i + 1][..i] == ks[..i];
  }

  /** A bad rate in a prefix is the first bad rate of the whole sequence. */
  lemma {:induction false} FirstBadRateOfPrefix(ks: seq<LineKind>, n: nat)
    requires n <= |ks| && FirstBadRate(ks[..n]).Some?
    ensures FirstBadRate(ks) == FirstBadRate(ks[..n])
    decreases |ks| - n
  {
    if n < |ks| {
      assert ks[..n + 1][..n] == ks[..n];
      FirstBadRateOfPrefix(ks, n + 1);
    } else {
      assert ks[..n] == ks;
    }
  }

  /** No rate error exactly when every GST/HST rate parses. */
  lemma {:induction false} FirstBadRateNone(ks: seq<LineKind>)
    ensures FirstBadRate(ks).None? <==> forall k :: 0 <= k < |ks| ==> !IsBadRate(ks[k])
  {
    if ks != [] {
      var xs := ks[..|ks| - 1];
      FirstBadRateNone(xs);
      assert forall k :: 0 <= k < |xs| ==> xs[k] == ks[k];
    }
  }

  /** The error names the earliest bad rate. */
  lemma {:induction false} FirstBadRateFirst(ks: seq<LineKind>, i: nat)
    requires i < |ks| && IsBadRate(ks[i])
    requires forall k :: 0 <= k < i ==> !IsBadRate(ks[k])
    ensures FirstBadRate(ks) == Some(ks[i].rateText)
  {
    FirstBadRateNone(ks[..i]);
    assert forall k :: 0 <= k < i ==> ks[..i][k] == ks[k];
    assert ks[..i + 1][..i] == ks[..i];
    FirstBadRateOfPrefix(ks, i + 1);
  }

  /** The tax is that of the last GST/HST line. */
  lemma {:induction false} TaxOfLastGst(ks: seq<LineKind>, i: nat)
    requires i < |ks| && ks[i].GstLine? && ks[i].rate.Some?
    requires forall k :: i < k < |ks| ==> !ks[k].GstLine?
    ensures TaxOf(ks) == TaxInfo(ks[i].amount, ks[i].rate.value)
    decreases |ks|
  {
    var xs := ks[..|ks| - 1];
    if i < |ks| - 1 {
      assert forall k :: i < k < |xs| ==> xs[k] == ks[k];
      TaxOfLastGst(xs, i);
    }
  }

  /** Without a GST/HST line the tax stays at zero. */
  lemma {:induction false} TaxOfNoGst(ks: seq<LineKind>)
    requires forall k :: 0 <= k < |ks| ==> !ks[k].GstLine?
    ensures TaxOf(ks) == NoTax
  {
    if ks != [] {
      var xs := ks[..|ks| - 1];
      assert forall k :: 0 <= k < |xs| ==> xs[k] == ks[k];
      TaxOfNoGst(xs);
    }
  }

  /** A total is keyed by its normalised label, and the last line with that key wins. */
  lemma {:induction false} TotalsOfLast(ks: seq<LineKind>, i: nat)
    requires i < |ks| && ks[i].TotalLine?
    requires forall k :: i < k < |ks| && ks[k].TotalLine? ==>
      NormalizeAlnum(ks[k].caption) != NormalizeAlnum(ks[i].caption)
    ensures NormalizeAlnum(ks[i].caption) in TotalsOf(ks)
    ensures TotalsOf(ks)[NormalizeAlnum(ks[i].caption)] == ks[i].amount
  {
    var xs := ks[..|ks| - 1];
    if i < |ks| - 1 {
      assert forall k :: i < k < |xs| ==> xs[k] == ks[k];
      TotalsOfLast(xs, i);
    }
  }

  /** Only total lines make keys. */
  lemma {:induction false} TotalsOfKeys(ks: seq<LineKind>, key: string)
    requires forall k :: 0 <= k < |ks| && ks[k].TotalLine? ==> NormalizeAlnum(ks[k].caption) != key
    ensures key !in TotalsOf(ks)
  {
    if ks != [] {
      var xs := ks[..|ks| - 1];
      assert forall k :: 0 <= k < |xs| ==> xs[k] == ks[k];
      TotalsOfKeys(xs, key);
    }
  }

  /**
    * The account entries are exactly the entries of the account lines, in
    * order: entry j comes from the j-th account line.
    */
  lemma {:induction false} AccountsOfLines(ks: seq<LineKind>)
    ensures |AccountsOf(ks)| == CountAccountLines(ks)
    ensures forall k :: 0 <= k < |ks| && ks[k].AccountLine? ==>
      CountAccountLines(ks[..k]) < |AccountsOf(ks)| && AccountsOf(ks)[CountAccountLines(ks[..k])] == ks[k].entry
  {
    if ks != [] {
      var xs := ks[..|ks| - 1];
      AccountsOfLines(xs);
      forall k | 0 <= k < |ks| && ks[k].AccountLine?
        ensures CountAccountLines(ks[..k]) < |AccountsOf(ks)| && AccountsOf(ks)[CountAccountLines(ks[..k])] == ks[k].entry
      {
        if k < |xs| {
          assert xs[..k] == ks[..k];
        } else {
          assert ks[..k] == xs;
        }
      }
    }
  }

  function CountAccountLines(ks: seq<LineKind>): nat {
    if ks == [] then 0 else CountAccountLines(ks[..|ks| - 1]) + (if ks[|ks| - 1].AccountLine? then 1 else 0)
  }

  // ---------------------------------------------------- map_accounts_to_internal

  /** _map_gst_account: tax payable for a non-negative amount, tax credit otherwise. */
  function MapGstAccount(amount: int): (gl: string)
    ensures gl == "201105" <==> amount >= 0
    ensures gl == "201100" <==> amount < 0
  {
    if amount >= 0 then "201105" else "201100"
  }

  datatype MappedEntry = MappedEntry(
    fcaCode: string,
    fcaDescription: string,
    fcaAmount: int,
    internalGlAccount: Option<string>,
    internalLabel: Option<string>)

  /** One account line, looked up by its raw code. */
  function MapAccount(a: AccountEntry): MappedEntry {
    if a.codeRaw in FcaToInternalGl then
      var t := FcaToInternalGl[a.codeRaw];
      MappedEntry(a.codeRaw, a.descriptionRaw, a.amount, Some(t.glAccount), Some(t.glLabel))
    else MappedEntry(a.codeRaw, a.descriptionRaw, a.amount, None, None)
  }

  /** The synthetic GST/HST line added for a non-zero tax amount. */
  function TaxEntry(amount: int): MappedEntry {
    MappedEntry("GST/HST", "GST/HST tax", amount, Some(MapGstAccount(amount)),
      Some(if amount >= 0 then "tax payable" else "tax credit"))
  }

  function MapAccounts(accounts: seq<AccountEntry>): seq<MappedEntry> {
    if accounts == [] then []
    else MapAccounts(accounts[..|accounts| - 1]) + [MapAccount(accounts[|accounts| - 1])]
  }

  /** What map_accounts_to_internal returns for a parsed summary. */
  function MappedAccounts(s: SummaryData): seq<MappedEntry> {
    MapAccounts(s.accounts) + (if s.tax.amount != 0 then [TaxEntry(s.tax.amount)] else [])
  }

  /** map_accounts_to_internal: one pass over the accounts, then the tax line. */
  method MapAccountsToInternal(s: SummaryData) returns (mapped: seq<MappedEntry>)
    ensures mapped == MappedAccounts(s)
  {
    mapped := [];
    for i := 0 to |s.accounts|
      invariant mapped == MapAccounts(s.accounts[..i])
    {
      assert s.accounts[..i + 1][..i] == s.accounts[..i];
      mapped := mapped + [MapAccount(s.accounts[i])];
    }
    assert s.accounts[..|s.accounts|] == s.accounts;
    if s.tax.amount != 0 {
      mapped := mapped + [TaxEntry(s.tax.amount)];
    }
  }

  /**
    * Every account line gives one entry, in order, with its code, description
    * and amount; it is mapped exactly when its raw code is in the table; a
    * non-zero tax adds one payable GST/HST entry at the end.
    */
  lemma {:induction false} MapAccountsShape(accounts: seq<AccountEntry>)
    ensures |MapAccounts(accounts)| == |accounts|
    ensures forall k :: 0 <= k < |accounts| ==>
      var m := MapAccounts(accounts)[k];
      && m.fcaCode == accounts[k].codeRaw
      && m.fcaDescription == accounts[k].descriptionRaw
      && m.fcaAmount == accounts[k].amount
      && (m.internalGlAccount.Some? <==> accounts[k].codeRaw in FcaToInternalGl)
      && (m.internalGlAccount.Some? ==> m.internalGlAccount.value == FcaToInternalGl[accounts[k].codeRaw].glAccount)
      && m.internalLabel.Some? == m.internalGlAccount.Some?
      && (m.internalLabel.Some? ==> m.internalLabel.value == FcaToInternalGl[accounts[k].codeRaw].glLabel)
  {
    if accounts != [] {
      MapAccountsShape(accounts[..|accounts| - 1]);
    }
  }

  lemma MappedAccountsTax(s: SummaryData)
    ensures |MappedAccounts(s)| == |s.accounts| + (if s.tax.amount != 0 then 1 else 0)
    ensures s.tax.amount != 0 ==>
      MappedAccounts(s)[|s.accounts|] == MappedEntry("GST/HST", "GST/HST tax", s.tax.amount, Some("201105"), Some("tax payable"))
  {
    MapAccountsShape(s.accounts);
  }

  function SumMapped(m: seq<MappedEntry>): int {
    if m == [] then 0 else SumMapped(m[..|m| - 1]) + m[|m| - 1].fcaAmount
  }

  function SumAccounts(a: seq<AccountEntry>): nat {
    if a == [] then 0 else SumAccounts(a[..|a| - 1]) + a[|a| - 1].amount
  }

  /** Mapping loses no money: the entries add up to the account lines plus the tax. */
  lemma {:induction false} MappedAccountsBalance(s: SummaryData)
    ensures SumMapped(MappedAccounts(s)) == SumAccounts(s.accounts) + s.tax.amount
  {
    MapAccountsSum(s.accounts);
    var m := MapAccounts(s.accounts);
    if s.tax.amount != 0 {
      var all := m + [TaxEntry(s.tax.amount)];
      assert all[..|all| - 1] == m;
    } else {
      assert m + [] == m;
    }
  }

  lemma {:induction false} MapAccountsSum(a: seq<AccountEntry>)
    ensures SumMapped(MapAccounts(a)) == SumAccounts(a)
  {
    if a != [] {
      MapAccountsSum(a[..|a| - 1]);
      var m := MapAccounts(a);
      assert m[..|m| - 1] == MapAccounts(a[..|a| - 1]);
    }
  }
}
