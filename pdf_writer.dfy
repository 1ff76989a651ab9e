/**
  * The one-page PDF 1.4 writer of invoices/fca_parser.py (`_escape_pdf_text`
  * and `_simple_pdf`): a text page whose objects are laid out by hand, with a
  * cross-reference table of byte offsets computed while the file is built.
  *
  * The lemmas at the end read the finished file the way a PDF reader does
  * (ISO 32000-1, section 7.5.5 trailer, section 7.5.4 cross-reference table,
  * section 7.3.8 stream `/Length`) and show that every number the writer
  * printed points at what it should.
  */
module MinimalPdf {
  import opened Text
  import opened Seqs

  newtype byte = x: int | 0 <= x < 256

  // ------------------------------------------------------------------ UTF-8

  /** The UTF-8 encoding of one Unicode scalar value. */
  function Utf8Char(c: char): (bs: seq<byte>)
    ensures 1 <= |bs| <= 4
    ensures |bs| == 1 <==> c as int < 0x80
  {
    var n := c as int;
    if n < 0x80 then [n as byte]
    else if n < 0x800 then [(0xC0 + n / 0x40) as byte, (0x80 + n % 0x40) as byte]
    else if n < 0x1_0000 then
      [(0xE0 + n / 0x1000) as byte, (0x80 + n / 0x40 % 0x40) as byte, (0x80 + n % 0x40) as byte]
    else
      [(0xF0 + n / 0x4_0000) as byte, (0x80 + n / 0x1000 % 0x40) as byte,
       (0x80 + n / 0x40 % 0x40) as byte, (0x80 + n % 0x40) as byte]
  }

  /** `s.encode("utf-8")`. */
  function Utf8(s: string): seq<byte> {
    if s == [] then [] else Utf8(s[..|s| - 1]) + Utf8Char(s[|s| - 1])
  }

  predicate IsAscii(s: string) {
    forall k :: 0 <= k < |s| ==> s[k] as int < 0x80
  }

  /** Encoding works character by character. */
  lemma {:induction false} Utf8Concat(a: string, b: string)
    ensures Utf8(a + b) == Utf8(a) + Utf8(b)
    decreases |b|
  {
    if b == [] {
      assert a + b == a;
    } else {
      Utf8Concat(a, b[..|b| - 1]);
      Utf8Last(a, b);
      Utf8Last([], b);
      assert [] + b == b && [] + b[..|b| - 1] == b[..|b| - 1];
      AppendAssoc(Utf8(a), Utf8(b[..|b| - 1]), Utf8Char(b[|b| - 1]));
    }
  }

  lemma Utf8Last(a: string, b: string)
    requires b != []
    ensures Utf8(a + b) == Utf8(a + b[..|b| - 1]) + Utf8Char(b[|b| - 1])
  {
    assert (a + b)[..|a + b| - 1] == a + b[..|b| - 1];
  }

  /** An ASCII text encodes to one byte per character. */
  lemma {:induction false} AsciiLength(s: string)
    requires IsAscii(s)
    ensures |Utf8(s)| == |s|
  {
    if s != [] {
      AsciiLength(s[..|s| - 1]);
    }
  }

  lemma DigitsAscii(s: string)
    requires AllDigits(s)
    ensures IsAscii(s)
  {
  }

  lemma AsciiConcat(a: string, b: string)
    requires IsAscii(a) && IsAscii(b)
    ensures IsAscii(a + b)
  {
  }

  // --------------------------------------------------------- string escaping

  /** `text.replace("\\", "\\\\").replace("(", "\\(").replace(")", "\\)")`. */
  function EscapePdfText(text: string): string {
    ReplaceChar(ReplaceChar(ReplaceChar(text, '\\', "\\\\"), '(', "\\("), ')', "\\)")
  }

  predicate IsSpecial(c: char) {
    c == '\\' || c == '(' || c == ')'
  }

  /** What one character becomes: the three special characters get a backslash in front. */
  function EscapeChar(c: char): string {
    if IsSpecial(c) then ['\\', c] else [c]
  }

  /**
    * The three replacements together act character by character: the
    * backslash is escaped first, so the backslashes the later replacements
    * insert are not doubled.
    */
  lemma {:induction false} EscapePdfTextCons(c: char, rest: string)
    ensures EscapePdfText([c] + rest) == EscapeChar(c) + EscapePdfText(rest)
  {
    var r1 := ReplaceChar(rest, '\\', "\\\\");
    var r2 := ReplaceChar(r1, '(', "\\(");
    ReplaceCharConcat([c], rest, '\\', "\\\\");
    var h1 := ReplaceChar([c], '\\', "\\\\");
    ReplaceCharConcat(h1, r1, '(', "\\(");
    var h2 := ReplaceChar(h1, '(', "\\(");
    ReplaceCharConcat(h2, r2, ')', "\\)");
    if c == '\\' {
      assert h1 == "\\\\";
      assert ReplaceChar("\\", '(', "\\(") == "\\";
      assert h2 == "\\\\" by {
        ReplaceCharConcat("\\", "\\", '(', "\\(");
      }
      assert ReplaceChar("\\", ')', "\\)") == "\\";
      ReplaceCharConcat("\\", "\\", ')', "\\)");
    } else if c == '(' {
      assert h1 == "(";
      assert h2 == "\\(";
      assert ReplaceChar("\\", ')', "\\)") == "\\";
      assert ReplaceChar("(", ')', "\\)") == "(";
      ReplaceCharConcat("\\", "(", ')', "\\)");
    } else if c == ')' {
      assert h1 == ")";
      assert h2 == ")";
    } else {
      assert h1 == [c];
      assert h2 == [c];
    }
  }

  /** Escaping is character-wise: each output piece is the escape of one input character. */
  lemma {:induction false} EscapePdfTextConcat(a: string, b: string)
    ensures EscapePdfText(a + b) == EscapePdfText(a) + EscapePdfText(b)
  {
    ReplaceCharConcat(a, b, '\\', "\\\\");
    ReplaceCharConcat(ReplaceChar(a, '\\', "\\\\"), ReplaceChar(b, '\\', "\\\\"), '(', "\\(");
    ReplaceCharConcat(
      ReplaceChar(ReplaceChar(a, '\\', "\\\\"), '(', "\\("),
      ReplaceChar(ReplaceChar(b, '\\', "\\\\"), '(', "\\("), ')', "\\)");
  }

  /** A PDF reader's reading of a literal string body: a backslash takes the next character as it is. */
  function UnescapePdfText(s: string): string
    decreases |s|
  {
    if s == [] then []
    else if s[0] == '\\' && |s| >= 2 then [s[1]] + UnescapePdfText(s[2..])
    else [s[0]] + UnescapePdfText(s[1..])
  }

  /** Reading the escaped text back gives the original (ISO 32000-1, section 7.3.4.2). */
  lemma {:induction false} EscapeRoundTrip(text: string)
    ensures UnescapePdfText(EscapePdfText(text)) == text
  {
    if text != [] {
      var c, rest := text[0], text[1..];
      assert text == [c] + rest;
      EscapePdfTextCons(c, rest);
      EscapeRoundTrip(rest);
      var e := EscapeChar(c) + EscapePdfText(rest);
      if IsSpecial(c) {
        assert e[2..] == EscapePdfText(rest);
      } else {
        assert e[1..] == EscapePdfText(rest);
      }
    }
  }

  /**
    * Every special character of the input comes out with a backslash in front
    * and nothing else is added: the escaped text is one piece per input
    * character.
    */
  lemma {:induction false} EscapeCharwise(text: string)
    ensures EscapePdfText(text) == Pieces(text)
  {
    if text != [] {
      assert text == [text[0]] + text[1..];
      EscapePdfTextCons(text[0], text[1..]);
      EscapeCharwise(text[1..]);
    } else {
      assert EscapePdfText([]) == [];
    }
  }

  function Pieces(text: string): string {
    if text == [] then [] else EscapeChar(text[0]) + Pieces(text[1..])
  }

  // ------------------------------------------------------------- the content

  /** One `BT ... ET` text object: font size, baseline y and the escaped text. */
  function TextLine(fontSize: string, y: int, text: string): string {
    "BT /F1 " + fontSize + " Tf 50 " + IntToString(y) + " Td (" + EscapePdfText(text) + ") Tj ET"
  }

  /** The title in 16 pt at y = 780, then line k in 12 pt at y = 754 - 16k. */
  function ContentLines(title: string, lines: seq<string>): seq<string> {
    [TextLine("16", 780, title)] + seq(|lines|, k requires 0 <= k < |lines| => TextLine("12", 754 - 16 * k, lines[k]))
  }

  /** The page's content stream as text (it is the UTF-8 of this that is written). */
  function ContentText(title: string, lines: seq<string>): string {
    Join(ContentLines(title, lines), "\n")
  }

  // ------------------------------------------------------------- the layout

  /** `b"%PDF-1.4\n%\xe2\xe3\xcf\xd3\n"`: the version line and a binary comment. */
  const Header: seq<byte> := [0x25, 0x50, 0x44, 0x46, 0x2D, 0x31, 0x2E, 0x34, 0x0A, 0x25, 0xE2, 0xE3, 0xCF, 0xD3, 0x0A]

  /** What follows "k 0 obj" in object k; object 4 is the content stream, the stream text decoded back from its bytes. */
  function ObjectBody(k: nat, text: string): string
    requires 1 <= k <= 5
  {
    if k == 4 then StreamBody(text) else FixedBody(k)
  }

  /** Object 4: the content stream with its byte length. */
  function StreamBody(text: string): string {
    StreamPrefix(|Utf8(text)|) + text + StreamEnd
  }

  /** The catalog, the page tree, the page and the font. */
  function FixedBody(k: nat): string
    requires 1 <= k <= 5 && k != 4
  {
    match k
    case 1 => " << /Type /Catalog /Pages 2 0 R >> endobj"
    case 2 => " << /Type /Pages /Kids [3 0 R] /Count 1 >> endobj"
    case 3 => " << /Type /Page /Parent 2 0 R /MediaBox [0 0 612 792] /Contents 4 0 R /Resources << /Font << /F1 5 0 R >> >> >> endobj"
    case 5 => " << /Type /Font /Subtype /Type1 /BaseFont /Helvetica >> endobj"
  }

  const StreamEnd := "\nendstream endobj"

  function StreamPrefix(length: nat): string {
    " << /Length " + NatToString(length) + " >> stream\n"
  }

  function ObjectNumber(k: nat): string {
    NatToString(k) + " 0 obj"
  }

  function ObjectText(k: nat, text: string): string
    requires 1 <= k <= 5
  {
    ObjectNumber(k) + ObjectBody(k, text)
  }

  /** What `_add` appends: the object's UTF-8 and a newline. */
  function ObjectBytes(k: nat, text: string): (bs: seq<byte>)
    requires 1 <= k <= 5
    ensures |bs| > 0
  {
    Utf8(ObjectText(k, text)) + [0x0A]
  }

  function XrefEntry(offset: nat): string {
    ZeroPad(offset, 10) + " 00000 n "
  }

  const FreeEntry := "0000000000 65535 f "

  function XrefHead(size: nat): seq<string> {
    ["xref", "0 " + NatToString(size), FreeEntry]
  }

  function XrefLines(size: nat, offsets: seq<nat>): seq<string> {
    XrefHead(size) + seq(|offsets|, j requires 0 <= j < |offsets| => XrefEntry(offsets[j]))
  }

  function Trailer(size: nat, start: nat): string {
    "trailer << /Size " + NatToString(size) + " /Root 1 0 R >>\nstartxref\n" + NatToString(start) + "\n%%EOF"
  }

  /** The header and objects 1..n, in the order `_add` is called. */
  function Written(text: string, n: nat): (parts: seq<seq<byte>>)
    requires n <= 5
    ensures |parts| == n + 1
  {
    if n == 0 then [Header] else Written(text, n - 1) + [ObjectBytes(n, text)]
  }

  function Objects(text: string): seq<seq<byte>> {
    Written(text, 5)
  }

  /**
    * The offsets `_add` records: for each part after the header, the length
    * of everything before it.
    */
  function OffsetsOf(parts: seq<seq<byte>>): (offs: seq<nat>)
    ensures |offs| == if parts == [] then 0 else |parts| - 1
  {
    if |parts| <= 1 then [] else OffsetsOf(parts[..|parts| - 1]) + [TotalLength(parts[..|parts| - 1])]
  }

  /** The cross-reference table as written: its lines joined by newlines, and a final newline. */
  function XrefPart(parts: seq<seq<byte>>): seq<byte> {
    Utf8(Join(XrefLines(|parts|, OffsetsOf(parts)), "\n")) + [0x0A]
  }

  /** The written parts, then the table, then the trailer naming where the table starts. */
  function Layout(parts: seq<seq<byte>>): seq<byte> {
    Flatten(parts + [XrefPart(parts), Utf8(Trailer(|parts|, TotalLength(parts)))])
  }

  /** The whole file `_simple_pdf(lines, title)` returns. */
  function PdfFile(lines: seq<string>, title: string): seq<byte> {
    Layout(Objects(ContentText(title, lines)))
  }

  // ----------------------------------------------------------- the builder

  /**
    * The `_add` closure applied to object k: it records where the object
    * starts (the length of everything written so far) and appends the
    * object's bytes. Called in order, it leaves the header and objects 1..k
    * written and their offsets recorded.
    */
  method Add(text: string, k: nat, parts: seq<seq<byte>>, offsets: seq<nat>) returns (parts': seq<seq<byte>>, offsets': seq<nat>)
    requires 1 <= k <= 5
    requires parts == Written(text, k - 1) && offsets == OffsetsOf(parts)
    ensures parts' == Written(text, k) && offsets' == OffsetsOf(parts')
  {
    var obj := ObjectText(k, text);
    offsets' := offsets + [TotalLength(parts)];
    parts' := parts + [Utf8(obj) + [0x0A]];
    assert parts'[..|parts'| - 1] == parts;
  }

  /** The first half of `_simple_pdf`: the content lines with a falling baseline, joined by newlines. */
  method ContentStream(lines: seq<string>, title: string) returns (text: string)
    ensures text == ContentText(title, lines)
  {
    var y := 780;
    var contentLines := [TextLine("16", y, title)];
    y := y - 26;
    for i := 0 to |lines|
      invariant y == 754 - 16 * i
      invariant contentLines == ContentLines(title, lines[..i])
    {
      contentLines := contentLines + [TextLine("12", y, lines[i])];
      y := y - 16;
      assert ContentLines(title, lines[..i + 1]) == ContentLines(title, lines[..i]) + [TextLine("12", 754 - 16 * i, lines[i])];
    }
    assert lines[..|lines|] == lines;
    text := Join(contentLines, "\n");
  }

  /** The header and the five `_add` calls of `_simple_pdf`, in order. */
  method WriteObjects(text: string) returns (parts: seq<seq<byte>>, offsets: seq<nat>)
    ensures parts == Objects(text) && offsets == OffsetsOf(parts)
  {
    parts := [];
    offsets := [];
    parts := parts + [Header];
    parts, offsets := Add(text, 1, parts, offsets);
    parts, offsets := Add(text, 2, parts, offsets);
    parts, offsets := Add(text, 3, parts, offsets);
    parts, offsets := Add(text, 4, parts, offsets);
    parts, offsets := Add(text, 5, parts, offsets);
  }

  /** _simple_pdf: the content stream, five objects with their offsets, the table, the trailer. */
  method SimplePdf(lines: seq<string>, title: string) returns (pdf: seq<byte>)
    ensures pdf == PdfFile(lines, title)
  {
    var text := ContentStream(lines, title);

    var parts, offsets := WriteObjects(text);
    var xrefOffset := TotalLength(parts);
    var xrefLines := XrefHead(|offsets| + 1);
    for i := 0 to |offsets|
      invariant xrefLines == XrefLines(|offsets| + 1, offsets[..i])
    {
      XrefLinesSnoc(|offsets| + 1, offsets, i);
      xrefLines := xrefLines + [XrefEntry(offsets[i])];
    }
    assert offsets[..|offsets|] == offsets;
    var trailer := Trailer(|offsets| + 1, xrefOffset);

    ghost var objects := parts;
    parts := parts + [Utf8(Join(xrefLines, "\n")) + [0x0A]];
    parts := parts + [Utf8(trailer)];
    assert parts == objects + [XrefPart(objects), Utf8(Trailer(|objects|, TotalLength(objects)))];
    pdf := Flatten(parts);
  }


  // ---------------------------------------------------------- reading back

  /** The file is the parts, then the table, then the trailer. */
  lemma LayoutSplit(parts: seq<seq<byte>>)
    ensures Layout(parts) == Flatten(parts) + XrefPart(parts) + Utf8(Trailer(|parts|, TotalLength(parts)))
  {
    FlattenTwoMore(parts, XrefPart(parts), Utf8(Trailer(|parts|, TotalLength(parts))));
  }

  lemma {:induction false} OffsetsOfAt(parts: seq<seq<byte>>, k: nat)
    requires 1 <= k < |parts|
    ensures OffsetsOf(parts)[k - 1] == TotalLength(parts[..k])
    decreases |parts|
  {
    var init := parts[..|parts| - 1];
    if k < |parts| - 1 {
      OffsetsOfAt(init, k);
      assert init[..k] == parts[..k];
    }
  }

  /**
    * The offsets recorded for the table are where the parts are: at the
    * offset recorded for part k the file holds exactly that part.
    */
  lemma PartAtOffset(parts: seq<seq<byte>>, k: nat)
    requires 1 <= k < |parts|
    ensures var file, at := Layout(parts), OffsetsOf(parts)[k - 1];
      at + |parts[k]| <= |file| && file[at..at + |parts[k]|] == parts[k]
  {
    LayoutSplit(parts);
    OffsetsOfAt(parts, k);
    FlattenPart(parts, k);
  }

  /**
    * When no part is empty, part 1 follows part 0, each later part starts
    * after the previous one, and the table after the last part.
    */
  lemma OffsetsAscending(parts: seq<seq<byte>>)
    requires |parts| >= 2 && forall j :: 0 <= j < |parts| ==> |parts[j]| > 0
    ensures OffsetsOf(parts)[0] == |parts[0]|
    ensures forall i, j :: 0 <= i < j < |parts| - 1 ==> OffsetsOf(parts)[i] < OffsetsOf(parts)[j]
    ensures OffsetsOf(parts)[|parts| - 2] < TotalLength(parts)
  {
    var offs := OffsetsOf(parts);
    OffsetsOfAt(parts, 1);
    TotalLengthSnoc(parts, 1);
    assert TotalLength(parts[..0]) == 0;
    forall i, j | 0 <= i < j < |parts| - 1
      ensures offs[i] < offs[j]
    {
      OffsetsOfAt(parts, i + 1);
      OffsetsOfAt(parts, j + 1);
      TotalLengthGrows(parts, i + 1, j + 1);
    }
    OffsetsOfAt(parts, |parts| - 1);
    TotalLengthGrows(parts, |parts| - 1, |parts|);
    assert parts[..|parts|] == parts;
  }

  lemma {:induction false} TotalLengthGrows(parts: seq<seq<byte>>, i: nat, j: nat)
    requires i < j <= |parts| && forall k :: 0 <= k < |parts| ==> |parts[k]| > 0
    ensures TotalLength(parts[..i]) < TotalLength(parts[..j])
    decreases j - i
  {
    TotalLengthSnoc(parts, j);
    if i < j - 1 {
      TotalLengthGrows(parts, i, j - 1);
    }
  }

  /** The table's rows: the free entry of object 0, then one in-use entry per object. */
  function XrefRows(offsets: seq<nat>): (rows: seq<string>)
    ensures |rows| == |offsets| + 1 && rows[0] == FreeEntry
    ensures forall j :: 0 <= j < |offsets| ==> rows[j + 1] == XrefEntry(offsets[j])
  {
    [FreeEntry] + seq(|offsets|, j requires 0 <= j < |offsets| => XrefEntry(offsets[j]))
  }

  /** The table as text: `xref`, the subsection `0 n`, and one newline-terminated row per entry. */
  lemma XrefText(parts: seq<seq<byte>>)
    ensures XrefPart(parts) == Utf8("xref" + "\n" + ("0 " + NatToString(|parts|) + "\n" + Terminated(XrefRows(OffsetsOf(parts)), "\n")))
  {
    XrefLinesText(|parts|, OffsetsOf(parts));
  }

  /**
    * The count in the subsection header `0 n` and the trailer's `/Size` are
    * both the number of rows the table holds, the free entry included.
    */
  lemma SizeCountsRows(parts: seq<seq<byte>>)
    requires parts != []
    ensures var rows := XrefRows(OffsetsOf(parts));
      && XrefPart(parts) == Utf8("xref" + "\n" + ("0 " + NatToString(|rows|) + "\n" + Terminated(rows, "\n")))
      && Layout(parts) == Flatten(parts + [XrefPart(parts), Utf8(Trailer(|rows|, TotalLength(parts)))])
  {
    XrefText(parts);
  }

  lemma XrefLinesText(size: nat, offs: seq<nat>)
    ensures Utf8(Join(XrefLines(size, offs), "\n")) + [0x0A] == Utf8("xref" + "\n" + ("0 " + NatToString(size) + "\n" + Terminated(XrefRows(offs), "\n")))
  {
    var rows := XrefRows(offs);
    var sub := "0 " + NatToString(size);
    assert XrefLines(size, offs) == ["xref", sub] + rows;
    JoinTwoThenRows("xref", sub, rows, "\n");
    Utf8Newline(Join(["xref", sub] + rows, "\n"));
  }

  lemma JoinTwoThenRows(a: string, b: string, rows: seq<string>, sep: string)
    ensures Join([a, b] + rows, sep) + sep == a + sep + (b + sep + Terminated(rows, sep))
  {
    JoinThenSep([a, b] + rows, sep);
    assert [a, b] + rows == [a] + ([b] + rows);
    TerminatedCons(a, [b] + rows, sep);
    TerminatedCons(b, rows, sep);
  }

  lemma Utf8Newline(s: string)
    ensures Utf8(s) + [0x0A] == Utf8(s + "\n")
  {
    Utf8Concat(s, "\n");
    assert Utf8("\n") == [0x0A];
  }

  /** The trailer ends `startxref`, the table's offset in decimal, `%%EOF`. */
  lemma TrailerReadsStart(size: nat, start: nat)
    ensures var t, d := Trailer(size, start), NatToString(start);
      |d| + 16 <= |t| && t[|t| - 6..] == "\n%%EOF" &&
      t[|t| - 16 - |d|..|t| - 6 - |d|] == "startxref\n" &&
      AllDigits(t[|t| - 6 - |d|..|t| - 6]) && DigitsValue(t[|t| - 6 - |d|..|t| - 6]) == start
  {
    var d := NatToString(start);
    NatToStringValue(start);
    var lead, mid := "trailer << /Size " + NatToString(size), " /Root 1 0 R >>\nstartxref\n";
    var head := lead + mid;
    var t := head + d + "\n%%EOF";
    assert Trailer(size, start) == t;
    Parts3(head, d, "\n%%EOF");
    EndOf(lead, mid, 10);
    assert t[|head| - 10..|head|] == t[..|head|][|head| - 10..];
  }

  /** The file ends with the trailer, and at the offset the trailer names, the file reads `xref` and a newline. */
  lemma StartXrefPointsAtTable(parts: seq<seq<byte>>)
    ensures var file, x, t := Layout(parts), TotalLength(parts), Utf8(Trailer(|parts|, TotalLength(parts)));
      x + 5 <= |file| && file[x..x + 5] == [0x78, 0x72, 0x65, 0x66, 0x0A] &&
      |t| <= |file| && file[|file| - |t|..] == t
  {
    LayoutSplit(parts);
    XrefText(parts);
    var rest := "0 " + NatToString(|parts|) + "\n" + Terminated(XrefRows(OffsetsOf(parts)), "\n");
    Utf8Concat("xref" + "\n", rest);
    XrefKeywordBytes();
    ReadAfter(Flatten(parts), Utf8("xref" + "\n"), Utf8(rest), Utf8(Trailer(|parts|, TotalLength(parts))));
  }

  /** In `f + (k + r) + t`, the bytes right after `f` are `k`, and the file ends with `t`. */
  lemma ReadAfter<T>(f: seq<T>, k: seq<T>, r: seq<T>, t: seq<T>)
    ensures var file := f + (k + r) + t;
      |f| + |k| <= |file| && file[|f|..|f| + |k|] == k && file[|file| - |t|..] == t
  {
  }

  lemma XrefKeywordBytes()
    ensures Utf8("xref" + "\n") == [0x78, 0x72, 0x65, 0x66, 0x0A]
  {
    var s := "xref" + "\n";
    assert IsAscii(s);
    Utf8OfAscii(s);
  }

  /** An ASCII text encodes to its character codes. */
  lemma {:induction false} Utf8OfAscii(s: string)
    requires IsAscii(s)
    ensures Utf8(s) == seq(|s|, i requires 0 <= i < |s| => s[i] as int as byte)
  {
    if s != [] {
      var init := s[..|s| - 1];
      Utf8OfAscii(init);
    }
  }

  /** Rows of 19 characters, each followed by a newline, put row j at 20 * j. */
  lemma {:induction false} TerminatedRow(rows: seq<string>, j: nat)
    requires j < |rows|
    requires forall r :: r in rows ==> |r| == 19
    ensures |Terminated(rows, "\n")| == 20 * |rows|
    ensures Terminated(rows, "\n")[20 * j..20 * j + 20] == rows[j] + "\n"
    decreases |rows|
  {
    var init, last := rows[..|rows| - 1], rows[|rows| - 1];
    var t := Terminated(init, "\n");
    assert Terminated(rows, "\n") == t + (last + "\n") by {
      AppendAssoc(t, last, "\n");
    }
    if |init| > 0 {
      assert forall r :: r in init ==> r in rows;
      TerminatedRow(init, if j < |init| then j else 0);
    } else {
      assert t == [];
    }
    if j < |init| {
      SliceLeft(t, last + "\n", 20 * j, 20 * j + 20);
    } else {
      Parts3(t, last + "\n", []);
      assert t + (last + "\n") + [] == t + (last + "\n");
    }
  }

  lemma {:induction false} TerminatedAscii(rows: seq<string>, sep: string)
    requires IsAscii(sep) && forall r :: r in rows ==> IsAscii(r)
    ensures IsAscii(Terminated(rows, sep))
    decreases |rows|
  {
    if rows != [] {
      var init := rows[..|rows| - 1];
      assert forall r :: r in init ==> r in rows;
      TerminatedAscii(init, sep);
      AsciiConcat(Terminated(init, sep), rows[|rows| - 1]);
      AsciiConcat(Terminated(init, sep) + rows[|rows| - 1], sep);
    }
  }

  /** Cutting an ASCII text and encoding commute. */
  lemma AsciiSlice(s: string, i: nat, j: nat)
    requires IsAscii(s) && i <= j <= |s|
    ensures |Utf8(s)| == |s| && Utf8(s)[i..j] == Utf8(s[i..j])
  {
    Utf8OfAscii(s);
    Utf8OfAscii(s[i..j]);
  }

  /** An offset below 10^10 fills a 19-character entry whose first ten characters read back as the offset. */
  lemma XrefEntryReads(offset: nat)
    requires offset < Pow10(10)
    ensures |XrefEntry(offset)| == 19 && IsAscii(XrefEntry(offset))
    ensures AllDigits(XrefEntry(offset)[..10]) && DigitsValue(XrefEntry(offset)[..10]) == offset
  {
    NatToStringLength(offset, 10);
    ZeroPadValue(offset, 10);
    var z := ZeroPad(offset, 10);
    assert XrefEntry(offset)[..10] == z;
    DigitsAscii(z);
    AsciiConcat(z, " 00000 n ");
  }

  /** The rows the table of a six-part file holds: each 19 ASCII characters. */
  lemma XrefRowsShape(parts: seq<seq<byte>>)
    requires |parts| == 6 && TotalLength(parts) < Pow10(10)
    ensures var rows := XrefRows(OffsetsOf(parts));
      |rows| == 6 && forall r :: r in rows ==> |r| == 19 && IsAscii(r)
  {
    var offs := OffsetsOf(parts);
    forall j | 0 <= j < 5
      ensures |XrefEntry(offs[j])| == 19 && IsAscii(XrefEntry(offs[j]))
    {
      OffsetsOfAt(parts, j + 1);
      TotalLengthPrefix(parts, j + 1);
      XrefEntryReads(offs[j]);
    }
    assert |FreeEntry| == 19 && IsAscii(FreeEntry);
  }

  /**
    * A reader that finds `xref` at the offset the trailer names, skips the
    * lines `xref` and `0 6` (nine bytes), and reads 20-byte row k finds the
    * entry for object k, whose ten digits give the offset recorded for it;
    * row 0 is the free entry. This holds while the table starts below
    * 10^10, the most ten digits can say.
    */
  lemma XrefEntryAt(parts: seq<seq<byte>>, k: nat)
    requires |parts| == 6 && k <= 5 && TotalLength(parts) < Pow10(10)
    ensures var file, at := Layout(parts), TotalLength(parts) + 9 + 20 * k;
      at + 20 <= |file| && file[at..at + 20] == Utf8(XrefRows(OffsetsOf(parts))[k] + "\n")
  {
    XrefPartRow(parts, k);
    LayoutSplit(parts);
    ReadWithinFile(Flatten(parts), XrefPart(parts), Utf8(Trailer(6, TotalLength(parts))), 9 + 20 * k, 9 + 20 * k + 20);
  }

  lemma XrefPartRow(parts: seq<seq<byte>>, k: nat)
    requires |parts| == 6 && k <= 5 && TotalLength(parts) < Pow10(10)
    ensures 9 + 20 * k + 20 <= |XrefPart(parts)|
    ensures XrefPart(parts)[9 + 20 * k..9 + 20 * k + 20] == Utf8(XrefRows(OffsetsOf(parts))[k] + "\n")
  {
    var rows := XrefRows(OffsetsOf(parts));
    XrefRowsShape(parts);
    var s := "xref" + "\n" + ("0 " + NatToString(6) + "\n" + Terminated(rows, "\n"));
    XrefRowInText(rows, k);
    AsciiSlice(s, 9 + 20 * k, 9 + 20 * k + 20);
    XrefText(parts);
  }

  /** In the table's text, row k of 19 characters and its newline start at 9 + 20 * k. */
  lemma XrefRowInText(rows: seq<string>, k: nat)
    requires |rows| == 6 && k <= 5
    requires forall r :: r in rows ==> |r| == 19 && IsAscii(r)
    ensures var s := "xref" + "\n" + ("0 " + NatToString(6) + "\n" + Terminated(rows, "\n"));
      IsAscii(s) && 9 + 20 * k + 20 <= |s| && s[9 + 20 * k..9 + 20 * k + 20] == rows[k] + "\n"
  {
    TerminatedRow(rows, k);
    TerminatedAscii(rows, "\n");
    var head := "xref" + "\n";
    var sub := "0 " + NatToString(6) + "\n";
    assert NatToString(6) == "6";
    var body := Terminated(rows, "\n");
    assert IsAscii(head) && IsAscii(sub);
    AsciiConcat(sub, body);
    AsciiConcat(head, sub + body);
    ReadWithin(head, sub, body, 20 * k, 20 * k + 20);
  }

  /** A prefix of what is read at `at` is read at `at`. */
  lemma PrefixWithin<T>(file: seq<T>, at: nat, p: seq<T>, n: seq<T>)
    requires at + |p| <= |file| && file[at..at + |p|] == p
    requires |n| <= |p| && p[..|n|] == n
    ensures at + |n| <= |file| && file[at..at + |n|] == n
  {
    assert file[at..at + |n|] == file[at..at + |p|][..|n|];
  }

  lemma ReadWithin<T>(a: seq<T>, b: seq<T>, c: seq<T>, i: nat, j: nat)
    requires i <= j <= |c|
    ensures (a + (b + c))[|a| + |b| + i..|a| + |b| + j] == c[i..j]
  {
    assert a + (b + c) == (a + b) + c;
  }

  lemma ReadWithinFile<T>(f: seq<T>, m: seq<T>, t: seq<T>, i: nat, j: nat)
    requires i <= j <= |m|
    ensures |f| + j <= |f + m + t| && (f + m + t)[|f| + i..|f| + j] == m[i..j]
  {
  }

  /**
    * Object 4 declares `/Length L` where L is the byte length of the content
    * stream, and exactly those L bytes sit between `stream` and a newline
    * before, and `\nendstream` after.
    */
  lemma StreamLength(text: string)
    ensures DigitsValue(NatToString(|Utf8(text)|)) == |Utf8(text)|
    ensures ObjectBytes(4, text) ==
      Utf8(ObjectNumber(4) + StreamPrefix(|Utf8(text)|)) + Utf8(text) + Utf8(StreamEnd) + [0x0A]
  {
    var len := |Utf8(text)|;
    NatToStringValue(len);
    var num, pre, tail := ObjectNumber(4), StreamPrefix(len), StreamEnd;
    var head := num + pre;
    assert ObjectText(4, text) == head + text + tail by {
      AppendAssoc(num, pre + text, tail);
      AppendAssoc(num, pre, text);
    }
    Utf8Concat(head + text, tail);
    Utf8Concat(head, text);
  }

  /** Object k starts with the UTF-8 of `k 0 obj`. */
  lemma ObjectStartsWithNumber(k: nat, text: string)
    requires 1 <= k <= 5
    ensures |Utf8(ObjectNumber(k))| <= |ObjectBytes(k, text)|
    ensures ObjectBytes(k, text)[..|Utf8(ObjectNumber(k))|] == Utf8(ObjectNumber(k))
  {
    Utf8Concat(ObjectNumber(k), ObjectBody(k, text));
  }

  lemma {:induction false} WrittenPrefix(text: string, n: nat, m: nat)
    requires m <= n <= 5
    ensures Written(text, n)[..m + 1] == Written(text, m)
    decreases n
  {
    if m < n {
      WrittenPrefix(text, n - 1, m);
      WrittenStep(text, n, m);
    }
  }

  lemma WrittenStep(text: string, n: nat, m: nat)
    requires m < n <= 5
    ensures Written(text, n)[..m + 1] == Written(text, n - 1)[..m + 1]
  {
  }

  /**
    * In the file `_simple_pdf` writes, the offset recorded for object k
    * holds object k, which begins `k 0 obj`.
    */
  lemma ObjectAtOffset(text: string, k: nat)
    requires 1 <= k <= 5
    ensures var parts := Objects(text);
      var file, at, ob := Layout(parts), OffsetsOf(parts)[k - 1], ObjectBytes(k, text);
      at + |ob| <= |file| && file[at..at + |ob|] == ob &&
      |Utf8(ObjectNumber(k))| <= |ob| && ob[..|Utf8(ObjectNumber(k))|] == Utf8(ObjectNumber(k))
  {
    ObjectIs(text, k);
    PartAtOffset(Objects(text), k);
    ObjectStartsWithNumber(k, text);
  }

  lemma ObjectIs(text: string, k: nat)
    requires 1 <= k <= 5
    ensures Objects(text)[k] == ObjectBytes(k, text)
  {
    WrittenPrefix(text, 5, k);
    assert Objects(text)[k] == Written(text, k)[k];
  }

  /** The header comes first and takes 15 bytes, and no object is empty. */
  lemma ObjectsShape(text: string)
    ensures |Objects(text)| == 6 && Objects(text)[0] == Header && |Header| == 15
    ensures forall j :: 0 <= j < 6 ==> |Objects(text)[j]| > 0
  {
    WrittenPrefix(text, 5, 0);
    assert Objects(text)[0] == Written(text, 0)[0];
    forall j | 1 <= j < 6
      ensures |Objects(text)[j]| > 0
    {
      ObjectIs(text, j);
    }
  }

  /**
    * The whole chain a reader follows: the ten digits of table row k name an
    * offset, and at that offset the file holds part k, so whatever part k
    * begins with (for an object of `_simple_pdf`, `k 0 obj`) is read there.
    * Holds while the table starts below 10^10.
    */
  lemma ReaderFindsPart(parts: seq<seq<byte>>, k: nat, n: seq<byte>)
    requires |parts| == 6 && 1 <= k <= 5 && TotalLength(parts) < Pow10(10)
    requires |n| <= |parts[k]| && parts[k][..|n|] == n
    ensures var file, x := Layout(parts), TotalLength(parts);
      var d := XrefEntry(OffsetsOf(parts)[k - 1])[..10];
      AllDigits(d) && x + 19 + 20 * k <= |file| && file[x + 9 + 20 * k..x + 19 + 20 * k] == Utf8(d) &&
      DigitsValue(d) + |n| <= |file| && file[DigitsValue(d)..DigitsValue(d) + |n|] == n
  {
    RowDigits(parts, k);
    PartAtOffset(parts, k);
    PrefixWithin(Layout(parts), OffsetsOf(parts)[k - 1], parts[k], n);
  }

  /** The ten digits of table row k, read back, give the offset recorded for part k. */
  lemma RowDigits(parts: seq<seq<byte>>, k: nat)
    requires |parts| == 6 && 1 <= k <= 5 && TotalLength(parts) < Pow10(10)
    ensures var file, x := Layout(parts), TotalLength(parts);
      var d := XrefEntry(OffsetsOf(parts)[k - 1])[..10];
      AllDigits(d) && x + 19 + 20 * k <= |file| && file[x + 9 + 20 * k..x + 19 + 20 * k] == Utf8(d) &&
      DigitsValue(d) == OffsetsOf(parts)[k - 1]
  {
    OffsetBelow(parts, k);
    XrefEntryAt(parts, k);
    ReadRow(Layout(parts), TotalLength(parts) + 9 + 20 * k, OffsetsOf(parts)[k - 1]);
  }

  /** Every recorded offset is below where the table starts. */
  lemma OffsetBelow(parts: seq<seq<byte>>, k: nat)
    requires 1 <= k < |parts|
    ensures OffsetsOf(parts)[k - 1] <= TotalLength(parts)
  {
    OffsetsOfAt(parts, k);
    TotalLengthPrefix(parts, k);
  }

  /** A row for `off` read at `at` starts with the ten digits that give `off` back. */
  lemma ReadRow(file: seq<byte>, at: nat, off: nat)
    requires off < Pow10(10)
    requires at + 20 <= |file| && file[at..at + 20] == Utf8(XrefEntry(off) + "\n")
    ensures var d := XrefEntry(off)[..10];
      AllDigits(d) && at + 10 <= |file| && file[at..at + 10] == Utf8(d) && DigitsValue(d) == off
  {
    XrefEntryReads(off);
    RowHead(XrefEntry(off), file, at);
  }

  /** The first ten bytes of an ASCII row read in the file are the UTF-8 of its first ten characters. */
  lemma RowHead(row: string, file: seq<byte>, at: nat)
    requires |row| == 19 && IsAscii(row)
    requires at + 20 <= |file| && file[at..at + 20] == Utf8(row + "\n")
    ensures file[at..at + 10] == Utf8(row[..10])
  {
    assert IsAscii(row + "\n");
    AsciiSlice(row + "\n", 0, 10);
    assert (row + "\n")[..10] == row[..10];
    assert file[at..at + 10] == file[at..at + 20][..10];
  }

  lemma XrefLinesSnoc(size: nat, offsets: seq<nat>, i: nat)
    requires i < |offsets|
    ensures XrefLines(size, offsets[..i + 1]) == XrefLines(size, offsets[..i]) + [XrefEntry(offsets[i])]
  {
    assert offsets[..i + 1][..i] == offsets[..i];
  }

}
