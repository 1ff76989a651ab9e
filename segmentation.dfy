/**
  * `process_combined_pdf` in pdf_utils.py: a single pass over the page texts
  * of a combined statement that cuts it into invoices. A page on which
  * `detect_invoice_start` holds opens a new invoice and closes the one that
  * was open; every other page joins the open invoice, or is dropped when none
  * is open yet. Each invoice is finalised as it is closed.
  */
module Segmentation {
  import opened Wrappers
  import opened Seqs
  import opened Gathering
  import Fca

  // ------------------------------------------------------------- page scan

  /** The page numbers `a`, `a + 1`, ..., `b - 1`. */
  function Range(a: nat, b: nat): (r: seq<nat>)
    requires a <= b
    ensures |r| == b - a && forall k :: 0 <= k < |r| ==> r[k] == a + k
  {
    seq(b - a, k requires 0 <= k < b - a => a + k)
  }

  /** The two accumulators of the loop: the invoices closed so far and the page numbers of the open one. */
  datatype Acc = Acc(closed: seq<seq<nat>>, current: seq<nat>)

  /** What one page does to the accumulators. */
  function Step(acc: Acc, idx: nat, isStart: bool): Acc {
    if isStart && acc.current != [] then Acc(acc.closed + [acc.current], [idx])
    else if isStart || acc.current != [] then Acc(acc.closed, acc.current + [idx])
    else acc
  }

  /** The accumulators after the first `n` pages, `starts[i]` saying whether page `i` opens an invoice. */
  function Scan(starts: seq<bool>, n: nat): Acc
    requires n <= |starts|
  {
    if n == 0 then Acc([], []) else Step(Scan(starts, n - 1), n - 1, starts[n - 1])
  }

  /** The invoices of a statement: the closed ones, then the one still open at the end. */
  function Segments(starts: seq<bool>): seq<seq<nat>> {
    var acc := Scan(starts, |starts|);
    acc.closed + (if acc.current != [] then [acc.current] else [])
  }

  // ------------------------------------------------------ what a scan keeps

  /** The first start page among the first `n`. */
  function FirstStartBefore(starts: seq<bool>, n: nat): (r: Option<nat>)
    requires n <= |starts|
    ensures r.Some? ==> r.value < n
  {
    if n == 0 then None
    else if FirstStartBefore(starts, n - 1).Some? then FirstStartBefore(starts, n - 1)
    else if starts[n - 1] then Some(n - 1)
    else None
  }

  lemma {:induction false} FirstStartBeforeSpec(starts: seq<bool>, n: nat)
    requires n <= |starts|
    ensures FirstStartBefore(starts, n).None? <==> forall j :: 0 <= j < n ==> !starts[j]
    ensures FirstStartBefore(starts, n).Some? ==>
      var f := FirstStartBefore(starts, n).value;
      f < n && starts[f] && forall j :: 0 <= j < f ==> !starts[j]
  {
    if n > 0 {
      FirstStartBeforeSpec(starts, n - 1);
    }
  }

  /** The number of start pages among the first `n`. */
  function CountStarts(starts: seq<bool>, n: nat): nat
    requires n <= |starts|
  {
    if n == 0 then 0 else CountStarts(starts, n - 1) + (if starts[n - 1] then 1 else 0)
  }

  /** The pages from the first start page among the first `n` up to page `n - 1`. */
  function Covered(starts: seq<bool>, n: nat): seq<nat>
    requires n <= |starts|
  {
    match FirstStartBefore(starts, n)
    case None => []
    case Some(f) => Range(f, n)
  }

  /** A non-empty run of pages that begins with a start page and holds no other. */
  predicate OneInvoice(starts: seq<bool>, seg: seq<nat>) {
    |seg| > 0 && seg[0] < |starts| && starts[seg[0]]
    && forall j :: 1 <= j < |seg| ==> seg[j] < |starts| && !starts[seg[j]]
  }

  /** What the accumulators hold after `n` pages. */
  predicate ScanInv(starts: seq<bool>, n: nat, acc: Acc)
    requires n <= |starts|
  {
    (acc.current == [] ==> acc.closed == [] && FirstStartBefore(starts, n).None?)
    && Flatten(acc.closed) + acc.current == Covered(starts, n)
    && (forall i :: 0 <= i < |acc.closed| ==> OneInvoice(starts, acc.closed[i]))
    && (acc.current != [] ==> OneInvoice(starts, acc.current))
    && |acc.closed| + (if acc.current != [] then 1 else 0) == CountStarts(starts, n)
  }

  /** A start page with an invoice open closes it and opens a new one. */
  lemma StepCloses(starts: seq<bool>, n: nat, acc: Acc)
    requires n < |starts| && starts[n] && acc.current != [] && ScanInv(starts, n, acc)
    ensures ScanInv(starts, n + 1, Step(acc, n, starts[n]))
  {
    var f := FirstStartBefore(starts, n).value;
    assert FirstStartBefore(starts, n + 1) == Some(f);
    FlattenSnoc(acc.closed, acc.current);
    assert Range(f, n + 1) == Range(f, n) + [n];
  }

  /** The first start page opens the first invoice. */
  lemma StepOpens(starts: seq<bool>, n: nat, acc: Acc)
    requires n < |starts| && starts[n] && acc.current == [] && ScanInv(starts, n, acc)
    ensures ScanInv(starts, n + 1, Step(acc, n, starts[n]))
  {
    assert FirstStartBefore(starts, n + 1) == Some(n);
    assert Range(n, n + 1) == [n];
  }

  /** Any other page joins the open invoice. */
  lemma StepJoins(starts: seq<bool>, n: nat, acc: Acc)
    requires n < |starts| && !starts[n] && acc.current != [] && ScanInv(starts, n, acc)
    ensures ScanInv(starts, n + 1, Step(acc, n, starts[n]))
  {
    var f := FirstStartBefore(starts, n).value;
    assert FirstStartBefore(starts, n + 1) == Some(f);
    assert Range(f, n + 1) == Range(f, n) + [n];
    var cur := acc.current + [n];
    var flat := Flatten(acc.closed);
    assert flat + cur == (flat + acc.current) + [n];
    assert forall j :: 1 <= j < |cur| ==> cur[j] < |starts| && !starts[cur[j]] by {
      forall j | 1 <= j < |cur| ensures cur[j] < |starts| && !starts[cur[j]] {
        if j < |acc.current| {
          assert cur[j] == acc.current[j];
        }
      }
    }
  }

  /** Pages before the first start page are passed over. */
  lemma StepSkips(starts: seq<bool>, n: nat, acc: Acc)
    requires n < |starts| && !starts[n] && acc.current == [] && ScanInv(starts, n, acc)
    ensures ScanInv(starts, n + 1, Step(acc, n, starts[n]))
  {
    assert FirstStartBefore(starts, n + 1).None?;
  }

  /** Every page keeps what the accumulators hold. */
  lemma StepKeeps(starts: seq<bool>, n: nat, acc: Acc)
    requires n < |starts| && ScanInv(starts, n, acc)
    ensures ScanInv(starts, n + 1, Step(acc, n, starts[n]))
  {
    if starts[n] && acc.current != [] {
      StepCloses(starts, n, acc);
    } else if starts[n] {
      StepOpens(starts, n, acc);
    } else if acc.current != [] {
      StepJoins(starts, n, acc);
    } else {
      StepSkips(starts, n, acc);
    }
  }

  lemma {:induction false} ScanKeeps(starts: seq<bool>, n: nat)
    requires n <= |starts|
    ensures ScanInv(starts, n, Scan(starts, n))
  {
    if n > 0 {
      ScanKeeps(starts, n - 1);
      StepKeeps(starts, n - 1, Scan(starts, n - 1));
    }
  }

  /**
    * The invoices are runs of pages that each begin with a start page and
    * hold no other; one per start page; together, in order, they are exactly
    * the pages from the first start page to the last page, so pages before
    * the first start page are dropped and no page is in two invoices.
    */
  lemma SegmentsShape(starts: seq<bool>)
    ensures forall i :: 0 <= i < |Segments(starts)| ==> OneInvoice(starts, Segments(starts)[i])
    ensures |Segments(starts)| == CountStarts(starts, |starts|)
    ensures Flatten(Segments(starts)) == Covered(starts, |starts|)
  {
    var acc := Scan(starts, |starts|);
    ScanKeeps(starts, |starts|);
    if acc.current != [] {
      FlattenSnoc(acc.closed, acc.current);
    } else {
      assert acc.closed + [] == acc.closed;
    }
  }

  /** A statement without a start page has no invoices; that is not an error. */
  lemma NoStartNoSegments(starts: seq<bool>)
    requires forall j :: 0 <= j < |starts| ==> !starts[j]
    ensures Segments(starts) == []
  {
    ScanKeeps(starts, |starts|);
    FirstStartBeforeSpec(starts, |starts|);
  }

  /** Every invoice closed so far is one of the statement's invoices, in its place. */
  lemma {:induction false} ClosedPrefix(starts: seq<bool>, n: nat)
    requires n <= |starts|
    ensures Scan(starts, n).closed <= Segments(starts)
    decreases |starts| - n
  {
    if n < |starts| {
      ClosedPrefix(starts, n + 1);
      assert Scan(starts, n).closed <= Scan(starts, n + 1).closed;
    }
  }

  // ------------------------------------------------------------ finalising

  /** A file written by `save_pdf_subset`: where it goes and which pages of the statement it holds. */
  datatype SavedPdf = SavedPdf(path: string, pages: seq<nat>)

  /** The three file names recorded for an invoice, relative to the parent of the output directory. */
  datatype OutputFiles = OutputFiles(invoicePdf: string, summaryPdf: string, summaryMappingPdf: string)

  /** What `_finalize_invoice` returns: the metadata, the summary, the mapped accounts and the file names. */
  datatype InvoiceInfo = InvoiceInfo(
    metadata: Fca.InvoiceMetadata,
    summary: Fca.SummaryData,
    mappedAccounts: seq<Fca.MappedEntry>,
    files: OutputFiles)

  /** The exceptions that escape `_finalize_invoice`, and with it `process_combined_pdf`. */
  datatype ProcessError = MetadataFailed(metadataError: Fca.MetadataError) | SummaryFailed(summaryError: Fca.SummaryError)

  function InvoicePath(outputName: string, key: string): string {
    outputName + "/invoices/" + key + ".pdf"
  }

  function SummaryPath(outputName: string, key: string): string {
    outputName + "/summaries/" + key + "_summary.pdf"
  }

  function MappingPath(outputName: string, key: string): string {
    outputName + "/mappings/" + key + "_mapping.pdf"
  }

  function FilesFor(outputName: string, key: string): OutputFiles {
    OutputFiles(InvoicePath(outputName, key), SummaryPath(outputName, key), MappingPath(outputName, key))
  }

  /**
    * `_finalize_invoice` on the pages of one invoice and their texts: nothing
    * for no pages; otherwise the metadata of the first page, then the summary
    * of the last page, either of which may raise.
    */
  function Finalize(pages: seq<nat>, texts: seq<string>, outputName: string, parseDate: string -> Option<string>)
    : Option<Result<InvoiceInfo, ProcessError>>
    requires |texts| == |pages|
  {
    if pages == [] then None
    else
      match Fca.ParseInvoiceMetadata(texts[0], parseDate)
      case Err(e) => Some(Err(MetadataFailed(e)))
      case Ok(md) =>
        match Fca.Summary(texts[|texts| - 1])
        case Err(e) => Some(Err(SummaryFailed(e)))
        case Ok(s) => Some(Ok(InvoiceInfo(md, s, Fca.MappedAccounts(s), FilesFor(outputName, md.keyNorm))))
  }

  function LastPage(pages: seq<nat>): seq<nat> {
    if pages == [] then [] else [pages[|pages| - 1]]
  }

  /** The two files written for a finalised invoice: all its pages, then its last page on its own. */
  function Writes(pages: seq<nat>, info: InvoiceInfo): seq<SavedPdf> {
    [SavedPdf(info.files.invoicePdf, pages), SavedPdf(info.files.summaryPdf, LastPage(pages))]
  }

  /** `_finalize_invoice`, returning the files it writes alongside its result. */
  method FinalizeInvoice(pages: seq<nat>, texts: seq<string>, outputName: string, parseDate: string -> Option<string>)
    returns (r: Option<Result<InvoiceInfo, ProcessError>>, written: seq<SavedPdf>)
    requires |texts| == |pages|
    ensures r == Finalize(pages, texts, outputName, parseDate)
    ensures written == if r.Some? && r.value.Ok? then Writes(pages, r.value.value) else []
  {
    if pages == [] {
      return None, [];
    }
    var metadata := Fca.ParseInvoiceMetadata(texts[0], parseDate);
    if metadata.Err? {
      return Some(Err(MetadataFailed(metadata.error))), [];
    }
    var summary := Fca.ParseSummary(texts[|texts| - 1]);
    if summary.Err? {
      return Some(Err(SummaryFailed(summary.error))), [];
    }
    var mapped := Fca.MapAccountsToInternal(summary.value);
    var files := FilesFor(outputName, metadata.value.keyNorm);
    var info := InvoiceInfo(metadata.value, summary.value, mapped, files);
    assert Finalize(pages, texts, outputName, parseDate) == Some(Ok(info));
    written := [SavedPdf(files.invoicePdf, pages)];
    written := written + [SavedPdf(files.summaryPdf, [pages[|pages| - 1]])];
    assert written == Writes(pages, info);
    r := Some(Ok(info));
  }

  /**
    * An invoice with pages always yields something; it fails exactly when its
    * metadata or its summary fails, and a metadata failure is the one
    * reported even when the summary is bad too. A finalised invoice carries
    * the metadata of its first page, the summary of its last page, that
    * summary's accounts mapped to the ledger, and files named by its key.
    */
  lemma FinalizeOutcome(pages: seq<nat>, texts: seq<string>, outputName: string, parseDate: string -> Option<string>)
    requires |texts| == |pages|
    ensures Finalize(pages, texts, outputName, parseDate).None? <==> pages == []
    ensures pages != [] ==>
      (Finalize(pages, texts, outputName, parseDate).value.Ok?
       <==> Fca.ParseInvoiceMetadata(texts[0], parseDate).Ok? && Fca.Summary(texts[|texts| - 1]).Ok?)
    ensures pages != [] && Fca.ParseInvoiceMetadata(texts[0], parseDate).Err? ==>
      Finalize(pages, texts, outputName, parseDate).value.Err?
      && Finalize(pages, texts, outputName, parseDate).value.error == MetadataFailed(Fca.ParseInvoiceMetadata(texts[0], parseDate).error)
    ensures pages != [] && Fca.ParseInvoiceMetadata(texts[0], parseDate).Ok? && Fca.Summary(texts[|texts| - 1]).Err? ==>
      Finalize(pages, texts, outputName, parseDate).value.Err?
      && Finalize(pages, texts, outputName, parseDate).value.error == SummaryFailed(Fca.Summary(texts[|texts| - 1]).error)
    ensures Finalize(pages, texts, outputName, parseDate).Some? && Finalize(pages, texts, outputName, parseDate).value.Ok? ==>
      var info := Finalize(pages, texts, outputName, parseDate).value.value;
      && info.metadata == Fca.ParseInvoiceMetadata(texts[0], parseDate).value
      && info.summary == Fca.Summary(texts[|texts| - 1]).value
      && info.mappedAccounts == Fca.MappedAccounts(info.summary)
      && info.files == FilesFor(outputName, info.metadata.keyNorm)
  {
  }

  /** The three files of an invoice are three different files. */
  lemma FilesDistinct(outputName: string, key: string)
    ensures InvoicePath(outputName, key) != SummaryPath(outputName, key)
    ensures InvoicePath(outputName, key) != MappingPath(outputName, key)
    ensures SummaryPath(outputName, key) != MappingPath(outputName, key)
  {
    var n := |outputName| + 1;
    assert InvoicePath(outputName, key)[n] == 'i';
    assert SummaryPath(outputName, key)[n] == 's';
    assert MappingPath(outputName, key)[n] == 'm';
  }

  /** Two invoices share a file exactly when they share a key, in which case the later one overwrites it. */
  lemma FilesKeyed(outputName: string, k1: string, k2: string)
    ensures InvoicePath(outputName, k1) == InvoicePath(outputName, k2) <==> k1 == k2
    ensures SummaryPath(outputName, k1) == SummaryPath(outputName, k2) <==> k1 == k2
  {
    var p1, p2 := InvoicePath(outputName, k1), InvoicePath(outputName, k2);
    var n := |outputName + "/invoices/"|;
    if p1 == p2 {
      assert p1[n..|p1| - 4] == k1;
      assert p2[n..|p2| - 4] == k2;
    }
    var q1, q2 := SummaryPath(outputName, k1), SummaryPath(outputName, k2);
    var m := |outputName + "/summaries/"|;
    if q1 == q2 {
      assert q1[m..|q1| - 12] == k1;
      assert q2[m..|q2| - 12] == k2;
    }
  }

  // -------------------------------------------------------------- whole run

  /**
    * A combined statement: the text pdfplumber extracts from each page (None
    * where it finds none), the name of the output directory, and the date
    * parser the metadata uses.
    */
  datatype Statement = Statement(pageTexts: seq<Option<string>>, outputName: string, parseDate: string -> Option<string>)

  /** `page.extract_text() or ""`. */
  function PageText(st: Statement, i: nat): string
    requires i < |st.pageTexts|
  {
    st.pageTexts[i].GetOr("")
  }

  /** Which pages open an invoice. */
  function StartFlags(st: Statement): (flags: seq<bool>)
    ensures |flags| == |st.pageTexts|
    ensures forall i :: 0 <= i < |flags| ==> flags[i] == Fca.DetectInvoiceStart(PageText(st, i))
  {
    seq(|st.pageTexts|, i requires 0 <= i < |st.pageTexts| => Fca.DetectInvoiceStart(PageText(st, i)))
  }

  predicate InStatement(st: Statement, pages: seq<nat>) {
    forall j :: 0 <= j < |pages| ==> pages[j] < |st.pageTexts|
  }

  /** The texts of some pages of the statement. */
  function TextsAt(st: Statement, pages: seq<nat>): (texts: seq<string>)
    requires InStatement(st, pages)
    ensures |texts| == |pages| && forall j :: 0 <= j < |pages| ==> texts[j] == PageText(st, pages[j])
  {
    seq(|pages|, j requires 0 <= j < |pages| => PageText(st, pages[j]))
  }

  /** Finalising one invoice of the statement. */
  function FinalizeAt(st: Statement, pages: seq<nat>): Option<Result<InvoiceInfo, ProcessError>> {
    if InStatement(st, pages) then Finalize(pages, TextsAt(st, pages), st.outputName, st.parseDate) else None
  }

  function FinalizeStep(st: Statement): seq<nat> -> Option<Result<InvoiceInfo, ProcessError>> {
    pages => FinalizeAt(st, pages)
  }

  /** The page numbers of each invoice of the statement. */
  function Invoices(st: Statement): seq<seq<nat>> {
    Segments(StartFlags(st))
  }

  /** The result of `process_combined_pdf`: its invoices, in order, or the first exception. */
  function Process(st: Statement): Result<seq<InvoiceInfo>, ProcessError> {
    Gather(Invoices(st), FinalizeStep(st))
  }

  /** The files `process_combined_pdf` writes, in order, whether it returns or raises. */
  function Saved(st: Statement): seq<SavedPdf> {
    Effects(Invoices(st), FinalizeStep(st), Writes)
  }

  /** A page's text joins the texts of the open invoice. */
  lemma TextsAtSnoc(st: Statement, pages: seq<nat>, idx: nat)
    requires InStatement(st, pages) && idx < |st.pageTexts|
    ensures InStatement(st, pages + [idx])
    ensures TextsAt(st, pages) + [PageText(st, idx)] == TextsAt(st, pages + [idx])
  {
  }

  /**
    * Finalising the open invoice and keeping its result: the walk over the
    * invoices closed so far is extended by it.
    */
  method CloseInvoice(st: Statement, ghost closed: seq<seq<nat>>, pages: seq<nat>, texts: seq<string>,
                      results: seq<InvoiceInfo>, saved: seq<SavedPdf>)
    returns (failure: Option<ProcessError>, results': seq<InvoiceInfo>, saved': seq<SavedPdf>)
    requires InStatement(st, pages) && texts == TextsAt(st, pages)
    requires Gather(closed, FinalizeStep(st)).Ok? && Gather(closed, FinalizeStep(st)).value == results
    requires saved == Effects(closed, FinalizeStep(st), Writes)
    ensures failure.None? <==> Gather(closed + [pages], FinalizeStep(st)).Ok?
    ensures failure.None? ==> Gather(closed + [pages], FinalizeStep(st)).value == results'
    ensures failure.Some? ==> Gather(closed + [pages], FinalizeStep(st)).error == failure.value
    ensures saved' == Effects(closed + [pages], FinalizeStep(st), Writes)
  {
    var result, written := FinalizeInvoice(pages, texts, st.outputName, st.parseDate);
    assert result == FinalizeStep(st)(pages);
    saved' := saved + written;
    results' := results;
    if result.Some? && result.value.Err? {
      GatherSnocErr(closed, pages, FinalizeStep(st), Writes);
      return Some(result.value.error), results', saved';
    }
    GatherSnocOk(closed, pages, FinalizeStep(st), Writes);
    if result.Some? {
      results' := results + [result.value.value];
    }
    failure := None;
  }

  /**
    * The loop state of `process_combined_pdf` after `idx` pages: `closed`
    * (ghost) are the invoices finalised so far, `currentPages` and
    * `currentTexts` the open one, `results` and `saved` what finalising the
    * closed ones returned and wrote.
    */
  ghost predicate Scanned(st: Statement, idx: nat, closed: seq<seq<nat>>, currentPages: seq<nat>, currentTexts: seq<string>,
                          results: seq<InvoiceInfo>, saved: seq<SavedPdf>)
    requires idx <= |st.pageTexts|
  {
    && Scan(StartFlags(st), idx).closed == closed
    && Scan(StartFlags(st), idx).current == currentPages
    && (forall j :: 0 <= j < |currentPages| ==> currentPages[j] < idx)
    && currentTexts == TextsAt(st, currentPages)
    && Gather(closed, FinalizeStep(st)).Ok?
    && Gather(closed, FinalizeStep(st)).value == results
    && saved == Effects(closed, FinalizeStep(st), Writes)
  }

  /**
    * One page of `process_combined_pdf`: a start page finalises the open
    * invoice, if any; a start page, or any page while an invoice is open,
    * joins the open invoice. A failure is the exception that ends the run.
    */
  method ScanPage(st: Statement, idx: nat, ghost closed: seq<seq<nat>>, currentPages: seq<nat>, currentTexts: seq<string>,
                  results: seq<InvoiceInfo>, saved: seq<SavedPdf>)
    returns (failure: Option<ProcessError>, ghost closed': seq<seq<nat>>, currentPages': seq<nat>, currentTexts': seq<string>,
             results': seq<InvoiceInfo>, saved': seq<SavedPdf>)
    requires idx < |st.pageTexts| && Scanned(st, idx, closed, currentPages, currentTexts, results, saved)
    ensures failure.None? ==> Scanned(st, idx + 1, closed', currentPages', currentTexts', results', saved')
    ensures failure.Some? ==> Process(st) == Err(failure.value) && saved' == Saved(st)
  {
    ghost var flags := StartFlags(st);
    closed', currentPages', currentTexts', results', saved' := closed, currentPages, currentTexts, results, saved;
    failure := None;
    var text := st.pageTexts[idx].GetOr("");
    var isStart := Fca.DetectInvoiceStart(text);
    if isStart && currentPages != [] {
      failure, results', saved' := CloseInvoice(st, closed, currentPages, currentTexts, results, saved);
      closed' := closed + [currentPages];
      if failure.Some? {
        ClosedPrefix(flags, idx + 1);
        PrefixErr(closed', Segments(flags), FinalizeStep(st), Writes);
        return;
      }
      currentPages', currentTexts' := [], [];
      currentPages' := currentPages' + [idx];
      currentTexts' := currentTexts' + [text];
      ScannedClose(st, idx, closed, currentPages, currentTexts, results', saved');
    } else if isStart || currentPages != [] {
      currentPages' := currentPages' + [idx];
      currentTexts' := currentTexts' + [text];
      ScannedJoin(st, idx, closed, currentPages, currentTexts, results, saved);
    } else {
      ScannedSkip(st, idx, closed, currentPages, currentTexts, results, saved);
    }
  }

  /** A start page with an invoice open: the open invoice is closed and the page opens the next one. */
  lemma ScannedClose(st: Statement, idx: nat, closed: seq<seq<nat>>, currentPages: seq<nat>, currentTexts: seq<string>,
                     results: seq<InvoiceInfo>, saved: seq<SavedPdf>)
    requires idx < |st.pageTexts| && StartFlags(st)[idx] && currentPages != []
    requires Scan(StartFlags(st), idx).closed == closed && Scan(StartFlags(st), idx).current == currentPages
    requires Gather(closed + [currentPages], FinalizeStep(st)).Ok?
    requires Gather(closed + [currentPages], FinalizeStep(st)).value == results
    requires saved == Effects(closed + [currentPages], FinalizeStep(st), Writes)
    ensures Scanned(st, idx + 1, closed + [currentPages], [] + [idx], [] + [PageText(st, idx)], results, saved)
  {
    assert TextsAt(st, [idx]) == [PageText(st, idx)];
  }

  /** A page that joins the open invoice, or opens the first one. */
  lemma ScannedJoin(st: Statement, idx: nat, closed: seq<seq<nat>>, currentPages: seq<nat>, currentTexts: seq<string>,
                    results: seq<InvoiceInfo>, saved: seq<SavedPdf>)
    requires idx < |st.pageTexts| && Scanned(st, idx, closed, currentPages, currentTexts, results, saved)
    requires !(StartFlags(st)[idx] && currentPages != []) && (StartFlags(st)[idx] || currentPages != [])
    ensures Scanned(st, idx + 1, closed, currentPages + [idx], currentTexts + [PageText(st, idx)], results, saved)
  {
    TextsAtSnoc(st, currentPages, idx);
  }

  /** A page before the first start page is passed over. */
  lemma ScannedSkip(st: Statement, idx: nat, closed: seq<seq<nat>>, currentPages: seq<nat>, currentTexts: seq<string>,
                    results: seq<InvoiceInfo>, saved: seq<SavedPdf>)
    requires idx < |st.pageTexts| && Scanned(st, idx, closed, currentPages, currentTexts, results, saved)
    requires !StartFlags(st)[idx] && currentPages == []
    ensures Scanned(st, idx + 1, closed, currentPages, currentTexts, results, saved)
  {
  }

  /** `process_combined_pdf`: one pass over the pages, finalising each invoice as the next one starts. */
  method ProcessCombinedPdf(st: Statement) returns (r: Result<seq<InvoiceInfo>, ProcessError>, saved: seq<SavedPdf>)
    ensures r == Process(st)
    ensures saved == Saved(st)
  {
    ghost var closed: seq<seq<nat>> := [];
    var results: seq<InvoiceInfo> := [];
    saved := [];
    var currentPages: seq<nat> := [];
    var currentTexts: seq<string> := [];
    for idx := 0 to |st.pageTexts|
      invariant Scanned(st, idx, closed, currentPages, currentTexts, results, saved)
    {
      var failure;
      failure, closed, currentPages, currentTexts, results, saved := ScanPage(st, idx, closed, currentPages, currentTexts, results, saved);
      if failure.Some? {
        return Err(failure.value), saved;
      }
    }
    r, saved := Flush(st, closed, currentPages, currentTexts, results, saved);
  }

  /** The end of `process_combined_pdf`: the invoice still open is finalised too. */
  method Flush(st: Statement, ghost closed: seq<seq<nat>>, currentPages: seq<nat>, currentTexts: seq<string>,
               results: seq<InvoiceInfo>, saved: seq<SavedPdf>)
    returns (r: Result<seq<InvoiceInfo>, ProcessError>, saved': seq<SavedPdf>)
    requires Scanned(st, |st.pageTexts|, closed, currentPages, currentTexts, results, saved)
    ensures r == Process(st)
    ensures saved' == Saved(st)
  {
    ghost var segs := Segments(StartFlags(st));
    ghost var step := FinalizeStep(st);
    saved' := saved;
    if currentPages != [] {
      assert segs == closed + [currentPages];
      var failure, results';
      failure, results', saved' := CloseInvoice(st, closed, currentPages, currentTexts, results, saved);
      if failure.Some? {
        return Err(failure.value), saved';
      }
      OkOf(Gather(segs, step), results');
      r := Ok(results');
    } else {
      assert segs == closed;
      OkOf(Gather(segs, step), results);
      r := Ok(results);
    }
  }

  /** Finalising pages of the statement yields something exactly when there are pages. */
  lemma FinalizeAtSome(st: Statement, pages: seq<nat>)
    requires InStatement(st, pages)
    ensures FinalizeAt(st, pages).Some? <==> pages != []
  {
    var texts := TextsAt(st, pages);
    assert FinalizeAt(st, pages) == Finalize(pages, texts, st.outputName, st.parseDate);
  }

  /** The k-th invoice of the statement yields something when finalised. */
  lemma InvoiceFinalized(st: Statement, k: nat)
    requires k < |Invoices(st)|
    ensures FinalizeStep(st)(Invoices(st)[k]).Some?
  {
    SegmentsShape(StartFlags(st));
    assert OneInvoice(StartFlags(st), Invoices(st)[k]);
    FinalizeAtSome(st, Invoices(st)[k]);
  }

  /** Every invoice of the statement yields something when finalised. */
  lemma EveryInvoiceFinalized(st: Statement)
    ensures forall k :: 0 <= k < |Invoices(st)| ==> FinalizeStep(st)(Invoices(st)[k]).Some?
  {
    forall k | 0 <= k < |Invoices(st)|
      ensures FinalizeStep(st)(Invoices(st)[k]).Some?
    {
      InvoiceFinalized(st, k);
    }
  }

  /**
    * A run succeeds exactly when no invoice fails; it then returns one
    * result per invoice, hence per start page, the k-th being what
    * finalising the k-th invoice gives, and has written the files of each
    * invoice, invoice by invoice.
    */
  lemma ProcessOk(st: Statement)
    ensures Process(st).Ok? <==> forall k :: 0 <= k < |Invoices(st)| ==> !Fails(FinalizeStep(st)(Invoices(st)[k]))
    ensures Process(st).Ok? ==>
      && |Process(st).value| == |Invoices(st)| == CountStarts(StartFlags(st), |StartFlags(st)|)
      && (forall k :: 0 <= k < |Invoices(st)| ==> FinalizeStep(st)(Invoices(st)[k]) == Some(Ok(Process(st).value[k])))
      && Saved(st) == EffectsOf(Invoices(st), Process(st).value, Writes)
  {
    SegmentsShape(StartFlags(st));
    GatherOk(Invoices(st), FinalizeStep(st));
    if Process(st).Ok? {
      EveryInvoiceFinalized(st);
      AllYieldOk(Invoices(st), FinalizeStep(st), Writes);
    }
  }

  /**
    * A run that raises raises the error of the first failing invoice, and
    * has written the files of exactly the invoices before it, all of which
    * were finalised.
    */
  lemma ProcessErr(st: Statement)
    requires Process(st).Err?
    ensures exists k, done: seq<InvoiceInfo> ::
              && 0 <= k < |Invoices(st)| && |done| == k
              && FinalizeStep(st)(Invoices(st)[k]) == Some(Err(Process(st).error))
              && (forall j :: 0 <= j < k ==> FinalizeStep(st)(Invoices(st)[j]) == Some(Ok(done[j])))
              && Saved(st) == EffectsOf(Invoices(st)[..k], done, Writes)
  {
    var segs, step := Invoices(st), FinalizeStep(st);
    assert Process(st) == Gather(segs, step) && Saved(st) == Effects(segs, step, Writes);
    EveryInvoiceFinalized(st);
    AllYieldErr(segs, step, Writes);
  }

  /** The files of a run: for each invoice in turn, first the file with all its pages, then the one with its last page. */
  lemma {:induction false} WritesInOrder(segs: seq<seq<nat>>, infos: seq<InvoiceInfo>)
    requires |segs| == |infos|
    ensures |EffectsOf(segs, infos, Writes)| == 2 * |segs|
    ensures forall k :: 0 <= k < |segs| ==>
      && EffectsOf(segs, infos, Writes)[2 * k] == SavedPdf(infos[k].files.invoicePdf, segs[k])
      && EffectsOf(segs, infos, Writes)[2 * k + 1] == SavedPdf(infos[k].files.summaryPdf, LastPage(segs[k]))
  {
    if segs != [] {
      WritesInOrder(segs[..|segs| - 1], infos[..|infos| - 1]);
    }
  }
}
