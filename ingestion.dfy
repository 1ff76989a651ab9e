/**
  * invoices/ingestion.py: getting the text of a PDF's pages. Three
  * strategies are tried in a fixed order (pypdf, then pdftotext, then OCR
  * with pdftoppm and tesseract); the first two may fail silently, the last
  * one's failure is the caller's.
  *
  * The PDF libraries and the external programs are not modelled: what each
  * of them produced (page texts, exit status and output, or the exception it
  * raised) is an input.
  */
module Ingestion {
  import opened Wrappers
  import opened Text
  import opened Gathering

  /** The exceptions the strategies can raise. */
  datatype Exception =
    | ImportError
    | FileNotFoundError
    | TimeoutExpired
    | RuntimeError(message: string)
    | OtherError(name: string)

  /** What `_run` gave: the program's exit status and decoded output, or the exception `subprocess.run` raised. */
  datatype ProcessRun =
    | Exited(returncode: int, stdout: string, stderr: string)
    | FailedToRun(exc: Exception)

  /** The OCR programs' runs: pdftoppm once, then tesseract once per page image, in sorted file-name order. */
  datatype OcrRuns = OcrRuns(pdftoppm: ProcessRun, tesseract: seq<ProcessRun>)

  // ------------------------------------------------------------ page cleaning

  /** The stripped pages that are not blank, in order. */
  function Cleaned(raw: seq<string>): seq<string> {
    if raw == [] then []
    else
      var p := Strip(raw[|raw| - 1]);
      Cleaned(raw[..|raw| - 1]) + (if p != [] then [p] else [])
  }

  /** `page.extract_text() or ""` for every page. */
  function OrEmpty(texts: seq<Option<string>>): (raw: seq<string>)
    ensures |raw| == |texts| && forall k :: 0 <= k < |texts| ==> raw[k] == texts[k].GetOr("")
  {
    seq(|texts|, k requires 0 <= k < |texts| => texts[k].GetOr(""))
  }

  /** A string with no whitespace at either end is its own strip. */
  lemma StripStripped(s: string)
    requires s != [] && !IsSpace(s[0]) && !IsSpace(s[|s| - 1])
    ensures Strip(s) == s
  {
    assert RunEnd(s, 0, IsSpace) == 0;
    assert RunStart(s, |s|, IsSpace) == |s|;
    assert s[0..|s|] == s;
  }

  /** Every cleaned page is non-empty and already stripped. */
  lemma {:induction false} CleanedShape(raw: seq<string>)
    ensures forall k :: 0 <= k < |Cleaned(raw)| ==> Cleaned(raw)[k] != [] && Strip(Cleaned(raw)[k]) == Cleaned(raw)[k]
  {
    if raw != [] {
      CleanedShape(raw[..|raw| - 1]);
      var p := Strip(raw[|raw| - 1]);
      if p != [] {
        StripStripped(p);
      }
    }
  }

  /** Cleaning works page by page, keeping document order. */
  lemma {:induction false} CleanedAppend(a: seq<string>, b: seq<string>)
    ensures Cleaned(a + b) == Cleaned(a) + Cleaned(b)
    decreases |b|
  {
    if b == [] {
      assert a + b == a;
    } else {
      var init := b[..|b| - 1];
      CleanedAppend(a, init);
      assert (a + b)[..|a + b| - 1] == a + init;
    }
  }

  /** Nothing is left exactly when every page is blank. */
  lemma {:induction false} CleanedEmpty(raw: seq<string>)
    ensures Cleaned(raw) == [] <==> forall k :: 0 <= k < |raw| ==> Strip(raw[k]) == []
  {
    if raw != [] {
      var init := raw[..|raw| - 1];
      CleanedEmpty(init);
      assert forall k :: 0 <= k < |init| ==> init[k] == raw[k];
    }
  }

  // ------------------------------------------------------------- strategies

  /** `extract_text_with_pypdf`: the stripped text of each page, blank pages dropped. */
  method ExtractTextWithPypdf(pageTexts: seq<Option<string>>) returns (pages: seq<string>)
    ensures pages == Cleaned(OrEmpty(pageTexts))
  {
    pages := [];
    for i := 0 to |pageTexts|
      invariant pages == Cleaned(OrEmpty(pageTexts)[..i])
    {
      var text := Strip(pageTexts[i].GetOr(""));
      assert OrEmpty(pageTexts)[..i + 1][..i] == OrEmpty(pageTexts)[..i];
      if text != [] {
        pages := pages + [text];
      }
    }
    assert OrEmpty(pageTexts)[..|pageTexts|] == OrEmpty(pageTexts);
  }

  /** The page separator pdftotext writes. */
  const FormFeed: char := '\U{0C}'

  /** `extract_text_with_poppler`: pdftotext's output cut at form feeds, cleaned; a failed run raises. */
  function ExtractTextWithPoppler(run: ProcessRun): (r: Result<seq<string>, Exception>) {
    match run
    case FailedToRun(e) => Err(e)
    case Exited(code, out, err) =>
      if code != 0 then Err(RuntimeError("pdftotext failed: " + err))
      else Ok(Cleaned(SplitOn(out, FormFeed)))
  }

  /** pdftotext succeeds exactly when it ran and exited with status 0, and then no page holds a form feed. */
  lemma PopplerPages(run: ProcessRun)
    ensures ExtractTextWithPoppler(run).Ok? <==> run.Exited? && run.returncode == 0
    ensures ExtractTextWithPoppler(run).Ok? ==>
      forall k :: 0 <= k < |ExtractTextWithPoppler(run).value| ==> FormFeed !in ExtractTextWithPoppler(run).value[k]
  {
    if run.Exited? && run.returncode == 0 {
      CleanedKeeps(SplitOn(run.stdout, FormFeed), FormFeed);
    }
  }

  /** A character no raw page holds is in no cleaned page. */
  lemma {:induction false} CleanedKeeps(raw: seq<string>, c: char)
    requires forall k :: 0 <= k < |raw| ==> c !in raw[k]
    ensures forall k :: 0 <= k < |Cleaned(raw)| ==> c !in Cleaned(raw)[k]
  {
    if raw != [] {
      var init := raw[..|raw| - 1];
      assert forall k :: 0 <= k < |init| ==> init[k] == raw[k];
      CleanedKeeps(init, c);
      StripInside(raw[|raw| - 1], c);
    }
  }

  /** Stripping adds no character. */
  lemma StripInside(s: string, c: char)
    requires c !in s
    ensures c !in Strip(s)
  {
    var i := RunEnd(s, 0, IsSpace);
    if i < |s| {
      var j := RunStart(s, |s|, IsSpace);
      assert Strip(s) == s[i..j];
    }
  }

  /** The page tesseract read from one image, or the exception its run raised. */
  function OcrPage(run: ProcessRun): Result<string, Exception> {
    match run
    case FailedToRun(e) => Err(e)
    case Exited(code, out, err) =>
      if code != 0 then Err(RuntimeError("tesseract failed: " + err)) else Ok(Strip(out))
  }

  function OcrStep(run: ProcessRun): Option<Result<string, Exception>> {
    Some(OcrPage(run))
  }

  /** `extract_text_with_tesseract`: pdftoppm, then one page per image until the first failure. */
  function Ocr(runs: OcrRuns): Result<seq<string>, Exception> {
    match runs.pdftoppm
    case FailedToRun(e) => Err(e)
    case Exited(code, _, err) =>
      if code != 0 then Err(RuntimeError("pdftoppm failed: " + err))
      else Gather(runs.tesseract, OcrStep)
  }

  /** `extract_text_with_tesseract`, one image at a time. */
  method ExtractTextWithTesseract(runs: OcrRuns) returns (r: Result<seq<string>, Exception>)
    ensures r == Ocr(runs)
  {
    if runs.pdftoppm.FailedToRun? {
      return Err(runs.pdftoppm.exc);
    }
    if runs.pdftoppm.returncode != 0 {
      return Err(RuntimeError("pdftoppm failed: " + runs.pdftoppm.stderr));
    }
    var pagesText: seq<string> := [];
    for i := 0 to |runs.tesseract|
      invariant Gather(runs.tesseract[..i], OcrStep).Ok?
      invariant Gather(runs.tesseract[..i], OcrStep).value == pagesText
    {
      var tess := runs.tesseract[i];
      assert runs.tesseract[..i + 1][..i] == runs.tesseract[..i];
      if tess.FailedToRun? {
        GatherErrPersists(runs.tesseract, i + 1, OcrStep);
        return Err(tess.exc);
      }
      if tess.returncode != 0 {
        GatherErrPersists(runs.tesseract, i + 1, OcrStep);
        return Err(RuntimeError("tesseract failed: " + tess.stderr));
      }
      pagesText := pagesText + [Strip(tess.stdout)];
    }
    assert runs.tesseract[..|runs.tesseract|] == runs.tesseract;
    OkOf(Ocr(runs), pagesText);
    r := Ok(pagesText);
  }

  /**
    * OCR keeps one page per image, in image order, blank ones included;
    * any failing run makes it fail.
    */
  lemma OcrOnePagePerImage(runs: OcrRuns)
    requires Ocr(runs).Ok?
    ensures runs.pdftoppm.Exited? && runs.pdftoppm.returncode == 0
    ensures |Ocr(runs).value| == |runs.tesseract|
    ensures forall k :: 0 <= k < |runs.tesseract| ==>
      runs.tesseract[k].Exited? && runs.tesseract[k].returncode == 0
      && Ocr(runs).value[k] == Strip(runs.tesseract[k].stdout)
  {
    AllYieldOk(runs.tesseract, OcrStep, (run: ProcessRun, page: string) => [page]);
  }

  // --------------------------------------------------------------- fallback

  /** Whether pdftotext's pages are accepted: some page is longer than 40 characters. */
  predicate MostlyText(pages: seq<string>) {
    pages != [] && exists k :: 0 <= k < |pages| && |pages[k]| > 40
  }

  const OcrToolsMissing: string := "pdftoppm and tesseract are required for OCR fallback"

  /** How `extract_pdf_text` reports the OCR strategy's outcome. */
  function OcrOutcome(runs: OcrRuns): Result<seq<string>, Exception> {
    match Ocr(runs)
    case Err(FileNotFoundError) => Err(RuntimeError(OcrToolsMissing))
    case other => other
  }

  /**
    * `extract_pdf_text`: pypdf's pages if there are any; otherwise
    * pdftotext's if they look like text; otherwise OCR's pages or error.
    * `pypdf` is the page texts pypdf found, or the exception it raised.
    */
  function ExtractPdfText(pypdf: Result<seq<Option<string>>, Exception>, poppler: ProcessRun, ocr: OcrRuns)
    : Result<seq<string>, Exception>
  {
    if pypdf.Ok? && Cleaned(OrEmpty(pypdf.value)) != [] then Ok(Cleaned(OrEmpty(pypdf.value)))
    else
      match ExtractTextWithPoppler(poppler)
      case Ok(pages) =>
        if MostlyText(pages) then Ok(pages) else OcrOutcome(ocr)
      case Err(_) => OcrOutcome(ocr)
  }

  /** When pypdf finds text its pages are the answer, whatever the external programs would have done. */
  lemma PypdfFirst(texts: seq<Option<string>>, poppler: ProcessRun, ocr: OcrRuns, poppler': ProcessRun, ocr': OcrRuns)
    requires Cleaned(OrEmpty(texts)) != []
    ensures ExtractPdfText(Ok(texts), poppler, ocr) == ExtractPdfText(Ok(texts), poppler', ocr')
    ensures ExtractPdfText(Ok(texts), poppler, ocr).Ok?
    ensures ExtractPdfText(Ok(texts), poppler, ocr).value == Cleaned(OrEmpty(texts))
  {
  }

  /** A pypdf exception of any kind, and a pypdf result with no text, are alike: pdftotext is tried next. */
  lemma PypdfFailureSwallowed(e: Exception, texts: seq<Option<string>>, poppler: ProcessRun, ocr: OcrRuns)
    requires forall k :: 0 <= k < |texts| ==> Strip(texts[k].GetOr("")) == []
    ensures ExtractPdfText(Err(e), poppler, ocr) == ExtractPdfText(Ok(texts), poppler, ocr)
  {
    CleanedEmpty(OrEmpty(texts));
  }

  /**
    * Without pypdf text, pdftotext's pages are the answer exactly when it
    * exited cleanly and some page is longer than 40 characters; otherwise
    * OCR decides, including when pdftotext failed or timed out.
    */
  lemma PopplerSecond(pypdf: Result<seq<Option<string>>, Exception>, poppler: ProcessRun, ocr: OcrRuns)
    requires pypdf.Err? || Cleaned(OrEmpty(pypdf.value)) == []
    ensures ExtractTextWithPoppler(poppler).Ok? && MostlyText(ExtractTextWithPoppler(poppler).value) ==>
      ExtractPdfText(pypdf, poppler, ocr) == ExtractTextWithPoppler(poppler)
    ensures !(ExtractTextWithPoppler(poppler).Ok? && MostlyText(ExtractTextWithPoppler(poppler).value)) ==>
      ExtractPdfText(pypdf, poppler, ocr) == OcrOutcome(ocr)
  {
  }

  /**
    * Only OCR can make the extraction fail. A missing OCR program is
    * reported as a RuntimeError naming both programs; every other OCR
    * failure is passed on unchanged; a FileNotFoundError never escapes.
    */
  lemma OnlyOcrFails(pypdf: Result<seq<Option<string>>, Exception>, poppler: ProcessRun, ocr: OcrRuns)
    requires ExtractPdfText(pypdf, poppler, ocr).Err?
    ensures ExtractPdfText(pypdf, poppler, ocr) == OcrOutcome(ocr)
    ensures Ocr(ocr).Err?
    ensures ExtractPdfText(pypdf, poppler, ocr).error
         == (if Ocr(ocr).error == FileNotFoundError then RuntimeError(OcrToolsMissing) else Ocr(ocr).error)
    ensures ExtractPdfText(pypdf, poppler, ocr).error != FileNotFoundError
  {
  }
}
