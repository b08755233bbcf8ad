/** The document processor of aigrok/pdf_processor.py: the result record,
    the extraction-depth policy and `PDFProcessor.process_file`, with the
    file-system check, the PDF reader and the language model supplied as
    inputs. */
module PdfProcessing {
  import opened Wrappers
  import opened Text

  /** Document metadata as the reader yields it, in iteration order. */
  type Metadata = seq<(string, string)>

  /** The `ProcessingResult` record. */
  datatype ProcessingResult = ProcessingResult(
    success: bool,
    text: Option<string>,
    metadata: Option<Metadata>,
    error: Option<string>,
    pageCount: nat,
    llmResponse: Option<string>,
    metadataOnly: bool)
  {
    /** Extraction failed: an error and nothing else. */
    predicate Failed() {
      !success && error.Some? && text.None? && metadata.None? && pageCount == 0 && llmResponse.None?
    }

    /** Extraction, and analysis if any was asked for, succeeded. */
    predicate FullySucceeded() {
      success && error.None? && text.Some?
    }

    /** Extraction succeeded but the analysis failed. */
    predicate PartiallySucceeded() {
      success && error.Some? && text.Some? && llmResponse.None?
    }
  }

  /** `ProcessingResult(success=False, error=message)`: every other field at
      its default. */
  function Failure(message: string): (r: ProcessingResult)
    ensures r.Failed() && r.error == Some(message) && !r.metadataOnly
  {
    ProcessingResult(false, None, None, Some(message), 0, None, false)
  }

  /** `Path(path).name`: what follows the last `/`. */
  function FileName(path: string): string {
    path[LastIndexOf(path, '/') + 1..]
  }

  /** `Path(path).suffix`: from the last `.` of the name, provided that dot
      is neither the first nor the last character of the name. */
  function Suffix(path: string): string {
    var name := FileName(path);
    var i := LastIndexOf(name, '.');
    if 0 < i < |name| - 1 then name[i..] else ""
  }

  predicate IsPdfPath(path: string) {
    Lower(Suffix(path)) == ".pdf"
  }

  lemma LowerOfCharIsDot(c: char)
    requires LowerChar(c) == '.'
    ensures c == '.'
  {
  }

  /** The suffix test accepts exactly the names of five or more characters
      that end in `.pdf` in any letter case. */
  lemma PdfPathIff(path: string)
    ensures IsPdfPath(path) <==>
      var name := FileName(path);
      |name| >= 5 && Lower(name[|name| - 4..]) == ".pdf"
  {
    var name := FileName(path);
    var i := LastIndexOf(name, '.');
    if |name| >= 5 && Lower(name[|name| - 4..]) == ".pdf" {
      var n := |name|;
      assert LowerChar(name[n - 4]) == Lower(name[n - 4..])[0];
      LowerOfCharIsDot(name[n - 4]);
      forall j | n - 4 < j < n
        ensures name[j] != '.'
      {
        assert LowerChar(name[j]) == Lower(name[n - 4..])[j - (n - 4)];
      }
      assert i == n - 4;
    }
  }

  /** `prompt and ("title" in prompt.lower() or "author" in prompt.lower())`. */
  predicate AsksTitleOrAuthor(prompt: Option<string>) {
    && Truthy(prompt)
    && (Contains(Lower(prompt.value), "title") || Contains(Lower(prompt.value), "author"))
  }

  /** What `page.extract_text()` gives for one page. */
  datatype PageText = Extracted(text: string) | ExtractFault(message: string)

  /** What `PdfReader(path)` gives: the pages and `reader.metadata`, or the
      message of the exception it raised. */
  datatype Reader =
    | Opened(pages: seq<PageText>, metadata: Option<Metadata>)
    | Unreadable(message: string)

  /** The message of the `IndexError` that `reader.pages[0]` raises for a
      document without pages. */
  const PageIndexError := "sequence index out of range"

  /** How much of the first page a title or author query reads. */
  const FirstPageLimit := 1000

  /** `reader.pages[0].extract_text()[:1000]`. */
  function FirstPageText(pages: seq<PageText>): (r: Result<string>)
    ensures |pages| == 0 ==> r == Err(PageIndexError)
    ensures |pages| > 0 && pages[0].ExtractFault? ==> r == Err(pages[0].message)
    ensures |pages| > 0 && pages[0].Extracted? ==>
      r.Ok? && |r.value| <= FirstPageLimit && IsPrefix(r.value, pages[0].text)
      && (|pages[0].text| <= FirstPageLimit ==> r.value == pages[0].text)
      && (|pages[0].text| > FirstPageLimit ==> r.value == pages[0].text[..FirstPageLimit])
  {
    if |pages| == 0 then Err(PageIndexError)
    else match pages[0]
      case Extracted(t) => Ok(Take(t, FirstPageLimit))
      case ExtractFault(m) => Err(m)
  }

  /** Every page's text followed by a newline, or the first page fault. */
  function AllPagesText(pages: seq<PageText>): Result<string>
    decreases |pages|
  {
    if |pages| == 0 then Ok("")
    else match AllPagesText(pages[..|pages| - 1])
      case Err(m) => Err(m)
      case Ok(t) =>
        match pages[|pages| - 1]
        case Extracted(p) => Ok(t + p + "\n")
        case ExtractFault(m) => Err(m)
  }

  /** The text `process_file` extracts for a prompt. */
  function ExtractText(pages: seq<PageText>, prompt: Option<string>): Result<string> {
    if AsksTitleOrAuthor(prompt) then FirstPageText(pages) else AllPagesText(pages)
  }

  /** Total length of the extracted page texts. */
  function TextLength(pages: seq<PageText>): nat
    decreases |pages|
  {
    if |pages| == 0 then 0
    else TextLength(pages[..|pages| - 1]) + match pages[|pages| - 1]
      case Extracted(p) => |p|
      case ExtractFault(_) => 0
  }

  /** A fault in a prefix of the pages is the fault of the whole document. */
  lemma {:induction false} AllPagesFaultSticks(pages: seq<PageText>, n: nat)
    requires n <= |pages| && AllPagesText(pages[..n]).Err?
    ensures AllPagesText(pages) == AllPagesText(pages[..n])
    decreases |pages| - n
  {
    if n < |pages| {
      assert pages[..n + 1][..n] == pages[..n];
      AllPagesFaultSticks(pages, n + 1);
    } else {
      assert pages[..n] == pages;
    }
  }

  /** The full text is available exactly when no page faults. */
  lemma {:induction false} AllPagesOkIff(pages: seq<PageText>)
    ensures AllPagesText(pages).Ok? <==> forall k :: 0 <= k < |pages| ==> pages[k].Extracted?
    decreases |pages|
  {
    if |pages| > 0 {
      var init := pages[..|pages| - 1];
      AllPagesOkIff(init);
      assert forall k :: 0 <= k < |init| ==> init[k] == pages[k];
    }
  }

  /** A failed full extraction reports the first page that faulted. */
  lemma {:induction false} AllPagesFirstFault(pages: seq<PageText>, m: string)
    requires AllPagesText(pages) == Err(m)
    ensures exists k :: 0 <= k < |pages| && pages[k] == ExtractFault(m)
                        && forall j :: 0 <= j < k ==> pages[j].Extracted?
    decreases |pages|
  {
    var init := pages[..|pages| - 1];
    match AllPagesText(init)
    case Err(_) =>
      AllPagesFirstFault(init, m);
      var k :| 0 <= k < |init| && init[k] == ExtractFault(m)
               && forall j :: 0 <= j < k ==> init[j].Extracted?;
      assert pages[k] == init[k];
      assert forall j :: 0 <= j < k ==> pages[j] == init[j];
    case Ok(_) =>
      AllPagesOkIff(init);
      assert forall j :: 0 <= j < |init| ==> pages[j] == init[j];
  }

  /** The full text is as long as all page texts plus one newline per page. */
  lemma {:induction false} AllPagesLength(pages: seq<PageText>)
    requires AllPagesText(pages).Ok?
    ensures |AllPagesText(pages).value| == TextLength(pages) + |pages|
    decreases |pages|
  {
    if |pages| > 0 {
      AllPagesLength(pages[..|pages| - 1]);
    }
  }

  /** Page `k` of the full text starts after the earlier pages and their
      newlines, and is followed by a newline. */
  lemma {:induction false} AllPagesLayout(pages: seq<PageText>, k: nat)
    requires AllPagesText(pages).Ok? && k < |pages|
    ensures pages[k].Extracted?
    ensures var t := AllPagesText(pages).value;
            var start := TextLength(pages[..k]) + k;
            var p := pages[k].text;
            start + |p| < |t| && t[start..start + |p|] == p && t[start + |p|] == '\n'
    decreases |pages|
  {
    var n := |pages|;
    var init := pages[..n - 1];
    var t := AllPagesText(pages).value;
    var ti := AllPagesText(init).value;
    AllPagesOkIff(pages);
    AllPagesLength(init);
    var p := pages[n - 1].text;
    assert t == ti + p + "\n";
    if k == n - 1 {
      assert pages[..k] == init;
      assert t[|ti|..|ti| + |p|] == p;
    } else {
      assert init[..k] == pages[..k];
      AllPagesLayout(init, k);
      var start := TextLength(pages[..k]) + k;
      assert t[start..start + |pages[k].text|] == ti[start..start + |pages[k].text|];
    }
  }

  /** The extraction step of `process_file` (pdf_processor.py:63-69): the
      first 1000 characters of the first page for a title or author query,
      otherwise every page followed by a newline; a page that cannot be read
      ends the extraction with its message. */
  method ExtractPages(pages: seq<PageText>, prompt: Option<string>) returns (text: Result<string>)
    ensures text == ExtractText(pages, prompt)
  {
    if AsksTitleOrAuthor(prompt) {
      if |pages| == 0 {
        return Err(PageIndexError);
      }
      match pages[0]
      case ExtractFault(m) =>
        return Err(m);
      case Extracted(t) =>
        return Ok(Take(t, FirstPageLimit));
    }
    var acc := "";
    var i := 0;
    while i < |pages|
      invariant 0 <= i <= |pages|
      invariant AllPagesText(pages[..i]) == Ok(acc)
    {
      assert pages[..i + 1][..i] == pages[..i];
      match pages[i]
      case ExtractFault(m) =>
        AllPagesFaultSticks(pages, i + 1);
        return Err(m);
      case Extracted(p) =>
        acc := acc + p + "\n";
      i := i + 1;
    }
    assert pages[..i] == pages;
    return Ok(acc);
  }

  /** What the guards and the extraction of `process_file` leave
      (pdf_processor.py:48-69): the extracted text, or the message the
      result will carry. The guards apply in order: a missing file, then a
      wrong suffix, then an unreadable document, then a page that cannot be
      read. */
  function ExtractionOutcome(path: string, fileExists: bool, reader: Reader, prompt: Option<string>)
    : Result<string>
  {
    if !fileExists then Err("File not found: " + path)
    else if !IsPdfPath(path) then Err("Not a PDF file: " + path)
    else if reader.Unreadable? then Err(reader.message)
    else ExtractText(reader.pages, prompt)
  }

  /** The file check comes first and the suffix check second: each decides
      the outcome whatever the later steps would have found. */
  lemma GuardOrder(path: string, reader: Reader, reader': Reader, prompt: Option<string>)
    ensures ExtractionOutcome(path, false, reader, prompt) == Err("File not found: " + path)
    ensures !IsPdfPath(path) ==>
      ExtractionOutcome(path, true, reader, prompt) == Err("Not a PDF file: " + path)
    ensures IsPdfPath(path) && reader.Unreadable? ==>
      ExtractionOutcome(path, true, reader, prompt) == Err(reader.message)
    ensures IsPdfPath(path) && reader.Opened? && reader'.Opened? && reader.pages == reader'.pages ==>
      ExtractionOutcome(path, true, reader, prompt) == ExtractionOutcome(path, true, reader', prompt)
  {
  }

  /** The arguments of the one call to the generation service. */
  datatype LlmRequest = LlmRequest(prompt: string, model: Option<string>)

  /** `response['response']`, or the message of whatever the call raised. */
  datatype LlmOutcome = Generated(response: string) | GenerateFailed(message: string)

  /** The request `process_file` sends: the prompt and the document text in
      one string, and the model only when one is named. */
  function Request(prompt: string, text: string, model: Option<string>): (r: LlmRequest)
    ensures IsPrefix(prompt, r.prompt) && r.prompt[|prompt|..] == "\n\nDocument text:\n" + text
    ensures r.model.Some? <==> Truthy(model)
    ensures r.model.Some? ==> r.model == model
  {
    LlmRequest(prompt + "\n\nDocument text:\n" + text, if Truthy(model) then model else None)
  }

  const AnalysisFailedPrefix := "PDF text extracted successfully, but analysis failed: "

  /** The generation service as `PDFProcessor` holds it: `generate`, or
      `None` when there is none. */
  type Service = Option<LlmRequest -> LlmOutcome>

  /** The analysis step of `process_file` (pdf_processor.py:79-90): with a
      prompt and a service, one `generate` call whose response fills
      `llm_response`, or whose failure fills `error`. */
  function Analysed(llm: Service, extracted: ProcessingResult, prompt: Option<string>, model: Option<string>)
    : ProcessingResult
    requires extracted.text.Some?
  {
    if Truthy(prompt) && llm.Some? then
      match llm.value(Request(prompt.value, extracted.text.value, model))
      case Generated(response) => extracted.(llmResponse := Some(response))
      case GenerateFailed(message) => extracted.(error := Some(AnalysisFailedPrefix + message))
    else extracted
  }

  /** What `process_file` returns for a processor holding `llm`: the failure
      of the first guard that trips, or the extracted result after the
      analysis step. */
  function Processed(llm: Service, path: string, fileExists: bool, reader: Reader,
                     prompt: Option<string>, model: Option<string>): ProcessingResult
  {
    match ExtractionOutcome(path, fileExists, reader, prompt)
    case Err(message) => Failure(message)
    case Ok(text) =>
      Analysed(llm, ProcessingResult(true, Some(text), reader.metadata, None, |reader.pages|, None, false),
               prompt, model)
  }

  /** `PDFProcessor`, holding the generation service it was set up with. */
  class PdfProcessor {
    /** `self.llm`: the service's `generate`, or `None`. */
    const llm: Service

    constructor (llm: Service)
      ensures this.llm == llm
    {
      this.llm := llm;
    }

    /** `process_file(path, prompt, model)`; `fileExists` is what
        `Path(path).exists()` reports and `reader` what `PdfReader` yields. */
    method ProcessFile(path: string, fileExists: bool, reader: Reader,
                       prompt: Option<string>, model: Option<string>)
      returns (result: ProcessingResult)
      ensures result == Processed(llm, path, fileExists, reader, prompt, model)
    {
      if !fileExists {
        return Failure("File not found: " + path);
      }
      if !IsPdfPath(path) {
        return Failure("Not a PDF file: " + path);
      }
      if reader.Unreadable? {
        return Failure(reader.message);
      }
      var pages := reader.pages;
      var extracted := ExtractPages(pages, prompt);
      if extracted.Err? {
        return Failure(extracted.message);
      }
      var text := extracted.value;
      var extractedResult := ProcessingResult(true, Some(text), reader.metadata, None, |pages|, None, false);
      result := Analyse(extractedResult, prompt, model);
    }

    /** The analysis step as the source performs it: `kwargs` built, then
        given the model when one is named, then the call. */
    method Analyse(extracted: ProcessingResult, prompt: Option<string>, model: Option<string>)
      returns (result: ProcessingResult)
      requires extracted.text.Some?
      ensures result == Analysed(llm, extracted, prompt, model)
    {
      result := extracted;
      if Truthy(prompt) && llm.Some? {
        var kwargs := LlmRequest(prompt.value + "\n\nDocument text:\n" + extracted.text.value, None);
        if Truthy(model) {
          kwargs := kwargs.(model := model);
        }
        match llm.value(kwargs)
        case Generated(response) =>
          result := result.(llmResponse := Some(response));
        case GenerateFailed(message) =>
          result := result.(error := Some(AnalysisFailedPrefix + message));
      }
    }
  }

  /** What `process_file` promises: the guards' failures with every other
      field at its default; on success the text, the reader's metadata and
      the page count; the service called only with a prompt, with the
      request it is given, its response or its failure recorded; and
      always exactly one of the three states. */
  lemma ProcessedSpec(llm: Service, path: string, fileExists: bool, reader: Reader,
                      prompt: Option<string>, model: Option<string>)
    ensures var outcome := ExtractionOutcome(path, fileExists, reader, prompt);
      var result := Processed(llm, path, fileExists, reader, prompt, model);
      && (outcome.Err? ==> result == Failure(outcome.message))
      && (outcome.Ok? ==>
            && result.success
            && result.text == Some(outcome.value)
            && result.metadata == reader.metadata
            && result.pageCount == |reader.pages|
            && !result.metadataOnly)
      && (result.success && !(Truthy(prompt) && llm.Some?) ==>
            result.llmResponse == None && result.error == None)
      && (result.success && Truthy(prompt) && llm.Some? ==>
            match llm.value(Request(prompt.value, result.text.value, model))
            case Generated(response) => result.llmResponse == Some(response) && result.error == None
            case GenerateFailed(message) =>
              result.llmResponse == None && result.error == Some(AnalysisFailedPrefix + message))
      && (result.Failed() || result.FullySucceeded() || result.PartiallySucceeded())
  {
  }

  /** The analysis step changes nothing but `llm_response` and `error`. */
  lemma AnalysedKeepsExtraction(llm: Service, extracted: ProcessingResult, prompt: Option<string>,
                                model: Option<string>)
    requires extracted.text.Some? && extracted.llmResponse == None && extracted.error == None
    ensures Analysed(llm, extracted, prompt, model).(llmResponse := None, error := None) == extracted
  {
  }

  /** Without a prompt, or without a service, a document that can be read
      gives a full success with no analysis, whatever the model name. */
  lemma NoPromptNoAnalysis(llm: Service, path: string, fileExists: bool, reader: Reader,
                           prompt: Option<string>, model: Option<string>)
    ensures var outcome := ExtractionOutcome(path, fileExists, reader, prompt);
      var result := Processed(llm, path, fileExists, reader, prompt, model);
      (!Truthy(prompt) || llm.None?) && outcome.Ok? ==>
        && result.FullySucceeded()
        && result.llmResponse == None
        && result == Processed(llm, path, fileExists, reader, prompt, None)
  {
  }

  /** The three states exclude one another. */
  lemma StatesDisjoint(r: ProcessingResult)
    ensures !(r.Failed() && r.FullySucceeded())
    ensures !(r.Failed() && r.PartiallySucceeded())
    ensures !(r.FullySucceeded() && r.PartiallySucceeded())
  {
  }

  /** A title or author prompt on a document without pages fails with the
      index error, whatever the pages would have said. */
  lemma TitleQueryOnEmptyDocument(prompt: Option<string>)
    requires AsksTitleOrAuthor(prompt)
    ensures ExtractText([], prompt) == Err(PageIndexError)
  {
  }

  /** Any other prompt reads every page: the text holds each page at its
      offset and is as long as the pages plus their newlines. */
  lemma FullTextForOtherPrompts(pages: seq<PageText>, prompt: Option<string>, k: nat)
    requires !AsksTitleOrAuthor(prompt)
    requires forall j :: 0 <= j < |pages| ==> pages[j].Extracted?
    requires k < |pages|
    ensures ExtractText(pages, prompt).Ok?
    ensures var t := ExtractText(pages, prompt).value;
            var start := TextLength(pages[..k]) + k;
            var p := pages[k].text;
            && |t| == TextLength(pages) + |pages|
            && start + |p| < |t| && t[start..start + |p|] == p && t[start + |p|] == '\n'
  {
    AllPagesOkIff(pages);
    AllPagesLength(pages);
    AllPagesLayout(pages, k);
  }
}
