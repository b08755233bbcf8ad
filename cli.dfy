/** The response formatter of aigrok/cli.py: `format_metadata`,
    `clean_llm_response`, `format_output` and the `process_file` wrapper
    around the document processor. `json.loads` and `json.dumps(indent=2)`
    are supplied as a `JsonCodec`. */
module Cli {
  import opened Wrappers
  import opened Text
  import opened Fences
  import opened PdfProcessing

  // ---------------------------------------------------------------------
  // JSON, as far as the formatter sees it

  /** A value as `json.loads` builds it; objects keep their key order. */
  datatype Json =
    | JNull
    | JBool(b: bool)
    | JInt(i: int)
    | JString(s: string)
    | JArray(items: seq<Json>)
    | JObject(members: seq<(string, Json)>)

  /** `json.loads` (`None` where it raises) and `json.dumps(..., indent=2)`. */
  datatype JsonCodec = JsonCodec(loads: string -> Option<Json>, dumps: Json -> string)

  function Keys(members: seq<(string, Json)>): seq<string> {
    seq(|members|, k requires 0 <= k < |members| => members[k].0)
  }

  function OptionalString(s: Option<string>): Json {
    if s.Some? then JString(s.value) else JNull
  }

  /** The metadata dictionary as an object, every entry kept. */
  function MetadataJson(metadata: Option<Metadata>): (j: Json)
    ensures metadata.None? <==> j == JNull
    ensures metadata.Some? ==> j.JObject? && |j.members| == |metadata.value|
    ensures metadata.Some? ==> forall k :: 0 <= k < |metadata.value| ==>
      j.members[k] == (metadata.value[k].0, JString(metadata.value[k].1))
  {
    if metadata.None? then JNull
    else
      var md := metadata.value;
      JObject(seq(|md|, k requires 0 <= k < |md| => (md[k].0, JString(md[k].1))))
  }

  /** The fallback object of the json format: exactly five keys, in this
      order, with `None` fields as `null`. */
  function ResultObject(r: ProcessingResult): (j: Json)
    ensures j.JObject? && Keys(j.members) == ["success", "text", "metadata", "page_count", "llm_response"]
    ensures j.members[0].1 == JBool(r.success)
    ensures j.members[1].1 == OptionalString(r.text)
    ensures j.members[2].1 == MetadataJson(r.metadata)
    ensures j.members[3].1 == JInt(r.pageCount)
    ensures j.members[4].1 == OptionalString(r.llmResponse)
  {
    var members := [
      ("success", JBool(r.success)),
      ("text", OptionalString(r.text)),
      ("metadata", MetadataJson(r.metadata)),
      ("page_count", JInt(r.pageCount)),
      ("llm_response", OptionalString(r.llmResponse))];
    assert Keys(members) == ["success", "text", "metadata", "page_count", "llm_response"];
    JObject(members)
  }

  // ---------------------------------------------------------------------
  // Metadata entries with a value

  /** The entries whose value is truthy (`if v`), in iteration order. */
  function Kept(md: Metadata): (r: Metadata)
    ensures |r| <= |md|
    decreases |md|
  {
    if |md| == 0 then []
    else
      var last := md[|md| - 1];
      Kept(md[..|md| - 1]) + (if last.1 != "" then [last] else [])
  }

  /** An entry is kept exactly when it is in the metadata with a non-empty
      value. */
  lemma {:induction false} KeptIff(md: Metadata, e: (string, string))
    ensures e in Kept(md) <==> e in md && e.1 != ""
    decreases |md|
  {
    if |md| > 0 {
      var init := md[..|md| - 1];
      assert md == init + [md[|md| - 1]];
      KeptIff(init, e);
    }
  }

  /** With every value non-empty nothing is dropped. */
  lemma {:induction false} KeptAll(md: Metadata)
    requires forall k :: 0 <= k < |md| ==> md[k].1 != ""
    ensures Kept(md) == md
    decreases |md|
  {
    if |md| > 0 {
      var init := md[..|md| - 1];
      KeptAll(init);
      assert md == init + [md[|md| - 1]];
    }
  }

  lemma KeptStep(md: Metadata, i: nat)
    requires i < |md|
    ensures Kept(md[..i + 1]) == Kept(md[..i]) + (if md[i].1 != "" then [md[i]] else [])
  {
    assert md[..i + 1][..i] == md[..i];
  }

  function MetadataLine(e: (string, string)): string {
    "- " + e.0 + ": " + e.1
  }

  function CsvRow(e: (string, string)): string {
    e.0 + "," + e.1
  }

  function MetadataLines(md: Metadata): seq<string> {
    var kept := Kept(md);
    seq(|kept|, k requires 0 <= k < |kept| => MetadataLine(kept[k]))
  }

  function CsvRows(md: Metadata): seq<string> {
    var kept := Kept(md);
    seq(|kept|, k requires 0 <= k < |kept| => CsvRow(kept[k]))
  }

  // ---------------------------------------------------------------------
  // format_metadata and clean_llm_response

  const NoMetadata := "- No metadata available"

  /** `format_metadata`: the placeholder for absent or empty metadata,
      otherwise one `- k: v` line per entry with a value. */
  function FormatMetadata(metadata: Option<Metadata>): string {
    if metadata.None? || metadata.value == [] then NoMetadata
    else Join("\n", MetadataLines(metadata.value))
  }

  /** `clean_llm_response`. */
  function CleanLlmResponse(response: string, formatType: string): string {
    if formatType == "json" then StripFence(response, JsonBlock)
    else if formatType == "csv" then StripFence(response, CsvBlock)
    else response
  }

  // ---------------------------------------------------------------------
  // format_output

  /** `f"Error: {result.error}"`. */
  function ErrorText(r: ProcessingResult): string {
    "Error: " + (if r.error.Some? then r.error.value else "None")
  }

  /** The json branch: the cleaned response re-serialised when it parses,
      otherwise the serialised five-key object. */
  function JsonOutput(r: ProcessingResult, codec: JsonCodec): string {
    var fallback := codec.dumps(ResultObject(r));
    if Truthy(r.llmResponse) then
      match codec.loads(CleanLlmResponse(r.llmResponse.value, "json"))
      case Some(parsed) => codec.dumps(parsed)
      case None => fallback
    else fallback
  }

  /** The csv fallback: a header line and one `k,v` line per entry with a
      value, joined by newlines. */
  function CsvTable(metadata: Option<Metadata>): string {
    Join("\n", ["key,value"] + (if metadata.Some? then CsvRows(metadata.value) else []))
  }

  function CsvOutput(r: ProcessingResult): string {
    if Truthy(r.llmResponse) then CleanLlmResponse(r.llmResponse.value, "csv") else CsvTable(r.metadata)
  }

  const Title := "# Document Analysis Results"
  const MetadataHeading := "## Metadata"
  const TextHeading := "## Extracted Text"
  const AnalysisHeading := "## LLM Analysis"
  const NoText := "No text extracted"
  const NoAnalysis := "No analysis performed"

  /** `value if value else placeholder` on an optional string. */
  function OrElse(s: Option<string>, placeholder: string): string {
    if Truthy(s) then s.value else placeholder
  }

  /** The metadata part of the markdown template, with its own guard. */
  function MarkdownMetadata(metadata: Option<Metadata>): string {
    if metadata.Some? && metadata.value != [] then FormatMetadata(metadata) else NoMetadata
  }

  /** The lines of the markdown template around its four fillings; the
      last, empty line gives the template its final newline. */
  function TemplateLines(pages: string, metadata: string, text: string, analysis: string): seq<string> {
    [Title, "", MetadataHeading, "- Pages: " + pages, metadata, "",
     TextHeading, text, "", AnalysisHeading, analysis, ""]
  }

  function Template(pages: string, metadata: string, text: string, analysis: string): string {
    Join("\n", TemplateLines(pages, metadata, text, analysis))
  }

  function Markdown(r: ProcessingResult): string {
    Template(NatToDecimal(r.pageCount), MarkdownMetadata(r.metadata),
             OrElse(r.text, NoText), OrElse(r.llmResponse, NoAnalysis))
  }

  /** The text format, which is also what any unknown format gets. */
  function TextOutput(r: ProcessingResult): string {
    if Truthy(r.llmResponse) then CleanLlmResponse(r.llmResponse.value, "text") else OrElse(r.text, "")
  }

  /** `format_output(result, format_type)`. */
  function Formatted(r: ProcessingResult, formatType: string, codec: JsonCodec): string {
    if !r.success then ErrorText(r)
    else if formatType == "json" then JsonOutput(r, codec)
    else if formatType == "csv" then CsvOutput(r)
    else if formatType == "markdown" then Markdown(r)
    else TextOutput(r)
  }

  /** The csv fallback as the source builds it: a `rows` list extended one
      entry at a time, then joined. */
  method CsvFallback(metadata: Option<Metadata>) returns (out: string)
    ensures out == CsvTable(metadata)
  {
    var rows := ["key,value"];
    if metadata.Some? && metadata.value != [] {
      var md := metadata.value;
      var i := 0;
      while i < |md|
        invariant 0 <= i <= |md|
        invariant rows == ["key,value"] + CsvRows(md[..i])
      {
        var (k, v) := md[i];
        KeptStep(md, i);
        if v != "" {
          rows := rows + [k + "," + v];
        }
        i := i + 1;
      }
      assert md[..|md|] == md;
    }
    out := Join("\n", rows);
  }

  /** `format_output`. */
  method FormatOutput(r: ProcessingResult, formatType: string, codec: JsonCodec) returns (out: string)
    ensures out == Formatted(r, formatType, codec)
  {
    if !r.success {
      return ErrorText(r);
    }
    if formatType == "json" {
      out := JsonOutput(r, codec);
    } else if formatType == "csv" {
      if Truthy(r.llmResponse) {
        out := CleanLlmResponse(r.llmResponse.value, formatType);
      } else {
        out := CsvFallback(r.metadata);
      }
    } else if formatType == "markdown" {
      out := Markdown(r);
    } else {
      out := TextOutput(r);
    }
  }

  // ---------------------------------------------------------------------
  // process_file

  /** What `processor.process_file` did: returned a result or raised. */
  datatype ProcessorRun = Returned(result: ProcessingResult) | Raised(message: string)

  /** The result as formatted, after the metadata-only projection. */
  function Shown(r: ProcessingResult, metadataOnly: bool): ProcessingResult {
    if metadataOnly then r.(text := None) else r
  }

  /** The part of `cli.process_file` after the processor call: blank the
      text when only metadata is wanted, format, and turn an exception into
      `None`. */
  method PresentRun(run: ProcessorRun, metadataOnly: bool, formatType: string, codec: JsonCodec)
    returns (out: Option<string>)
    ensures run.Raised? ==> out == None
    ensures run.Returned? ==> out == Some(Formatted(Shown(run.result, metadataOnly), formatType, codec))
  {
    match run
    case Raised(_) =>
      out := None;
    case Returned(result) =>
      var shown := result;
      if metadataOnly {
        shown := shown.(text := None);
      }
      var formatted := FormatOutput(shown, formatType, codec);
      out := Some(formatted);
  }

  /** `cli.process_file` with a processor set up around `llm`. */
  method ProcessFile(path: string, fileExists: bool, reader: Reader,
                     prompt: Option<string>, model: Option<string>,
                     metadataOnly: bool, formatType: string,
                     llm: Service, codec: JsonCodec)
    returns (out: Option<string>)
    ensures out == Some(Formatted(Shown(Processed(llm, path, fileExists, reader, prompt, model), metadataOnly),
                                  formatType, codec))
    ensures ExtractionOutcome(path, fileExists, reader, prompt).Err? ==>
      out == Some("Error: " + ExtractionOutcome(path, fileExists, reader, prompt).message)
    ensures ExtractionOutcome(path, fileExists, reader, prompt).Ok? && metadataOnly
            && !(Truthy(prompt) && llm.Some?) && formatType == "text" ==>
      out == Some("")
  {
    var processor := new PdfProcessor(llm);
    var result := processor.ProcessFile(path, fileExists, reader, prompt, model);
    CommandOutput(llm, path, fileExists, reader, prompt, model, metadataOnly, formatType, codec);
    out := PresentRun(Returned(result), metadataOnly, formatType, codec);
  }

  /** What the command prints for a document that cannot be processed, and
      for a metadata-only text query without analysis. */
  lemma CommandOutput(llm: Service, path: string, fileExists: bool, reader: Reader,
                      prompt: Option<string>, model: Option<string>,
                      metadataOnly: bool, formatType: string, codec: JsonCodec)
    ensures var outcome := ExtractionOutcome(path, fileExists, reader, prompt);
      var out := Formatted(Shown(Processed(llm, path, fileExists, reader, prompt, model), metadataOnly),
                           formatType, codec);
      && (outcome.Err? ==> out == "Error: " + outcome.message)
      && (outcome.Ok? && metadataOnly && !(Truthy(prompt) && llm.Some?) && formatType == "text" ==>
            out == "")
  {
    ProcessedSpec(llm, path, fileExists, reader, prompt, model);
  }

  // ---------------------------------------------------------------------
  // Properties of the formats

  /** A failed result prints its error whatever the format. */
  lemma ErrorForEveryFormat(r: ProcessingResult, formatType: string, codec: JsonCodec)
    requires !r.success && r.error.Some?
    ensures Formatted(r, formatType, codec) == "Error: " + r.error.value
  {
  }

  /** Text and unknown formats: the response untouched when there is one,
      else the text, else nothing. */
  lemma TextFormat(r: ProcessingResult, formatType: string, codec: JsonCodec)
    requires r.success && formatType !in {"json", "csv", "markdown"}
    ensures Truthy(r.llmResponse) ==> Formatted(r, formatType, codec) == r.llmResponse.value
    ensures !Truthy(r.llmResponse) && Truthy(r.text) ==> Formatted(r, formatType, codec) == r.text.value
    ensures !Truthy(r.llmResponse) && !Truthy(r.text) ==> Formatted(r, formatType, codec) == ""
  {
  }

  /** Csv format with a fenced response: the trimmed text between the first
      usable fence (and its `csv` tag) and the next fence. */
  lemma CsvFormatFenced(r: ProcessingResult, codec: JsonCodec, i: nat, f: nat)
    requires r.success && Truthy(r.llmResponse)
    requires CsvBlockAt(r.llmResponse.value, i, f)
    requires forall i' :: 0 <= i' < i ==> !CsvOpensAt(r.llmResponse.value, i')
    ensures var s := r.llmResponse.value;
      Formatted(r, "csv", codec) == Trim(s[AfterTag(s, i, "csv")..f])
  {
    CsvStripFound(r.llmResponse.value, i, f);
  }

  /** Csv format with a response that has no pair of fences: unchanged. */
  lemma CsvFormatUnfenced(r: ProcessingResult, codec: JsonCodec)
    requires r.success && Truthy(r.llmResponse)
    requires forall i :: 0 <= i <= |r.llmResponse.value| ==> !CsvOpensAt(r.llmResponse.value, i)
    ensures Formatted(r, "csv", codec) == r.llmResponse.value
  {
    CsvStripNotFound(r.llmResponse.value);
  }

  /** The csv fallback is the header followed by a newline and a row for
      every entry with a value, and no trailing newline. */
  lemma CsvTableShape(md: Metadata)
    ensures CsvTable(Some(md)) == "key,value" + Prefixed("\n", CsvRows(md))
    ensures CsvTable(None) == "key,value"
    ensures forall row :: row in CsvRows(md) <==> exists e :: e in Kept(md) && row == CsvRow(e)
  {
    JoinHeadTail("\n", "key,value", CsvRows(md));
    assert ["key,value"] + [] == ["key,value"];
    var kept := Kept(md);
    forall row | row in CsvRows(md)
      ensures exists e :: e in kept && row == CsvRow(e)
    {
      var k :| 0 <= k < |kept| && CsvRows(md)[k] == row;
      assert kept[k] in kept;
    }
    forall e | e in kept
      ensures CsvRow(e) in CsvRows(md)
    {
      var k :| 0 <= k < |kept| && kept[k] == e;
      assert CsvRows(md)[k] == CsvRow(e);
    }
  }

  /** Csv format without a response uses the fallback. */
  lemma CsvFormatFallback(r: ProcessingResult, codec: JsonCodec)
    requires r.success && !Truthy(r.llmResponse)
    ensures r.metadata.Some? ==>
      Formatted(r, "csv", codec) == "key,value" + Prefixed("\n", CsvRows(r.metadata.value))
    ensures r.metadata.None? ==> Formatted(r, "csv", codec) == "key,value"
  {
    if r.metadata.Some? {
      CsvTableShape(r.metadata.value);
    } else {
      CsvTableShape([]);
    }
  }

  /** Json format: the re-serialised response when the cleaned response
      parses, otherwise the serialised five-key object. */
  lemma JsonFormat(r: ProcessingResult, codec: JsonCodec)
    requires r.success
    ensures Truthy(r.llmResponse) && codec.loads(StripFence(r.llmResponse.value, JsonBlock)).Some? ==>
      Formatted(r, "json", codec) == codec.dumps(codec.loads(StripFence(r.llmResponse.value, JsonBlock)).value)
    ensures !Truthy(r.llmResponse) || codec.loads(StripFence(r.llmResponse.value, JsonBlock)).None? ==>
      Formatted(r, "json", codec) == codec.dumps(ResultObject(r))
  {
  }

  /** Json cleaning of a response holding one fenced, tagged block whose
      bracketed body has no backquote: the body itself. */
  lemma JsonFencedBody(a: string, body: string, b: string)
    requires AllSpace(a) && AllSpace(b)
    requires |body| >= 2 && (body[0] == '[' || body[0] == '{')
    requires body[|body| - 1] == Closer(body[0])
    requires '`' !in body
    ensures CleanLlmResponse("```json" + a + body + b + "```", "json") == body
  {
    var s := "```json" + a + body + b + "```";
    var q := 7 + |a|;
    var c := q + |body|;
    var f := c + |b|;
    assert s[..3] == "```" && s[3..7] == "json";
    assert s[7..q] == a && s[q..c] == body && s[c..f] == b && s[f..] == "```";
    assert FenceAt(s, 0) && AfterTag(s, 0, "json") == 7;
    assert JsonOpens(s, 0, q);
    assert FenceAt(s, f);
    assert JsonCloses(s, q, c);
    forall c' | q + 2 <= c' < c
      ensures !JsonCloses(s, q, c')
    {
      NotClosedInside(s, q, c, c');
    }
    JsonStripFound(s, 0, q, c);
  }

  /** Inside a body without backquotes, with a non-space last character, no
      white space run reaches a fence. */
  lemma NotClosedInside(s: string, q: nat, c: nat, c': nat)
    requires q <= c' < c <= |s|
    requires forall k :: q <= k < c ==> s[k] != '`'
    requires !IsSpace(s[c - 1])
    ensures !ClosedBy(s, c')
  {
    forall g: nat | c' <= g <= |s|
      ensures !(AllSpace(s[c'..g]) && FenceAt(s, g))
    {
      FenceHead(s, g);
      SpaceRunHas(s, c', g, c - 1);
    }
  }

  /** Every heading and every filling appears in the template. */
  lemma TemplateSections(pages: string, metadata: string, text: string, analysis: string)
    ensures var out := Template(pages, metadata, text, analysis);
      && Contains(out, Title) && Contains(out, MetadataHeading)
      && Contains(out, TextHeading) && Contains(out, AnalysisHeading)
      && Contains(out, "- Pages: " + pages) && Contains(out, metadata)
      && Contains(out, text) && Contains(out, analysis)
  {
    var lines := TemplateLines(pages, metadata, text, analysis);
    JoinContains("\n", lines, 0);
    JoinContains("\n", lines, 2);
    JoinContains("\n", lines, 3);
    JoinContains("\n", lines, 4);
    JoinContains("\n", lines, 6);
    JoinContains("\n", lines, 7);
    JoinContains("\n", lines, 9);
    JoinContains("\n", lines, 10);
  }

  /** Markdown: the three headings, the page count, the metadata part and the
      text and analysis (or their placeholders) all appear. */
  lemma MarkdownSections(r: ProcessingResult)
    ensures var out := Markdown(r);
      && Contains(out, Title) && Contains(out, MetadataHeading)
      && Contains(out, TextHeading) && Contains(out, AnalysisHeading)
      && Contains(out, "- Pages: " + NatToDecimal(r.pageCount))
      && Contains(out, FormatMetadata(r.metadata))
      && Contains(out, OrElse(r.text, NoText))
      && Contains(out, OrElse(r.llmResponse, NoAnalysis))
  {
    TemplateSections(NatToDecimal(r.pageCount), MarkdownMetadata(r.metadata),
                     OrElse(r.text, NoText), OrElse(r.llmResponse, NoAnalysis));
  }

  /** The template's own metadata guard changes nothing: it is
      `format_metadata` in every case. */
  lemma MarkdownMetadataIsFormatMetadata(metadata: Option<Metadata>)
    ensures MarkdownMetadata(metadata) == FormatMetadata(metadata)
  {
  }

  /** `format_metadata` lists exactly the entries with a value. */
  lemma FormatMetadataLines(md: Metadata)
    requires md != []
    ensures FormatMetadata(Some(md)) == Join("\n", MetadataLines(md))
    ensures forall line :: line in MetadataLines(md) <==> exists e :: e in md && e.1 != "" && line == MetadataLine(e)
  {
    forall line | line in MetadataLines(md)
      ensures exists e :: e in md && e.1 != "" && line == MetadataLine(e)
    {
      var kept := Kept(md);
      var k :| 0 <= k < |kept| && MetadataLines(md)[k] == line;
      KeptIff(md, kept[k]);
    }
    forall e | e in md && e.1 != ""
      ensures MetadataLine(e) in MetadataLines(md)
    {
      KeptIff(md, e);
      var kept := Kept(md);
      var k :| 0 <= k < |kept| && kept[k] == e;
      assert MetadataLines(md)[k] == MetadataLine(e);
    }
  }

  /** With metadata-only output the extracted text never matters. */
  lemma MetadataOnlyHidesText(r: ProcessingResult, text: Option<string>, formatType: string, codec: JsonCodec)
    ensures Formatted(Shown(r, true), formatType, codec) == Formatted(Shown(r.(text := text), true), formatType, codec)
  {
  }

  // ---------------------------------------------------------------------
  // The formatter tests

  function SampleResult(llmResponse: string): ProcessingResult {
    ProcessingResult(true, Some("Sample text"), Some([("author", "Test")]), None, 1, Some(llmResponse), false)
  }

  /** The text format returns the analysis as it is. */
  lemma TextFormatTest(codec: JsonCodec)
    ensures Formatted(SampleResult("Analysis"), "text", codec) == "Analysis"
  {
  }

  /** The markdown format shows the headings, the text and the analysis. */
  lemma MarkdownFormatTest()
    ensures var out := Markdown(SampleResult("Analysis"));
      && Contains(out, "# Document Analysis Results") && Contains(out, "## Metadata")
      && Contains(out, "## Extracted Text") && Contains(out, "Sample text") && Contains(out, "Analysis")
  {
    MarkdownSections(SampleResult("Analysis"));
  }

  const Indent8 := "\n        "
  const Indent12 := "\n            "
  const TitleMember := "\"title\": \"Test Document\","
  const AuthorMember := "\"author\": \"Test Author\""

  /** The object of the test response, line by line. */
  const FencedBody := "{" + Indent12 + TitleMember + Indent12 + AuthorMember + Indent8 + "}"

  /** The json format on a fenced, tagged object: the object's text is what
      gets parsed and re-serialised. */
  lemma JsonFormatTest(codec: JsonCodec)
    requires codec.loads(FencedBody).Some?
    ensures Formatted(SampleResult("```json" + Indent8 + FencedBody + Indent8 + "```"), "json", codec)
            == codec.dumps(codec.loads(FencedBody).value)
  {
    assert AllSpace(Indent8);
    assert '`' !in Indent8 && '`' !in Indent12;
    assert '`' !in TitleMember && '`' !in AuthorMember;
    JsonFencedBody(Indent8, FencedBody, Indent8);
  }

  /** A processor result shown in text format carries the analysis, with
      the words the test looks for. */
  lemma ProcessFileTest(codec: JsonCodec)
    ensures var r := ProcessingResult(true, Some("Test content"), Some([("author", "Test")]), None, 1,
                                      Some("Test content with author info"), false);
      var out := Formatted(Shown(r, false), "text", codec);
      out == "Test content with author info" && Contains(out, "Test content") && Contains(out, "author")
  {
    var out := "Test content with author info";
    assert out[0..12] == "Test content";
    ContainsAt(out, "Test content", 0);
    assert out[18..24] == "author";
    ContainsAt(out, "author", 18);
  }

  /** The csv fallback on one entry with a value and one without. */
  lemma CsvFallbackExample()
    ensures CsvTable(Some([("author", "Test"), ("title", "")])) == "key,value\nauthor,Test"
  {
    var md := [("author", "Test"), ("title", "")];
    assert md[..1] == [("author", "Test")];
    assert md[..1][..0] == [];
    assert Kept(md) == [("author", "Test")];
    assert CsvRow(("author", "Test")) == "author,Test";
    assert CsvRows(md) == ["author,Test"];
    var rows := ["key,value", "author,Test"];
    assert ["key,value"] + CsvRows(md) == rows;
    assert rows[1..] == ["author,Test"];
    assert "key,value" + "\n" + "author,Test" == "key,value\nauthor,Test";
  }
}
