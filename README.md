# aigrok document processor and response formatter, in Dafny

aigrok is a command-line tool. It pulls the text and metadata out of a PDF
file, can hand the text to a language model together with a user prompt, and
prints the outcome as text, JSON, CSV or Markdown. This project models the
two parts that hold its decisions.

- `PDFProcessor.process_file` (aigrok/pdf_processor.py) works in this order:
  - it checks, in order, that the file exists and has a `.pdf` suffix, then opens the document;
  - for a prompt that mentions "title" or "author" it reads at most 1000 characters of the first page, otherwise it reads every page with a newline after each;
  - it fills a `ProcessingResult`;
  - when it has both a prompt and a model service, it makes one call to the service;
  - a failure of that call leaves the extraction in place and records an error.
- The formatter in aigrok/cli.py works like this:
  - `format_metadata` renders the metadata;
  - `clean_llm_response` takes a fenced block out of a model response with two regular expressions;
  - `format_output` renders each output format;
  - the `process_file` wrapper applies the metadata-only projection and turns an exception into `None`.

Files:

- `wrappers.dfy`: `Option`, `Result`, and Python truthiness of an optional string.
- `text.dfy`: the Python `str` operations the code relies on. These are `isspace` (which is what `\s` matches), `strip`, ASCII `lower`, `in`, `rfind`, `[:n]`, `join` and `str(int)`.
- `pdf_processor.dfy`: the `ProcessingResult` record and the three states it can be in. It holds the path, suffix and extraction-depth rules, and the class `PdfProcessor`:
  - its `llm` field;
  - the method `ProcessFile`, whose page loop is proved against `AllPagesText`;
  - the method `Analyse`, which builds `kwargs` step by step.

  Beside the class, `Processed` describes the result as a function of the service and the inputs, and the lemmas about it follow.
- `fences.dfy`: the two `re.search` patterns of `clean_llm_response`.
  - `JsonMatchAt`/`CsvMatchAt` follow the order in which Python's backtracking engine tries a start position: optional tag, then the longest `\s*`, then the shortest `.*?`.
  - `Search` takes the leftmost position that matches.
  - The lemmas prove that this engine view agrees with declarative descriptions that name no search order for the white space and the body: `JsonBlockAt` and `CsvBlockAt`.
  - One choice is shared with the engine: those descriptions take the `json`/`csv` tag whenever it is present (`AfterTag`), which is the engine's first try. Leaving the tag out could not give another match:
    - for json, the untagged try needs white space or a bracket where the tag's `j` stands;
    - for csv, the untagged try needs a later fence, and no fence can start inside the letters `csv`, so the tagged try succeeds with the same closing fence (`CsvTwoFences`).
- `cli.dfy`: the rest of the formatter.
  - `Formatted` specifies `format_output`.
  - The method `FormatOutput` is proved against it. Its csv fallback `CsvFallback` extends a `rows` list in a loop.
  - The method `PresentRun` applies `result.text = None` and maps an exception to `None`.
  - `ProcessFile` puts the processor and the formatter together.

Collaborators are inputs:

- whether the file exists (`fileExists`);
- what `PdfReader` yields (`Reader`: an unreadable document, or pages, each extracted or failing, plus the metadata);
- the model service's `generate` (`llm`, a function from the request to a response or a failure);
- `json.loads`/`json.dumps(indent=2)` (`JsonCodec`).

## Model

| member | source | states |
|---|---|---|
| `PdfProcessing.Failure` | aigrok/pdf_processor.py:49-58 | a guard's result is a failure: `success` false, the given error, no text, metadata or analysis, `page_count` 0 |
| `PdfProcessing.PdfPathIff` | aigrok/pdf_processor.py:54 | the suffix check passes exactly when the file name has at least five characters and its last four, lower-cased, are `.pdf` |
| `PdfProcessing.GuardOrder` | aigrok/pdf_processor.py:48-61 | a missing file fails with `File not found: <path>` whatever the suffix or contents; an existing non-pdf fails with `Not a PDF file: <path>`; an unreadable document fails with the reader's message; the metadata plays no part in whether extraction succeeds |
| `PdfProcessing.FirstPageText` | aigrok/pdf_processor.py:64-65 | the first-page text is all of page 0 when it has at most 1000 characters, and exactly its first 1000 otherwise; with no pages it is the index error, and a failing page 0 gives that page's error |
| `PdfProcessing.TitleQueryOnEmptyDocument` | aigrok/pdf_processor.py:64-65 | a title or author prompt on a document without pages ends in the index error |
| `PdfProcessing.AllPagesOkIff` | aigrok/pdf_processor.py:66-69 | reading every page succeeds exactly when every page's text can be extracted |
| `PdfProcessing.AllPagesFirstFault` | aigrok/pdf_processor.py:66-69 | a failed full read reports the error of the first failing page, with every earlier page readable |
| `PdfProcessing.AllPagesLength` | aigrok/pdf_processor.py:66-69 | the full text is as long as all pages together plus one newline per page |
| `PdfProcessing.AllPagesLayout` | aigrok/pdf_processor.py:66-69 | page k sits in the full text right after the earlier pages and their newlines, and is followed by a newline |
| `PdfProcessing.FullTextForOtherPrompts` | aigrok/pdf_processor.py:63-69 | any prompt that is not a title or author query, no prompt included, reads every page: the length and layout above |
| `PdfProcessing.ExtractPages` | aigrok/pdf_processor.py:63-69 | the text loop, with its accumulated text, gives the extraction-depth rule's result, or the first page failure |
| `PdfProcessing.Request` | aigrok/pdf_processor.py:82-84 | the request prompt is the user prompt, then `\n\nDocument text:\n`, then the text; a model goes with it exactly when one is named |
| `PdfProcessing.PdfProcessor.constructor` | aigrok/pdf_processor.py:25-32 | the processor keeps the service it is given, or none |
| `PdfProcessing.PdfProcessor.Analyse` | aigrok/pdf_processor.py:79-90 | the analysis step as performed (the request built in two steps) is `Analysed` |
| `PdfProcessing.PdfProcessor.ProcessFile` | aigrok/pdf_processor.py:46-99 | `process_file` with its early returns is `Processed` for the processor's service |
| `PdfProcessing.Processed` | aigrok/pdf_processor.py:46-99 | the result as a function: the first failing guard's `Failure`, or the extracted record after `Analysed`; its properties are `ProcessedSpec` and `NoPromptNoAnalysis` |
| `PdfProcessing.Analysed` | aigrok/pdf_processor.py:79-90 | the analysis step as a function of the service; `AnalysedKeepsExtraction` and `ProcessedSpec` state what it changes |
| `PdfProcessing.ExtractionOutcome` | aigrok/pdf_processor.py:48-69 | the guards in order, then the extraction; `GuardOrder` states the order |
| `PdfProcessing.FileName` | aigrok/pdf_processor.py:54 | `Path(path).name`, what follows the last `/`; used by `PdfPathIff` |
| `PdfProcessing.Suffix` | aigrok/pdf_processor.py:54 | `Path(path).suffix`, from the name's last dot when that dot is neither first nor last; used by `PdfPathIff` |
| `PdfProcessing.IsPdfPath` | aigrok/pdf_processor.py:54 | `suffix.lower() == '.pdf'`; `PdfPathIff` characterises it |
| `PdfProcessing.AsksTitleOrAuthor` | aigrok/pdf_processor.py:64 | a truthy prompt whose lower-cased form contains `title` or `author`; `TitleQueryOnEmptyDocument` and `FullTextForOtherPrompts` follow its two branches |
| `PdfProcessing.AllPagesText` | aigrok/pdf_processor.py:66-69 | every page followed by a newline, or the first page fault; `AllPagesOkIff`, `AllPagesFirstFault`, `AllPagesLength` and `AllPagesLayout` pin it down |
| `PdfProcessing.ProcessedSpec` | aigrok/pdf_processor.py:46-99 | each guard's failure comes with default fields. On success: the text, the reader's metadata (whatever the prompt) and `page_count` = number of pages. With no prompt or no service there is no analysis and no error. Otherwise the service is called with the request above: its response becomes `llm_response`, or its failure becomes `PDF text extracted successfully, but analysis failed: <msg>`. The result is always failed, fully successful or partially successful |
| `PdfProcessing.AnalysedKeepsExtraction` | aigrok/pdf_processor.py:87-90 | the analysis step changes only `llm_response` and `error`: text, metadata, page count and success stay as extracted |
| `PdfProcessing.NoPromptNoAnalysis` | aigrok/pdf_processor.py:71-92 | without a prompt or without a service, a readable document gives a full success with no analysis, and the model name makes no difference |
| `PdfProcessing.StatesDisjoint` | aigrok/pdf_processor.py:11-20 | failed, fully successful and partially successful exclude one another |
| `Text.Trim` | aigrok/cli.py:90 | `strip()` returns no longer a string, with no white space at either end |
| `Text.TrimPadded` | aigrok/cli.py:96 | `strip()` ignores any white space added around the string |
| `Text.Take` | aigrok/pdf_processor.py:65 | `[:n]` is the whole string when it has at most n characters, and exactly its first n otherwise |
| `Text.NatToDecimal` | aigrok/cli.py:138 | `str(page_count)` is a non-empty run of digits with a leading zero only for 0 |
| `Text.DecimalRoundTrip` | aigrok/cli.py:138 | reading the printed page count back gives the page count |
| `Fences.JsonMatchAt` | aigrok/cli.py:88 | the json pattern tried at one start position, in the engine's order, with a capture inside the string; `JsonMatchIff` characterises it |
| `Fences.CsvMatchAt` | aigrok/cli.py:94 | the csv pattern tried at one start position, in the engine's order, with a capture inside the string; `CsvMatchIff` characterises it |
| `Fences.StripFence` | aigrok/cli.py:88-97 | the stripped capture of the leftmost match, or the response; `JsonStripFound`, `JsonStripNotFound`, `JsonStripShape`, `CsvStripFound` and `CsvStripNotFound` state its results |
| `Fences.Search` | aigrok/cli.py:88 | `re.search` returns the leftmost start position at which the pattern matches, with that position's capture |
| `Fences.ClosesAtIff` | aigrok/cli.py:88 | the greedy `\s*` then a fence succeeds exactly when some run of white space ends where a fence starts |
| `Fences.JsonMatchIff` | aigrok/cli.py:88 | the json pattern matches at a position exactly when a fence, optional `json` tag and white space lead there to a bracket, and the matching closing bracket is later followed by white space and a fence |
| `Fences.JsonBlockUnique` | aigrok/cli.py:88 | at one start position the json capture is unique |
| `Fences.JsonStripFound` | aigrok/cli.py:88-90 | json cleaning returns the shortest bracketed block of the leftmost fence where one exists |
| `Fences.JsonStripNotFound` | aigrok/cli.py:91 | with no such block the response is returned unchanged |
| `Fences.JsonStripShape` | aigrok/cli.py:88-91 | json cleaning returns the response, or a substring of it that starts with `[` and ends with `]`, or starts with `{` and ends with `}` |
| `Fences.CsvMatchIff` | aigrok/cli.py:94 | the csv pattern matches at a position exactly when a fence starts there and another fence follows after its optional `csv` tag |
| `Fences.CsvStripFound` | aigrok/cli.py:94-96 | csv cleaning returns the stripped text between the leftmost such fence (after its `csv` tag) and the next fence |
| `Fences.CsvStripNotFound` | aigrok/cli.py:97 | without two such fences the response is returned unchanged |
| `Fences.CsvTwoFences` | aigrok/cli.py:94 | two fences that do not overlap are enough for the csv pattern |
| `Cli.MetadataJson` | aigrok/cli.py:119 | the metadata goes into the json fallback with every entry, in order, or as `null` |
| `Cli.ResultObject` | aigrok/cli.py:116-122 | the json fallback object has exactly the keys `success`, `text`, `metadata`, `page_count`, `llm_response`, holding the result's fields, with `null` for `None` |
| `Cli.KeptIff` | aigrok/cli.py:82 | an entry is listed exactly when it is in the metadata and its value is non-empty |
| `Cli.KeptAll` | aigrok/cli.py:131 | when every value is non-empty, every entry is listed, in order |
| `Cli.FormatMetadata` | aigrok/cli.py:78-82 | the placeholder for absent or empty metadata, otherwise the lines of the entries with a value; `FormatMetadataLines` states its lines |
| `Cli.CleanLlmResponse` | aigrok/cli.py:84-98 | the json pattern for `json`, the csv pattern for `csv`, and any other format untouched; the strip lemmas of `StripFence` state the results |
| `Cli.FormatMetadataLines` | aigrok/cli.py:78-82 | `format_metadata` joins one `- k: v` line per entry with a value, and has no other lines |
| `Cli.CsvFallback` | aigrok/cli.py:128-132 | the `rows` loop produces the csv table |
| `Cli.CsvTableShape` | aigrok/cli.py:128-132 | the csv table is `key,value` followed by a newline and `k,v` for each entry with a value, and nothing after the last row |
| `Cli.CsvFallbackExample` | aigrok/cli.py:128-132 | `{author: Test, title: ""}` gives `key,value\nauthor,Test` |
| `Cli.Formatted` | aigrok/cli.py:100-150 | the error text for a failed result, otherwise the branch of the format; `ErrorForEveryFormat`, `JsonFormat`, the csv lemmas, `MarkdownSections` and `TextFormat` state each branch |
| `Cli.ErrorText` | aigrok/cli.py:102-103 | `Error: ` and the error, or `None` without one; `ErrorForEveryFormat` uses it |
| `Cli.JsonOutput` | aigrok/cli.py:105-122 | the json branch; `JsonFormat` and `JsonFencedBody` state it |
| `Cli.CsvOutput` | aigrok/cli.py:124-132 | the csv branch; `CsvFormatFenced`, `CsvFormatUnfenced` and `CsvFormatFallback` state it |
| `Cli.Markdown` | aigrok/cli.py:134-146 | the markdown template; `MarkdownSections` states what it shows |
| `Cli.TextOutput` | aigrok/cli.py:147-150 | the text branch; `TextFormat` states it |
| `Cli.FormatOutput` | aigrok/cli.py:100-150 | `format_output` as performed is `Formatted` |
| `Cli.ErrorForEveryFormat` | aigrok/cli.py:102-103 | a failed result prints `Error: <error>` whatever the format |
| `Cli.TextFormat` | aigrok/cli.py:147-150 | text and unknown formats return a non-empty model response untouched, otherwise the text, otherwise the empty string |
| `Cli.JsonFormat` | aigrok/cli.py:105-122 | json format re-serialises the cleaned response when it parses, and otherwise, or without a response, serialises the five-key object |
| `Cli.JsonFencedBody` | aigrok/cli.py:88-90 | a response that is one `json`-tagged fenced block around a bracketed body with no backquote is cleaned to that body |
| `Cli.CsvFormatFenced` | aigrok/cli.py:124-127 | csv format with a fenced response prints the stripped interior up to the next fence |
| `Cli.CsvFormatUnfenced` | aigrok/cli.py:124-127 | csv format with a response lacking two fences prints it unchanged |
| `Cli.CsvFormatFallback` | aigrok/cli.py:124-132 | csv format without a response prints the csv table, or just `key,value` without metadata |
| `Cli.TemplateSections` | aigrok/cli.py:135-146 | every heading and every filling of the markdown template appears in it |
| `Cli.MarkdownSections` | aigrok/cli.py:134-146 | markdown shows the document heading, the `## Metadata`, `## Extracted Text` and `## LLM Analysis` headings, `- Pages: <n>`, the metadata lines, and the text and the analysis, or `No text extracted` / `No analysis performed` in their place |
| `Cli.MarkdownMetadataIsFormatMetadata` | aigrok/cli.py:139 | the template's own metadata guard always gives what `format_metadata` gives |
| `Cli.Shown` | aigrok/cli.py:162-163 | the result with its text blanked in metadata-only mode; `MetadataOnlyHidesText` states it |
| `Cli.PresentRun` | aigrok/cli.py:162-169 | a processor that raised gives `None`; otherwise the formatted result, with the text blanked first in metadata-only mode |
| `Cli.MetadataOnlyHidesText` | aigrok/cli.py:162-165 | in metadata-only mode the output does not depend on the extracted text |
| `Cli.ProcessFile` | aigrok/cli.py:152-169 | the command prints `Formatted` of `Processed` for the given service, after the metadata-only projection: never `None` when the processor returns, `Error: <message>` when extraction fails, and the empty string in metadata-only text mode without analysis |
| `Cli.CommandOutput` | aigrok/cli.py:152-169 | the composed output is `Error: <message>` for a document that cannot be processed, and empty in metadata-only text mode without analysis |
| `Cli.TextFormatTest` | tests/test_cli.py:145-156 | the text format of the sample result is `Analysis` |
| `Cli.JsonFormatTest` | tests/test_cli.py:158-178 | the json format of the sample fenced response re-serialises exactly the object inside the fence |
| `Cli.MarkdownFormatTest` | tests/test_cli.py:180-195 | the markdown of the sample result contains the headings, `Sample text` and `Analysis` |
| `Cli.ProcessFileTest` | tests/test_cli.py:197-222 | the processor's text-format output is its analysis, which contains `Test content` and `author` |

## Left out

- Logging (`loguru`), argument parsing, `main`, writing to stdout or to a file, and aigrok/logging.py are not part of this model.
- pypdf and ollama are inputs. The exception messages that pypdf raises are not modelled, except the index error for a document with no pages, which is the constant `PageIndexError`.
- `Path` normalisation is not modelled. The path string is used as it would be printed. `Path.exists` is the input `fileExists`.
- `lower()` is modelled for ASCII letters only. Non-ASCII case mappings in a suffix or a prompt are not modelled.
- Metadata values are strings. pypdf may give other objects. Truthiness is modelled as "non-empty", and the JSON form of other objects is not modelled.
- `json.loads` and `json.dumps(indent=2)` are the codec parameter. There is no JSON grammar or serialiser. A `TypeError` that `json.dumps` could raise on unusual metadata, which `cli.process_file` would turn into `None`, is not modelled.
- `PresentRun` models the `except` of `cli.process_file` for an exception from the processor, as the tests simulate one. In the model, `PdfProcessor.ProcessFile` catches every failure itself and never raises.
- `PDFProcessor()` always sets `self.llm` to the ollama module. Here the service, or none, is a parameter of the constructor.
- The result object is updated in place in the source: `result.llm_response = …`, `result.error = …` and `result.text = None`. Here it is a value updated on a local variable. Aliasing of the object between caller and callee is not modelled.
- The regular expressions are modelled only for the two patterns used, with `re.DOTALL`. This covers the order in which Python's engine tries alternatives at one start position. No general regular-expression engine is modelled.

Where the design description of the tool and the code differ, the model follows the code:

- text format applies no fence stripping (aigrok/cli.py:148-149);
- a response with no match is returned unstripped (aigrok/cli.py:91, 97);
- a readable PDF with no pages succeeds with `page_count` 0 under a non-title prompt, and metadata may be absent on success.
