# AI CV analysis: a verified model of the batch core

`app.py` is a Streamlit page. It scans a `cv` folder for résumés (PDF, DOCX,
TXT, CSV), extracts their text and sends each text with a job description
to a language model (Google Gemini in the cloud or a local Ollama server).
It parses the JSON reply and shows the candidates ranked by score. This
project models the deterministic core of that page in Dafny and proves
what the code does with it:

- **Fence stripping** (`Fence`). Before a Gemini reply is parsed, a leading
  "```json", then a leading "```", then a trailing "```" is removed. The
  reply is first stripped of white space (`Text.Strip`, Python's
  `str.strip`).
- **Folder scan and extension dispatch** (`Files`). The scan keeps the names
  whose lower-cased form ends in one of the four extensions and counts each
  type. The dispatch chooses an extractor from the lower-cased suffix of a
  path.
- **Providers** (`Providers`). `gemini_ile_analiz_et` and
  `ollama_ile_analiz_et` turn a network reply into a record, or into the
  fixed error record when anything fails. The Gemini path short-circuits on
  an empty API key.
- **The batch run** (`Batch`). The four checks come first, in order. Then
  comes the loop over the stored file list: extract, analyse, stamp with
  path and base name, append, and update the progress. The session state
  (`st.session_state.dosya_listesi`, `st.session_state.analiz_sonuclari`)
  is a class, `Batch.Session`, whose two methods are the two buttons.

The collaborators are parameters of the model:

- The network calls (`Providers.Backend`).
- `json.loads` (`Providers.Parser`).
- The four text extractors (`Files.Extractor`).
- The folder listing (a `seq<string>`).

The loop is the method `Batch.RunFiles`. It is proved against the
recursive specification `Batch.Run`, and the lemmas about `Run` say what
the published list contains.

What the code does, and the model with it:

- A reply is never checked. The prompt asks for an integer score from 0 to
  100 and seven keys. Whatever parses is stored as it is, with no clamping
  and no default keys (`Providers.GeminiOutcome`, `Providers.OllamaOutcome`,
  `Batch.RunRecordsAreReplies`). Missing columns
  are filled in only when the table is shown.
- A reply that parses to something other than a JSON object (a list, a
  number, a string, `null`) is not caught. The next statement,
  `analiz['dosya_yolu'] = ...` (app.py:388), raises outside any `try`, so
  the run stops at that file. The results of the previous run stay in place
  and no further progress is shown (`Batch.RunCrashesOnNonObject`,
  `Batch.Session.AnalyzeAll`).
- Only the first failing check is reported, because the checks form an
  `if/elif` chain (`Batch.Precheck`).
- The empty-key record of the Gemini path scores 0, but it is not the error
  record. It has no `karar_onerisi` and no `deneyim_ozeti`, and it has an
  `ozet` key instead. In a batch run it cannot occur, because the first
  check refuses an empty key.
- Fence stripping is not idempotent (`Fence.StripFencesNotIdempotent`).

## Model

| member | source | states |
|---|---|---|
| Fence.StripFences | app.py:233-239 | The result is a contiguous slice of the reply, no longer than it; a reply with no "```" at either end is returned unchanged |
| Fence.StripJsonFence | app.py:234-235 | The first check leaves a suffix of the reply, and keeps a reply that does not start with "```" |
| Fence.StripPlainFence | app.py:236-239 | The second and third checks leave a slice of their input, and keep an input with no "```" at either end |
| Fence.PlainFenceTail | app.py:236-239 | A body not starting with "```" followed by a closing "```" comes back exactly from the second and third checks |
| Fence.JsonFenceRoundTrip | app.py:234-239 | "```json" + X + "```" strips to exactly X whenever X does not start with "```" |
| Fence.PlainFenceRoundTrip | app.py:234-239 | "```" + X + "```" strips to exactly X whenever X does not start with "json" |
| Fence.FenceStylesAgree | app.py:234-239 | For a body starting with neither "```" nor "json", both fence styles strip to the same text, the body |
| Fence.LeadingFenceOnly | app.py:234-235 | A reply with only a leading "```json" loses exactly that prefix (the body has no fence of its own) |
| Fence.TrailingFenceOnly | app.py:238-239 | A reply with only a trailing "```" loses exactly that suffix |
| Fence.StripFencesNotIdempotent | app.py:234-239 | Nine backticks strip to three, and those three strip to the empty text: stripping twice differs from stripping once |
| Text.Lower | app.py:292 | The model's lower-casing maps A to Z to a to z one character at a time and keeps every other character, so the result has the input's length and holds no letter A to Z |
| Text.LowerAppend | app.py:292 | Lower-casing a concatenation is the concatenation of the lower-cased pieces |
| Text.Strip | app.py:214 | `str.strip` returns a slice of its input whose cut-off ends are all white space (the `str.isspace` set) and which neither starts nor ends with white space |
| Text.StripPadded | app.py:214 | Stripping any white space from around a text that has none at its ends gives back exactly that text |
| Text.Basename | app.py:366 | `os.path.basename` is the longest suffix of the path holding no '/' |
| Text.Join | app.py:293 | `os.path.join(dir, name)` is the name itself when the name starts with '/'; otherwise it starts with the directory, ends with the name, has at most one character between them, and that character is '/' |
| Text.JoinBasename | app.py:293 | The base name of `os.path.join(dir, name)` is `name` for every name without '/' |
| Text.JoinEndsWith | app.py:293 | A suffix without '/' ends the lower-cased joined path exactly when it ends the lower-cased name |
| Seqs.Filter | app.py:292 | A list comprehension with an `if` keeps only elements satisfying the condition and is no longer than its input |
| Seqs.FilterCounts | app.py:292 | The comprehension keeps each satisfying element as often as it occurs and drops every other element |
| Seqs.FilterIsSubsequence | app.py:292 | The comprehension keeps the input order (its result is a subsequence of the input) |
| Providers.ErrorRecord | app.py:165-174 | The placeholder is an error record (score 0, empty skill lists, decision "Hata"), carries the exception text after the fixed prefix in the experience summary, and has exactly these six keys |
| Providers.MissingKeyRecord | app.py:185 | The empty-key record scores 0 and has an `ozet` note, has no `karar_onerisi` and no `deneyim_ozeti`, and is not an error record |
| Providers.CleanReply | app.py:214-239 | The text handed to `json.loads` is a contiguous slice of the reply, and a reply with neither white space nor "```" at its ends is handed over as it is |
| Providers.GeminiAnalyze | app.py:182-252 | With a key, a failing call or a cleaned reply that does not parse yields an error record |
| Providers.OllamaAnalyze | app.py:128-174 | A failing call or a reply that does not parse yields an error record |
| Providers.GeminiMissingKeyNoRequest | app.py:184-185 | With an empty key the result does not depend on the backend (no request is made); it has score 0 and an `ozet` note, lacks `karar_onerisi` and `deneyim_ozeti`, and is not an error record |
| Providers.GeminiFailureIsErrorRecord | app.py:208-252 | With a key, a failing call or a stripped reply that does not parse yields exactly the error record carrying the exception text |
| Providers.GeminiOutcome | app.py:208-241 | With a key, a reply whose cleaned text parses is returned exactly as parsed, for every reply |
| Providers.GeminiFencedReply | app.py:214-241 | A reply made of a JSON text in a "```json" or "```" fence with white space around it is parsed from exactly the text inside the fence; what parses is returned unchanged, a parse error gives the error record |
| Providers.OllamaOutcome | app.py:151-174 | The Ollama reply is parsed as it is; a failing call or parse yields the error record, and a parsed value is returned unchanged |
| Files.ExtensionsExclusive | app.py:370-377 | A text ends with at most one of the four extensions |
| Files.FormatOf | app.py:370-379 | The dispatch chooses format f exactly when the lower-cased path ends with f's extension, and none when it ends with none of them |
| Files.DispatchIgnoresCase | app.py:370-377 | Any spelling of an extension that lower-cases to it, after any stem, selects that extension's format |
| Files.ExtractText | app.py:369-379 | A path whose lower-cased form ends in none of the four extensions yields no text; a path whose lower-cased form ends in an extension yields what that extension's extractor returns |
| Files.Supported | app.py:292 | The scan's suffix test accepts a name exactly when the dispatch finds a format for it |
| Files.ScanNames | app.py:292 | The kept names are a subsequence of the listing and hold each supported name as often as it is listed, and no other name |
| Files.JoinAll | app.py:293 | One joined path per name, each dispatched to the same format as its name and, for a name without '/', having that name as its base name |
| Files.JoinKeepsName | app.py:293 | Joining a name to the folder keeps the name's format, and a name without '/' is the joined path's base name |
| Files.CountFormat | app.py:295-298 | A per-type count never exceeds the number of kept names |
| Files.CountFormatIsFilter | app.py:295-298 | A per-type count is exactly the number of names whose lower-cased form ends in that type's extension |
| Files.CountsStep | app.py:295-298 | A supported name adds one to exactly one of the four counts |
| Files.CountsAddUp | app.py:295-298 | Over supported names, the four per-type counts add up to the number of names |
| Files.ReportOf | app.py:295-303 | The report says files were found exactly when there is a name; the total is the number of names, each per-type field is the number of names with that type's extension, and over supported names the four add up to the total |
| Files.ScanReportAddsUp | app.py:295-303 | The scan reports files found exactly when a name was kept, and then the four counts add up to the total kept |
| Files.ScannedPathsDispatch | app.py:292-293 | Every stored path has a supported format, the same as its listed name's, and that name as its base name |
| Batch.Precheck | app.py:350-358 | The run starts exactly when the provider is configured, the job description is non-empty and the file list is non-empty; each check fires exactly when its condition holds and all earlier checks pass |
| Batch.HasText | app.py:369-381 | Only a path with a supported extension can yield a non-empty text |
| Batch.Stamp | app.py:388-389 | The record gains `dosya_yolu` = path and `dosya_adi` = base name, and every other entry is kept |
| Batch.StepOf | app.py:366-390 | One iteration skips a file exactly when it yields no non-empty text, raises exactly when the provider's reply is not a dictionary, and otherwise appends the reply with `dosya_yolu` = path and `dosya_adi` = base name added |
| Batch.Run | app.py:365-390 | A completed run holds at most one record per file; a run that raises does so at a file whose iteration raises |
| Batch.RunRecords | app.py:365-390 | A completed run holds one record per non-skipped file, in file order, each the record that file's iteration built |
| Batch.RunResultShape | app.py:365-390 | The records of a completed run correspond one-to-one, in order, to the files with non-empty text, a subsequence of the file list; record i has path and base name of the i-th such file |
| Batch.RunCrashes | app.py:365-390 | For any iteration, the loop raises exactly when some file's iteration raises, and at the first such file |
| Batch.RunCrashesOnNonObject | app.py:381-390 | The run raises exactly when some file with a text gets a reply that is not a dictionary (the key assignment of app.py:388 fails), and at the first such file |
| Batch.RunCrashPersists | app.py:365-390 | Once a prefix of the file list has raised, the whole loop has raised at the same file |
| Batch.RunRecordsAreReplies | app.py:381-390 | In a completed run, record i is the provider's reply for the i-th file with a text, with that file's path and base name added and nothing else changed |
| Batch.ProviderFailureIsRecorded | app.py:381-390 | A failing provider call does not stop the run: the file gets the stamped error record, which is still an error record |
| Batch.RunFiles | app.py:359-393 | The loop computes the run's outcome; a completed loop reported (i+1, total) after each file i, ending at (total, total); a raising loop stopped before that file's update |
| Batch.Session.constructor | app.py:255-258 | A new session has an empty file list and no results |
| Batch.Session.ScanFolder | app.py:291-303 | The file list becomes the kept names joined to the folder, and the report holds their counts; the results are untouched |
| Batch.Session.AnalyzeAll | app.py:349-395 | A refused run reports the first failing check and leaves results unchanged; a completed run replaces the results wholesale with the run's records; a raising run leaves them unchanged; progress as in `RunFiles` |

## Left out

- The Streamlit page itself is not modelled: page setup, styles, sidebar
  widgets, expanders, the status text, `st.error` messages, `time.sleep`,
  the results table and its tabs. It is presentation only.
- The HTTP calls and the SDK (Ollama `/api/chat`, Gemini SDK or REST, and
  the choice between them through `HAS_SDK`) are one parameter,
  `Providers.Backend`. It returns the reply text or the text of the
  exception. The prompt text is not modelled; the request carries the
  résumé, the job description and the credential it is built from.
- The Ollama model listing (`ollama_modellerini_getir`, an HTTP call) is
  not modelled. The selected model is an input, `Batch.Ollama(model)`, which
  is absent when the server listed none.
- `json.loads` is a parameter, `Providers.Parser`. JSON numbers are integers
  in `Providers.Json`, and floating point is not modelled.
- The PDF, DOCX, TXT and CSV extractors (pypdf, python-docx, a file read,
  pandas) are one parameter, `Files.Extractor`, returning an optional text.
  Their own error messages are not modelled.
- `os.listdir` is an input to `Batch.Session.ScanFolder`. The folder creation
  and opening (`os.makedirs`, `subprocess`, `os.startfile`) and the base64
  preview are I/O and are not modelled.
- The display-time sort by score and the display-time filling of missing
  columns are not modelled. They rely on pandas and change no stored state.
- Progress is the integer pair (i+1, total) instead of the float
  (i+1)/total.
- Text.Lower: only A to Z are lower-cased, one character at a time.
  Python's `str.lower` also lower-cases other letters, can change the
  length ('İ' becomes 'i' followed by a combining dot) and lower-cases 'Σ'
  by context (final sigma). The scan and the dispatch are still
  unaffected: they only test whether the lower-cased name ends in one of
  the four extensions, and no character outside A to Z lower-cases to a
  text ending in '.', 'p', 'd', 'f', 'o', 'c', 'x', 't', 's' or 'v'.
- Text.Basename: `os.path.basename` and `os.path.join` follow POSIX. The
  Windows flavour (with '\\' and drive letters) is not modelled.
- Batch.Session.AnalyzeAll: an exception in a collaborator outside the
  modelled `try` blocks (an extractor or `st.error` raising) is not
  modelled. The one uncaught exception the core itself raises, the key
  assignment on a non-object reply, is modelled.
