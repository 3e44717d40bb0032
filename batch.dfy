/** The analysis run behind the "Adayları Analiz Et" button: the checks that
    must pass before it starts, the loop over the stored file list (extract,
    analyse, stamp, append, report progress), and the session state the
    scan and the run update. */
module Batch {
  import opened Wrappers
  import opened Text
  import opened Seqs
  import opened Providers
  import opened Files

  /** The provider chosen in the sidebar: Gemini with the API key typed in
      (possibly empty), or Ollama with the selected model (absent when the
      local server listed none). */
  datatype Provider = Gemini(key: string) | Ollama(model: Option<string>)

  /** Why a run did not start; one per check, in the order they are tried. */
  datatype Refusal = GeminiKeyMissing | OllamaModelMissing | JobDescriptionMissing | FileListEmpty

  predicate Configured(p: Provider) {
    match p
    case Gemini(key) => key != ""
    case Ollama(model) => model.Some? && model.value != ""
  }

  /** The `if/elif` chain in front of the run. A check fires exactly when its
      own condition holds and every earlier check passed; the run starts
      exactly when none fires. */
  function Precheck(provider: Provider, job: string, files: seq<string>): (r: Option<Refusal>)
    ensures r.None? <==> Configured(provider) && job != "" && files != []
    ensures r == Some(GeminiKeyMissing) <==> provider.Gemini? && provider.key == ""
    ensures r == Some(OllamaModelMissing) <==> provider.Ollama? && !Configured(provider)
    ensures r == Some(JobDescriptionMissing) <==> Configured(provider) && job == ""
    ensures r == Some(FileListEmpty) <==> Configured(provider) && job != "" && files == []
  {
    if provider.Gemini? && provider.key == "" then Some(GeminiKeyMissing)
    else if provider.Ollama? && (provider.model.None? || provider.model.value == "") then Some(OllamaModelMissing)
    else if job == "" then Some(JobDescriptionMissing)
    else if files == [] then Some(FileListEmpty)
    else None
  }

  /** Everything one run reads and never changes: the provider, the job
      description, and the collaborators it calls. */
  datatype Env = Env(provider: Provider, job: string, extract: Extractor,
                     gemini: Backend, ollama: Backend, parse: Parser)

  /** The provider call for one résumé text. */
  function Analyze(env: Env, resume: string): Json
    requires Configured(env.provider)
  {
    match env.provider
    case Gemini(key) => GeminiAnalyze(resume, env.job, key, env.gemini, env.parse)
    case Ollama(model) => OllamaAnalyze(resume, env.job, model.value, env.ollama, env.parse)
  }

  /** The backend call the provider makes for one résumé text. */
  function Call(env: Env, resume: string): Result<string, string>
    requires Configured(env.provider)
  {
    match env.provider
    case Gemini(key) => env.gemini(Request(resume, env.job, key))
    case Ollama(model) => env.ollama(Request(resume, env.job, model.value))
  }

  /** `if cv_metni:` — the path yields a text and the text is not empty. Only
      a path with one of the four extensions can. */
  predicate HasText(env: Env, path: string)
    ensures HasText(env, path) ==> FormatOf(path).Some?
  {
    var t := ExtractText(path, env.extract);
    t.Some? && t.value != ""
  }

  const PathKey := "dosya_yolu"
  const FileNameKey := "dosya_adi"

  /** `analiz['dosya_yolu'] = ...; analiz['dosya_adi'] = ...`: the two keys
      are set, to the path and to its base name, and every other entry is
      kept as it was. */
  function Stamp(fields: Record, path: string): (r: Record)
    ensures r.Keys == fields.Keys + {PathKey, FileNameKey}
    ensures r[PathKey] == JString(path) && r[FileNameKey] == JString(Basename(path))
    ensures forall k :: k in fields && k != PathKey && k != FileNameKey ==> r[k] == fields[k]
  {
    fields[PathKey := JString(path)][FileNameKey := JString(Basename(path))]
  }

  /** What one iteration does with a file: nothing, append a record, or
      raise, when the parsed reply is not a dictionary and the key
      assignment fails. */
  datatype Step = Skip | Append(record: Record) | Raise

  /** What the provider returns for the text of a file that has one. */
  function Reply(env: Env, path: string): Json
    requires Configured(env.provider) && HasText(env, path)
  {
    Analyze(env, ExtractText(path, env.extract).value)
  }

  /** The iteration for `path` raises: the file has a text and the
      provider's reply for it is not a dictionary. */
  predicate RaisesOn(env: Env, path: string)
    requires Configured(env.provider)
  {
    HasText(env, path) && !Reply(env, path).JObject?
  }

  /** One iteration: a file is skipped exactly when it yields no text; it
      raises exactly when the reply is not a dictionary; otherwise the
      record appended is the reply with the file's path and base name added. */
  function StepOf(env: Env, path: string): (s: Step)
    requires Configured(env.provider)
    ensures s.Skip? <==> !HasText(env, path)
    ensures s.Raise? <==> RaisesOn(env, path)
    ensures s.Append? ==>
      && HasText(env, path) && Reply(env, path).JObject?
      && s.record == Stamp(Reply(env, path).fields, path)
    ensures s.Append? ==>
      && PathKey in s.record && s.record[PathKey] == JString(path)
      && FileNameKey in s.record && s.record[FileNameKey] == JString(Basename(path))
  {
    if !HasText(env, path) then Skip
    else
      var analysis := Reply(env, path);
      if analysis.JObject? then Append(Stamp(analysis.fields, path)) else Raise
  }

  /** One iteration for every path of a run. */
  type Stepper = string -> Step

  function StepFor(env: Env): Stepper
    requires Configured(env.provider)
  {
    path => StepOf(env, path)
  }

  /** The run over a file list: the records appended, or the index of the
      file at which it raised. */
  datatype RunOutcome = Done(records: seq<Record>) | Crash(at: nat)

  function Run(step: Stepper, files: seq<string>): (r: RunOutcome)
    ensures r.Done? ==> |r.records| <= |files|
    ensures r.Crash? ==> r.at < |files| && step(files[r.at]).Raise?
    decreases |files|
  {
    if files == [] then Done([])
    else
      var n := |files| - 1;
      match Run(step, files[..n])
      case Crash(k) => Crash(k)
      case Done(records) =>
        match step(files[n])
        case Skip => Done(records)
        case Append(r) => Done(records + [r])
        case Raise => Crash(n)
  }

  function Keeps(step: Stepper): string -> bool {
    path => !step(path).Skip?
  }

  /** The files whose iteration does not skip them, in file-list order. */
  function Kept(step: Stepper, files: seq<string>): seq<string> {
    Filter(files, Keeps(step))
  }

  /** A run that completes holds one record per kept file, in the order of
      the kept files, each the record that file's iteration appends. */
  lemma {:induction false} RunRecords(step: Stepper, files: seq<string>)
    requires Run(step, files).Done?
    ensures var records, kept := Run(step, files).records, Kept(step, files);
      && |records| == |kept|
      && forall i :: 0 <= i < |records| ==> step(kept[i]) == Append(records[i])
    decreases |files|
  {
    if files != [] {
      var n := |files| - 1;
      var prefix, last := files[..n], files[n];
      assert files == prefix + [last];
      var records := Run(step, prefix).records;
      RunRecords(step, prefix);
      FilterSnoc(prefix, last, Keeps(step));
      var kept := Kept(step, prefix);
      assert Kept(step, files) == kept + (if Keeps(step)(last) then [last] else []);
      match step(last)
      case Skip =>
      case Append(r) =>
        assert Run(step, files).records == records + [r];
        assert Kept(step, files) == kept + [last];
      case Raise =>
    }
  }

  /** The published list of a completed run: the files with a non-empty text,
      in file order and no others, one record each, stamped with its path and
      base name. */
  lemma RunResultShape(env: Env, files: seq<string>)
    requires Configured(env.provider)
    requires Run(StepFor(env), files).Done?
    ensures var records, kept := Run(StepFor(env), files).records, Kept(StepFor(env), files);
      && |records| == |kept| <= |files|
      && IsSubsequence(kept, files)
      && (forall p :: p in kept <==> p in files && HasText(env, p))
      && forall i :: 0 <= i < |records| ==>
           && PathKey in records[i] && records[i][PathKey] == JString(kept[i])
           && FileNameKey in records[i] && records[i][FileNameKey] == JString(Basename(kept[i]))
  {
    var step := StepFor(env);
    var records, kept := Run(step, files).records, Kept(step, files);
    RunRecords(step, files);
    FilterCounts(files, Keeps(step));
    FilterIsSubsequence(files, Keeps(step));
    forall p ensures p in kept <==> p in files && HasText(env, p) {
      assert p in kept <==> multiset(kept)[p] > 0;
      assert p in files <==> multiset(files)[p] > 0;
      assert StepFor(env)(p) == StepOf(env, p);
    }
    forall i | 0 <= i < |records|
      ensures PathKey in records[i] && records[i][PathKey] == JString(kept[i])
      ensures FileNameKey in records[i] && records[i][FileNameKey] == JString(Basename(kept[i]))
    {
      assert StepFor(env)(kept[i]) == StepOf(env, kept[i]);
    }
  }

  /** A run raises exactly when some file's iteration raises, and then at the
      first such file. */
  lemma {:induction false} RunCrashes(step: Stepper, files: seq<string>)
    ensures Run(step, files).Crash? <==> exists j :: 0 <= j < |files| && step(files[j]).Raise?
    ensures Run(step, files).Crash? ==>
      && Run(step, files).at < |files|
      && step(files[Run(step, files).at]).Raise?
      && forall j :: 0 <= j < Run(step, files).at ==> !step(files[j]).Raise?
    decreases |files|
  {
    if files != [] {
      var n := |files| - 1;
      var prefix := files[..n];
      RunCrashes(step, prefix);
      assert forall j :: 0 <= j < n ==> prefix[j] == files[j];
    }
  }

  /** A run raises exactly when some file with a text gets a reply that is
      not a dictionary, and then at the first such file. */
  lemma RunCrashesOnNonObject(env: Env, files: seq<string>)
    requires Configured(env.provider)
    ensures Run(StepFor(env), files).Crash? <==> exists j :: 0 <= j < |files| && RaisesOn(env, files[j])
    ensures Run(StepFor(env), files).Crash? ==>
      && Run(StepFor(env), files).at < |files|
      && RaisesOn(env, files[Run(StepFor(env), files).at])
      && forall j :: 0 <= j < Run(StepFor(env), files).at ==> !RaisesOn(env, files[j])
  {
    var step := StepFor(env);
    RunCrashes(step, files);
    forall j | 0 <= j < |files| ensures step(files[j]).Raise? <==> RaisesOn(env, files[j]) {
      assert step(files[j]) == StepOf(env, files[j]);
    }
  }

  /** In a completed run, record i is the provider's reply for the i-th file
      with a text, with that file's path and base name added: no entry of
      the reply is lost or altered except those two keys. */
  lemma RunRecordsAreReplies(env: Env, files: seq<string>)
    requires Configured(env.provider)
    requires Run(StepFor(env), files).Done?
    ensures var records, kept := Run(StepFor(env), files).records, Kept(StepFor(env), files);
      && |records| == |kept|
      && forall i :: 0 <= i < |records| ==>
           && HasText(env, kept[i]) && Reply(env, kept[i]).JObject?
           && records[i] == Stamp(Reply(env, kept[i]).fields, kept[i])
  {
    var step := StepFor(env);
    var records, kept := Run(step, files).records, Kept(step, files);
    RunRecords(step, files);
    forall i | 0 <= i < |records|
      ensures HasText(env, kept[i]) && Reply(env, kept[i]).JObject?
      ensures records[i] == Stamp(Reply(env, kept[i]).fields, kept[i])
    {
      assert step(kept[i]) == StepOf(env, kept[i]);
    }
  }

  /** Once a prefix of the file list has raised, the whole run has raised at
      the same file. */
  lemma {:induction false} RunCrashPersists(step: Stepper, files: seq<string>, j: nat)
    requires j <= |files| && Run(step, files[..j]).Crash?
    ensures Run(step, files) == Run(step, files[..j])
    decreases |files|
  {
    if |files| == j {
      assert files[..j] == files;
    } else {
      var n := |files| - 1;
      assert files[..n][..j] == files[..j];
      RunCrashPersists(step, files[..n], j);
    }
  }

  /** A failing backend call does not stop the run: the file gets the error
      record, stamped like any other. */
  lemma ProviderFailureIsRecorded(env: Env, path: string, cause: string)
    requires Configured(env.provider)
    requires HasText(env, path)
    requires Call(env, ExtractText(path, env.extract).value) == Failure(cause)
    ensures StepOf(env, path) == Append(Stamp(ErrorRecord(cause).fields, path))
    ensures IsErrorRecord(JObject(Stamp(ErrorRecord(cause).fields, path)))
  {
  }

  /** What a run reports back. */
  datatype RunStatus = Refused(reason: Refusal) | Completed | Aborted(at: nat)

  /** One update of the progress bar: `done` files out of `total`. */
  datatype Progress = Progress(done: nat, total: nat)

  /** The progress updates after the first `n` files. */
  function Ticks(n: nat, total: nat): (ps: seq<Progress>)
    ensures |ps| == n
    ensures forall i :: 0 <= i < n ==> ps[i] == Progress(i + 1, total)
  {
    seq(n, i requires 0 <= i < n => Progress(i + 1, total))
  }

  lemma TicksSnoc(n: nat, total: nat)
    ensures Ticks(n + 1, total) == Ticks(n, total) + [Progress(n + 1, total)]
  {
  }

  /** The `for` loop of a run: every file in order, each one's iteration,
      records appended in order, and the progress bar at (i+1, total) after
      file i whether or not it gave a record. It stops at the first file
      whose iteration raises, before that file's progress update. */
  method RunFiles(step: Stepper, files: seq<string>) returns (outcome: RunOutcome, progress: seq<Progress>)
    ensures outcome == Run(step, files)
    ensures outcome.Done? ==> progress == Ticks(|files|, |files|)
    ensures outcome.Crash? ==> progress == Ticks(outcome.at, |files|)
  {
    var collected: seq<Record> := [];
    var total := |files|;
    progress := [];
    var i := 0;
    while i < total
      invariant 0 <= i <= total
      invariant Run(step, files[..i]) == Done(collected)
      invariant progress == Ticks(i, total)
    {
      var path := files[i];
      assert files[..i + 1][..i] == files[..i];
      assert files[..i + 1][i] == path;
      match step(path) {
        case Skip =>
        case Append(record) =>
          collected := collected + [record];
        case Raise =>
          RunCrashPersists(step, files, i + 1);
          return Crash(i), progress;
      }
      TicksSnoc(i, total);
      progress := progress + [Progress(i + 1, total)];
      i := i + 1;
    }
    assert files[..total] == files;
    outcome := Done(collected);
  }

  /** `st.session_state`: the scanned file list and the published results. */
  class Session {
    var fileList: seq<string>
    var results: seq<Record>

    constructor ()
      ensures fileList == [] && results == []
    {
      fileList := [];
      results := [];
    }

    /** "Klasörü Kontrol Et": keep the supported names of the listing, store
        their joined paths as the file list, and report the counts. */
    method ScanFolder(dir: string, listing: seq<string>) returns (report: ScanReport)
      modifies this`fileList
      ensures fileList == JoinAll(dir, ScanNames(listing))
      ensures report == ReportOf(ScanNames(listing))
    {
      var names := ScanNames(listing);
      fileList := JoinAll(dir, names);
      report := ReportOf(names);
    }

    /** "Adayları Analiz Et". A refused run changes nothing. Otherwise every
        file is processed in order and the progress goes to (i+1, total)
        after file i whether or not a record was appended; when the loop
        finishes, the results are replaced by the new records. If a reply
        that is not a dictionary makes the run raise, the results stay as
        they were. */
    method AnalyzeAll(provider: Provider, job: string, extract: Extractor,
                      gemini: Backend, ollama: Backend, parse: Parser)
      returns (status: RunStatus, progress: seq<Progress>)
      modifies this`results
      ensures Precheck(provider, job, fileList).Some? ==>
        && status == Refused(Precheck(provider, job, fileList).value)
        && results == old(results)
        && progress == []
      ensures Precheck(provider, job, fileList).None? ==>
        var env := Env(provider, job, extract, gemini, ollama, parse);
        match Run(StepFor(env), fileList)
        case Done(records) =>
          && status == Completed
          && results == records
          && progress == Ticks(|fileList|, |fileList|)
        case Crash(k) =>
          && status == Aborted(k)
          && results == old(results)
          && progress == Ticks(k, |fileList|)
    {
      var refusal := Precheck(provider, job, fileList);
      if refusal.Some? {
        return Refused(refusal.value), [];
      }
      var env := Env(provider, job, extract, gemini, ollama, parse);
      var outcome;
      outcome, progress := RunFiles(StepFor(env), fileList);
      match outcome {
        case Done(records) =>
          results := records;
          status := Completed;
        case Crash(k) =>
          status := Aborted(k);
      }
    }
  }
}
