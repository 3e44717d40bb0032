/** The two model backends, `gemini_ile_analiz_et` (cloud) and
    `ollama_ile_analiz_et` (local). The network call is a parameter that
    either returns the reply text or fails with the text of the exception,
    and `json.loads` is a parameter that either returns a JSON value or fails
    the same way. Every failure is caught and turned into a fixed error
    record; a value that parses is passed on as it is. */
module Providers {
  import opened Wrappers
  import opened Text
  import opened Fence

  /** A value as `json.loads` returns it (numbers are integers here). */
  datatype Json =
    | JNull
    | JBool(b: bool)
    | JInt(i: int)
    | JString(s: string)
    | JArray(items: seq<Json>)
    | JObject(fields: map<string, Json>)

  /** A candidate record: a dictionary from key to value. */
  type Record = map<string, Json>

  /** What a backend is sent: the résumé text, the job description and the
      credential it is called with (the API key or the local model name). */
  datatype Request = Request(resume: string, job: string, credential: string)

  /** A backend call: the reply text, or the text of the exception raised. */
  type Backend = Request -> Result<string, string>

  /** `json.loads`: the parsed value, or the text of the exception raised. */
  type Parser = string -> Result<Json, string>

  const NameKey := "aday_ismi"
  const ScoreKey := "uyum_puani"
  const MatchedKey := "bulunan_yetenekler"
  const MissingKey := "eksik_yetenekler"
  const ExperienceKey := "deneyim_ozeti"
  const DecisionKey := "karar_onerisi"
  const NoteKey := "ozet"

  const ErrorDecision := "Hata"
  const ErrorPrefix := "Analiz başarısız. Hata: "

  /** The placeholder both backends return when anything fails: score 0, no
      skills found or missing, decision "Hata", and the cause in the
      experience summary. */
  predicate IsErrorRecord(v: Json) {
    && v.JObject?
    && ScoreKey in v.fields && v.fields[ScoreKey] == JInt(0)
    && MatchedKey in v.fields && v.fields[MatchedKey] == JArray([])
    && MissingKey in v.fields && v.fields[MissingKey] == JArray([])
    && DecisionKey in v.fields && v.fields[DecisionKey] == JString(ErrorDecision)
  }

  /** The error record: an error record in the sense above, carrying the
      cause after a fixed prefix, with these six keys and no others. */
  function ErrorRecord(cause: string): (r: Json)
    ensures IsErrorRecord(r)
    ensures ExperienceKey in r.fields && r.fields[ExperienceKey] == JString(ErrorPrefix + cause)
    ensures r.fields.Keys == {NameKey, ScoreKey, MatchedKey, MissingKey, ExperienceKey, DecisionKey}
  {
    JObject(map[
      NameKey := JString("Hata Oluştu"),
      ScoreKey := JInt(0),
      MatchedKey := JArray([]),
      MissingKey := JArray([]),
      ExperienceKey := JString(ErrorPrefix + cause),
      DecisionKey := JString(ErrorDecision)
    ])
  }

  /** The record returned at once when no API key is given. It scores 0,
      but it is not an error record: it has no decision and no experience
      summary, only a note. */
  function MissingKeyRecord(): (r: Json)
    ensures r.JObject? && ScoreKey in r.fields && r.fields[ScoreKey] == JInt(0)
    ensures NoteKey in r.fields && DecisionKey !in r.fields && ExperienceKey !in r.fields
    ensures !IsErrorRecord(r)
  {
    JObject(map[
      ScoreKey := JInt(0),
      NameKey := JString("Bilinmiyor"),
      NoteKey := JString("API Anahtarı eksik"),
      MatchedKey := JArray([]),
      MissingKey := JArray([])
    ])
  }

  /** The text the cloud reply is parsed from: surrounding white space
      removed, then the code fence. It is a contiguous piece of the reply,
      and a reply with neither white space nor a fence at its ends is parsed
      as it is. */
  function CleanReply(raw: string): (r: string)
    ensures exists i, j :: 0 <= i <= j <= |raw| && r == raw[i..j]
    ensures (&& (raw == [] || (!IsSpace(raw[0]) && !IsSpace(raw[|raw| - 1])))
             && !StartsWith(raw, PlainFence) && !EndsWith(raw, PlainFence))
            ==> r == raw
  {
    CleanReplySlice(raw);
    CleanReplyUnchanged(raw);
    StripFences(Strip(raw))
  }

  lemma CleanReplySlice(raw: string)
    ensures exists i, j :: 0 <= i <= j <= |raw| && StripFences(Strip(raw)) == raw[i..j]
  {
    SliceTransitive(raw, Strip(raw), StripFences(Strip(raw)));
  }

  lemma CleanReplyUnchanged(raw: string)
    ensures (&& (raw == [] || (!IsSpace(raw[0]) && !IsSpace(raw[|raw| - 1])))
             && !StartsWith(raw, PlainFence) && !EndsWith(raw, PlainFence))
            ==> StripFences(Strip(raw)) == raw
  {
    if raw != [] && !IsSpace(raw[0]) && !IsSpace(raw[|raw| - 1]) {
      assert [] + raw + [] == raw;
      StripPadded([], raw, []);
    }
  }

  /** `gemini_ile_analiz_et`. With a key, a failing call or a cleaned reply
      that does not parse gives an error record. */
  function GeminiAnalyze(resume: string, job: string, key: string, backend: Backend, parse: Parser): (r: Json)
    ensures key != "" && (|| backend(Request(resume, job, key)).Failure?
                          || parse(CleanReply(backend(Request(resume, job, key)).value)).Failure?)
            ==> IsErrorRecord(r)
  {
    if key == "" then MissingKeyRecord()
    else
      match backend(Request(resume, job, key))
      case Failure(cause) => ErrorRecord(cause)
      case Success(raw) =>
        match parse(CleanReply(raw))
        case Failure(cause) => ErrorRecord(cause)
        case Success(v) => v
  }

  /** `ollama_ile_analiz_et`. A failing call or a reply that does not parse
      gives an error record. */
  function OllamaAnalyze(resume: string, job: string, model: string, backend: Backend, parse: Parser): (r: Json)
    ensures (|| backend(Request(resume, job, model)).Failure?
             || parse(backend(Request(resume, job, model)).value).Failure?)
            ==> IsErrorRecord(r)
  {
    match backend(Request(resume, job, model))
    case Failure(cause) => ErrorRecord(cause)
    case Success(raw) =>
      match parse(raw)
      case Failure(cause) => ErrorRecord(cause)
      case Success(v) => v
  }

  /** With an empty key the cloud backend is not called: the result does not
      depend on the backend at all. It scores 0, but it is not an error
      record: it has no decision and no experience summary, only a note. */
  lemma GeminiMissingKeyNoRequest(resume: string, job: string, b1: Backend, b2: Backend, parse: Parser)
    ensures GeminiAnalyze(resume, job, "", b1, parse) == GeminiAnalyze(resume, job, "", b2, parse)
    ensures var r := GeminiAnalyze(resume, job, "", b1, parse);
      && r.JObject?
      && r.fields[ScoreKey] == JInt(0)
      && NoteKey in r.fields
      && DecisionKey !in r.fields && ExperienceKey !in r.fields
      && !IsErrorRecord(r)
  {
  }

  /** With a key, a failing call or a reply that does not parse gives the
      error record with the exception's text as the cause. */
  lemma GeminiFailureIsErrorRecord(resume: string, job: string, key: string, backend: Backend, parse: Parser, cause: string)
    requires key != ""
    requires || backend(Request(resume, job, key)) == Failure(cause)
             || (backend(Request(resume, job, key)).Success?
                 && parse(CleanReply(backend(Request(resume, job, key)).value)) == Failure(cause))
    ensures GeminiAnalyze(resume, job, key, backend, parse) == ErrorRecord(cause)
    ensures IsErrorRecord(GeminiAnalyze(resume, job, key, backend, parse))
  {
  }

  /** With a key, a reply whose cleaned text parses is returned as parsed:
      nothing is checked, added or removed. */
  lemma GeminiOutcome(resume: string, job: string, key: string, backend: Backend, parse: Parser, raw: string, v: Json)
    requires key != ""
    requires backend(Request(resume, job, key)) == Success(raw)
    requires parse(CleanReply(raw)) == Success(v)
    ensures GeminiAnalyze(resume, job, key, backend, parse) == v
  {
  }

  /** A cloud reply made of a JSON text in a "```json" or a "```" fence,
      with any white space around the fence, is parsed from exactly the text
      inside the fence, and what parses is returned unchanged. */
  lemma GeminiFencedReply(resume: string, job: string, key: string, backend: Backend, parse: Parser,
                          pre: string, fence: string, body: string, post: string)
    requires key != ""
    requires forall k :: 0 <= k < |pre| ==> IsSpace(pre[k])
    requires forall k :: 0 <= k < |post| ==> IsSpace(post[k])
    requires || (fence == JsonFence && !StartsWith(body, PlainFence))
             || (fence == PlainFence && !StartsWith(body, "json"))
    requires backend(Request(resume, job, key)) == Success(pre + fence + body + PlainFence + post)
    ensures parse(body).Success? ==> GeminiAnalyze(resume, job, key, backend, parse) == parse(body).value
    ensures parse(body).Failure? ==> GeminiAnalyze(resume, job, key, backend, parse) == ErrorRecord(parse(body).error)
  {
    var m := fence + body + PlainFence;
    assert m[0] == '`' && m[|m| - 1] == '`';
    assert pre + fence + body + PlainFence + post == pre + m + post;
    StripPadded(pre, m, post);
    if fence == JsonFence {
      JsonFenceRoundTrip(body);
    } else {
      PlainFenceRoundTrip(body);
    }
  }

  /** The local backend is asked for JSON and its reply is parsed as it is:
      no white space or fence is removed. A failing call or a reply that does
      not parse gives the error record. */
  lemma OllamaOutcome(resume: string, job: string, model: string, backend: Backend, parse: Parser)
    ensures var reply := backend(Request(resume, job, model));
      var r := OllamaAnalyze(resume, job, model, backend, parse);
      && (reply.Failure? ==> r == ErrorRecord(reply.error) && IsErrorRecord(r))
      && (reply.Success? && parse(reply.value).Failure? ==>
            r == ErrorRecord(parse(reply.value).error) && IsErrorRecord(r))
      && (reply.Success? && parse(reply.value).Success? ==> r == parse(reply.value).value)
  {
  }
}
