/** Removal of the Markdown code fence that a cloud model may wrap around its
    JSON reply, done on the reply text before it is parsed
    (in `gemini_ile_analiz_et`). */
module Fence {
  import opened Text

  const JsonFence := "```json"
  const PlainFence := "```"

  /** The three checks of the source, one after the other: drop a leading
      "```json"; then, independently, drop a leading "```"; then drop a
      trailing "```". The result is a contiguous piece of the reply, and a
      reply with no fence at either end passes unchanged. */
  function StripFences(reply: string): (r: string)
    ensures |r| <= |reply|
    ensures exists i, j :: 0 <= i <= j <= |reply| && r == reply[i..j]
    ensures !StartsWith(reply, PlainFence) && !EndsWith(reply, PlainFence) ==> r == reply
  {
    var a := StripJsonFence(reply);
    var c := StripPlainFence(a);
    var i, j :| 0 <= i <= j <= |a| && c == a[i..j];
    SliceOfSlice(reply, |reply| - |a|, |reply|, i, j);
    c
  }

  /** The first check: a leading "```json". What is left is a suffix of the
      reply, and a reply not starting with "```" is kept. */
  function StripJsonFence(reply: string): (a: string)
    ensures |a| <= |reply| && a == reply[|reply| - |a|..]
    ensures !StartsWith(reply, PlainFence) ==> a == reply
  {
    if StartsWith(reply, JsonFence) then
      assert reply[..7][..3] == reply[..3];
      reply[7..]
    else
      reply
  }

  /** The second and third checks: a leading "```", then a trailing "```".
      What is left is a slice of the input, and an input with no "```" at
      either end is kept. */
  function StripPlainFence(a: string): (c: string)
    ensures exists i, j :: 0 <= i <= j <= |a| && c == a[i..j]
    ensures !StartsWith(a, PlainFence) && !EndsWith(a, PlainFence) ==> c == a
  {
    var b := if StartsWith(a, PlainFence) then a[3..] else a;
    assert b == a[|a| - |b|..];
    var c := if EndsWith(b, PlainFence) then b[..|b| - 3] else b;
    assert c == a[|a| - |b|..|a| - |b| + |c|];
    c
  }

  /** A body that does not start with "```" followed by a closing "```" is
      recovered exactly by the second and third checks. */
  lemma PlainFenceTail(body: string)
    requires !StartsWith(body, PlainFence)
    ensures StripPlainFence(body + PlainFence) == body
  {
    var a := body + PlainFence;
    if StartsWith(a, PlainFence) {
      // only a body of fewer than three characters gets here; it is then
      // made of backticks, so cutting three from the front leaves it
      assert |body| < 3;
      forall k | 0 <= k < |body| ensures body[k] == '`' {
        assert body[k] == a[k] == PlainFence[k];
      }
      forall k | 0 <= k < |body| ensures a[3..][k] == body[k] {
        assert a[3 + k] == '`';
      }
      assert a[3..] == body;
    } else {
      assert a[..|a| - 3] == body;
    }
  }

  /** A body that does not itself start with "```", wrapped in a "```json"
      fence, is recovered exactly. */
  lemma JsonFenceRoundTrip(body: string)
    requires !StartsWith(body, PlainFence)
    ensures StripFences(JsonFence + body + PlainFence) == body
  {
    var reply := JsonFence + body + PlainFence;
    assert reply[..7] == JsonFence;
    assert reply[7..] == body + PlainFence;
    PlainFenceTail(body);
  }

  /** A body that does not start with "json", wrapped in a plain "```" fence,
      is recovered exactly. */
  lemma PlainFenceRoundTrip(body: string)
    requires !StartsWith(body, "json")
    ensures StripFences(PlainFence + body + PlainFence) == body
  {
    var reply := PlainFence + body + PlainFence;
    assert !StartsWith(reply, JsonFence) by {
      if |body| >= 4 {
        assert reply[3..7] == body[..4];
      } else {
        assert reply[3 + |body|] == '`';
      }
    }
    assert reply[..3] == PlainFence;
    var b := reply[3..];
    assert b == body + PlainFence;
    assert b[..|b| - 3] == body;
  }

  /** The two fence styles agree: a body that starts with neither "```" nor
      "json" comes out the same whichever fence wrapped it, so both replies
      are parsed from the same text. */
  lemma FenceStylesAgree(body: string)
    requires !StartsWith(body, PlainFence) && !StartsWith(body, "json")
    ensures StripFences(JsonFence + body + PlainFence) == StripFences(PlainFence + body + PlainFence) == body
  {
    JsonFenceRoundTrip(body);
    PlainFenceRoundTrip(body);
  }

  /** Each check acts on its own: a reply with only a leading "```json" loses
      just that, provided the body has no fence of its own. */
  lemma LeadingFenceOnly(body: string)
    requires !StartsWith(body, PlainFence) && !EndsWith(body, PlainFence)
    ensures StripFences(JsonFence + body) == body
  {
  }

  /** ... and a reply with only a trailing "```" loses just that. */
  lemma TrailingFenceOnly(body: string)
    requires !StartsWith(body, PlainFence)
    ensures StripFences(body + PlainFence) == body
  {
    var reply := body + PlainFence;
    if |reply| >= 7 {
      assert reply[..7][..3] == body[..3];
    }
    PlainFenceTail(body);
  }

  /** Stripping is not idempotent: nine backticks lose six to the first pass
      (three from the front, three from the back), and the three left over
      are removed by a second pass. */
  lemma StripFencesNotIdempotent()
    ensures StripFences("`````````") == "```"
    ensures StripFences(StripFences("`````````")) == ""
  {
    var nine := "`````````";
    assert nine[3] != JsonFence[3];
    assert StripJsonFence(nine) == nine;
    assert nine[..3] == PlainFence && nine[3..] == "``````";
    assert "``````"[3..] == PlainFence && "``````"[..3] == PlainFence;
    assert StripPlainFence(nine) == PlainFence;
    assert StripJsonFence(PlainFence) == PlainFence;
    assert PlainFence[..3] == PlainFence && PlainFence[3..] == "";
    assert StripPlainFence(PlainFence) == "";
  }

}
