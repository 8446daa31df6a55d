/** The symptom analyser (server/src/services/geminiService.ts). The prompt is a template whose
    first `{symptoms}` is replaced by the symptom text; the model's reply is stripped of a
    Markdown code fence and parsed as JSON; every failure (no API key, the model call, the
    parse) gives one fixed fallback analysis, so analysing never fails. The model call and
    `JSON.parse` are foreign and enter as the functions of a `Model` record; the prompt's
    wording is a parameter. */
module Gemini {
  import opened Wrappers
  import opened Text
  import opened Config
  import opened ConsultationModel

  /** What `JSON.parse` makes of the cleaned reply. Nothing checks its shape, so any field
      may be missing. */
  datatype Analysis = Analysis(
    aiAnalysis: Option<string>,
    severity: Option<string>,
    seekEmergencyCare: Option<bool>,
    ayurvedic: Option<seq<Medicine>>,
    allopathic: Option<seq<Medicine>>)

  /**
   * `generateContent` followed by `response.text()` (`None`: either step throws), and
   * `JSON.parse` (`None`: it throws).
   */
  datatype Model = Model(generate: string -> Option<string>, parse: string -> Option<Analysis>)

  const Placeholder := "{symptoms}"

  const FallbackText :=
    "Unable to analyze symptoms at this time. Please consult a healthcare professional for proper diagnosis."

  /** The analysis returned whenever anything fails. */
  const Fallback := Analysis(
    Some(FallbackText),
    Some("moderate"),
    Some(false),
    Some([Medicine("Tulsi (Holy Basil) Tea", "1 cup", "Morning and evening", "3-5 days"),
          Medicine("Ginger and Honey", "1 teaspoon", "After meals", "5 days")]),
    Some([Medicine("Consult a Doctor", "N/A", "As soon as possible", "As prescribed")]))

  /** The first position at or after `from` where `pat` occurs in `s`. */
  function FirstOccurrence(s: string, pat: string, from: nat): (r: Option<nat>)
    ensures r.Some? ==> from <= r.value && OccursAt(s, pat, r.value)
    ensures r.Some? ==> forall j :: from <= j < r.value ==> !OccursAt(s, pat, j)
    ensures r.None? ==> forall j :: from <= j ==> !OccursAt(s, pat, j)
    decreases |s| - from
  {
    if from + |pat| > |s| then None
    else if OccursAt(s, pat, from) then Some(from)
    else FirstOccurrence(s, pat, from + 1)
  }

  /** Replacing the first occurrence of `pat` by `repl` taken literally: the substitution the
      prompt builder means to make. */
  function ReplaceFirst(s: string, pat: string, repl: string): (r: string)
    ensures (forall j :: !OccursAt(s, pat, j)) ==> r == s
    ensures (exists j :: OccursAt(s, pat, j)) ==>
      exists i :: OccursAt(s, pat, i) && (forall j :: 0 <= j < i ==> !OccursAt(s, pat, j)) &&
                  r == s[..i] + repl + s[i + |pat|..]
  {
    match FirstOccurrence(s, pat, 0)
    case None => s
    case Some(i) => s[..i] + repl + s[i + |pat|..]
  }

  /** How `String.prototype.replace` reads a replacement string (GetSubstitution of ECMA-262,
      for a string pattern, which has no capture groups): "$$" is a dollar sign, "$&" the
      matched text, "$`" the text before the match, "$'" the text after it; any other '$' is
      kept as it is. */
  function Expand(repl: string, matched: string, before: string, after: string): string
    decreases |repl|
  {
    if repl == [] then []
    else if repl[0] == '$' && |repl| >= 2 && repl[1] == '$' then "$" + Expand(repl[2..], matched, before, after)
    else if repl[0] == '$' && |repl| >= 2 && repl[1] == '&' then matched + Expand(repl[2..], matched, before, after)
    else if repl[0] == '$' && |repl| >= 2 && repl[1] == '`' then before + Expand(repl[2..], matched, before, after)
    else if repl[0] == '$' && |repl| >= 2 && repl[1] == '\'' then after + Expand(repl[2..], matched, before, after)
    else [repl[0]] + Expand(repl[1..], matched, before, after)
  }

  /** `template.replace('{symptoms}', symptoms)` as written: the symptom text goes through
      `Expand`. */
  function ReplaceFirstAsWritten(s: string, pat: string, repl: string): (r: string)
    ensures (forall j :: !OccursAt(s, pat, j)) ==> r == s
  {
    match FirstOccurrence(s, pat, 0)
    case None => s
    case Some(i) => s[..i] + Expand(repl, pat, s[..i], s[i + |pat|..]) + s[i + |pat|..]
  }

  /** A replacement without '$' is taken literally. */
  lemma {:induction false} ExpandPlain(repl: string, matched: string, before: string, after: string)
    requires '$' !in repl
    ensures Expand(repl, matched, before, after) == repl
    decreases |repl|
  {
    if repl != [] {
      assert repl[0] != '$';
      ExpandPlain(repl[1..], matched, before, after);
      assert repl == [repl[0]] + repl[1..];
    }
  }

  /** For symptom text without '$' the prompt is the one intended. */
  lemma AsWrittenAgreesWithoutDollar(template: string, symptoms: string)
    requires '$' !in symptoms
    ensures ReplaceFirstAsWritten(template, Placeholder, symptoms) == ReplaceFirst(template, Placeholder, symptoms)
  {
    match FirstOccurrence(template, Placeholder, 0)
    case None =>
    case Some(i) =>
      ExpandPlain(symptoms, Placeholder, template[..i], template[i + |Placeholder|..]);
  }

  /** A '$'-free start of the replacement is copied as it is. */
  lemma {:induction false} ExpandPlainPrefix(text: string, rest: string, matched: string, before: string, after: string)
    requires '$' !in text
    ensures Expand(text + rest, matched, before, after) == text + Expand(rest, matched, before, after)
    decreases |text|
  {
    if text != [] {
      var r := text + rest;
      assert r[0] == text[0] && r[0] != '$';
      assert r[1..] == text[1..] + rest;
      assert Expand(r, matched, before, after) == [r[0]] + Expand(r[1..], matched, before, after);
      ExpandPlainPrefix(text[1..], rest, matched, before, after);
      assert text == [text[0]] + text[1..];
      assert [text[0]] + (text[1..] + Expand(rest, matched, before, after)) == text + Expand(rest, matched, before, after);
    } else {
      assert text + rest == rest;
    }
  }

  /** "$&" expands to the matched text. */
  lemma ExpandMatched(matched: string, before: string, after: string)
    ensures Expand("$&", matched, before, after) == matched
  {
    assert "$&"[2..] == [];
  }

  /** With the placeholder first found after `head`, JavaScript's `replace` puts the expanded
      replacement between `head` and `tail`. */
  lemma AsWrittenAtHead(head: string, tail: string, repl: string)
    requires forall j :: 0 <= j < |head| ==> !OccursAt(head + Placeholder + tail, Placeholder, j)
    ensures ReplaceFirstAsWritten(head + Placeholder + tail, Placeholder, repl) ==
            head + Expand(repl, Placeholder, head, tail) + tail
  {
    var s := head + Placeholder + tail;
    assert OccursAt(s, Placeholder, |head|) by {
      assert s[|head|..|head| + |Placeholder|] == Placeholder;
    }
    assert FirstOccurrence(s, Placeholder, 0) == Some(|head|);
    assert s[..|head|] == head;
    assert s[|head| + |Placeholder|..] == tail;
  }

  /** As written, symptom text ending in "$&" reaches the prompt with "{symptoms}" in place
      of its "$&". */
  lemma AsWrittenEchoesPlaceholder(head: string, tail: string, text: string)
    requires forall j :: 0 <= j < |head| ==> !OccursAt(head + Placeholder + tail, Placeholder, j)
    requires '$' !in text
    ensures ReplaceFirstAsWritten(head + Placeholder + tail, Placeholder, text + "$&") == head + text + Placeholder + tail
  {
    AsWrittenAtHead(head, tail, text + "$&");
    ExpandPlainPrefix(text, "$&", Placeholder, head, tail);
    ExpandMatched(Placeholder, head, tail);
    assert head + (text + Placeholder) + tail == head + text + Placeholder + tail;
  }

  /** The discrepancy: symptom text ending in "$&", such as "fever $&", loses its "$&" to
      the placeholder. As written, the prompt carries the text followed by "{symptoms}"; the
      intended prompt carries the text as typed. */
  lemma DollarAmpersandLosesSymptoms(head: string, tail: string, text: string)
    requires forall j :: 0 <= j < |head| ==> !OccursAt(head + Placeholder + tail, Placeholder, j)
    requires '$' !in text
    ensures ReplaceFirstAsWritten(head + Placeholder + tail, Placeholder, text + "$&") == head + text + Placeholder + tail
    ensures ReplaceFirst(head + Placeholder + tail, Placeholder, text + "$&") == head + text + "$&" + tail
    ensures head + text + "$&" + tail != head + text + Placeholder + tail
  {
    AsWrittenEchoesPlaceholder(head, tail, text);
    PromptSubstitutes(head, tail, text + "$&");
    assert head + (text + "$&") + tail == head + text + "$&" + tail;
    assert |head + text + "$&" + tail| != |head + text + Placeholder + tail|;
  }

  /** A template holding the placeholder once after `head`: the prompt is the template with
      the symptom text in the placeholder's place. */
  lemma PromptSubstitutes(head: string, tail: string, symptoms: string)
    requires forall j :: 0 <= j < |head| ==> !OccursAt(head + Placeholder + tail, Placeholder, j)
    ensures ReplaceFirst(head + Placeholder + tail, Placeholder, symptoms) == head + symptoms + tail
  {
    var s := head + Placeholder + tail;
    assert OccursAt(s, Placeholder, |head|) by {
      assert s[|head|..|head| + |Placeholder|] == Placeholder;
    }
    assert FirstOccurrence(s, Placeholder, 0) == Some(|head|);
    assert s[..|head|] == head;
    assert s[|head| + |Placeholder|..] == tail;
  }

  /** The reply cleaner: trim; drop a leading "```json"; drop a leading "```"; drop a
      trailing "```"; trim again. */
  function CleanReply(text: string): (r: string)
    ensures |r| <= |text|
    ensures r == [] || (!IsSpace(r[0]) && !IsSpace(r[|r| - 1]))
  {
    var t0 := Trim(text);
    var t1 := if StartsWith(t0, "```json") then t0[7..] else t0;
    var t2 := if StartsWith(t1, "```") then t1[3..] else t1;
    var t3 := if EndsWith(t2, "```") then t2[..|t2| - 3] else t2;
    Trim(t3)
  }

  /** Every "```json" fence starts with "```". */
  lemma JsonFenceIsFence(t: string)
    ensures StartsWith(t, "```json") ==> StartsWith(t, "```")
  {
    if StartsWith(t, "```json") {
      assert t[..3] == t[..7][..3];
    }
  }

  /** A body of three or more characters decides alone whether it opens with a fence. */
  lemma LongBodyKeepsPrefix(b: string, tail: string)
    ensures |b| >= 3 && StartsWith(b + tail, "```") ==> StartsWith(b, "```")
  {
    if |b| >= 3 {
      assert (b + tail)[..3] == b[..3];
    }
  }

  /** A reply that, once trimmed, neither starts nor ends with a fence is only trimmed. */
  lemma CleanUnfenced(text: string)
    requires !StartsWith(Trim(text), "```") && !EndsWith(Trim(text), "```")
    ensures CleanReply(text) == Trim(text)
  {
    JsonFenceIsFence(Trim(text));
    TrimIdempotent(text);
  }

  /** A reply fenced as "```json" + b + "```" is cleaned to the trimmed body, when the body
      does not itself open with a fence. */
  lemma CleanFenced(b: string)
    requires !StartsWith(b, "```")
    ensures CleanReply("```json" + b + "```") == Trim(b)
  {
    var s := "```json" + b + "```";
    assert s[0] == '`' && s[|s| - 1] == '`';
    TrimUnpadded(s);
    assert StartsWith(s, "```json") by { assert s[..7] == "```json"; }
    var t1 := s[7..];
    assert t1 == b + "```";
    LongBodyKeepsPrefix(b, "```");
    if StartsWith(t1, "```") {
      assert forall k :: 0 <= k < |b| ==> b[k] == t1[k] == '`';
      assert forall k :: 0 <= k < |t1| ==> t1[k] == '`';
      assert t1[3..] == b;
    } else {
      assert EndsWith(t1, "```") by { assert t1[|t1| - 3..] == "```"; }
      assert t1[..|t1| - 3] == b;
    }
  }

  /** Everything `analyzeSymptoms` does once the prompt is built: the fallback without an API
      key, when the model call fails, or when the cleaned reply does not parse; otherwise
      whatever the parse gave. */
  function AnalyzePrompt(prompt: string, env: Env, m: Model): (a: Analysis)
    ensures env.geminiApiKey == "" ==> a == Fallback
    ensures env.geminiApiKey != "" && m.generate(prompt).None? ==> a == Fallback
    ensures env.geminiApiKey != "" && m.generate(prompt).Some? ==>
      a == m.parse(CleanReply(m.generate(prompt).value)).GetOr(Fallback)
    ensures a != Fallback ==>
      && env.geminiApiKey != ""
      && m.generate(prompt).Some?
      && m.parse(CleanReply(m.generate(prompt).value)) == Some(a)
  {
    if env.geminiApiKey == "" then Fallback
    else
      match m.generate(prompt)
      case None => Fallback
      case Some(text) =>
        match m.parse(CleanReply(text))
        case None => Fallback
        case Some(a) => a
  }

  /** `analyzeSymptoms`, with the symptom text put into the template literally. For text
      without '$' this is exactly the analysis of the prompt `replace` builds. */
  function AnalyzeSymptoms(symptoms: string, template: string, env: Env, m: Model): (a: Analysis)
    ensures env.geminiApiKey == "" ==> a == Fallback
    ensures '$' !in symptoms ==> a == AnalyzePrompt(ReplaceFirstAsWritten(template, Placeholder, symptoms), env, m)
  {
    var prompt := ReplaceFirst(template, Placeholder, symptoms);
    assert '$' !in symptoms ==> ReplaceFirstAsWritten(template, Placeholder, symptoms) == prompt by {
      if '$' !in symptoms {
        AsWrittenAgreesWithoutDollar(template, symptoms);
      }
    }
    AnalyzePrompt(prompt, env, m)
  }

  /** A reply fenced as "```json" + b + "```" is analysed as the parse of the trimmed body. */
  lemma FencedReplyParsed(prompt: string, env: Env, m: Model, b: string)
    requires env.geminiApiKey != "" && m.generate(prompt) == Some("```json" + b + "```")
    requires !StartsWith(b, "```")
    ensures AnalyzePrompt(prompt, env, m) == m.parse(Trim(b)).GetOr(Fallback)
  {
    CleanFenced(b);
  }

  /** The fallback has moderate severity, no emergency, two Ayurvedic and one allopathic
      entry, each with all four fields, so a consultation built from it always validates. */
  lemma FallbackShape()
    ensures Fallback.severity == Some("moderate") && Fallback.seekEmergencyCare == Some(false)
    ensures |Fallback.ayurvedic.value| == 2 && |Fallback.allopathic.value| == 1
    ensures AllValid(Fallback.ayurvedic.value) && AllValid(Fallback.allopathic.value)
  {
  }

  /** Without a key the model is never consulted: the result is the same for every model,
      and the connection test fails for every model. */
  lemma NoKeyIgnoresModel(symptoms: string, template: string, env: Env, m1: Model, m2: Model)
    requires env.geminiApiKey == ""
    ensures AnalyzeSymptoms(symptoms, template, env, m1) == AnalyzeSymptoms(symptoms, template, env, m2) == Fallback
    ensures !TestConnection(env, m1) && !TestConnection(env, m2)
  {
  }

  const TestPrompt := "Say \"OK\" if you can hear me."

  /** `testGeminiConnection`: false without a key; with one, whether the model answered the
      test prompt. */
  function TestConnection(env: Env, m: Model): (ok: bool)
    ensures env.geminiApiKey == "" ==> !ok
    ensures env.geminiApiKey != "" ==> (ok <==> m.generate(TestPrompt).Some?)
  {
    env.geminiApiKey != "" && m.generate(TestPrompt).Some?
  }

  /** A failed connection test with a key set means the model call fails, and an analysis
      whose prompt is the test prompt falls back. */
  lemma FailedTestFallsBack(env: Env, m: Model)
    requires !TestConnection(env, m)
    ensures AnalyzePrompt(TestPrompt, env, m) == Fallback
  {
  }
}
