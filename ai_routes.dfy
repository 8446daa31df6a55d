/** The AI routes (server/src/routes/ai.ts): `/analyze` validates the symptom text, has it
    analysed and appends one consultation to the log, for guests and signed-in users alike;
    the history and single-record routes show a signed-in user only their own consultations;
    `/health` reports the service as operational. The analysis is `Gemini.AnalyzeSymptoms`;
    the clock enters as `now`. */
module AiRoutes {
  import opened Wrappers
  import opened Text
  import opened Config
  import opened Http
  import opened Sorting
  import opened ConsultationModel
  import opened Gemini

  /** The `symptoms` field of the JSON body: absent, a string, or some other JSON value. */
  datatype BodyField = Absent | StringValue(text: string) | OtherValue

  /** The data of a successful `/analyze` reply. */
  datatype AnalyzeView = AnalyzeView(
    id: nat,
    symptoms: string,
    aiAnalysis: Option<string>,
    severity: Option<string>,
    seekEmergencyCare: Option<bool>,
    ayurvedic: Option<seq<Medicine>>,
    allopathic: Option<seq<Medicine>>,
    createdAt: int,
    disclaimer: string)

  /** The data of the `/health` reply. */
  datatype HealthView = HealthView(status: string, geminiConnected: bool, timestamp: int)

  /** A handler's reply together with the log it leaves. */
  datatype LogStep<T> = LogStep(reply: Reply<T>, records: seq<Consultation>)

  const SymptomsError := "Please provide a detailed description of your symptoms (at least 5 characters)"
  const Disclaimer :=
    "This is AI-generated advice for informational purposes only. Please consult a qualified healthcare professional for proper diagnosis and treatment."
  const NotFoundError := "Consultation not found"
  const HistoryLimit := 50

  /** A non-empty string whose trimmed length, in UTF-16 code units, is at least 5. */
  predicate AcceptableSymptoms(f: BodyField) {
    f.StringValue? && f.text != [] && Utf16Length(Trim(f.text)) >= 5
  }

  /** Every id is below the next one to hand out, and ids grow along the log. */
  predicate IdsIncreasing(records: seq<Consultation>, nextId: nat) {
    (forall i :: 0 <= i < |records| ==> records[i].id < nextId) &&
    (forall i, j :: 0 <= i < j < |records| ==> records[i].id < records[j].id)
  }

  /** A record with the next id keeps ids increasing. */
  lemma AppendKeepsIds(records: seq<Consultation>, nextId: nat, c: Consultation)
    requires IdsIncreasing(records, nextId) && c.id == nextId
    ensures IdsIncreasing(records + [c], nextId + 1)
  {
  }

  /** POST /api/ai/analyze, with `caller` the id `optionalAuth` attached, if any. */
  function AnalyzeResult(records: seq<Consultation>, nextId: nat, now: int, caller: Option<nat>, field: BodyField,
                         template: string, env: Env, m: Model): (s: LogStep<AnalyzeView>)
    ensures !AcceptableSymptoms(field) ==> s == LogStep(Failure(400, SymptomsError), records)
    ensures s.reply.Failure? ==> s.records == records
    ensures AcceptableSymptoms(field) ==>
      var a := AnalyzeSymptoms(Trim(field.text), template, env, m);
      (s.reply.Success? <==> AllValid(a.ayurvedic.GetOr([])) && AllValid(a.allopathic.GetOr([])))
    ensures s.reply.Failure? ==> s.reply.status in {400, 500}
    ensures s.reply.Success? ==>
      && AcceptableSymptoms(field) && s.reply.status == 200
      && |s.records| == |records| + 1 && s.records[..|records|] == records
      && var c := s.records[|records|];
         var a := AnalyzeSymptoms(Trim(field.text), template, env, m);
         && c.id == nextId && c.createdAt == now && ValidConsultation(c)
         && c.symptoms == Trim(field.text)
         && c.user == caller && c.isGuest == caller.None?
         && c.ayurvedic == a.ayurvedic.GetOr([]) && c.allopathic == a.allopathic.GetOr([])
         && c.aiAnalysis == a.aiAnalysis.GetOr("")
         && s.reply.data == AnalyzeView(c.id, c.symptoms, a.aiAnalysis, a.severity, a.seekEmergencyCare,
                                        a.ayurvedic, a.allopathic, now, Disclaimer)
  {
    if !AcceptableSymptoms(field) then LogStep(Failure(400, SymptomsError), records)
    else
      var text := Trim(field.text);
      var a := AnalyzeSymptoms(text, template, env, m);
      var draft := ConsultationDraft(caller, Some(text), a.ayurvedic, a.allopathic, a.aiAnalysis, Some(caller.None?));
      match CreateConsultation(nextId, now, draft)
      case Err(msg) => LogStep(Failure(500, msg), records)
      case Ok(c) =>
        var view := AnalyzeView(c.id, c.symptoms, a.aiAnalysis, a.severity, a.seekEmergencyCare,
                                a.ayurvedic, a.allopathic, c.createdAt, Disclaimer);
        LogStep(Success(200, view), records + [c])
  }

  /** The caller's consultations, in log order. */
  function Owned(records: seq<Consultation>, caller: nat): (r: seq<Consultation>)
    ensures forall c :: c in r <==> c in records && c.user == Some(caller)
    ensures multiset(r) <= multiset(records)
    ensures forall c :: multiset(r)[c] == if c.user == Some(caller) then multiset(records)[c] else 0
  {
    if records == [] then []
    else
      assert records == [records[0]] + records[1..];
      (if records[0].user == Some(caller) then [records[0]] else []) + Owned(records[1..], caller)
  }

  /** Newer first. */
  function ByCreatedDesc(): (le: (Consultation, Consultation) -> bool)
    ensures Total(le) && Transitive(le)
  {
    (a: Consultation, b: Consultation) => a.createdAt >= b.createdAt
  }

  /** Cutting a newest-first list after `n` keeps records no older than any it drops. */
  lemma TakeKeepsNewest(s: seq<Consultation>, n: nat)
    requires Sorted(s, ByCreatedDesc())
    ensures forall a, b :: a in s && a !in Take(s, n) && b in Take(s, n) ==> b.createdAt >= a.createdAt
  {
    var t := Take(s, n);
    forall a, b | a in s && a !in t && b in t
      ensures b.createdAt >= a.createdAt
    {
      var j :| 0 <= j < |s| && s[j] == a;
      var i :| 0 <= i < |t| && t[i] == b;
      assert forall k :: 0 <= k < |t| ==> t[k] == s[k];
      assert i < j;
      assert ByCreatedDesc()(s[i], s[j]);
    }
  }

  /** GET /api/ai/consultations: only the caller's records, newest first, the 50 newest when
      there are more. */
  function ListConsultations(records: seq<Consultation>, caller: nat): (r: seq<Consultation>)
    ensures forall c :: c in r ==> c in records && c.user == Some(caller)
    ensures |r| == if |Owned(records, caller)| <= HistoryLimit then |Owned(records, caller)| else HistoryLimit
    ensures multiset(r) <= multiset(Owned(records, caller))
    ensures forall i, j :: 0 <= i < j < |r| ==> r[i].createdAt >= r[j].createdAt
    ensures forall a, b :: a in Owned(records, caller) && a !in r && b in r ==> b.createdAt >= a.createdAt
  {
    var owned := Owned(records, caller);
    NewestCut(owned);
    Take(SortBy(owned, ByCreatedDesc()), HistoryLimit)
  }

  /** The newest `HistoryLimit` of a list: a part of it in newest-first order, never passing
      over a newer record for an older one. */
  lemma NewestCut(owned: seq<Consultation>)
    ensures var r := Take(SortBy(owned, ByCreatedDesc()), HistoryLimit);
      && (forall c :: c in r ==> c in owned)
      && |r| == (if |owned| <= HistoryLimit then |owned| else HistoryLimit)
      && multiset(r) <= multiset(owned)
      && (forall i, j :: 0 <= i < j < |r| ==> r[i].createdAt >= r[j].createdAt)
      && (forall a, b :: a in owned && a !in r && b in r ==> b.createdAt >= a.createdAt)
  {
    var sorted := SortBy(owned, ByCreatedDesc());
    var r := Take(sorted, HistoryLimit);
    NewestFirst(owned);
    assert multiset(r) <= multiset(owned) by {
      assert sorted == r + sorted[|r|..];
    }
    TakeOfSorted(sorted, HistoryLimit);
    TakeKeepsNewest(sorted, HistoryLimit);
  }

  /** A prefix of a newest-first list is a newest-first part of it. */
  lemma TakeOfSorted(s: seq<Consultation>, n: nat)
    requires Sorted(s, ByCreatedDesc())
    ensures var t := Take(s, n);
      && (forall c :: c in t ==> c in s)
      && (forall i, j :: 0 <= i < j < |t| ==> t[i].createdAt >= t[j].createdAt)
  {
    var t := Take(s, n);
    forall c | c in t
      ensures c in s
    {
      var k :| 0 <= k < |t| && t[k] == c;
      assert s[k] == c;
    }
    forall i, j | 0 <= i < j < |t|
      ensures t[i].createdAt >= t[j].createdAt
    {
      assert t[i] == s[i] && t[j] == s[j];
      assert ByCreatedDesc()(s[i], s[j]);
    }
  }

  /** Sorting newest first keeps the elements and the length and orders them. */
  lemma NewestFirst(owned: seq<Consultation>)
    ensures var sorted := SortBy(owned, ByCreatedDesc());
      && Sorted(sorted, ByCreatedDesc())
      && (forall c :: c in sorted <==> c in owned)
      && multiset(sorted) == multiset(owned)
      && |sorted| == |owned|
  {
    var sorted := SortBy(owned, ByCreatedDesc());
    AdjacentSortedIsSorted(sorted, ByCreatedDesc());
    SameElements(sorted, owned);
    assert |multiset(sorted)| == |multiset(owned)|;
  }

  /** Position of the caller's consultation with this id. */
  function IndexOwned(records: seq<Consultation>, id: nat, caller: nat): (k: Option<nat>)
    ensures k.Some? ==> k.value < |records| && records[k.value].id == id && records[k.value].user == Some(caller)
    ensures k.None? ==> forall c :: c in records ==> !(c.id == id && c.user == Some(caller))
  {
    if records == [] then None
    else if records[0].id == id && records[0].user == Some(caller) then Some(0)
    else match IndexOwned(records[1..], id, caller)
      case None => None
      case Some(k) => Some(k + 1)
  }

  /** GET /api/ai/consultations/:id: the record only when it is the caller's. */
  function GetConsultation(records: seq<Consultation>, id: nat, caller: nat): (r: Reply<Consultation>)
    ensures r.Success? <==> exists c :: c in records && c.id == id && c.user == Some(caller)
    ensures r.Success? ==> r.status == 200 && r.data in records && r.data.id == id && r.data.user == Some(caller)
    ensures r.Failure? ==> r == Failure(404, NotFoundError)
  {
    match IndexOwned(records, id, caller)
    case None => Failure(404, NotFoundError)
    case Some(k) => Success(200, records[k])
  }

  /** GET /api/ai/health: always answers, always 'operational', with the outcome of the
      connection test. */
  function Health(env: Env, m: Model, now: int): (r: Reply<HealthView>)
    ensures r.Success? && r.status == 200 && r.data.status == "operational" && r.data.timestamp == now
    ensures env.geminiApiKey == "" ==> !r.data.geminiConnected
    ensures env.geminiApiKey != "" ==> (r.data.geminiConnected <==> m.generate(TestPrompt).Some?)
  {
    Success(200, HealthView("operational", TestConnection(env, m), now))
  }

  /** The consultation collection as `/analyze` appends to it. */
  class ConsultationLog {
    var records: seq<Consultation>
    var nextId: nat

    ghost predicate Valid()
      reads this
    {
      IdsIncreasing(records, nextId)
    }

    constructor ()
      ensures Valid() && records == [] && nextId == 0
    {
      records := [];
      nextId := 0;
    }

    /** POST /api/ai/analyze. */
    method Analyze(now: int, caller: Option<nat>, field: BodyField, template: string, env: Env, m: Model)
      returns (r: Reply<AnalyzeView>)
      requires Valid()
      modifies this
      ensures Valid()
      ensures LogStep(r, records) == AnalyzeResult(old(records), old(nextId), now, caller, field, template, env, m)
      ensures nextId == if r.Success? then old(nextId) + 1 else old(nextId)
    {
      if !(field.StringValue? && field.text != [] && Utf16Length(Trim(field.text)) >= 5) {
        return Failure(400, SymptomsError);
      }
      var text := Trim(field.text);
      var a := AnalyzeSymptoms(text, template, env, m);
      var draft := ConsultationDraft(caller, Some(text), a.ayurvedic, a.allopathic, a.aiAnalysis, Some(caller.None?));
      var created := CreateConsultation(nextId, now, draft);
      if created.Err? {
        return Failure(500, created.error);
      }
      var c := created.value;
      AppendKeepsIds(records, nextId, c);
      records := records + [c];
      nextId := nextId + 1;
      r := Success(200, AnalyzeView(c.id, c.symptoms, a.aiAnalysis, a.severity, a.seekEmergencyCare,
                                    a.ayurvedic, a.allopathic, c.createdAt, Disclaimer));
    }
  }

  /** The symptom check comes before the analyser: a refused request has the same reply,
      and leaves the log the same, whatever the model and the key. */
  lemma RefusedBeforeAnalysis(records: seq<Consultation>, nextId: nat, now: int, caller: Option<nat>, field: BodyField,
                              template: string, env1: Env, env2: Env, m1: Model, m2: Model)
    requires !AcceptableSymptoms(field)
    ensures AnalyzeResult(records, nextId, now, caller, field, template, env1, m1)
         == AnalyzeResult(records, nextId, now, caller, field, template, env2, m2)
  {
  }

  /** Four letters between spaces are too short, whatever the padding; a non-string never
      passes. */
  lemma ShortSymptomsRefused(pad: string)
    requires AllSpace(pad)
    ensures !AcceptableSymptoms(StringValue(pad + "cold" + pad))
    ensures !AcceptableSymptoms(OtherValue) && !AcceptableSymptoms(Absent)
  {
    TrimPadded(pad, "cold", pad);
  }

  /** Three emoji are six UTF-16 code units, so they pass the five-character check although
      they are three characters. */
  lemma EmojiSymptomsAccepted()
    ensures |Trim("🤒🤒🤒")| == 3
    ensures AcceptableSymptoms(StringValue("🤒🤒🤒"))
  {
  }

  /** Without an API key, acceptable symptoms always produce a stored consultation: the
      fallback analysis validates. */
  lemma AnalyzeWithoutKeySucceeds(records: seq<Consultation>, nextId: nat, now: int, caller: Option<nat>,
                                  field: BodyField, template: string, env: Env, m: Model)
    requires AcceptableSymptoms(field) && env.geminiApiKey == ""
    ensures var s := AnalyzeResult(records, nextId, now, caller, field, template, env, m);
      && s.reply.Success? && s.records[|records|].ayurvedic == Fallback.ayurvedic.value
      && s.reply.data.severity == Some("moderate") && s.reply.data.seekEmergencyCare == Some(false)
  {
    FallbackShape();
  }

  /** A guest's consultation is never in anyone's history. */
  lemma GuestsNeverListed(records: seq<Consultation>, caller: nat, c: Consultation)
    requires c.user.None?
    ensures c !in ListConsultations(records, caller)
  {
  }

  /** A signed-in analysis shows up at the head of the caller's history when the log holds
      nothing newer. */
  lemma {:induction false} AnalyzeThenList(records: seq<Consultation>, nextId: nat, now: int, caller: nat,
                                           field: BodyField, template: string, env: Env, m: Model)
    requires forall c :: c in records ==> c.createdAt < now
    requires AnalyzeResult(records, nextId, now, Some(caller), field, template, env, m).reply.Success?
    ensures var s := AnalyzeResult(records, nextId, now, Some(caller), field, template, env, m);
      ListConsultations(s.records, caller)[0] == s.records[|records|]
  {
    var s := AnalyzeResult(records, nextId, now, Some(caller), field, template, env, m);
    assert s.records == records + [s.records[|records|]];
    NewestHeadsList(records, s.records[|records|], caller);
  }

  /** A record of the caller's, newer than every earlier one, heads the caller's history. */
  lemma NewestHeadsList(records: seq<Consultation>, c: Consultation, caller: nat)
    requires forall d :: d in records ==> d.createdAt < c.createdAt
    requires c.user == Some(caller)
    ensures ListConsultations(records + [c], caller)[0] == c
  {
    assert c in Owned(records + [c], caller);
    var r := ListConsultations(records + [c], caller);
    assert |r| > 0;
    assert r[0] in r;
    assert c in r;
    var i :| 0 <= i < |r| && r[i] == c;
    assert r[0].createdAt >= c.createdAt;
    assert r[0] !in records;
    assert r[0] in records + [c];
  }
}
