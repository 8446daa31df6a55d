/** The consultation document (server/src/models/Consultation.ts): a record of one symptom
    analysis, with two lists of medicine entries whose four text fields are required, and the
    defaults Mongoose fills in for fields the creator leaves out. */
module ConsultationModel {
  import opened Wrappers

  /** One recommended medicine. A field the analysis left out is the empty string: Mongoose's
      `required` refuses both alike. */
  datatype Medicine = Medicine(name: string, dosage: string, timing: string, duration: string)

  /** What `Consultation.create` is given; `None` is a field left out. */
  datatype ConsultationDraft = ConsultationDraft(
    user: Option<nat>,
    symptoms: Option<string>,
    ayurvedic: Option<seq<Medicine>>,
    allopathic: Option<seq<Medicine>>,
    aiAnalysis: Option<string>,
    isGuest: Option<bool>)

  /** A stored consultation; `user` is `None` for a guest's (the stored null). */
  datatype Consultation = Consultation(
    id: nat,
    user: Option<nat>,
    symptoms: string,
    ayurvedic: seq<Medicine>,
    allopathic: seq<Medicine>,
    aiAnalysis: string,
    isGuest: bool,
    createdAt: int)

  /** The message of the first empty field of a medicine entry, in schema order. */
  function MedicineViolation(m: Medicine): (msg: Option<string>)
    ensures msg.None? <==> m.name != [] && m.dosage != [] && m.timing != [] && m.duration != []
  {
    if m.name == [] then Some("Path `name` is required.")
    else if m.dosage == [] then Some("Path `dosage` is required.")
    else if m.timing == [] then Some("Path `timing` is required.")
    else if m.duration == [] then Some("Path `duration` is required.")
    else None
  }

  predicate ValidMedicine(m: Medicine) {
    m.name != [] && m.dosage != [] && m.timing != [] && m.duration != []
  }

  /** Every entry of the list is complete. */
  predicate AllValid(ms: seq<Medicine>) {
    forall i :: 0 <= i < |ms| ==> ValidMedicine(ms[i])
  }

  /** The first failing entry's message, in list order. */
  function ListViolation(ms: seq<Medicine>): (msg: Option<string>)
    ensures msg.None? <==> AllValid(ms)
  {
    if ms == [] then None
    else if MedicineViolation(ms[0]).Some? then MedicineViolation(ms[0])
    else
      var rest := ListViolation(ms[1..]);
      assert forall i :: 1 <= i < |ms| ==> ms[i] == ms[1..][i - 1];
      rest
  }

  predicate ValidConsultation(c: Consultation) {
    c.symptoms != [] &&
    AllValid(c.ayurvedic) && AllValid(c.allopathic)
  }

  /** `Consultation.create`: defaults (user null, empty lists, empty analysis, not a guest),
      then validation of the required symptoms and of every medicine entry; the first failing
      path's message otherwise. */
  function CreateConsultation(id: nat, createdAt: int, d: ConsultationDraft): (r: Result<Consultation, string>)
    ensures r.Ok? <==> ValidConsultation(Consultation(id, d.user, d.symptoms.GetOr(""), d.ayurvedic.GetOr([]),
                                                      d.allopathic.GetOr([]), d.aiAnalysis.GetOr(""),
                                                      d.isGuest.GetOr(false), createdAt))
    ensures r.Ok? ==> r.value == Consultation(id, d.user, d.symptoms.GetOr(""), d.ayurvedic.GetOr([]),
                                              d.allopathic.GetOr([]), d.aiAnalysis.GetOr(""),
                                              d.isGuest.GetOr(false), createdAt)
  {
    var c := Consultation(id, d.user, d.symptoms.GetOr(""), d.ayurvedic.GetOr([]), d.allopathic.GetOr([]),
                          d.aiAnalysis.GetOr(""), d.isGuest.GetOr(false), createdAt);
    if c.symptoms == [] then Err("Symptoms are required")
    else if ListViolation(c.ayurvedic).Some? then Err(ListViolation(c.ayurvedic).value)
    else if ListViolation(c.allopathic).Some? then Err(ListViolation(c.allopathic).value)
    else Ok(c)
  }

  /** Fields left out of the draft take the schema defaults: no user, empty lists, empty
      analysis, not a guest. */
  lemma DefaultsApplied(id: nat, createdAt: int, symptoms: string)
    requires symptoms != []
    ensures CreateConsultation(id, createdAt, ConsultationDraft(None, Some(symptoms), None, None, None, None))
            == Ok(Consultation(id, None, symptoms, [], [], "", false, createdAt))
  {
  }

  /** Missing or empty symptoms are refused whatever else the draft holds. */
  lemma SymptomsRequired(id: nat, createdAt: int, d: ConsultationDraft)
    requires d.symptoms.None? || d.symptoms == Some("")
    ensures CreateConsultation(id, createdAt, d) == Err("Symptoms are required")
  {
  }

  /** A single entry with an empty field makes the whole record fail. */
  lemma IncompleteEntryRefused(id: nat, createdAt: int, d: ConsultationDraft, k: nat)
    requires d.ayurvedic.Some? && k < |d.ayurvedic.value| && !ValidMedicine(d.ayurvedic.value[k])
    ensures CreateConsultation(id, createdAt, d).Err?
  {
  }
}
