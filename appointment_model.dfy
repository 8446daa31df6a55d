/** The appointment document (server/src/models/Appointment.ts): its status and type enums,
    required fields, and the defaults and enum validation applied when one is created.
    Dates are opaque instants, compared by equality and order. */
module AppointmentModel {
  import opened Wrappers

  datatype Status = Pending | Confirmed | Completed | Cancelled
  datatype AppointmentType = Consultation | HomeVisit | VideoCall | Emergency

  type Date = int

  datatype Appointment = Appointment(
    id: nat,
    user: nat,
    doctor: nat,
    doctorName: string,
    date: Date,
    time: string,
    kind: AppointmentType,
    status: Status,
    symptoms: string,
    notes: string)

  function StatusName(s: Status): string {
    match s
    case Pending => "pending"
    case Confirmed => "confirmed"
    case Completed => "completed"
    case Cancelled => "cancelled"
  }

  /** The status enum: exactly the four names are accepted. */
  function ParseStatus(name: string): (r: Option<Status>)
    ensures r.Some? ==> StatusName(r.value) == name
    ensures r.None? ==> forall s: Status :: StatusName(s) != name
  {
    if name == "pending" then Some(Pending)
    else if name == "confirmed" then Some(Confirmed)
    else if name == "completed" then Some(Completed)
    else if name == "cancelled" then Some(Cancelled)
    else None
  }

  function TypeName(t: AppointmentType): string {
    match t
    case Consultation => "consultation"
    case HomeVisit => "home-visit"
    case VideoCall => "video-call"
    case Emergency => "emergency"
  }

  /** The type enum: exactly the four names are accepted. */
  function ParseType(name: string): (r: Option<AppointmentType>)
    ensures r.Some? ==> TypeName(r.value) == name
    ensures r.None? ==> forall t: AppointmentType :: TypeName(t) != name
  {
    if name == "consultation" then Some(Consultation)
    else if name == "home-visit" then Some(HomeVisit)
    else if name == "video-call" then Some(VideoCall)
    else if name == "emergency" then Some(Emergency)
    else None
  }

  /** Completed and cancelled appointments can no longer be updated. */
  predicate IsTerminal(s: Status) {
    s == Completed || s == Cancelled
  }

  /** Pending and confirmed appointments hold their slot. */
  predicate IsActive(s: Status) {
    s == Pending || s == Confirmed
  }

  /** The fields given to `Appointment.create`; `None` leaves a defaulted field undefined. */
  datatype Draft = Draft(
    user: nat,
    doctor: nat,
    doctorName: string,
    date: Date,
    time: string,
    kind: Option<string>,
    status: Option<string>,
    symptoms: Option<string>,
    notes: Option<string>)

  /** The schema's required text fields are present. */
  predicate HasRequiredFields(a: Appointment) {
    a.doctorName != [] && a.time != []
  }

  /** Creating an appointment document: required fields, enum checks, then defaults
      (type consultation, status pending, empty symptoms and notes). */
  function Materialize(id: nat, d: Draft): (r: Result<Appointment, string>)
    ensures r.Ok? <==> (
      && d.doctorName != [] && d.time != []
      && (d.kind.Some? ==> ParseType(d.kind.value).Some?)
      && (d.status.Some? ==> ParseStatus(d.status.value).Some?))
    ensures r.Ok? ==> HasRequiredFields(r.value) && r.value.id == id && r.value.user == d.user &&
                      r.value.doctor == d.doctor && r.value.date == d.date && r.value.time == d.time
    ensures r.Ok? ==> TypeName(r.value.kind) == d.kind.GetOr("consultation")
    ensures r.Ok? ==> StatusName(r.value.status) == d.status.GetOr("pending")
    ensures r.Ok? ==> r.value.symptoms == d.symptoms.GetOr("") && r.value.notes == d.notes.GetOr("")
  {
    if d.doctorName == [] then Err("Doctor name is required")
    else if d.time == [] then Err("Appointment time is required")
    else
      var kind := if d.kind.Some? then ParseType(d.kind.value) else Some(Consultation);
      var status := if d.status.Some? then ParseStatus(d.status.value) else Some(Pending);
      if kind.None? then Err("`" + d.kind.value + "` is not a valid enum value for path `type`.")
      else if status.None? then Err("`" + d.status.value + "` is not a valid enum value for path `status`.")
      else Ok(Appointment(id, d.user, d.doctor, d.doctorName, d.date, d.time, kind.value, status.value,
                          d.symptoms.GetOr(""), d.notes.GetOr("")))
  }

  lemma StatusNamesRoundTrip(s: Status)
    ensures ParseStatus(StatusName(s)) == Some(s)
  {
  }

  lemma TypeNamesRoundTrip(t: AppointmentType)
    ensures ParseType(TypeName(t)) == Some(t)
  {
  }
}
