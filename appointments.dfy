/** The appointment ledger (server/src/routes/appointments.ts). Every handler runs behind the
    mandatory guard, so each takes the caller's user id. The ledger is a class over the
    sequence of stored appointments; each mutating handler is a method whose reply and new
    state are those of a pure transition function (BookResult, UpdateResult, CancelResult),
    and the business rules are lemmas about those functions. Reads are pure functions of the
    stored sequence. */
module Appointments {
  import opened Wrappers
  import opened Http
  import opened Sorting
  import opened DoctorModel
  import opened Doctors
  import opened AppointmentModel

  /** The body of POST /api/appointments; `None` for an absent or null field. */
  datatype BookingRequest = BookingRequest(
    doctorId: Option<nat>,
    date: Option<Date>,
    time: Option<string>,
    kind: Option<string>,
    symptoms: Option<string>)

  /** The body of PUT /api/appointments/:id. */
  datatype Patch = Patch(date: Option<Date>, time: Option<string>, notes: Option<string>, symptoms: Option<string>)

  /** A handler's reply together with the ledger contents it leaves behind. */
  datatype Step<T> = Step(reply: Reply<T>, records: seq<Appointment>)

  const MissingFieldsError := "Please provide doctorId, date, and time"
  const DoctorNotFoundError := "Doctor not found"
  const DoctorUnavailableError := "Doctor is currently not available for appointments"
  const SlotTakenError := "This time slot is already booked"
  const NotFoundError := "Appointment not found"
  const TerminalError := "Cannot update a completed or cancelled appointment"
  const CancelledMessage := "Appointment cancelled successfully"

  /** Ids are handed out in increasing order and stay below the next one. */
  predicate IdsIncreasing(records: seq<Appointment>, nextId: nat) {
    && (forall i :: 0 <= i < |records| ==> records[i].id < nextId)
    && (forall i, j :: 0 <= i < j < |records| ==> records[i].id < records[j].id)
  }

  /** `a` is pending or confirmed for this doctor, date and time. */
  predicate HoldsSlot(a: Appointment, doctor: nat, date: Date, time: string) {
    a.doctor == doctor && a.date == date && a.time == time && IsActive(a.status)
  }

  /** The conflict query: some stored appointment, of any user, holds the slot. */
  predicate SlotTaken(records: seq<Appointment>, doctor: nat, date: Date, time: string) {
    exists i | 0 <= i < |records| :: HoldsSlot(records[i], doctor, date, time)
  }

  /** At most one pending or confirmed appointment per doctor, date and time. */
  predicate SlotsUnique(records: seq<Appointment>) {
    forall i, j :: 0 <= i < j < |records| && IsActive(records[i].status) ==>
      !HoldsSlot(records[j], records[i].doctor, records[i].date, records[i].time)
  }

  predicate FieldsPresent(req: BookingRequest) {
    req.doctorId.Some? && req.date.Some? && Truthy(req.time)
  }

  /** What the handler passes to `Appointment.create`. */
  function BookingDraft(caller: nat, req: BookingRequest, doctor: Doctor): Draft
    requires FieldsPresent(req)
  {
    Draft(caller, req.doctorId.value, doctor.name, req.date.value, req.time.value,
          Some(if Truthy(req.kind) then req.kind.value else "consultation"),
          Some("pending"),
          Some(if Truthy(req.symptoms) then req.symptoms.value else ""),
          None)
  }

  /** POST /api/appointments: the checks in order (fields, doctor exists, doctor available,
      slot free), then the new pending appointment. */
  function BookResult(records: seq<Appointment>, nextId: nat, caller: nat, req: BookingRequest,
                      catalogue: seq<Doctor>): (r: Reply<Appointment>)
    ensures !FieldsPresent(req) ==> r == Failure(400, MissingFieldsError)
    ensures r.Success? ==>
      && r.status == 201
      && FieldsPresent(req)
      && FindDoctor(catalogue, req.doctorId.value).Some?
      && FindDoctor(catalogue, req.doctorId.value).value.available
      && !SlotTaken(records, req.doctorId.value, req.date.value, req.time.value)
      && r.data.id == nextId && r.data.user == caller && r.data.status == Pending
      && r.data.doctor == req.doctorId.value && r.data.date == req.date.value && r.data.time == req.time.value
      && r.data.doctorName == FindDoctor(catalogue, req.doctorId.value).value.name
      && r.data.notes == ""
      && TypeName(r.data.kind) == (if Truthy(req.kind) then req.kind.value else "consultation")
      && r.data.symptoms == (if Truthy(req.symptoms) then req.symptoms.value else "")
    ensures FieldsPresent(req) && FindDoctor(catalogue, req.doctorId.value).Some?
            && FindDoctor(catalogue, req.doctorId.value).value.available
            && !SlotTaken(records, req.doctorId.value, req.date.value, req.time.value) ==>
      (r.Success? <==> FindDoctor(catalogue, req.doctorId.value).value.name != [] &&
                       (Truthy(req.kind) ==> ParseType(req.kind.value).Some?))
    ensures r.Failure? ==> r.status in {400, 404, 500}
  {
    if !FieldsPresent(req) then Failure(400, MissingFieldsError)
    else
      match FindDoctor(catalogue, req.doctorId.value)
      case None => Failure(404, DoctorNotFoundError)
      case Some(doctor) =>
        if !doctor.available then Failure(400, DoctorUnavailableError)
        else if SlotTaken(records, req.doctorId.value, req.date.value, req.time.value) then Failure(400, SlotTakenError)
        else
          match Materialize(nextId, BookingDraft(caller, req, doctor))
          case Err(msg) => Failure(500, msg)
          case Ok(a) => Success(201, a)
  }

  /** The caller's appointments. */
  function Owned(records: seq<Appointment>, caller: nat): (r: seq<Appointment>)
    ensures forall a :: a in r <==> a in records && a.user == caller
    ensures forall a :: multiset(r)[a] == if a.user == caller then multiset(records)[a] else 0
  {
    if records == [] then []
    else
      assert records == [records[0]] + records[1..];
      (if records[0].user == caller then [records[0]] else []) + Owned(records[1..], caller)
  }

  /** Later date first. */
  function ByDateDesc(): (le: (Appointment, Appointment) -> bool)
    ensures Total(le) && Transitive(le)
  {
    (a: Appointment, b: Appointment) => a.date >= b.date
  }

  /** GET /api/appointments: exactly the caller's appointments, latest date first. */
  function ListAppointments(records: seq<Appointment>, caller: nat): (r: seq<Appointment>)
    ensures forall a :: a in r <==> a in records && a.user == caller
    ensures multiset(r) == multiset(Owned(records, caller))
    ensures forall i, j :: 0 <= i < j < |r| ==> r[i].date >= r[j].date
  {
    var owned := Owned(records, caller);
    var r := SortBy(owned, ByDateDesc());
    SameElements(r, owned);
    AdjacentSortedIsSorted(r, ByDateDesc());
    r
  }

  /** Position of the caller's appointment with this id. */
  function IndexOwned(records: seq<Appointment>, id: nat, caller: nat): (k: Option<nat>)
    ensures k.Some? ==> k.value < |records| && records[k.value].id == id && records[k.value].user == caller
    ensures k.None? ==> forall a :: a in records ==> !(a.id == id && a.user == caller)
  {
    if records == [] then None
    else if records[0].id == id && records[0].user == caller then Some(0)
    else match IndexOwned(records[1..], id, caller)
      case None => None
      case Some(k) => Some(k + 1)
  }

  /** GET /api/appointments/:id: only the caller's own appointment is visible. */
  function GetAppointment(records: seq<Appointment>, id: nat, caller: nat): (r: Reply<Appointment>)
    ensures r.Success? <==> exists a :: a in records && a.id == id && a.user == caller
    ensures r.Success? ==> r.status == 200 && r.data in records && r.data.id == id && r.data.user == caller
    ensures r.Failure? ==> r == Failure(404, NotFoundError)
  {
    match IndexOwned(records, id, caller)
    case None => Failure(404, NotFoundError)
    case Some(k) => Success(200, records[k])
  }

  /** The fields of the patch that are given and non-empty overwrite the appointment's. */
  function Reschedule(a: Appointment, p: Patch): (b: Appointment)
    ensures b.id == a.id && b.user == a.user && b.doctor == a.doctor && b.doctorName == a.doctorName
    ensures b.kind == a.kind && b.status == a.status
    ensures b.date == (if p.date.Some? then p.date.value else a.date)
    ensures b.time == (if Truthy(p.time) then p.time.value else a.time)
    ensures b.notes == (if Truthy(p.notes) then p.notes.value else a.notes)
    ensures b.symptoms == (if Truthy(p.symptoms) then p.symptoms.value else a.symptoms)
  {
    var b := if p.date.Some? then a.(date := p.date.value) else a;
    var b := if Truthy(p.time) then b.(time := p.time.value) else b;
    var b := if Truthy(p.notes) then b.(notes := p.notes.value) else b;
    if Truthy(p.symptoms) then b.(symptoms := p.symptoms.value) else b
  }

  /** PUT /api/appointments/:id: 404 for a record the caller does not own, 400 for a
      completed or cancelled one, otherwise the rescheduled record replaces the old one.
      There is no slot-conflict check here. */
  function UpdateResult(records: seq<Appointment>, caller: nat, id: nat, p: Patch): (s: Step<Appointment>)
    ensures |s.records| == |records|
    ensures s.reply.Failure? ==> s.records == records
    ensures s.reply == Failure(404, NotFoundError) <==>
      forall k :: 0 <= k < |records| ==> !(records[k].id == id && records[k].user == caller)
    ensures s.reply.Failure? ==> s.reply == Failure(404, NotFoundError) || s.reply == Failure(400, TerminalError)
    ensures s.reply == Failure(400, TerminalError) ==>
      exists k :: 0 <= k < |records| && records[k].id == id && records[k].user == caller && IsTerminal(records[k].status)
    ensures s.reply.Success? ==> s.reply.status == 200 && s.reply.data.id == id && s.reply.data.user == caller
    ensures s.reply.Success? ==> exists k :: 0 <= k < |records| && records[k].id == id && records[k].user == caller &&
                                   !IsTerminal(records[k].status) && s.reply.data == Reschedule(records[k], p) &&
                                   s.records == records[k := s.reply.data]
  {
    match IndexOwned(records, id, caller)
    case None => Step(Failure(404, NotFoundError), records)
    case Some(k) =>
      if IsTerminal(records[k].status) then Step(Failure(400, TerminalError), records)
      else
        var b := Reschedule(records[k], p);
        Step(Success(200, b), records[k := b])
  }

  /** DELETE /api/appointments/:id: a soft cancel of the caller's record, from any status. */
  function CancelResult(records: seq<Appointment>, caller: nat, id: nat): (s: Step<string>)
    ensures |s.records| == |records|
    ensures forall i :: 0 <= i < |records| ==> s.records[i] == records[i] || s.records[i] == records[i].(status := Cancelled)
    ensures s.reply.Success? <==> exists k :: 0 <= k < |records| && records[k].id == id && records[k].user == caller
    ensures s.reply.Failure? ==> s.reply == Failure(404, NotFoundError) && s.records == records
    ensures s.reply.Success? ==> s.reply == Success(200, CancelledMessage)
    ensures s.reply.Success? ==> exists k :: 0 <= k < |records| && records[k].id == id && records[k].user == caller &&
                                   s.records == records[k := records[k].(status := Cancelled)]
  {
    match IndexOwned(records, id, caller)
    case None => Step(Failure(404, NotFoundError), records)
    case Some(k) => Step(Success(200, CancelledMessage), records[k := records[k].(status := Cancelled)])
  }

  /** The store of appointments, as the handlers change it. */
  class Ledger {
    var records: seq<Appointment>
    var nextId: nat

    ghost predicate Valid()
      reads this
    {
      IdsIncreasing(records, nextId)
    }

    constructor ()
      ensures Valid() && records == [] && nextId == 0
    {
      records := [];
      nextId := 0;
    }

    /** POST /api/appointments. */
    method Create(caller: nat, req: BookingRequest, catalogue: seq<Doctor>) returns (r: Reply<Appointment>)
      requires Valid()
      modifies this
      ensures Valid()
      ensures r == BookResult(old(records), old(nextId), caller, req, catalogue)
      ensures records == (if r.Success? then old(records) + [r.data] else old(records))
      ensures nextId == (if r.Success? then old(nextId) + 1 else old(nextId))
    {
      if req.doctorId.None? || req.date.None? || !Truthy(req.time) {
        return Failure(400, MissingFieldsError);
      }
      var found := FindDoctor(catalogue, req.doctorId.value);
      if found.None? {
        return Failure(404, DoctorNotFoundError);
      }
      var doctor := found.value;
      if !doctor.available {
        return Failure(400, DoctorUnavailableError);
      }
      if SlotTaken(records, req.doctorId.value, req.date.value, req.time.value) {
        return Failure(400, SlotTakenError);
      }
      var created := Materialize(nextId, BookingDraft(caller, req, doctor));
      if created.Err? {
        return Failure(500, created.error);
      }
      records := records + [created.value];
      nextId := nextId + 1;
      r := Success(201, created.value);
    }

    /** PUT /api/appointments/:id. */
    method Update(caller: nat, id: nat, p: Patch) returns (r: Reply<Appointment>)
      requires Valid()
      modifies this
      ensures Valid() && nextId == old(nextId)
      ensures Step(r, records) == UpdateResult(old(records), caller, id, p)
    {
      var k := IndexOwned(records, id, caller);
      if k.None? {
        return Failure(404, NotFoundError);
      }
      if IsTerminal(records[k.value].status) {
        return Failure(400, TerminalError);
      }
      var b := Reschedule(records[k.value], p);
      records := records[k.value := b];
      r := Success(200, b);
    }

    /** DELETE /api/appointments/:id. */
    method Cancel(caller: nat, id: nat) returns (r: Reply<string>)
      requires Valid()
      modifies this
      ensures Valid() && nextId == old(nextId)
      ensures Step(r, records) == CancelResult(old(records), caller, id)
    {
      var k := IndexOwned(records, id, caller);
      if k.None? {
        return Failure(404, NotFoundError);
      }
      records := records[k.value := records[k.value].(status := Cancelled)];
      r := Success(200, CancelledMessage);
    }
  }

  /** The checks run in order: a request with every field present is rejected for an
      unknown doctor with 404, and for an unavailable one with 400, whatever the slot. */
  lemma DoctorChecksInOrder(records: seq<Appointment>, nextId: nat, caller: nat, req: BookingRequest, catalogue: seq<Doctor>)
    requires FieldsPresent(req)
    ensures FindDoctor(catalogue, req.doctorId.value).None? ==>
      BookResult(records, nextId, caller, req, catalogue) == Failure(404, DoctorNotFoundError)
    ensures FindDoctor(catalogue, req.doctorId.value).Some? && !FindDoctor(catalogue, req.doctorId.value).value.available ==>
      BookResult(records, nextId, caller, req, catalogue) == Failure(400, DoctorUnavailableError)
  {
  }

  /** A slot held by a pending or confirmed appointment is refused; completed and cancelled
      appointments never block it. */
  lemma ConflictOnlyFromActive(records: seq<Appointment>, nextId: nat, caller: nat, req: BookingRequest, catalogue: seq<Doctor>)
    requires FieldsPresent(req)
    requires FindDoctor(catalogue, req.doctorId.value).Some? && FindDoctor(catalogue, req.doctorId.value).value.available
    ensures SlotTaken(records, req.doctorId.value, req.date.value, req.time.value) ==>
      BookResult(records, nextId, caller, req, catalogue) == Failure(400, SlotTakenError)
    ensures (forall a :: a in records && a.doctor == req.doctorId.value && a.date == req.date.value && a.time == req.time.value
               ==> !IsActive(a.status)) ==>
      BookResult(records, nextId, caller, req, catalogue) != Failure(400, SlotTakenError)
  {
  }

  /** Booking keeps at most one active appointment per slot. */
  lemma BookKeepsSlotsUnique(records: seq<Appointment>, nextId: nat, caller: nat, req: BookingRequest, catalogue: seq<Doctor>)
    requires SlotsUnique(records)
    requires BookResult(records, nextId, caller, req, catalogue).Success?
    ensures SlotsUnique(records + [BookResult(records, nextId, caller, req, catalogue).data])
  {
    var a := BookResult(records, nextId, caller, req, catalogue).data;
    var s := records + [a];
    forall i, j | 0 <= i < j < |s| && IsActive(s[i].status)
      ensures !HoldsSlot(s[j], s[i].doctor, s[i].date, s[i].time)
    {
      if j == |records| && HoldsSlot(s[j], s[i].doctor, s[i].date, s[i].time) {
        assert HoldsSlot(records[i], a.doctor, a.date, a.time);
      }
    }
  }

  /** Two sequential bookings of the same slot: the second is refused, whoever makes it. */
  lemma SecondBookingRefused(records: seq<Appointment>, nextId: nat, caller: nat, other: nat, req: BookingRequest,
                             req2: BookingRequest, catalogue: seq<Doctor>)
    requires BookResult(records, nextId, caller, req, catalogue).Success?
    requires req2.doctorId == req.doctorId && req2.date == req.date && req2.time == req.time
    ensures var a := BookResult(records, nextId, caller, req, catalogue).data;
      BookResult(records + [a], nextId + 1, other, req2, catalogue) == Failure(400, SlotTakenError)
  {
    var a := BookResult(records, nextId, caller, req, catalogue).data;
    assert HoldsSlot((records + [a])[|records|], req.doctorId.value, req.date.value, req.time.value);
  }

  /** Rescheduling does not re-check the slot, so it can put two active appointments on the
      same doctor, date and time. */
  lemma UpdateCanBreakSlotsUnique()
    ensures exists records: seq<Appointment>, caller: nat, id: nat, p: Patch ::
      SlotsUnique(records) && UpdateResult(records, caller, id, p).reply.Success? &&
      !SlotsUnique(UpdateResult(records, caller, id, p).records)
  {
    var a := Appointment(0, 7, 1, "Dr. A", 20250101, "10:00 AM", Consultation, Pending, "", "");
    var b := Appointment(1, 7, 1, "Dr. A", 20250101, "11:00 AM", Consultation, Confirmed, "", "");
    var records := [a, b];
    var p := Patch(None, Some("10:00 AM"), None, None);
    assert SlotsUnique(records);
    var s := UpdateResult(records, 7, 1, p);
    assert IndexOwned(records, 1, 7) == Some(1);
    assert s.records == [a, Reschedule(b, p)];
    assert HoldsSlot(s.records[1], s.records[0].doctor, s.records[0].date, s.records[0].time);
    assert !SlotsUnique(s.records);
    assert SlotsUnique(records) && s.reply.Success? && !SlotsUnique(s.records);
  }

  /** Cancelling never removes records and keeps the slot property. */
  lemma CancelKeepsSlotsUnique(records: seq<Appointment>, caller: nat, id: nat)
    requires SlotsUnique(records)
    ensures SlotsUnique(CancelResult(records, caller, id).records)
  {
    var s := CancelResult(records, caller, id).records;
    forall i, j | 0 <= i < j < |s| && IsActive(s[i].status)
      ensures !HoldsSlot(s[j], s[i].doctor, s[i].date, s[i].time)
    {
      assert s[i] == records[i];
    }
  }

  /** Cancelling a second time leaves the same ledger. */
  lemma CancelIdempotent(records: seq<Appointment>, caller: nat, id: nat)
    ensures var once := CancelResult(records, caller, id).records;
      CancelResult(once, caller, id).records == once
  {
    var once := CancelResult(records, caller, id).records;
    match IndexOwned(records, id, caller)
    case None =>
    case Some(k) =>
      IndexOwnedKeys(records, once, id, caller);
  }

  /** The lookup depends only on ids and owners. */
  lemma {:induction false} IndexOwnedKeys(s: seq<Appointment>, t: seq<Appointment>, id: nat, caller: nat)
    requires |s| == |t|
    requires forall i :: 0 <= i < |s| ==> s[i].id == t[i].id && s[i].user == t[i].user
    ensures IndexOwned(s, id, caller) == IndexOwned(t, id, caller)
  {
    if s != [] {
      IndexOwnedKeys(s[1..], t[1..], id, caller);
    }
  }

  /** There is no terminal-state check on cancel: the caller's appointment is cancelled from
      whatever status it has, completed and cancelled included, and nothing else changes. */
  lemma CancelAnyStatusSucceeds(records: seq<Appointment>, nextId: nat, caller: nat, k: nat)
    requires k < |records| && records[k].user == caller
    requires IdsIncreasing(records, nextId)
    ensures var s := CancelResult(records, caller, records[k].id);
      s.reply == Success(200, CancelledMessage) && s.records == records[k := records[k].(status := Cancelled)]
  {
    var k2 := IndexOwned(records, records[k].id, caller);
    assert k2.Some?;
    assert k2.value == k;
  }

  /** Update refuses completed and cancelled appointments, and succeeds on the others. */
  lemma UpdateRefusesTerminal(records: seq<Appointment>, nextId: nat, caller: nat, k: nat, p: Patch)
    requires k < |records| && records[k].user == caller
    requires IdsIncreasing(records, nextId)
    ensures var s := UpdateResult(records, caller, records[k].id, p);
      (IsTerminal(records[k].status) <==> s.reply == Failure(400, TerminalError)) &&
      (!IsTerminal(records[k].status) ==> s.reply == Success(200, Reschedule(records[k], p)))
  {
    var k2 := IndexOwned(records, records[k].id, caller);
    assert k2.Some?;
    assert k2.value == k;
  }

  /** Booking on an empty ledger, then listing: exactly one entry, pending, for the caller. */
  lemma BookThenList(nextId: nat, caller: nat, req: BookingRequest, catalogue: seq<Doctor>)
    requires BookResult([], nextId, caller, req, catalogue).Success?
    ensures var a := BookResult([], nextId, caller, req, catalogue).data;
      ListAppointments([a], caller) == [a] && a.status == Pending
  {
    var a := BookResult([], nextId, caller, req, catalogue).data;
    var r := ListAppointments([a], caller);
    assert Owned([a], caller) == [a];
    assert |r| == 1 by {
      assert |multiset(r)| == |multiset([a])|;
    }
    assert r[0] in r;
  }
}
