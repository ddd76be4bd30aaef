/**
 * The appointments resource: an ordered, in-memory list of appointments with
 * id-generating create, rename-only update (of the patient name), delete,
 * and filters by patient name and by doctor in a text and a structured
 * (JSON) variant.
 */
module Appointments {
  import opened Common
  import opened CaseFold
  import opened Ids
  import opened Records

  /** The date and the number are kept as the text they print as. */
  datatype Appointment = Appointment(
    id: string,
    patientName: string,
    doctorId: string,
    hospitalId: string,
    appointmentDate: string,
    appointmentNumber: string)

  const AppointmentPrefix: string := "app"

  /** The id of a appointment, the key of every lookup. */
  function IdOf(a: Appointment): string {
    a.id
  }

  /** The patient-name filter: a case-insensitive substring match. */
  function ByPatientName(query: string): Appointment -> bool {
    (a: Appointment) => ContainsIgnoreCase(a.patientName, query)
  }

  /** The doctor filter of the text variant: a case-insensitive substring match. */
  function ByDoctor(query: string): Appointment -> bool {
    (a: Appointment) => ContainsIgnoreCase(a.doctorId, query)
  }

  /** The doctor filter of the JSON variant: case-insensitive equality. */
  function ByDoctorExactly(query: string): Appointment -> bool {
    (a: Appointment) => EqualsIgnoreCase(a.doctorId, query)
  }

  /**
   * The patient-name and both doctor filters select the same appointments
   * for two queries that differ only in case.
   */
  lemma FiltersIgnoreQueryCase(as_: seq<Appointment>, q1: string, q2: string)
    requires EqualsIgnoreCase(q1, q2)
    ensures Select(as_, ByPatientName(q1)) == Select(as_, ByPatientName(q2))
    ensures Select(as_, ByDoctor(q1)) == Select(as_, ByDoctor(q2))
    ensures Select(as_, ByDoctorExactly(q1)) == Select(as_, ByDoctorExactly(q2))
  {
    SelectAgree(as_, ByPatientName(q1), ByPatientName(q2));
    SelectAgree(as_, ByDoctor(q1), ByDoctor(q2));
    SelectAgree(as_, ByDoctorExactly(q1), ByDoctorExactly(q2));
  }

  /**
   * The two doctor filters disagree, but only one way: the JSON matches are
   * the text matches that also equal the query, so every JSON match is a
   * text match.
   */
  lemma DoctorJsonWithinText(as_: seq<Appointment>, query: string)
    ensures Select(Select(as_, ByDoctor(query)), ByDoctorExactly(query)) == Select(as_, ByDoctorExactly(query))
    ensures multiset(Select(as_, ByDoctorExactly(query))) <= multiset(Select(as_, ByDoctor(query)))
  {
    forall a: Appointment | ByDoctorExactly(query)(a) ensures ByDoctor(query)(a) {
      PoliciesNest(a.doctorId, query);
    }
    SelectNarrower(as_, ByDoctorExactly(query), ByDoctor(query));
    forall a: Appointment
      ensures multiset(Select(as_, ByDoctorExactly(query)))[a] <= multiset(Select(as_, ByDoctor(query)))[a]
    {
      SelectMultiplicity(as_, ByDoctorExactly(query), a);
      SelectMultiplicity(as_, ByDoctor(query), a);
    }
  }

  /** The line getAppointments prints for each appointment. */
  function ListLine(a: Appointment): string {
    "ID = " + a.id + ", Patient Name = " + a.patientName + ", Doctor ID = " + a.doctorId
    + ", Hospital ID = " + a.hospitalId + ", Appointment Date = " + a.appointmentDate
    + ", Appointment Number = " + a.appointmentNumber
  }

  /** The line the patient-name filter prints. */
  function PatientLine(a: Appointment): string {
    "ID = " + a.id + ", Patient Name = " + a.patientName
  }

  /** The line the doctor filter prints. */
  function DoctorLine(a: Appointment): string {
    "ID = " + a.id + ", Doctor = " + a.doctorId
  }

  lemma LinesStartWithId()
    ensures forall a :: StartsWith(ListLine(a), "ID = ")
    ensures forall a :: StartsWith(PatientLine(a), "ID = ")
    ensures forall a :: StartsWith(DoctorLine(a), "ID = ")
  {
    forall a: Appointment ensures StartsWith(ListLine(a), "ID = ") {
      var rest := ", Patient Name = " + a.patientName + ", Doctor ID = " + a.doctorId
        + ", Hospital ID = " + a.hospitalId + ", Appointment Date = " + a.appointmentDate
        + ", Appointment Number = " + a.appointmentNumber;
      assert ListLine(a) == "ID = " + (a.id + rest);
      StartsWithExtended("ID = ", a.id + rest);
    }
    forall a: Appointment ensures StartsWith(PatientLine(a), "ID = ") {
      StartsWithExtended("ID = ", a.id + ", Patient Name = " + a.patientName);
    }
    forall a: Appointment ensures StartsWith(DoctorLine(a), "ID = ") {
      StartsWithExtended("ID = ", a.id + ", Doctor = " + a.doctorId);
    }
  }

  /**
   * getAppointments answers "none" exactly when there are no appointments,
   * and so do the filtered text variants, whatever they match.
   */
  lemma TextNoneIffEmpty(as_: seq<Appointment>, query: string, sep: string)
    ensures Rendered(|as_| == 0, as_, ListLine, sep) == "none" <==> as_ == []
    ensures Rendered(|as_| == 0, Select(as_, ByPatientName(query)), PatientLine, sep) == "none" <==> as_ == []
    ensures Rendered(|as_| == 0, Select(as_, ByDoctor(query)), DoctorLine, sep) == "none" <==> as_ == []
  {
    LinesStartWithId();
    NoneIffEmpty(|as_| == 0, as_, ListLine, sep);
    NoneIffEmpty(|as_| == 0, Select(as_, ByPatientName(query)), PatientLine, sep);
    NoneIffEmpty(|as_| == 0, Select(as_, ByDoctor(query)), DoctorLine, sep);
  }

  class AppointmentResource {
    /** System.getProperty("line.separator"), fixed when the resource starts. */
    const lineSeparator: string
    var appointments: seq<Appointment>

    constructor (lineSeparator: string)
      ensures this.lineSeparator == lineSeparator && appointments == []
      ensures DistinctIgnoringCase(IdsOf(appointments, IdOf))
    {
      this.lineSeparator := lineSeparator;
      appointments := [];
    }

    /** getAppointments: every appointment as a text line, or "none" when there are none. */
    method GetAppointments() returns (text: string)
      ensures text == Rendered(|appointments| == 0, appointments, ListLine, lineSeparator)
    {
      text := Render(appointments, Everything, ListLine, lineSeparator);
      SelectEverything(appointments);
    }

    /** getAppointmentsJson: the stored appointments in list order. */
    method GetAppointmentsJson() returns (all: seq<Appointment>)
      ensures all == appointments
    {
      all := appointments;
    }

    /** getAppointmentsByPatientName (text). */
    method GetAppointmentsByPatientName(patientName: string) returns (text: string)
      ensures text == Rendered(|appointments| == 0, Select(appointments, ByPatientName(patientName)), PatientLine, lineSeparator)
    {
      text := Render(appointments, ByPatientName(patientName), PatientLine, lineSeparator);
    }

    /** getAppointmentsByPatientNameJson. */
    method GetAppointmentsByPatientNameJson(patientName: string) returns (matches: seq<Appointment>)
      ensures matches == Select(appointments, ByPatientName(patientName))
    {
      matches := CollectMatches(appointments, ByPatientName(patientName));
    }

    /** getAppointmentsByDoctor (text): a substring match on the doctor id. */
    method GetAppointmentsByDoctor(doctorId: string) returns (text: string)
      ensures text == Rendered(|appointments| == 0, Select(appointments, ByDoctor(doctorId)), DoctorLine, lineSeparator)
    {
      text := Render(appointments, ByDoctor(doctorId), DoctorLine, lineSeparator);
    }

    /** getAppointmentsByDoctorJson: an exact match on the doctor id, ignoring case. */
    method GetAppointmentsByDoctorJson(doctorId: string) returns (matches: seq<Appointment>)
      ensures matches == Select(appointments, ByDoctorExactly(doctorId))
    {
      matches := CollectMatches(appointments, ByDoctorExactly(doctorId));
    }

    /** findAppointment: the position of the first appointment whose id equals id ignoring case. */
    method FindAppointment(id: string) returns (found: Option<nat>)
      ensures found == FirstIndex(IdsOf(appointments, IdOf), id)
      ensures found.Some? ==> found.value < |appointments| && EqualsIgnoreCase(appointments[found.value].id, id)
      ensures found.None? <==> forall a | a in appointments :: !EqualsIgnoreCase(a.id, id)
    {
      found := FindFirst(IdsOf(appointments, IdOf), id);
    }

    /** getNextAppointmentId. */
    method NextAppointmentId() returns (id: string)
      ensures id == Format(AppointmentPrefix, NextNumber(AppointmentPrefix, IdsOf(appointments, IdOf)))
      ensures Unused(IdsOf(appointments, IdOf), id)
    {
      id := NextId(AppointmentPrefix, IdsOf(appointments, IdOf));
    }

    /**
     * createAppointment: the client's id is replaced by a fresh one and the
     * appointment is appended; a lookup of the new id then finds it.
     */
    method CreateAppointment(appointment: Appointment) returns (response: Response)
      modifies this
      ensures var stored := appointment.(id := Format(AppointmentPrefix, NextNumber(AppointmentPrefix, IdsOf(old(appointments), IdOf))));
        && appointments == old(appointments) + [stored]
        && response == Response(Created, "POST Appointment: " + stored.patientName + " with new ID: " + stored.id
                                         + " doctor ID: " + stored.doctorId + " hospital ID: " + stored.hospitalId
                                         + " appointment date: " + stored.appointmentDate
                                         + " appointment number: " + stored.appointmentNumber)
      ensures Unused(IdsOf(old(appointments), IdOf), appointments[|old(appointments)|].id)
      ensures FirstIndex(IdsOf(appointments, IdOf), appointments[|old(appointments)|].id) == Some(|old(appointments)|)
      ensures DistinctIgnoringCase(IdsOf(old(appointments), IdOf)) ==> DistinctIgnoringCase(IdsOf(appointments, IdOf))
    {
      var newId := NextAppointmentId();
      var stored := appointment.(id := newId);
      var message := "POST Appointment: " + stored.patientName + " with new ID: " + stored.id
                     + " doctor ID: " + stored.doctorId + " hospital ID: " + stored.hospitalId
                     + " appointment date: " + stored.appointmentDate
                     + " appointment number: " + stored.appointmentNumber;
      ghost var before := IdsOf(appointments, IdOf);
      appointments := appointments + [stored];
      assert IdsOf(appointments, IdOf) == before + [newId];
      AppendUnused(before, newId);
      response := Response(Created, message);
    }

    /**
     * updateAppointment: changes only the patient name of the first
     * appointment with that id; an unknown id changes nothing and answers
     * 404 with the body's id.
     */
    method UpdateAppointment(appointment: Appointment, id: string) returns (response: Response)
      modifies this
      ensures match FirstIndex(IdsOf(old(appointments), IdOf), id)
        case Some(i) =>
          && appointments == old(appointments)[i := old(appointments)[i].(patientName := appointment.patientName)]
          && response == Response(Ok, RenamedMessage(old(appointments)[i].patientName, appointment.patientName))
        case None =>
          && appointments == old(appointments)
          && response == Response(NotFound, appointment.id + UpdateNotFound)
      ensures IdsOf(appointments, IdOf) == IdsOf(old(appointments), IdOf)
    {
      var found := FindAppointment(id);
      if found.Some? {
        var i := found.value;
        var oldName := appointments[i].patientName;
        appointments := appointments[i := appointments[i].(patientName := appointment.patientName)];
        assert IdsOf(appointments, IdOf) == IdsOf(old(appointments), IdOf);
        response := Response(Ok, RenamedMessage(oldName, appointment.patientName));
      } else {
        response := Response(NotFound, appointment.id + UpdateNotFound);
      }
    }

    /**
     * deleteAppointment: removes the first appointment with that id, the
     * others keep their order; an unknown id changes nothing and answers 404.
     */
    method DeleteAppointment(id: string) returns (response: Response)
      modifies this
      ensures match FirstIndex(IdsOf(old(appointments), IdOf), id)
        case Some(i) =>
          && appointments == RemoveAt(old(appointments), i)
          && response == Response(Ok, "Deleted Appointment " + old(appointments)[i].patientName)
        case None =>
          && appointments == old(appointments)
          && response == Response(NotFound, id + DeleteNotFound)
      ensures DistinctIgnoringCase(IdsOf(old(appointments), IdOf)) ==> DistinctIgnoringCase(IdsOf(appointments, IdOf))
    {
      var found := FindAppointment(id);
      if found.Some? {
        var i := found.value;
        var removed := appointments[i];
        ghost var before := IdsOf(appointments, IdOf);
        appointments := RemoveAt(appointments, i);
        assert IdsOf(appointments, IdOf) == before[..i] + before[i + 1..];
        if DistinctIgnoringCase(before) {
          RemoveKeepsDistinct(before, i);
        }
        response := Response(Ok, "Deleted Appointment " + removed.patientName);
      } else {
        response := Response(NotFound, id + DeleteNotFound);
      }
    }
  }
}
