/**
 * The doctors resource: an ordered, in-memory list of doctors with
 * id-generating create, rename-only update, delete, lookups by id and
 * filters by specialization, last name and hospital, each in a text and a
 * structured (JSON) variant.
 */
module Doctors {
  import opened Common
  import opened CaseFold
  import opened Ids
  import opened Records

  datatype Doctor = Doctor(
    id: string,
    name: string,
    lastName: string,
    specialization: string,
    hospitals: seq<string>)

  const DoctorPrefix: string := "doc"

  /** The id of a doctor, the key of every lookup. */
  function IdOf(d: Doctor): string {
    d.id
  }

  /** The specialization filter: a case-insensitive prefix match. */
  function BySpecialization(query: string): Doctor -> bool {
    (d: Doctor) => StartsWithIgnoreCase(d.specialization, query)
  }

  /** The last-name filter: a case-insensitive prefix match. */
  function ByLastName(query: string): Doctor -> bool {
    (d: Doctor) => StartsWithIgnoreCase(d.lastName, query)
  }

  /** How many of a doctor's hospital entries contain the query, ignoring case. */
  function MatchCount(hospitals: seq<string>, query: string): nat
    decreases |hospitals|
  {
    if hospitals == [] then 0
    else
      MatchCount(hospitals[..|hospitals| - 1], query)
      + (if ContainsIgnoreCase(hospitals[|hospitals| - 1], query) then 1 else 0)
  }

  /** The outer loop's step: the listing of the first i + 1 doctors adds the repeats of doctor i. */
  lemma ByHospitalPrefixStep(ds: seq<Doctor>, i: nat, query: string)
    requires i < |ds|
    ensures ByHospital(ds[..i + 1], query) == ByHospital(ds[..i], query) + Repeat(ds[i], MatchCount(ds[i].hospitals, query))
  {
    assert ds[..i + 1][..i] == ds[..i];
  }

  /** One more hospital entry adds one to the count exactly when it contains the query. */
  lemma MatchCountStep(d: Doctor, k: nat, query: string)
    requires k < |d.hospitals|
    ensures MatchCount(d.hospitals[..k + 1], query)
      == MatchCount(d.hospitals[..k], query) + (if ContainsIgnoreCase(d.hospitals[k], query) then 1 else 0)
    ensures Repeat(d, MatchCount(d.hospitals[..k + 1], query))
      == Repeat(d, MatchCount(d.hospitals[..k], query)) + (if ContainsIgnoreCase(d.hospitals[k], query) then [d] else [])
  {
    assert d.hospitals[..k + 1][..k] == d.hospitals[..k];
  }

  function Repeat(d: Doctor, k: nat): seq<Doctor> {
    seq(k, _ => d)
  }

  /**
   * The hospital filter: every doctor, in list order, once for each of its
   * hospital entries that contains the query.
   */
  function ByHospital(ds: seq<Doctor>, query: string): seq<Doctor>
    decreases |ds|
  {
    if ds == [] then []
    else
      var last := ds[|ds| - 1];
      ByHospital(ds[..|ds| - 1], query) + Repeat(last, MatchCount(last.hospitals, query))
  }

  /** A doctor appears in the hospital filter once per matching hospital entry. */
  lemma {:induction false} ByHospitalMultiplicity(ds: seq<Doctor>, query: string, d: Doctor)
    ensures multiset(ByHospital(ds, query))[d] == multiset(ds)[d] * MatchCount(d.hospitals, query)
    decreases |ds|
  {
    if ds != [] {
      var init, last := ds[..|ds| - 1], ds[|ds| - 1];
      var c, k := MatchCount(last.hospitals, query), MatchCount(d.hospitals, query);
      ByHospitalMultiplicity(init, query, d);
      ByHospitalLast(ds, query);
      RepeatMultiset(last, c, d);
      StoredCopies(ds, d);
      CopiesAdd(multiset(ByHospital(init, query))[d], multiset(init)[d], k, multiset(Repeat(last, c))[d], last == d);
    }
  }

  /** The stored copies of d: those before the last doctor, plus one if the last is d. */
  lemma StoredCopies(ds: seq<Doctor>, d: Doctor)
    requires ds != []
    ensures multiset(ds)[d] == multiset(ds[..|ds| - 1])[d] + (if ds[|ds| - 1] == d then 1 else 0)
  {
    assert ds == ds[..|ds| - 1] + [ds[|ds| - 1]];
  }

  /** The hospital listing of a list is that of all but its last doctor, then the last doctor's repeats. */
  lemma ByHospitalLast(ds: seq<Doctor>, query: string)
    requires ds != []
    ensures multiset(ByHospital(ds, query))
      == multiset(ByHospital(ds[..|ds| - 1], query)) + multiset(Repeat(ds[|ds| - 1], MatchCount(ds[|ds| - 1].hospitals, query)))
  {
  }

  /** m stored copies give m * k listed ones; one more copy adds k more. */
  lemma CopiesAdd(listed: nat, m: nat, k: nat, extra: nat, same: bool)
    requires listed == m * k
    requires extra == if same then k else 0
    ensures listed + extra == (m + (if same then 1 else 0)) * k
  {
    if same {
      assert (m + 1) * k == m * k + k;
    }
  }

  lemma {:induction false} RepeatMultiset(x: Doctor, k: nat, d: Doctor)
    ensures multiset(Repeat(x, k))[d] == if x == d then k else 0
    decreases k
  {
    if k > 0 {
      assert Repeat(x, k) == Repeat(x, k - 1) + [x];
      RepeatMultiset(x, k - 1, d);
    }
  }

  /**
   * The specialization and last-name filters select the same doctors for
   * two queries that differ only in case.
   */
  lemma FiltersIgnoreQueryCase(ds: seq<Doctor>, q1: string, q2: string)
    requires EqualsIgnoreCase(q1, q2)
    ensures Select(ds, BySpecialization(q1)) == Select(ds, BySpecialization(q2))
    ensures Select(ds, ByLastName(q1)) == Select(ds, ByLastName(q2))
    ensures ByHospital(ds, q1) == ByHospital(ds, q2)
  {
    SelectAgree(ds, BySpecialization(q1), BySpecialization(q2));
    SelectAgree(ds, ByLastName(q1), ByLastName(q2));
    ByHospitalIgnoresQueryCase(ds, q1, q2);
  }

  lemma {:induction false} ByHospitalIgnoresQueryCase(ds: seq<Doctor>, q1: string, q2: string)
    requires EqualsIgnoreCase(q1, q2)
    ensures ByHospital(ds, q1) == ByHospital(ds, q2)
    decreases |ds|
  {
    if ds != [] {
      ByHospitalIgnoresQueryCase(ds[..|ds| - 1], q1, q2);
      MatchCountIgnoresQueryCase(ds[|ds| - 1].hospitals, q1, q2);
    }
  }

  lemma {:induction false} MatchCountIgnoresQueryCase(hospitals: seq<string>, q1: string, q2: string)
    requires EqualsIgnoreCase(q1, q2)
    ensures MatchCount(hospitals, q1) == MatchCount(hospitals, q2)
    decreases |hospitals|
  {
    if hospitals != [] {
      MatchCountIgnoresQueryCase(hospitals[..|hospitals| - 1], q1, q2);
    }
  }

  /** The line getDoctors prints for each doctor. */
  function ListLine(d: Doctor): string {
    "ID = " + d.id + ", Name = " + d.name + ", Specialization = " + d.specialization
  }

  /** The line the single-doctor lookup and the filters print for a doctor. */
  function NameLine(d: Doctor): string {
    "ID = " + d.id + ", Name = " + d.name
  }

  /** The text filters answer "none" only on an empty list; no match gives "". */
  lemma FilterTextNoneIffEmpty(ds: seq<Doctor>, matches: seq<Doctor>, sep: string)
    ensures Rendered(|ds| == 0, matches, NameLine, sep) == "none" <==> ds == []
    ensures Rendered(|ds| == 0, ds, ListLine, sep) == "none" <==> ds == []
    ensures ds != [] && matches == [] ==> Rendered(|ds| == 0, matches, NameLine, sep) == ""
  {
    forall d: Doctor ensures StartsWith(NameLine(d), "ID = ") && StartsWith(ListLine(d), "ID = ") {
      assert NameLine(d)[..5] == "ID = ";
      assert ListLine(d)[..5] == "ID = ";
    }
    NoneIffEmpty(|ds| == 0, matches, NameLine, sep);
    NoneIffEmpty(|ds| == 0, ds, ListLine, sep);
  }

  class DoctorResource {
    /** System.getProperty("line.separator"), fixed when the resource starts. */
    const lineSeparator: string
    var doctors: seq<Doctor>

    constructor (lineSeparator: string)
      ensures this.lineSeparator == lineSeparator && doctors == []
      ensures DistinctIgnoringCase(IdsOf(doctors, IdOf))
    {
      this.lineSeparator := lineSeparator;
      doctors := [];
    }

    /** getDoctors: every doctor as a text line, or "none" when there are none. */
    method GetDoctors() returns (text: string)
      ensures text == Rendered(|doctors| == 0, doctors, ListLine, lineSeparator)
    {
      text := Render(doctors, Everything, ListLine, lineSeparator);
      SelectEverything(doctors);
    }

    /** getDoctorsJson: the stored doctors in list order. */
    method GetDoctorsJson() returns (all: seq<Doctor>)
      ensures all == doctors
    {
      all := doctors;
    }

    /** getDoctorsBySpecialization (text). */
    method GetDoctorsBySpecialization(specialization: string) returns (text: string)
      ensures text == Rendered(|doctors| == 0, Select(doctors, BySpecialization(specialization)), NameLine, lineSeparator)
    {
      text := Render(doctors, BySpecialization(specialization), NameLine, lineSeparator);
    }

    /** getDoctorsBySpecializationJson. */
    method GetDoctorsBySpecializationJson(specialization: string) returns (matches: seq<Doctor>)
      ensures matches == Select(doctors, BySpecialization(specialization))
    {
      matches := CollectMatches(doctors, BySpecialization(specialization));
    }

    /** getDoctorsByLastName (text). */
    method GetDoctorsByLastName(lastName: string) returns (text: string)
      ensures text == Rendered(|doctors| == 0, Select(doctors, ByLastName(lastName)), NameLine, lineSeparator)
    {
      text := Render(doctors, ByLastName(lastName), NameLine, lineSeparator);
    }

    /** getDoctorsByLastNameJson. */
    method GetDoctorsByLastNameJson(lastName: string) returns (matches: seq<Doctor>)
      ensures matches == Select(doctors, ByLastName(lastName))
    {
      matches := CollectMatches(doctors, ByLastName(lastName));
    }

    /** getDoctorsByHospital (text): one line per matching hospital entry. */
    method GetDoctorsByHospital(id: string) returns (text: string)
      ensures text == Rendered(|doctors| == 0, ByHospital(doctors, id), NameLine, lineSeparator)
    {
      text := "";
      if |doctors| == 0 {
        text := "none";
      }
      for i := 0 to |doctors|
        invariant text == Rendered(|doctors| == 0, ByHospital(doctors[..i], id), NameLine, lineSeparator)
      {
        var doctor := doctors[i];
        ghost var before := ByHospital(doctors[..i], id);
        assert before + Repeat(doctor, MatchCount(doctor.hospitals[..0], id)) == before;
        for k := 0 to |doctor.hospitals|
          invariant text == Lines(before + Repeat(doctor, MatchCount(doctor.hospitals[..k], id)), NameLine, lineSeparator)
        {
          ghost var done := before + Repeat(doctor, MatchCount(doctor.hospitals[..k], id));
          MatchCountStep(doctor, k, id);
          if ContainsIgnoreCase(doctor.hospitals[k], id) {
            assert before + Repeat(doctor, MatchCount(doctor.hospitals[..k + 1], id)) == done + [doctor];
            LinesAppend(done, doctor, NameLine, lineSeparator);
            text := text + NameLine(doctor) + lineSeparator;
          }
        }
        assert doctor.hospitals[..|doctor.hospitals|] == doctor.hospitals;
        ByHospitalPrefixStep(doctors, i, id);
      }
      assert doctors[..|doctors|] == doctors;
    }

    /** getDoctorsByHospitalJson: a doctor is added once per matching hospital entry. */
    method GetDoctorsByHospitalJson(id: string) returns (matches: seq<Doctor>)
      ensures matches == ByHospital(doctors, id)
    {
      matches := [];
      for i := 0 to |doctors|
        invariant matches == ByHospital(doctors[..i], id)
      {
        var doctor := doctors[i];
        ghost var before := ByHospital(doctors[..i], id);
        for k := 0 to |doctor.hospitals|
          invariant matches == before + Repeat(doctor, MatchCount(doctor.hospitals[..k], id))
        {
          MatchCountStep(doctor, k, id);
          if ContainsIgnoreCase(doctor.hospitals[k], id) {
            matches := matches + [doctor];
          }
        }
        assert doctor.hospitals[..|doctor.hospitals|] == doctor.hospitals;
        ByHospitalPrefixStep(doctors, i, id);
      }
      assert doctors[..|doctors|] == doctors;
    }

    /** findDoctor: the position of the first doctor whose id equals id ignoring case. */
    method FindDoctor(id: string) returns (found: Option<nat>)
      ensures found == FirstIndex(IdsOf(doctors, IdOf), id)
      ensures found.Some? ==> found.value < |doctors| && EqualsIgnoreCase(doctors[found.value].id, id)
      ensures found.None? <==> forall d | d in doctors :: !EqualsIgnoreCase(d.id, id)
    {
      found := FindFirst(IdsOf(doctors, IdOf), id);
    }

    /** getDoctor (text): "None" when no doctor has that id. */
    method GetDoctor(id: string) returns (text: string)
      ensures match FirstIndex(IdsOf(doctors, IdOf), id)
        case None => text == "None"
        case Some(i) => text == NameLine(doctors[i])
    {
      var found := FindDoctor(id);
      if found.None? {
        text := "None";
      } else {
        text := NameLine(doctors[found.value]);
      }
    }

    /** getDoctorJSON: the found doctor alone, or an empty array. */
    method GetDoctorJson(id: string) returns (result: seq<Doctor>)
      ensures match FirstIndex(IdsOf(doctors, IdOf), id)
        case None => result == []
        case Some(i) => result == [doctors[i]]
    {
      var found := FindDoctor(id);
      if found.None? {
        result := [];
      } else {
        result := [doctors[found.value]];
      }
    }

    /** getNextDoctorId. */
    method NextDoctorId() returns (id: string)
      ensures id == Format(DoctorPrefix, NextNumber(DoctorPrefix, IdsOf(doctors, IdOf)))
      ensures Unused(IdsOf(doctors, IdOf), id)
    {
      id := NextId(DoctorPrefix, IdsOf(doctors, IdOf));
    }

    /**
     * createDoctor: the client's id is replaced by a fresh one and the doctor
     * is appended; a lookup of the new id then finds it.
     */
    method CreateDoctor(doctor: Doctor) returns (response: Response)
      modifies this
      ensures var stored := doctor.(id := Format(DoctorPrefix, NextNumber(DoctorPrefix, IdsOf(old(doctors), IdOf))));
        && doctors == old(doctors) + [stored]
        && response == Response(Created, "POST Doctor: " + stored.name + " with new ID: " + stored.id
                                         + " specialization: " + stored.specialization)
      ensures Unused(IdsOf(old(doctors), IdOf), doctors[|old(doctors)|].id)
      ensures FirstIndex(IdsOf(doctors, IdOf), doctors[|old(doctors)|].id) == Some(|old(doctors)|)
      ensures DistinctIgnoringCase(IdsOf(old(doctors), IdOf)) ==> DistinctIgnoringCase(IdsOf(doctors, IdOf))
    {
      var newId := NextDoctorId();
      var stored := doctor.(id := newId);
      var message := "POST Doctor: " + stored.name + " with new ID: " + stored.id
                     + " specialization: " + stored.specialization;
      ghost var before := IdsOf(doctors, IdOf);
      doctors := doctors + [stored];
      assert IdsOf(doctors, IdOf) == before + [newId];
      AppendUnused(before, newId);
      response := Response(Created, message);
    }

    /**
     * updateDoctor: renames the first doctor with that id and changes nothing
     * else; an unknown id changes nothing and answers 404 with the body's id.
     */
    method UpdateDoctor(doctor: Doctor, id: string) returns (response: Response)
      modifies this
      ensures match FirstIndex(IdsOf(old(doctors), IdOf), id)
        case Some(i) =>
          && doctors == old(doctors)[i := old(doctors)[i].(name := doctor.name)]
          && response == Response(Ok, RenamedMessage(old(doctors)[i].name, doctor.name))
        case None =>
          && doctors == old(doctors)
          && response == Response(NotFound, doctor.id + UpdateNotFound)
      ensures IdsOf(doctors, IdOf) == IdsOf(old(doctors), IdOf)
    {
      var found := FindDoctor(id);
      if found.Some? {
        var i := found.value;
        var oldName := doctors[i].name;
        doctors := doctors[i := doctors[i].(name := doctor.name)];
        assert IdsOf(doctors, IdOf) == IdsOf(old(doctors), IdOf);
        response := Response(Ok, RenamedMessage(oldName, doctor.name));
      } else {
        response := Response(NotFound, doctor.id + UpdateNotFound);
      }
    }

    /**
     * deleteDoctor: removes the first doctor with that id, the others keep
     * their order; an unknown id changes nothing and answers 404.
     */
    method DeleteDoctor(id: string) returns (response: Response)
      modifies this
      ensures match FirstIndex(IdsOf(old(doctors), IdOf), id)
        case Some(i) =>
          && doctors == RemoveAt(old(doctors), i)
          && response == Response(Ok, "Deleted Doctor " + old(doctors)[i].name)
        case None =>
          && doctors == old(doctors)
          && response == Response(NotFound, id + DeleteNotFound)
      ensures DistinctIgnoringCase(IdsOf(old(doctors), IdOf)) ==> DistinctIgnoringCase(IdsOf(doctors, IdOf))
    {
      var found := FindDoctor(id);
      if found.Some? {
        var i := found.value;
        var removed := doctors[i];
        ghost var before := IdsOf(doctors, IdOf);
        doctors := RemoveAt(doctors, i);
        assert IdsOf(doctors, IdOf) == before[..i] + before[i + 1..];
        if DistinctIgnoringCase(before) {
          RemoveKeepsDistinct(before, i);
        }
        response := Response(Ok, "Deleted Doctor " + removed.name);
      } else {
        response := Response(NotFound, id + DeleteNotFound);
      }
    }
  }
}
