/**
 * The hospitals resource: an ordered, in-memory list of hospitals with
 * id-generating create, rename-only update, delete and lookup by id, each
 * read in a text and a structured (JSON) variant.
 */
module Hospitals {
  import opened Common
  import opened CaseFold
  import opened Ids
  import opened Records

  datatype Hospital = Hospital(id: string, name: string)

  const HospitalPrefix: string := "hos"

  /** The id of a hospital, the key of every lookup. */
  function IdOf(h: Hospital): string {
    h.id
  }

  /** The line getHospitals prints for each hospital, and getHospital for the one found. */
  function Line(h: Hospital): string {
    "ID = " + h.id + ", Name = " + h.name
  }

  /** getHospitals answers "none" exactly when there are no hospitals. */
  lemma TextNoneIffEmpty(hs: seq<Hospital>, sep: string)
    ensures Rendered(|hs| == 0, hs, Line, sep) == "none" <==> hs == []
  {
    forall h: Hospital ensures StartsWith(Line(h), "ID = ") {
      StartsWithExtended("ID = ", h.id + ", Name = " + h.name);
    }
    NoneIffEmpty(|hs| == 0, hs, Line, sep);
  }

  class HospitalResource {
    /** System.getProperty("line.separator"), fixed when the resource starts. */
    const lineSeparator: string
    var hospitals: seq<Hospital>

    constructor (lineSeparator: string)
      ensures this.lineSeparator == lineSeparator && hospitals == []
      ensures DistinctIgnoringCase(IdsOf(hospitals, IdOf))
    {
      this.lineSeparator := lineSeparator;
      hospitals := [];
    }

    /** getHospitals: every hospital as a text line, or "none" when there are none. */
    method GetHospitals() returns (text: string)
      ensures text == Rendered(|hospitals| == 0, hospitals, Line, lineSeparator)
    {
      text := Render(hospitals, Everything, Line, lineSeparator);
      SelectEverything(hospitals);
    }

    /** getHospitalsJson: the stored hospitals in list order. */
    method GetHospitalsJson() returns (all: seq<Hospital>)
      ensures all == hospitals
    {
      all := hospitals;
    }

    /** findHospital: the position of the first hospital whose id equals id ignoring case. */
    method FindHospital(id: string) returns (found: Option<nat>)
      ensures found == FirstIndex(IdsOf(hospitals, IdOf), id)
      ensures found.Some? ==> found.value < |hospitals| && EqualsIgnoreCase(hospitals[found.value].id, id)
      ensures found.None? <==> forall h | h in hospitals :: !EqualsIgnoreCase(h.id, id)
    {
      found := FindFirst(IdsOf(hospitals, IdOf), id);
    }

    /** getHospital (text): "None" when no hospital has that id. */
    method GetHospital(id: string) returns (text: string)
      ensures match FirstIndex(IdsOf(hospitals, IdOf), id)
        case None => text == "None"
        case Some(i) => text == Line(hospitals[i])
    {
      var found := FindHospital(id);
      if found.None? {
        text := "None";
      } else {
        text := Line(hospitals[found.value]);
      }
    }

    /** getHospitalJson: the found hospital alone, or an empty array. */
    method GetHospitalJson(id: string) returns (result: seq<Hospital>)
      ensures match FirstIndex(IdsOf(hospitals, IdOf), id)
        case None => result == []
        case Some(i) => result == [hospitals[i]]
    {
      var found := FindHospital(id);
      if found.None? {
        result := [];
      } else {
        result := [hospitals[found.value]];
      }
    }

    /** getNextHospitalId. */
    method NextHospitalId() returns (id: string)
      ensures id == Format(HospitalPrefix, NextNumber(HospitalPrefix, IdsOf(hospitals, IdOf)))
      ensures Unused(IdsOf(hospitals, IdOf), id)
    {
      id := NextId(HospitalPrefix, IdsOf(hospitals, IdOf));
    }

    /**
     * createHospital: the client's id is replaced by a fresh one and the
     * hospital is appended; a lookup of the new id then finds it.
     */
    method CreateHospital(hospital: Hospital) returns (response: Response)
      modifies this
      ensures var stored := hospital.(id := Format(HospitalPrefix, NextNumber(HospitalPrefix, IdsOf(old(hospitals), IdOf))));
        && hospitals == old(hospitals) + [stored]
        && response == Response(Created, "POST Hospital: " + stored.name + " with new ID: " + stored.id)
      ensures Unused(IdsOf(old(hospitals), IdOf), hospitals[|old(hospitals)|].id)
      ensures FirstIndex(IdsOf(hospitals, IdOf), hospitals[|old(hospitals)|].id) == Some(|old(hospitals)|)
      ensures DistinctIgnoringCase(IdsOf(old(hospitals), IdOf)) ==> DistinctIgnoringCase(IdsOf(hospitals, IdOf))
    {
      var newId := NextHospitalId();
      var stored := hospital.(id := newId);
      var message := "POST Hospital: " + stored.name + " with new ID: " + stored.id;
      ghost var before := IdsOf(hospitals, IdOf);
      hospitals := hospitals + [stored];
      assert IdsOf(hospitals, IdOf) == before + [newId];
      AppendUnused(before, newId);
      response := Response(Created, message);
    }

    /**
     * updateHospital: renames the first hospital with that id and changes
     * nothing else; an unknown id changes nothing and answers 404 with the
     * body's id.
     */
    method UpdateHospital(hospital: Hospital, id: string) returns (response: Response)
      modifies this
      ensures match FirstIndex(IdsOf(old(hospitals), IdOf), id)
        case Some(i) =>
          && hospitals == old(hospitals)[i := old(hospitals)[i].(name := hospital.name)]
          && response == Response(Ok, RenamedMessage(old(hospitals)[i].name, hospital.name))
        case None =>
          && hospitals == old(hospitals)
          && response == Response(NotFound, hospital.id + UpdateNotFound)
      ensures IdsOf(hospitals, IdOf) == IdsOf(old(hospitals), IdOf)
    {
      var found := FindHospital(id);
      if found.Some? {
        var i := found.value;
        var oldName := hospitals[i].name;
        hospitals := hospitals[i := hospitals[i].(name := hospital.name)];
        assert IdsOf(hospitals, IdOf) == IdsOf(old(hospitals), IdOf);
        response := Response(Ok, RenamedMessage(oldName, hospital.name));
      } else {
        response := Response(NotFound, hospital.id + UpdateNotFound);
      }
    }

    /**
     * deleteHospital: removes the first hospital with that id, the others
     * keep their order; an unknown id changes nothing and answers 404.
     */
    method DeleteHospital(id: string) returns (response: Response)
      modifies this
      ensures match FirstIndex(IdsOf(old(hospitals), IdOf), id)
        case Some(i) =>
          && hospitals == RemoveAt(old(hospitals), i)
          && response == Response(Ok, "Deleted Hospital " + old(hospitals)[i].name)
        case None =>
          && hospitals == old(hospitals)
          && response == Response(NotFound, id + DeleteNotFound)
      ensures DistinctIgnoringCase(IdsOf(old(hospitals), IdOf)) ==> DistinctIgnoringCase(IdsOf(hospitals, IdOf))
    {
      var found := FindHospital(id);
      if found.Some? {
        var i := found.value;
        var removed := hospitals[i];
        ghost var before := IdsOf(hospitals, IdOf);
        hospitals := RemoveAt(hospitals, i);
        assert IdsOf(hospitals, IdOf) == before[..i] + before[i + 1..];
        if DistinctIgnoringCase(before) {
          RemoveKeepsDistinct(before, i);
        }
        response := Response(Ok, "Deleted Hospital " + removed.name);
      } else {
        response := Response(NotFound, id + DeleteNotFound);
      }
    }
  }

  /**
   * The first hospital created on a fresh resource gets "hos001", the
   * response announces it, and it is the only one stored.
   */
  method FirstHospitalIsHos001() returns (response: Response, id: string, size: nat)
    ensures response == Response(Created, "POST Hospital: General with new ID: hos001")
    ensures id == "hos001" && size == 1
  {
    var resource := new HospitalResource("\n");
    response := resource.CreateHospital(Hospital("", "General"));
    AfterFirstCreate(resource.hospitals, Hospital("", "General"));
    id := resource.hospitals[0].id;
    CreatedMessage("General", id);
    size := |resource.hospitals|;
  }

  lemma CreatedMessage(name: string, id: string)
    requires name == "General" && id == "hos001"
    ensures "POST Hospital: " + name + " with new ID: " + id == "POST Hospital: General with new ID: hos001"
  {
  }

  /**
   * Create two hospitals, delete the first, create again: the probe starts
   * at 2 (the size plus one), finds "hos002" taken and settles on "hos003";
   * the gap left by "hos001" is not reused.
   */
  method GapIsNotReused() returns (ids: seq<string>)
    ensures ids == ["hos002", "hos003"]
  {
    var resource := new HospitalResource("\n");
    var response := resource.CreateHospital(Hospital("", "General"));
    AfterFirstCreate(resource.hospitals, Hospital("", "General"));
    ghost var h1 := resource.hospitals;
    response := resource.CreateHospital(Hospital("", "Central"));
    AfterSecondCreate(h1, resource.hospitals, Hospital("", "Central"));
    ghost var h2 := resource.hospitals;
    response := resource.DeleteHospital("hos001");
    AfterDelete(h2, resource.hospitals);
    ghost var h3 := resource.hospitals;
    response := resource.CreateHospital(Hospital("", "Eastern"));
    AfterThirdCreate(h3, resource.hospitals, Hospital("", "Eastern"));
    ids := IdsOf(resource.hospitals, IdOf);
  }

  lemma AfterFirstCreate(hs: seq<Hospital>, h: Hospital)
    requires hs == [] + [h.(id := Format(HospitalPrefix, NextNumber(HospitalPrefix, IdsOf([], IdOf))))]
    ensures IdsOf(hs, IdOf) == ["hos001"]
  {
    assert IdsOf([], IdOf) == [];
    FirstIdOfEmpty(HospitalPrefix);
    assert hs[0].id == "hos001";
  }

  lemma AfterSecondCreate(before: seq<Hospital>, hs: seq<Hospital>, h: Hospital)
    requires IdsOf(before, IdOf) == ["hos001"]
    requires hs == before + [h.(id := Format(HospitalPrefix, NextNumber(HospitalPrefix, IdsOf(before, IdOf))))]
    ensures IdsOf(hs, IdOf) == ["hos001", "hos002"]
  {
    SecondId();
    assert hs[0].id == before[0].id == "hos001";
    assert hs[1].id == "hos002";
  }

  lemma AfterDelete(before: seq<Hospital>, hs: seq<Hospital>)
    requires IdsOf(before, IdOf) == ["hos001", "hos002"]
    requires match FirstIndex(IdsOf(before, IdOf), "hos001")
      case Some(i) => hs == RemoveAt(before, i)
      case None => hs == before
    ensures IdsOf(hs, IdOf) == ["hos002"]
  {
    assert EqualsIgnoreCase(IdsOf(before, IdOf)[0], "hos001");
    assert FirstIndex(IdsOf(before, IdOf), "hos001") == Some(0);
    assert hs[0].id == before[1].id == "hos002";
  }

  lemma AfterThirdCreate(before: seq<Hospital>, hs: seq<Hospital>, h: Hospital)
    requires IdsOf(before, IdOf) == ["hos002"]
    requires hs == before + [h.(id := Format(HospitalPrefix, NextNumber(HospitalPrefix, IdsOf(before, IdOf))))]
    ensures IdsOf(hs, IdOf) == ["hos002", "hos003"]
  {
    ThirdIdAfterGap();
    assert hs[0].id == before[0].id == "hos002";
    assert hs[1].id == "hos003";
  }

  lemma SecondId()
    ensures NextNumber(HospitalPrefix, ["hos001"]) == 2
    ensures Format(HospitalPrefix, 2) == "hos002"
  {
    assert Decimal(2) == "2";
    assert Zeros(2) == "00";
    assert Format(HospitalPrefix, 2) == "hos002";
    assert !EqualsIgnoreCase("hos001", "hos002") by {
      assert ToUpper("hos001")[5] == '1';
      assert ToUpper("hos002")[5] == '2';
    }
    assert !Taken(HospitalPrefix, ["hos001"], 2);
  }

  lemma ThirdIdAfterGap()
    ensures NextNumber(HospitalPrefix, ["hos002"]) == 3
    ensures Format(HospitalPrefix, 3) == "hos003"
  {
    assert Decimal(2) == "2" && Decimal(3) == "3";
    assert Zeros(2) == "00";
    assert Format(HospitalPrefix, 2) == "hos002";
    assert Format(HospitalPrefix, 3) == "hos003";
    assert EqualsIgnoreCase(["hos002"][0], Format(HospitalPrefix, 2));
    assert Taken(HospitalPrefix, ["hos002"], 2);
    assert !EqualsIgnoreCase("hos002", "hos003") by {
      assert ToUpper("hos002")[5] == '2';
      assert ToUpper("hos003")[5] == '3';
    }
    assert !Taken(HospitalPrefix, ["hos002"], 3);
  }
}
