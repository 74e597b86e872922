/**
 * A worked example: one disease, one variant with one "varik1" group, one
 * stage holding one alternative method.
 */
module Scenario {
  import opened Wrappers
  import opened Strings
  import opened Knowledge
  import opened Navigation
  import opened Matching
  import opened Results
  import opened KeywordSearch

  function Cast(): Method {
    Method(Some("Cast immobilization"), None, Some(["Ibuprofen"]), None, None, None, None, None)
  }

  function Conservative(): Stage {
    Stage("Conservative treatment", Some([Cast()]), None)
  }

  function Adults(): Group {
    Group(Some("Adults without comorbidity"), Some([Conservative()]))
  }

  function TypeA(): Variant {
    Variant("Type A", [("ICD-10_code", Str("S52.5")), ("varik1", GroupList([Adults()]))])
  }

  function ClosedFracture(): Disease {
    Disease("Closed fracture", [TypeA()])
  }

  function Document(): KnowledgeBase {
    KnowledgeBase([ClosedFracture()])
  }

  /** Variants are looked up by disease name; an unknown name gives none. */
  lemma ScenarioVariants()
    ensures VariantsOf(Document().disease, "Closed fracture") == [TypeA()]
    ensures VariantsOf(Document().disease, "Open fracture") == []
  {
    assert FirstNamed(Document().disease, "Closed fracture", 0);
    assert "Open fracture"[0] != "Closed fracture"[0];
  }

  function AdultsEntry(): PatientGroup {
    PatientGroup("varik1_0", "Adults without comorbidity", Adults())
  }

  /** The variant's single group gets id "varik1_0"; the "ICD-10_code" field contributes nothing. */
  lemma ScenarioGroups()
    ensures PatientGroups(TypeA()) == [AdultsEntry()]
  {
    var v := TypeA();
    assert "ICD-10_code"[..5][0] != GroupPrefix[0];
    assert StartsWith("varik1", GroupPrefix);
    assert NatToString(0) == "0";
    assert GroupId("varik1", 0) == "varik1_0";
    assert v.fields[..1][..0] == [];
    assert v.fields[..|v.fields| - 1] == v.fields[..1];
    assert FieldEntries("varik1", [Adults()]) == [AdultsEntry()];
    assert !IsGroupField(v.fields[0]);
    assert FieldsGroups(v.fields[..1]) == FieldsGroups(v.fields[..1][..0]) + FieldGroups(v.fields[0]) == [];
    assert FieldGroups(v.fields[1]) == [AdultsEntry()];
  }

  /** Lowering leaves the keyword as it is and turns the medicine name into it. */
  lemma IbuprofenLowered()
    ensures Lower("ibuprofen") == "ibuprofen" && Lower("Ibuprofen") == "ibuprofen"
  {
  }

  /** "Ibuprofen", the medicine of the cast immobilization method, contains "ibuprofen" once lowered. */
  lemma CastMatches()
    ensures MethodMatches(Cast(), "ibuprofen")
  {
    var k := "ibuprofen";
    IbuprofenLowered();
    var fs := MethodFields(Cast());
    assert fs[1] == "Ibuprofen";
    assert Occurs(k, Lower(fs[1]));
  }

  /** The one stage of the document yields exactly the cast immobilization record for "ibuprofen". */
  lemma ScenarioStage()
    ensures StageResults(Site(ClosedFracture(), TypeA(), AdultsEntry(), Conservative()), "ibuprofen") ==
            [AltResult(Site(ClosedFracture(), TypeA(), AdultsEntry(), Conservative()), Cast())]
  {
    CastMatches();
    assert [Cast()][..0] == [];
  }

  /** A case-insensitive search for "ibuprofen" finds exactly the one alternative method. */
  lemma ScenarioSearch()
    ensures var r := SearchResults(Document(), "ibuprofen");
            |r| == 1 && r[0].methodName == "Cast immobilization" && r[0].kind == "alternative" &&
            r[0].group == "Adults without comorbidity" && r[0].stage == "Conservative treatment"
  {
    ScenarioGroups();
    ScenarioStage();
    var k := "ibuprofen";
    IbuprofenLowered();
    SingleStageResults(ClosedFracture(), TypeA(), AdultsEntry(), Conservative(), k);
  }
}
