/** The records keyword search returns, one per matching alternative method or joint block. */
module Results {
  import opened Wrappers
  import opened Strings
  import opened Knowledge
  import opened Navigation
  import opened Matching

  /**
   * A search result. `kind` is the record's "type"; `jointMethods` is the
   * "joint_methods" entry, present on joint results only.
   */
  datatype SearchResult = SearchResult(
    methodName: string,
    disease: string,
    variant: string,
    group: string,
    stage: string,
    indications: seq<string>,
    medicines: seq<string>,
    materials: seq<string>,
    recommendations: string,
    pages: seq<string>,
    persuasiveness: string,
    evidence: string,
    kind: string,
    jointMethods: Option<seq<Method>>)

  /** Label of a method without "name method". */
  const Unnamed := "Без названия"
  /** Prefix of a joint result's label. */
  const JointPrefix := "Совместные методы: "
  /** Shown in a joint label when the block lists no methods. */
  const NoneListed := "Не указаны"

  function FormatMethodResult(m: Method, disease: Disease, variant: Variant, group: PatientGroup,
                              stageName: string, methodType: string): SearchResult
  {
    SearchResult(m.name.GetOr(Unnamed), disease.name, variant.name, group.description, stageName,
                 m.indications.GetOr([]), m.medicines.GetOr([]), m.usedMaterial.GetOr([]),
                 m.recommendations.GetOr(""), m.pages.GetOr([]), m.persuasiveness.GetOr(""),
                 m.evidence.GetOr(""), methodType, None)
  }

  /** The method a result was flattened from, when that method had every field. */
  function ResultMethod(r: SearchResult): Method {
    Method(Some(r.methodName), Some(r.indications), Some(r.medicines), Some(r.materials),
           Some(r.recommendations), Some(r.pages), Some(r.persuasiveness), Some(r.evidence))
  }

  /** The method with every missing field replaced by the default the result record uses. */
  function WithDefaults(m: Method): Method {
    Method(Some(m.name.GetOr(Unnamed)), Some(m.indications.GetOr([])), Some(m.medicines.GetOr([])),
           Some(m.usedMaterial.GetOr([])), Some(m.recommendations.GetOr("")), Some(m.pages.GetOr([])),
           Some(m.persuasiveness.GetOr("")), Some(m.evidence.GetOr("")))
  }

  /** The searchable fields of a flattened result. */
  function ResultFields(r: SearchResult): seq<string> {
    [r.methodName] + r.indications + r.medicines + r.materials + [r.recommendations]
  }

  /**
   * An alternative result copies every field of the method, each missing
   * one replaced by its default (so a method with every field is recovered
   * losslessly), names where it was found, and keeps exactly the fields the
   * match looked at, so a named method matches iff its result's fields do.
   */
  lemma FormatMethodFaithful(m: Method, disease: Disease, variant: Variant, group: PatientGroup,
                             stageName: string, k: string)
    ensures var r := FormatMethodResult(m, disease, variant, group, stageName, "alternative");
      && r.kind == "alternative" && r.jointMethods == None
      && r.disease == disease.name && r.variant == variant.name
      && r.group == group.description && r.stage == stageName
      && (m.name.None? ==> r.methodName == Unnamed)
      && ResultMethod(r) == WithDefaults(m)
      && (m.name.Some? && m.indications.Some? && m.medicines.Some? && m.usedMaterial.Some? &&
          m.recommendations.Some? && m.pages.Some? && m.persuasiveness.Some? && m.evidence.Some?
          ==> ResultMethod(r) == m)
      && (m.name.Some? ==> (MethodMatches(m, k) <==> AnyOccurs(k, ResultFields(r))))
  {
    var r := FormatMethodResult(m, disease, variant, group, stageName, "alternative");
    if m.name.Some? {
      assert ResultFields(r) == MethodFields(m);
    }
  }

  /** The names listed in a joint label, missing ones defaulted. */
  function NestedNames(ms: seq<Method>): (names: seq<string>)
    ensures |names| == |ms|
  {
    seq(|ms|, i requires 0 <= i < |ms| => ms[i].name.GetOr(Unnamed))
  }

  function JointLabel(j: Joint): string {
    var names := NestedNames(j.methods.GetOr([]));
    JointPrefix + (if |names| > 0 then Join(", ", names) else NoneListed)
  }

  function FormatJointResult(j: Joint, disease: Disease, variant: Variant, group: PatientGroup,
                             stageName: string): SearchResult
  {
    SearchResult(JointLabel(j), disease.name, variant.name, group.description, stageName,
                 j.indications.GetOr([]), [], [], j.recommendations.GetOr(""), [], "", "",
                 "joint", Some(j.methods.GetOr([])))
  }

  /**
   * A joint result carries the block-level fields, leaves the per-method
   * ones blank, keeps the nested methods, and its label starts with the
   * joint prefix and mentions every nested method's name.
   */
  lemma {:induction false} FormatJointFaithful(j: Joint, disease: Disease, variant: Variant,
                                               group: PatientGroup, stageName: string)
    ensures var r := FormatJointResult(j, disease, variant, group, stageName);
      && r.kind == "joint"
      && r.medicines == [] && r.materials == [] && r.pages == []
      && r.persuasiveness == "" && r.evidence == ""
      && r.indications == j.indications.GetOr([]) && r.recommendations == j.recommendations.GetOr("")
      && r.jointMethods == Some(j.methods.GetOr([]))
      && r.disease == disease.name && r.variant == variant.name
      && r.group == group.description && r.stage == stageName
      && StartsWith(r.methodName, JointPrefix)
      && (j.methods.GetOr([]) == [] ==> r.methodName == JointPrefix + NoneListed)
      && forall i | 0 <= i < |j.methods.GetOr([])| ::
           Occurs(j.methods.GetOr([])[i].name.GetOr(Unnamed), r.methodName)
  {
    var ms := j.methods.GetOr([]);
    var names := NestedNames(ms);
    var text := JointLabel(j);
    assert text[..|JointPrefix|] == JointPrefix;
    forall i | 0 <= i < |ms| ensures Occurs(ms[i].name.GetOr(Unnamed), text) {
      JoinContainsEach(", ", names, i);
      OccursInSuffix(names[i], JointPrefix, Join(", ", names));
    }
  }
}
