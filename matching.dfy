/**
 * The match predicates of keyword search: which fields of an alternative
 * method and of a joint block are compared with the lowered keyword.
 */
module Matching {
  import opened Wrappers
  import opened Strings
  import opened Knowledge

  /** `any(keyword_lower in str(field).lower() for field in fields)`. */
  predicate AnyOccurs(keywordLower: string, fields: seq<string>) {
    exists i | 0 <= i < |fields| :: Occurs(keywordLower, Lower(fields[i]))
  }

  /** The fields checked for an alternative method, missing ones defaulted. */
  function MethodFields(m: Method): seq<string> {
    [m.name.GetOr("")] + m.indications.GetOr([]) + m.medicines.GetOr([]) +
    m.usedMaterial.GetOr([]) + [m.recommendations.GetOr("")]
  }

  /** Whether an alternative method matches the lowered keyword. */
  predicate MethodMatches(m: Method, keywordLower: string) {
    AnyOccurs(keywordLower, MethodFields(m))
  }

  /** The keyword occurs in (the lowered form of) some element of `xs`. */
  predicate SomeOccurs(keywordLower: string, xs: seq<string>) {
    exists s | s in xs :: Occurs(keywordLower, Lower(s))
  }

  /**
   * A method matches exactly when the keyword occurs in its name, an
   * indication, a medicine, a used material or its recommendations.
   */
  lemma MethodMatchesIff(m: Method, k: string)
    ensures MethodMatches(m, k) <==>
      Occurs(k, Lower(m.name.GetOr(""))) ||
      SomeOccurs(k, m.indications.GetOr([])) ||
      SomeOccurs(k, m.medicines.GetOr([])) ||
      SomeOccurs(k, m.usedMaterial.GetOr([])) ||
      Occurs(k, Lower(m.recommendations.GetOr("")))
  {
    var fs := MethodFields(m);
    if MethodMatches(m, k) {
      var i :| 0 <= i < |fs| && Occurs(k, Lower(fs[i]));
      assert fs[i] in fs;
    }
    if SomeOccurs(k, m.indications.GetOr([])) || SomeOccurs(k, m.medicines.GetOr([])) ||
       SomeOccurs(k, m.usedMaterial.GetOr([])) {
      var s :| (s in m.indications.GetOr([]) || s in m.medicines.GetOr([]) || s in m.usedMaterial.GetOr([]))
               && Occurs(k, Lower(s));
      assert s in fs;
      var i :| 0 <= i < |fs| && fs[i] == s;
    }
    assert fs[0] == m.name.GetOr("");
    assert fs[|fs| - 1] == m.recommendations.GetOr("");
  }

  /** "pages", "persuasiveness" and "evidence" are never examined. */
  lemma MethodMatchesIgnoresGrading(m: Method, k: string, pages: Option<seq<string>>,
                                    persuasiveness: Option<string>, evidence: Option<string>)
    ensures MethodMatches(m, k) ==
            MethodMatches(m.(pages := pages, persuasiveness := persuasiveness, evidence := evidence), k)
  {
  }

  /** The empty keyword matches every method: the defaulted name is always checked. */
  lemma EmptyKeywordMatchesMethod(m: Method)
    ensures MethodMatches(m, "")
  {
    EmptyOccurs(Lower(MethodFields(m)[0]));
  }

  /** The block-level fields of a joint block. */
  function BlockFields(j: Joint): seq<string> {
    j.indications.GetOr([]) + [j.recommendations.GetOr("")]
  }

  /** The fields checked for a method nested in a joint block: not its indications or recommendations. */
  function NestedFields(m: Method): seq<string> {
    [m.name.GetOr("")] + m.medicines.GetOr([]) + m.usedMaterial.GetOr([])
  }

  /** Whether a joint block matches: its own fields, or a nested method's name, medicines or materials. */
  predicate IsJointMatch(j: Joint, keywordLower: string) {
    AnyOccurs(keywordLower, BlockFields(j)) ||
    exists i | 0 <= i < |j.methods.GetOr([])| :: AnyOccurs(keywordLower, NestedFields(j.methods.GetOr([])[i]))
  }

  /**
   * The nested methods' indications, recommendations and grading fields
   * never influence the joint match.
   */
  lemma JointIgnoresNestedDetails(j: Joint, k: string, ms: seq<Method>)
    requires j.methods.Some? && |ms| == |j.methods.value|
    requires forall i | 0 <= i < |ms| ::
      ms[i].name == j.methods.value[i].name && ms[i].medicines == j.methods.value[i].medicines &&
      ms[i].usedMaterial == j.methods.value[i].usedMaterial
    ensures IsJointMatch(j, k) == IsJointMatch(j.(methods := Some(ms)), k)
  {
    var j' := j.(methods := Some(ms));
    assert BlockFields(j') == BlockFields(j);
    assert forall i | 0 <= i < |ms| :: NestedFields(j'.methods.GetOr([])[i]) == NestedFields(j.methods.GetOr([])[i]);
  }

  /**
   * The asymmetry between the two predicates: a keyword found only in the
   * indications of a method matches that method as an alternative but not
   * the joint block that nests it.
   */
  lemma JointSearchAsymmetry(m: Method, j: Joint, k: string, s: string)
    requires s in m.indications.GetOr([]) && Occurs(k, Lower(s))
    requires !AnyOccurs(k, NestedFields(m))
    requires !AnyOccurs(k, BlockFields(j))
    requires j.methods == Some([m])
    ensures MethodMatches(m, k) && !IsJointMatch(j, k)
  {
    MethodMatchesIff(m, k);
  }
}
