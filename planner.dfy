/**
 * The treatment planner object: it holds the knowledge base and answers
 * the navigational queries and keyword search over it.
 */
module Planner {
  import opened Wrappers
  import opened Strings
  import opened Knowledge
  import opened Navigation
  import opened Matching
  import opened Results
  import opened KeywordSearch
  import opened Sequences

  class TreatmentPlanner {
    var knowledgeBase: KnowledgeBase

    /**
     * Without a document the planner starts from an empty knowledge base;
     * otherwise `loaded` is the parsed document.
     */
    constructor (loaded: Option<KnowledgeBase>)
      ensures knowledgeBase == loaded.GetOr(KnowledgeBase([]))
    {
      knowledgeBase := loaded.GetOr(KnowledgeBase([]));
    }

    /** Replaces the knowledge base by a parsed document. */
    method LoadKnowledgeBase(document: KnowledgeBase)
      modifies this
      ensures knowledgeBase == document
    {
      knowledgeBase := document;
    }

    /** The name of every disease, in document order. */
    function GetDiseases(): (names: seq<string>)
      reads this
      ensures |names| == |knowledgeBase.disease|
      ensures forall i | 0 <= i < |names| :: names[i] == knowledgeBase.disease[i].name
    {
      var ds := knowledgeBase.disease;
      seq(|ds|, i requires 0 <= i < |ds| => ds[i].name)
    }

    /** The variants of the first disease named `diseaseName`, or none. */
    function GetDiseaseVariants(diseaseName: string): seq<Variant>
      reads this
    {
      VariantsOf(knowledgeBase.disease, diseaseName)
    }

    /** The patient groups of a variant, built field by field and element by element. */
    method GetPatientGroups(variant: Variant) returns (groups: seq<PatientGroup>)
      requires VariantWellShaped(variant)
      ensures groups == PatientGroups(variant)
    {
      groups := [];
      var fields := variant.fields;
      var f := 0;
      while f < |fields|
        invariant 0 <= f <= |fields|
        invariant groups == FieldsGroups(fields[..f])
      {
        var (key, value) := fields[f];
        FieldsGroupsSnoc(fields, f);
        if StartsWith(key, GroupPrefix) && value.IsList() && value.Length() > 0 {
          if value.StrList? {
            assert false;
          }
          var gs := value.groups;
          var idx := 0;
          while idx < |gs|
            invariant 0 <= idx <= |gs|
            invariant groups == FieldsGroups(fields[..f]) + FieldEntries(key, gs)[..idx]
          {
            TakeSnoc(FieldEntries(key, gs), idx);
            groups := groups + [GroupEntry(key, idx, gs[idx])];
            idx := idx + 1;
          }
          assert FieldEntries(key, gs)[..idx] == FieldEntries(key, gs);
        }
        f := f + 1;
      }
      assert fields[..f] == fields;
    }

    /** The joint-block match, checking the block's own fields first, then each nested method. */
    method JointMatches(joint: Joint, keywordLower: string) returns (found: bool)
      ensures found == IsJointMatch(joint, keywordLower)
    {
      if AnyOccurs(keywordLower, BlockFields(joint)) {
        return true;
      }
      var methods := joint.methods.GetOr([]);
      var i := 0;
      while i < |methods|
        invariant 0 <= i <= |methods|
        invariant forall j | 0 <= j < i :: !AnyOccurs(keywordLower, NestedFields(methods[j]))
      {
        if AnyOccurs(keywordLower, NestedFields(methods[i])) {
          return true;
        }
        i := i + 1;
      }
      return false;
    }

    /** The results one stage contributes: its matching alternative methods, then its joint block. */
    method SearchStage(disease: Disease, variant: Variant, group: PatientGroup, stage: Stage, k: string)
      returns (found: seq<SearchResult>)
      ensures found == StageResults(Site(disease, variant, group, stage), k)
    {
      ghost var site := Site(disease, variant, group, stage);
      found := [];
      var alts := stage.alternativeMethods.GetOr([]);
      var m := 0;
      while m < |alts|
        invariant 0 <= m <= |alts|
        invariant found == AltResults(site, alts[..m], k)
      {
        TakeSnoc(alts, m);
        if MethodMatches(alts[m], k) {
          found := found + [FormatMethodResult(alts[m], disease, variant, group, stage.nameStage, "alternative")];
        }
        m := m + 1;
      }
      assert alts[..m] == alts;
      if stage.jointMethods.Some? && stage.jointMethods.value.NonEmpty() {
        var joint := stage.jointMethods.value;
        var matched := JointMatches(joint, k);
        if matched {
          found := found + [FormatJointResult(joint, disease, variant, group, stage.nameStage)];
        }
      }
    }

    /** The results of every stage of one patient group, in stage order. */
    method SearchGroup(disease: Disease, variant: Variant, group: PatientGroup, k: string)
      returns (found: seq<SearchResult>)
      ensures found == StagesResults(disease, variant, group, Stages(group.data), k)
    {
      found := [];
      var stages := group.data.stage.GetOr([]);
      var e := 0;
      while e < |stages|
        invariant 0 <= e <= |stages|
        invariant found == StagesResults(disease, variant, group, stages[..e], k)
      {
        TakeSnoc(stages, e);
        var more := SearchStage(disease, variant, group, stages[e], k);
        found := found + more;
        e := e + 1;
      }
      assert stages[..e] == stages;
    }

    /** The results below one variant: its patient groups in order, each scanned stage by stage. */
    method SearchVariant(disease: Disease, variant: Variant, k: string) returns (found: seq<SearchResult>)
      requires VariantWellShaped(variant)
      ensures found == EntriesResults(disease, variant, PatientGroups(variant), k)
    {
      found := [];
      var groups := GetPatientGroups(variant);
      var c := 0;
      while c < |groups|
        invariant 0 <= c <= |groups|
        invariant found == EntriesResults(disease, variant, groups[..c], k)
      {
        TakeSnoc(groups, c);
        var more := SearchGroup(disease, variant, groups[c], k);
        found := found + more;
        c := c + 1;
      }
      assert groups[..c] == groups;
    }

    /** The results below one disease: its variants in order. */
    method SearchDisease(disease: Disease, k: string) returns (found: seq<SearchResult>)
      requires forall v | 0 <= v < |disease.typeVariant| :: VariantWellShaped(disease.typeVariant[v])
      ensures found == VariantsResults(disease, disease.typeVariant, k)
    {
      found := [];
      var vs := disease.typeVariant;
      var b := 0;
      while b < |vs|
        invariant 0 <= b <= |vs|
        invariant found == VariantsResults(disease, vs[..b], k)
      {
        TakeSnoc(vs, b);
        var more := SearchVariant(disease, vs[b], k);
        found := found + more;
        b := b + 1;
      }
      assert vs[..b] == vs;
    }

    /** Keyword search over the whole knowledge base, which it leaves unchanged. */
    method SearchMethodsByKeyword(keyword: string) returns (results: seq<SearchResult>)
      requires WellShaped(knowledgeBase)
      ensures results == SearchResults(knowledgeBase, keyword)
    {
      results := [];
      var k := Lower(keyword);
      var ds := knowledgeBase.disease;
      var a := 0;
      while a < |ds|
        invariant 0 <= a <= |ds|
        invariant results == DiseasesResults(ds[..a], k)
      {
        TakeSnoc(ds, a);
        var found := SearchDisease(ds[a], k);
        results := results + found;
        a := a + 1;
      }
      assert ds[..a] == ds;
    }
  }
}
