/**
 * The specification of keyword search: an exhaustive scan, in document
 * order, of every disease, variant, patient group and stage, reporting each
 * matching alternative method and then the stage's joint block.
 */
module KeywordSearch {
  import opened Wrappers
  import opened Strings
  import opened Knowledge
  import opened Navigation
  import opened Matching
  import opened Results
  import opened Sequences

  /** A stage together with the disease, variant and patient group it is reached through. */
  datatype Site = Site(disease: Disease, variant: Variant, group: PatientGroup, stage: Stage)

  /** `stage.get("alternative methods", [])`. */
  function Alternatives(st: Stage): seq<Method> {
    st.alternativeMethods.GetOr([])
  }

  /** `group_data.get("stage", [])`. */
  function Stages(g: Group): seq<Stage> {
    g.stage.GetOr([])
  }

  function AltResult(site: Site, m: Method): SearchResult {
    FormatMethodResult(m, site.disease, site.variant, site.group, site.stage.nameStage, "alternative")
  }

  /** `joint and self._joint_matches(joint, keyword_lower)`, with `joint` defaulting to `{}`. */
  predicate JointReported(site: Site, k: string) {
    site.stage.jointMethods.Some? && site.stage.jointMethods.value.NonEmpty() &&
    IsJointMatch(site.stage.jointMethods.value, k)
  }

  function JointResult(site: Site): SearchResult
    requires site.stage.jointMethods.Some?
  {
    FormatJointResult(site.stage.jointMethods.value, site.disease, site.variant, site.group, site.stage.nameStage)
  }

  /** The indices of the methods in `ms` that match. */
  ghost function MatchIndices(ms: seq<Method>, k: string): set<int> {
    set j | 0 <= j < |ms| && MethodMatches(ms[j], k)
  }

  /** The matching methods of `ms`, in list order. */
  function MatchingMethods(ms: seq<Method>, k: string): (r: seq<Method>)
    ensures |r| <= |ms|
    ensures forall i | 0 <= i < |r| :: MethodMatches(r[i], k) && r[i] in ms
    ensures forall j | 0 <= j < |ms| && MethodMatches(ms[j], k) :: ms[j] in r
    decreases |ms|
  {
    if |ms| == 0 then []
    else
      var init, last := ms[..|ms| - 1], ms[|ms| - 1];
      assert forall j | 0 <= j < |ms| - 1 :: ms[j] == init[j];
      MatchingMethods(init, k) + (if MethodMatches(last, k) then [last] else [])
  }

  /** The matching indices of `ms` are those of its prefix, plus the last index if that method matches. */
  lemma MatchIndicesSnoc(ms: seq<Method>, k: string)
    requires |ms| > 0
    ensures var n := |ms| - 1;
      && n !in MatchIndices(ms[..n], k)
      && MatchIndices(ms, k) == MatchIndices(ms[..n], k) + (if MethodMatches(ms[n], k) then {n} else {})
  {
    var n := |ms| - 1;
    assert forall j | 0 <= j < n :: ms[j] == ms[..n][j];
  }

  /** One matching method per matching index: `MatchingMethods` keeps multiplicities. */
  lemma {:induction false} MatchingMethodsCount(ms: seq<Method>, k: string)
    ensures |MatchingMethods(ms, k)| == |MatchIndices(ms, k)|
    decreases |ms|
  {
    if |ms| == 0 {
      assert MatchIndices(ms, k) == {};
    } else {
      var n := |ms| - 1;
      MatchingMethodsCount(ms[..n], k);
      MatchIndicesSnoc(ms, k);
    }
  }

  /** The results for the alternative methods `ms` of a site. */
  function AltResults(site: Site, ms: seq<Method>, k: string): (r: seq<SearchResult>)
    ensures |r| <= |ms|
    ensures forall i | 0 <= i < |r| :: r[i].kind == "alternative"
    decreases |ms|
  {
    if |ms| == 0 then []
    else
      var last := ms[|ms| - 1];
      AltResults(site, ms[..|ms| - 1], k) + (if MethodMatches(last, k) then [AltResult(site, last)] else [])
  }

  /** The alternative results are one record per matching method, in list order. */
  lemma {:induction false} AltResultsExact(site: Site, ms: seq<Method>, k: string)
    ensures var r := AltResults(site, ms, k);
      && |r| == |MatchingMethods(ms, k)|
      && forall i | 0 <= i < |r| :: r[i] == AltResult(site, MatchingMethods(ms, k)[i])
    decreases |ms|
  {
    if |ms| > 0 {
      AltResultsExact(site, ms[..|ms| - 1], k);
    }
  }

  /** A stage yields exactly as many alternative records as it has matching alternative methods. */
  lemma AltResultsCount(site: Site, ms: seq<Method>, k: string)
    ensures |AltResults(site, ms, k)| == |MatchIndices(ms, k)|
  {
    AltResultsExact(site, ms, k);
    MatchingMethodsCount(ms, k);
  }

  function JointResults(site: Site, k: string): seq<SearchResult> {
    if JointReported(site, k) then [JointResult(site)] else []
  }

  /**
   * The results of one stage: its alternative results, then at most one
   * joint result, which is last and present exactly when the block is reported.
   */
  function StageResults(site: Site, k: string): seq<SearchResult> {
    AltResults(site, Alternatives(site.stage), k) + JointResults(site, k)
  }

  /**
   * A stage yields at most one record per alternative method plus one joint
   * record; the joint record, when reported, is the last one and the only one
   * of kind "joint".
   */
  lemma StageResultsShape(site: Site, k: string)
    ensures var r := StageResults(site, k);
      && |r| <= |Alternatives(site.stage)| + 1
      && (forall i | 0 <= i < |r| :: r[i].kind == "joint" <==> (i == |r| - 1 && JointReported(site, k)))
      && (JointReported(site, k) ==> |r| > 0 && r[|r| - 1] == JointResult(site))
  {
    assert JointResults(site, k) != [] ==> JointResults(site, k)[0].kind == "joint";
  }

  function StagesResults(d: Disease, v: Variant, g: PatientGroup, sts: seq<Stage>, k: string): seq<SearchResult>
    decreases |sts|
  {
    if |sts| == 0 then []
    else StagesResults(d, v, g, sts[..|sts| - 1], k) + StageResults(Site(d, v, g, sts[|sts| - 1]), k)
  }

  function EntriesResults(d: Disease, v: Variant, gs: seq<PatientGroup>, k: string): seq<SearchResult>
    decreases |gs|
  {
    if |gs| == 0 then []
    else
      var g := gs[|gs| - 1];
      EntriesResults(d, v, gs[..|gs| - 1], k) + StagesResults(d, v, g, Stages(g.data), k)
  }

  function VariantsResults(d: Disease, vs: seq<Variant>, k: string): seq<SearchResult>
    decreases |vs|
  {
    if |vs| == 0 then []
    else
      var v := vs[|vs| - 1];
      VariantsResults(d, vs[..|vs| - 1], k) + EntriesResults(d, v, PatientGroups(v), k)
  }

  function DiseasesResults(ds: seq<Disease>, k: string): seq<SearchResult>
    decreases |ds|
  {
    if |ds| == 0 then []
    else
      var d := ds[|ds| - 1];
      DiseasesResults(ds[..|ds| - 1], k) + VariantsResults(d, d.typeVariant, k)
  }

  /** What a search for `keyword` returns: the keyword is lowered once, then every stage is scanned. */
  function SearchResults(kb: KnowledgeBase, keyword: string): seq<SearchResult> {
    DiseasesResults(kb.disease, Lower(keyword))
  }

  // ---- The stages of the document in traversal order ----

  function StagesSites(d: Disease, v: Variant, g: PatientGroup, sts: seq<Stage>): (r: seq<Site>)
    ensures |r| == |sts|
    ensures forall i | 0 <= i < |r| :: r[i] == Site(d, v, g, sts[i])
  {
    seq(|sts|, i requires 0 <= i < |sts| => Site(d, v, g, sts[i]))
  }

  /** The sites below the patient groups `gs`: exactly their stages. */
  function EntriesSites(d: Disease, v: Variant, gs: seq<PatientGroup>): (r: seq<Site>)
    ensures forall s | s in r :: s.disease == d && s.variant == v && s.group in gs && s.stage in Stages(s.group.data)
    ensures forall g, st | g in gs && st in Stages(g.data) :: Site(d, v, g, st) in r
    decreases |gs|
  {
    if |gs| == 0 then []
    else
      var g := gs[|gs| - 1];
      var r := EntriesSites(d, v, gs[..|gs| - 1]) + StagesSites(d, v, g, Stages(g.data));
      assert forall g' | g' in gs :: g' in gs[..|gs| - 1] || g' == g;
      assert forall st | st in Stages(g.data) :: Site(d, v, g, st) in StagesSites(d, v, g, Stages(g.data));
      r
  }

  /** The sites below the variants `vs`: exactly the stages of their patient groups. */
  function VariantsSites(d: Disease, vs: seq<Variant>): (r: seq<Site>)
    ensures forall s | s in r :: s.disease == d && s.variant in vs && s.group in PatientGroups(s.variant) &&
                                 s.stage in Stages(s.group.data)
    ensures forall v, g, st | v in vs && g in PatientGroups(v) && st in Stages(g.data) :: Site(d, v, g, st) in r
    decreases |vs|
  {
    if |vs| == 0 then []
    else
      var v := vs[|vs| - 1];
      var r := VariantsSites(d, vs[..|vs| - 1]) + EntriesSites(d, v, PatientGroups(v));
      assert forall v' | v' in vs :: v' in vs[..|vs| - 1] || v' == v;
      r
  }

  /** The sites below the diseases `ds`. */
  function DiseasesSites(ds: seq<Disease>): (r: seq<Site>)
    ensures forall s | s in r :: s.disease in ds && s.variant in s.disease.typeVariant &&
                                 s.group in PatientGroups(s.variant) && s.stage in Stages(s.group.data)
    ensures forall d, v, g, st | d in ds && v in d.typeVariant && g in PatientGroups(v) && st in Stages(g.data) ::
              Site(d, v, g, st) in r
    decreases |ds|
  {
    if |ds| == 0 then []
    else
      var d := ds[|ds| - 1];
      var r := DiseasesSites(ds[..|ds| - 1]) + VariantsSites(d, d.typeVariant);
      assert forall d' | d' in ds :: d' in ds[..|ds| - 1] || d' == d;
      r
  }

  /** Every stage of the document, reached through its disease, variant and patient group. */
  function Sites(kb: KnowledgeBase): seq<Site> {
    DiseasesSites(kb.disease)
  }

  /** The results of a sequence of sites, in order. */
  function SitesResults(sites: seq<Site>, k: string): seq<SearchResult> {
    FlatMap(sites, site => StageResults(site, k))
  }

  // ---- Traversal order ----

  /** A disease with one variant, one patient group and one stage yields what that stage yields. */
  lemma SingleStageResults(d: Disease, v: Variant, g: PatientGroup, st: Stage, k: string)
    requires d.typeVariant == [v] && PatientGroups(v) == [g] && Stages(g.data) == [st]
    ensures DiseasesResults([d], k) == StageResults(Site(d, v, g, st), k)
  {
    var one := StageResults(Site(d, v, g, st), k);
    assert [st][..0] == [];
    assert StagesResults(d, v, g, [st], k) == one;
    assert [g][..0] == [];
    assert EntriesResults(d, v, [g], k) == one;
    assert [v][..0] == [];
    assert VariantsResults(d, [v], k) == one;
    assert [d][..0] == [];
  }

  lemma SitesResultsAppend(a: seq<Site>, b: seq<Site>, k: string)
    ensures SitesResults(a + b, k) == SitesResults(a, k) + SitesResults(b, k)
  {
    FlatMapAppend(a, b, site => StageResults(site, k));
  }

  lemma {:induction false} StagesInSiteOrder(d: Disease, v: Variant, g: PatientGroup, sts: seq<Stage>, k: string)
    ensures StagesResults(d, v, g, sts, k) == SitesResults(StagesSites(d, v, g, sts), k)
    decreases |sts|
  {
    if |sts| > 0 {
      var n := |sts| - 1;
      StagesInSiteOrder(d, v, g, sts[..n], k);
      assert StagesSites(d, v, g, sts)[..n] == StagesSites(d, v, g, sts[..n]);
    }
  }

  lemma {:induction false} EntriesInSiteOrder(d: Disease, v: Variant, gs: seq<PatientGroup>, k: string)
    ensures EntriesResults(d, v, gs, k) == SitesResults(EntriesSites(d, v, gs), k)
    decreases |gs|
  {
    if |gs| > 0 {
      var g := gs[|gs| - 1];
      EntriesInSiteOrder(d, v, gs[..|gs| - 1], k);
      StagesInSiteOrder(d, v, g, Stages(g.data), k);
      SitesResultsAppend(EntriesSites(d, v, gs[..|gs| - 1]), StagesSites(d, v, g, Stages(g.data)), k);
    }
  }

  lemma {:induction false} VariantsInSiteOrder(d: Disease, vs: seq<Variant>, k: string)
    ensures VariantsResults(d, vs, k) == SitesResults(VariantsSites(d, vs), k)
    decreases |vs|
  {
    if |vs| > 0 {
      var v := vs[|vs| - 1];
      VariantsInSiteOrder(d, vs[..|vs| - 1], k);
      EntriesInSiteOrder(d, v, PatientGroups(v), k);
      SitesResultsAppend(VariantsSites(d, vs[..|vs| - 1]), EntriesSites(d, v, PatientGroups(v)), k);
    }
  }

  lemma {:induction false} DiseasesInSiteOrder(ds: seq<Disease>, k: string)
    ensures DiseasesResults(ds, k) == SitesResults(DiseasesSites(ds), k)
    decreases |ds|
  {
    if |ds| > 0 {
      var d := ds[|ds| - 1];
      DiseasesInSiteOrder(ds[..|ds| - 1], k);
      VariantsInSiteOrder(d, d.typeVariant, k);
      SitesResultsAppend(DiseasesSites(ds[..|ds| - 1]), VariantsSites(d, d.typeVariant), k);
    }
  }

  /**
   * Search results come stage by stage in traversal order (disease, variant,
   * patient group, stage), each stage's alternative results before its joint result.
   */
  lemma SearchInSiteOrder(kb: KnowledgeBase, keyword: string)
    ensures SearchResults(kb, keyword) == SitesResults(Sites(kb), Lower(keyword))
  {
    DiseasesInSiteOrder(kb.disease, Lower(keyword));
  }

  // ---- Soundness and completeness ----

  /** `r` is a result the stage at `site` produces: a matching alternative method, or its reported joint block. */
  predicate ProducedAt(site: Site, k: string, r: SearchResult) {
    (exists j | 0 <= j < |Alternatives(site.stage)| ::
       MethodMatches(Alternatives(site.stage)[j], k) && r == AltResult(site, Alternatives(site.stage)[j])) ||
    (JointReported(site, k) && r == JointResult(site))
  }

  lemma AltResultsMembership(site: Site, ms: seq<Method>, k: string, r: SearchResult)
    ensures r in AltResults(site, ms, k) <==>
            exists j | 0 <= j < |ms| :: MethodMatches(ms[j], k) && r == AltResult(site, ms[j])
  {
    AltResultsExact(site, ms, k);
    var rs, mm := AltResults(site, ms, k), MatchingMethods(ms, k);
    if r in rs {
      var i :| 0 <= i < |rs| && rs[i] == r;
      assert mm[i] in ms && MethodMatches(mm[i], k);
      var j :| 0 <= j < |ms| && ms[j] == mm[i];
    }
    if j :| 0 <= j < |ms| && MethodMatches(ms[j], k) && r == AltResult(site, ms[j]) {
      var i :| 0 <= i < |mm| && mm[i] == ms[j];
      assert rs[i] == r;
    }
  }

  lemma StageResultsMembership(site: Site, k: string, r: SearchResult)
    ensures r in StageResults(site, k) <==> ProducedAt(site, k, r)
  {
    AltResultsMembership(site, Alternatives(site.stage), k, r);
  }

  lemma SitesResultsMembership(sites: seq<Site>, k: string, r: SearchResult)
    ensures r in SitesResults(sites, k) <==> exists i | 0 <= i < |sites| :: r in StageResults(sites[i], k)
  {
    FlatMapMembership(sites, site => StageResults(site, k), r);
  }

  /**
   * Soundness and completeness of keyword search: a record is returned
   * exactly when some stage of the document produces it, i.e. it is the
   * record of a matching alternative method of that stage or of its
   * non-empty, matching joint block.
   */
  lemma SearchSoundAndComplete(kb: KnowledgeBase, keyword: string, r: SearchResult)
    ensures r in SearchResults(kb, keyword) <==>
            exists i | 0 <= i < |Sites(kb)| :: ProducedAt(Sites(kb)[i], Lower(keyword), r)
  {
    var k := Lower(keyword);
    SearchInSiteOrder(kb, keyword);
    SitesResultsMembership(Sites(kb), k, r);
    forall i | 0 <= i < |Sites(kb)|
      ensures r in StageResults(Sites(kb)[i], k) <==> ProducedAt(Sites(kb)[i], k, r)
    {
      StageResultsMembership(Sites(kb)[i], k, r);
    }
  }

  /** No alternative method of the site matches and its joint block is not reported. */
  predicate Silent(site: Site, k: string) {
    (forall j | 0 <= j < |Alternatives(site.stage)| :: !MethodMatches(Alternatives(site.stage)[j], k)) &&
    !JointReported(site, k)
  }

  /** A search returns nothing exactly when every stage of the document is silent for the keyword. */
  lemma SearchEmptyIff(kb: KnowledgeBase, keyword: string)
    ensures SearchResults(kb, keyword) == [] <==>
            forall i | 0 <= i < |Sites(kb)| :: Silent(Sites(kb)[i], Lower(keyword))
  {
    var k := Lower(keyword);
    var sites := Sites(kb);
    if SearchResults(kb, keyword) != [] {
      var r := SearchResults(kb, keyword)[0];
      SearchSoundAndComplete(kb, keyword, r);
      var i :| 0 <= i < |sites| && ProducedAt(sites[i], k, r);
      assert !Silent(sites[i], k);
    }
    if i :| 0 <= i < |sites| && !Silent(sites[i], k) {
      var site := sites[i];
      var r;
      if j :| 0 <= j < |Alternatives(site.stage)| && MethodMatches(Alternatives(site.stage)[j], k) {
        r := AltResult(site, Alternatives(site.stage)[j]);
      } else {
        r := JointResult(site);
      }
      assert ProducedAt(site, k, r);
      SearchSoundAndComplete(kb, keyword, r);
    }
  }
}
