/**
 * The navigational accessors: the variants of a named disease, the patient
 * groups of a variant with their synthetic ids, and the plan of one group.
 */
module Navigation {
  import opened Wrappers
  import opened Strings
  import opened Knowledge
  import opened Sequences

  /** `j` is the position of the first disease named `name`. */
  predicate FirstNamed(ds: seq<Disease>, name: string, j: int) {
    0 <= j < |ds| && ds[j].name == name && forall l | 0 <= l < j :: ds[l].name != name
  }

  /**
   * The "type_variant" list of the first disease named `name`, or the empty
   * list when no disease has that name.
   */
  function VariantsOf(ds: seq<Disease>, name: string): (r: seq<Variant>)
    ensures (forall i | 0 <= i < |ds| :: ds[i].name != name) ==> r == []
    ensures forall j | FirstNamed(ds, name, j) :: r == ds[j].typeVariant
    decreases |ds|
  {
    if |ds| == 0 then []
    else if ds[0].name == name then ds[0].typeVariant
    else
      var r := VariantsOf(ds[1..], name);
      assert forall j | FirstNamed(ds, name, j) :: j > 0 && FirstNamed(ds[1..], name, j - 1);
      r
  }

  /** When some disease has the name, there is a first one. */
  lemma {:induction false} FirstNamedExists(ds: seq<Disease>, name: string, i: nat)
    requires i < |ds| && ds[i].name == name
    ensures exists j :: FirstNamed(ds, name, j)
    decreases i
  {
    if exists l | 0 <= l < i :: ds[l].name == name {
      var l :| 0 <= l < i && ds[l].name == name;
      FirstNamedExists(ds, name, l);
    } else {
      assert FirstNamed(ds, name, i);
    }
  }

  /** One entry of the patient-group list. */
  datatype PatientGroup = PatientGroup(id: string, description: string, data: Group)

  /** Placeholder shown when a group has no "patients_indications". */
  const NoDescription := "Описание отсутствует"

  /** The synthetic id `f"{key}_{idx}"`. */
  function GroupId(key: string, idx: nat): string {
    key + "_" + NatToString(idx)
  }

  function GroupEntry(key: string, idx: nat, g: Group): PatientGroup {
    PatientGroup(GroupId(key, idx), g.patientsIndications.GetOr(NoDescription), g)
  }

  /** A field that contributes groups: a "varik" key holding a list of group records. */
  predicate IsGroupField(field: (string, Value)) {
    StartsWith(field.0, GroupPrefix) && field.1.GroupList?
  }

  /** The entries of one group list, in index order. */
  function FieldEntries(key: string, gs: seq<Group>): seq<PatientGroup> {
    seq(|gs|, i requires 0 <= i < |gs| => GroupEntry(key, i, gs[i]))
  }

  /** What one field contributes. */
  function FieldGroups(field: (string, Value)): seq<PatientGroup> {
    if IsGroupField(field) then FieldEntries(field.0, field.1.groups) else []
  }

  /** What a sequence of fields contributes, in field order. */
  function FieldsGroups(fields: seq<(string, Value)>): seq<PatientGroup>
    decreases |fields|
  {
    if |fields| == 0 then [] else FieldsGroups(fields[..|fields| - 1]) + FieldGroups(fields[|fields| - 1])
  }

  /** The patient groups of a variant. */
  function PatientGroups(v: Variant): seq<PatientGroup> {
    FieldsGroups(v.fields)
  }

  /** Taking one more field adds exactly what that field contributes. */
  lemma FieldsGroupsSnoc(fields: seq<(string, Value)>, f: nat)
    requires f < |fields|
    ensures FieldsGroups(fields[..f + 1]) == FieldsGroups(fields[..f]) + FieldGroups(fields[f])
  {
    TakeSnoc(fields, f);
  }

  lemma {:induction false} FieldsGroupsAppend(a: seq<(string, Value)>, b: seq<(string, Value)>)
    ensures FieldsGroups(a + b) == FieldsGroups(a) + FieldsGroups(b)
    decreases |b|
  {
    if |b| == 0 {
      assert a + b == a;
    } else {
      DropLastOfAppend(a, b);
      FieldsGroupsAppend(a, b[..|b| - 1]);
    }
  }

  /**
   * Field order, then index order: everything contributed by the fields
   * before `f`, then the entries of field `f`, then those of later fields.
   */
  lemma PatientGroupsOrder(fields: seq<(string, Value)>, f: nat)
    requires f < |fields|
    ensures FieldsGroups(fields) == FieldsGroups(fields[..f]) + FieldGroups(fields[f]) + FieldsGroups(fields[f + 1..])
  {
    var before, field, after := fields[..f], [fields[f]], fields[f + 1..];
    SplitAt(fields, f);
    FieldsGroupsAppend(before + field, after);
    assert FieldsGroups(fields) == FieldsGroups(before + field) + FieldsGroups(after);
    FieldsGroupsAppend(before, field);
    assert FieldsGroups(before + field) == FieldsGroups(before) + FieldsGroups(field);
    assert field[..0] == [];
    assert FieldsGroups(field) == FieldGroups(fields[f]);
  }

  /** A field that is not a "varik" list of groups contributes nothing. */
  lemma NonGroupFieldIgnored(fields: seq<(string, Value)>, f: nat)
    requires f < |fields| && !IsGroupField(fields[f])
    ensures FieldsGroups(fields) == FieldsGroups(fields[..f] + fields[f + 1..])
  {
    var before, after := fields[..f], fields[f + 1..];
    calc {
      FieldsGroups(fields);
      == { PatientGroupsOrder(fields, f); }
      FieldsGroups(before) + FieldGroups(fields[f]) + FieldsGroups(after);
      == { assert FieldGroups(fields[f]) == []; }
      FieldsGroups(before) + FieldsGroups(after);
      == { FieldsGroupsAppend(before, after); }
      FieldsGroups(before + after);
    }
  }

  /** `e` is the entry of element `i` of group field `f`. */
  predicate EntryOf(fields: seq<(string, Value)>, f: int, i: int, e: PatientGroup) {
    0 <= f < |fields| && IsGroupField(fields[f]) && 0 <= i < |fields[f].1.groups| &&
    e == GroupEntry(fields[f].0, i, fields[f].1.groups[i])
  }

  /** The entries are exactly one per element of each "varik" group list. */
  lemma {:induction false} PatientGroupsMembership(fields: seq<(string, Value)>, e: PatientGroup)
    ensures e in FieldsGroups(fields) <==> exists f, i :: EntryOf(fields, f, i, e)
    decreases |fields|
  {
    if |fields| > 0 {
      var n := |fields| - 1;
      var init := fields[..n];
      PatientGroupsMembership(init, e);
      assert forall f, i :: EntryOf(init, f, i, e) ==> EntryOf(fields, f, i, e);
      if e in FieldGroups(fields[n]) {
        var i :| 0 <= i < |FieldGroups(fields[n])| && FieldGroups(fields[n])[i] == e;
        assert EntryOf(fields, n, i, e);
      }
      if f, i :| EntryOf(fields, f, i, e) {
        if f == n {
          assert FieldGroups(fields[n])[i] == e;
        } else {
          assert EntryOf(init, f, i, e);
        }
      }
    }
  }

  /** A synthetic id determines its key and index: a decimal index contains no '_'. */
  lemma GroupIdInjective(k1: string, i1: nat, k2: string, i2: nat)
    requires GroupId(k1, i1) == GroupId(k2, i2)
    ensures k1 == k2 && i1 == i2
  {
    var s := GroupId(k1, i1);
    var d1, d2 := NatToString(i1), NatToString(i2);
    // the last '_' of the id sits right before the index, on both readings
    assert s[|s| - |d1| - 1] == '_' && s[|s| - |d2| - 1] == '_';
    assert d1 == s[|s| - |d1|..] == d2;
    NatToStringInjective(i1, i2);
    assert k1 == s[..|k1|] == k2;
  }

  ghost predicate IdsDistinct(gs: seq<PatientGroup>) {
    forall a, b | 0 <= a < b < |gs| :: gs[a].id != gs[b].id
  }

  /** Within a variant (whose keys are distinct, as in any dictionary) every id is unique. */
  lemma {:induction false} GroupIdsDistinct(fields: seq<(string, Value)>)
    requires KeysDistinct(fields)
    ensures IdsDistinct(FieldsGroups(fields))
    decreases |fields|
  {
    if |fields| > 0 {
      var n := |fields| - 1;
      var init, last := fields[..n], fields[n];
      GroupIdsDistinct(init);
      var A, B := FieldsGroups(init), FieldGroups(last);
      var all := A + B;
      forall a, b | 0 <= a < b < |all| ensures all[a].id != all[b].id {
        if b >= |A| {
          assert IsGroupField(last);
          assert all[b].id == GroupId(last.0, b - |A|);
          if a >= |A| {
            if all[a].id == all[b].id {
              GroupIdInjective(last.0, a - |A|, last.0, b - |A|);
            }
          } else {
            assert all[a] in A;
            PatientGroupsMembership(init, all[a]);
            var f, i :| EntryOf(init, f, i, all[a]);
            if all[a].id == all[b].id {
              GroupIdInjective(init[f].0, i, last.0, b - |A|);
            }
          }
        }
      }
    }
  }

  /** The plan of one patient group, as shown to the user. */
  datatype Plan = Plan(variant: string, groupDescription: string, stages: seq<Stage>)

  function GroupPlan(variantName: string, g: Group): (p: Plan)
    ensures p.variant == variantName
    ensures p.groupDescription == g.patientsIndications.GetOr("")
    ensures p.stages == g.stage.GetOr([])
  {
    Plan(variantName, g.patientsIndications.GetOr(""), g.stage.GetOr([]))
  }

  /** The group record a plan was read from, when it had both fields. */
  function PlanGroup(p: Plan): Group {
    Group(Some(p.groupDescription), Some(p.stages))
  }

  /** The plan is a lossless reshaping of a group that has both fields, and a plan survives the round trip. */
  lemma GroupPlanLossless(variantName: string, g: Group, p: Plan)
    ensures g.patientsIndications.Some? && g.stage.Some? ==> PlanGroup(GroupPlan(variantName, g)) == g
    ensures GroupPlan(p.variant, PlanGroup(p)) == p
  {
  }
}
