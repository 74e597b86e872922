/**
 * The knowledge base: a read-only tree
 * disease -> "type_variant" -> "varik*" group lists -> "stage" ->
 * "alternative methods" / "joint methods".
 * A field the document may omit is an `Option`; a field the code reads with
 * `record[key]` (and so requires) is a plain value.
 */
module Knowledge {
  import opened Wrappers
  import opened Strings

  /** A treatment method record ("name method", "indications", ...). */
  datatype Method = Method(
    name: Option<string>,               // "name method"
    indications: Option<seq<string>>,   // "indications"
    medicines: Option<seq<string>>,     // "medicines"
    usedMaterial: Option<seq<string>>,  // "used material"
    recommendations: Option<string>,    // "recommendations"
    pages: Option<seq<string>>,         // "pages"
    persuasiveness: Option<string>,     // "persuasiveness"
    evidence: Option<string>)           // "evidence"

  /**
   * A "joint methods" block. `otherKeys` counts the keys of the record
   * besides the three the query layer reads; it matters only for the
   * truthiness test `if joint`.
   */
  datatype Joint = Joint(
    indications: Option<seq<string>>,
    recommendations: Option<string>,
    methods: Option<seq<Method>>,
    otherKeys: nat)
  {
    /** Python truthiness of the block: a dictionary with at least one key. */
    predicate NonEmpty() {
      indications.Some? || recommendations.Some? || methods.Some? || otherKeys > 0
    }
  }

  /** A treatment stage; "name_stage" is required, the two method collections are optional. */
  datatype Stage = Stage(
    nameStage: string,
    alternativeMethods: Option<seq<Method>>,
    jointMethods: Option<Joint>)

  /** A patient group: "patients_indications" and "stage", both optional. */
  datatype Group = Group(
    patientsIndications: Option<string>,
    stage: Option<seq<Stage>>)

  /** The value of a variant field, as far as the query layer distinguishes it. */
  datatype Value =
    | Str(text: string)               // e.g. "ICD-10_code"
    | StrList(items: seq<string>)     // e.g. "general_contraindications"
    | GroupList(groups: seq<Group>)   // a list of group records, e.g. "varik1"
    | Other                           // numbers, nested records, null
  {
    /** `isinstance(value, list)`. */
    predicate IsList() {
      StrList? || GroupList?
    }

    /** `len(value)` of a list value. */
    function Length(): nat
      requires IsList()
    {
      if StrList? then |items| else |groups|
    }
  }

  /**
   * A variant record: its required "name" and its other entries in
   * insertion order (Python dictionaries keep it).
   */
  datatype Variant = Variant(name: string, fields: seq<(string, Value)>)

  datatype Disease = Disease(name: string, typeVariant: seq<Variant>)

  /** The whole document: its top-level "disease" list. */
  datatype KnowledgeBase = KnowledgeBase(disease: seq<Disease>)

  /** The key prefix that marks a patient-group field of a variant. */
  const GroupPrefix := "varik"

  /**
   * The shape the traversal assumes: a "varik" key whose value is a non-empty
   * list holds group records (a list of strings there would make `group.get`
   * fail).
   */
  predicate VariantWellShaped(v: Variant) {
    forall f | 0 <= f < |v.fields| ::
      StartsWith(v.fields[f].0, GroupPrefix) && v.fields[f].1.StrList? ==> v.fields[f].1.items == []
  }

  predicate WellShaped(kb: KnowledgeBase) {
    forall d, v | 0 <= d < |kb.disease| && 0 <= v < |kb.disease[d].typeVariant| ::
      VariantWellShaped(kb.disease[d].typeVariant[v])
  }

  /** Dictionary keys are unique. */
  predicate KeysDistinct(fields: seq<(string, Value)>) {
    forall a, b | 0 <= a < b < |fields| :: fields[a].0 != fields[b].0
  }
}
