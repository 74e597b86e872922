# Treatment planner query layer, modelled in Dafny

This project models the query layer of `TreatmentPlanner` (`main.py`), a
clinical decision-support browser. The planner holds one read-only knowledge
base, a tree of diseases. Each disease has `type_variant` records. Each
variant has patient-group lists under keys starting with `varik`. Each group
has `stage` records, and each stage has `alternative methods` and an optional
`joint methods` block. The planner answers navigational queries over this
tree and an exhaustive, case-insensitive keyword search over all methods.

Modules:

- `Wrappers` (`wrappers.dfy`): `Option`, whose `GetOr` models `dict.get(key, default)`.
- `Strings` (`strings.dfy`): lower-casing, Python's `in` on strings (`Occurs`), `startswith`, `join`, and `str(idx)`.
- `Knowledge` (`knowledge.dfy`): the document as datatypes. A field the code may find missing is an `Option`. A field it reads with `record[key]` is a plain value. A variant keeps its non-name entries as an ordered `seq<(key, Value)>`, so dictionary insertion order and the `isinstance(value, list)` test are both kept.
- `Navigation` (`navigation.dfy`): `get_disease_variants`, the specification of `get_patient_groups` (with its synthetic ids), and `get_group_plan`.
- `Matching` (`matching.dfy`): `_method_matches`, and the specification of `_joint_matches`.
- `Results` (`results.dfy`): the two result formatters.
- `KeywordSearch` (`search.dfy`): the specification of `search_methods_by_keyword`. It is stated level by level, and also over the flat list of all stages ("sites") in traversal order. Soundness and completeness are proved over that list.
- `Planner` (`planner.dfy`): the `TreatmentPlanner` class. It holds the `knowledgeBase` field, `get_diseases`, `get_disease_variants` (which forwards to `Navigation.VariantsOf`, where its contract lives), and the imperative loops of `get_patient_groups`, `_joint_matches` and `search_methods_by_keyword`, each proved against its specification function.
- `Scenario` (`scenario.dfy`): a one-disease example document and what the queries return on it.

Group fields are the keys that start with `varik` (`main.py:38`), so the
example uses `varik1` and its group id is `varik1_0`. `""` occurs in every
string, so the empty keyword matches every method (`EmptyKeywordMatchesMethod`).

## Model

| member | source | states |
|---|---|---|
| `Strings.LowerChar` | main.py:58 | Latin capitals map to their lower-case letters; characters outside the handled Latin and Cyrillic ranges are unchanged |
| `Strings.Lower` | main.py:58 | lower-casing keeps the length of the string |
| `Strings.OccursIff` | main.py:88 | the `k in s` test holds exactly when `k` sits at some position of `s` |
| `Strings.EmptyOccurs` | main.py:88 | the empty string occurs in every string |
| `Strings.JoinContainsEach` | main.py:133 | every item joined with a separator occurs in the joined string |
| `Strings.NatToString` | main.py:41 | `str(idx)` is a non-empty string of decimal digits, with at least two digits from 10 on |
| `Strings.NatToStringInjective` | main.py:41 | different indexes have different decimal renderings |
| `Navigation.VariantsOf` | main.py:23-28 | returns the variants of the first disease with the given name, and the empty list (no error) when no disease has that name |
| `Navigation.FirstNamedExists` | main.py:25-27 | when some disease has the name, there is a first one, so the loop's early return is reached |
| `Navigation.FieldsGroupsAppend` | main.py:37-45 | the groups of a concatenation of fields are the groups of each part, in order |
| `Navigation.PatientGroupsOrder` | main.py:37-45 | entries come in field order, then index order: those of earlier fields, then field `f`'s, then later fields' |
| `Navigation.NonGroupFieldIgnored` | main.py:38 | a field that is not a `varik` list of groups contributes nothing; removing it changes nothing |
| `Navigation.PatientGroupsMembership` | main.py:37-44 | an entry is produced exactly when it is element `i` of some `varik` group list, with id `key_i`, the `patients_indications` or the placeholder as description, and the group unchanged as data |
| `Navigation.GroupIdInjective` | main.py:41 | a synthetic id `key_idx` determines both its key and its index |
| `Navigation.GroupIdsDistinct` | main.py:37-41 | within a variant whose keys are distinct, every synthetic group id is unique |
| `Navigation.GroupPlan` | main.py:47-53 | the plan carries the given variant name, the `patients_indications` or `""`, and the group's stages or `[]` |
| `Navigation.GroupPlanLossless` | main.py:47-53 | a group with both fields is recovered from its plan, and every plan survives the round trip through a group |
| `Matching.MethodMatchesIff` | main.py:79-88 | an alternative method matches exactly when the keyword occurs in its lowered name, an indication, a medicine, a used material or its recommendations |
| `Matching.MethodMatchesIgnoresGrading` | main.py:81-87 | `pages`, `persuasiveness` and `evidence` never affect whether a method matches |
| `Matching.EmptyKeywordMatchesMethod` | main.py:82-88 | the empty keyword matches every method, because the defaulted name is always checked |
| `Matching.JointIgnoresNestedDetails` | main.py:100-108 | nested methods' indications, recommendations and grading fields never affect the joint match |
| `Matching.JointSearchAsymmetry` | main.py:79-109 | for every method, keyword and block: when the keyword occurs in one of the method's indications but in none of its name, medicines or materials, nor in the block's own fields, the method matches as an alternative but the block nesting it does not match |
| `Results.FormatMethodFaithful` | main.py:111-127 | an alternative result has type `alternative` and names its disease, variant, group and stage; every field of the method is copied, each missing one replaced by its default (`Без названия` for the name, empty lists, `""`); a method with every field is recovered losslessly; a named method matches iff its result's fields do |
| `Results.FormatJointFaithful` | main.py:129-149 | a joint result has type `joint`, empty medicines, materials and pages, blank grading, the block's indications and recommendations, and the nested methods; its label starts with `Совместные методы: `, is `Совместные методы: Не указаны` without methods, and mentions every nested name |
| `KeywordSearch.MatchingMethods` | main.py:69-70 | the filtered list holds only matching methods of the stage, and every matching method is in it |
| `KeywordSearch.MatchingMethodsCount` | main.py:69-70 | the filter keeps one entry per matching position, so duplicates in the method list are kept |
| `KeywordSearch.AltResults` | main.py:69-71 | there are no more alternative results than methods, and every one has type `alternative` |
| `KeywordSearch.AltResultsExact` | main.py:69-71 | the alternative results are the records of the matching methods, one each, in list order |
| `KeywordSearch.AltResultsCount` | main.py:69-71 | a stage yields exactly as many alternative results as it has matching method positions |
| `KeywordSearch.StageResultsShape` | main.py:65-76 | a stage yields at most one joint result; it is the only one of type `joint`, it comes last and it is present exactly when the joint block is non-empty and matches |
| `KeywordSearch.StagesSites` | main.py:65-66 | the stage sites of a group are its stages, in order |
| `KeywordSearch.EntriesSites` | main.py:63-66 | the sites below a list of patient groups are exactly the stages of those groups |
| `KeywordSearch.VariantsSites` | main.py:61-66 | the sites below a list of variants are exactly the stages of their patient groups |
| `KeywordSearch.DiseasesSites` | main.py:60-66 | the sites of the document are exactly its (disease, variant, patient group, stage) positions |
| `KeywordSearch.SitesResultsAppend` | main.py:60-77 | results over a concatenation of sites are the results of each part, in order |
| `KeywordSearch.SearchInSiteOrder` | main.py:55-77 | search results come stage by stage in traversal order, each stage's alternative results before its joint result |
| `KeywordSearch.AltResultsMembership` | main.py:69-71 | a stage's alternative results are exactly the records of its matching alternative methods |
| `KeywordSearch.StageResultsMembership` | main.py:68-76 | a stage's results are exactly its matching alternatives' records and its reported joint block's record |
| `KeywordSearch.SitesResultsMembership` | main.py:60-77 | a record is among the results of a list of sites iff one of those sites produces it |
| `KeywordSearch.SearchSoundAndComplete` | main.py:55-77 | a record is returned iff some stage of the document produces it: a matching alternative method, or a non-empty matching joint block |
| `KeywordSearch.SearchEmptyIff` | main.py:55-77 | search returns nothing iff no alternative method matches and no joint block is reported anywhere |
| `Planner.TreatmentPlanner.constructor` | main.py:7-12 | without a document the knowledge base is `{"disease": []}`; otherwise it is the loaded document |
| `Planner.TreatmentPlanner.LoadKnowledgeBase` | main.py:14-17 | loading replaces the knowledge base with the parsed document |
| `Planner.TreatmentPlanner.GetDiseases` | main.py:19-21 | one name per disease, in document order |
| `Planner.TreatmentPlanner.GetPatientGroups` | main.py:30-45 | the loop over fields and elements builds exactly the specified patient-group list |
| `Planner.TreatmentPlanner.JointMatches` | main.py:90-109 | the early-return loop decides the joint match: block indications or recommendations, or some nested method's name, medicines or materials |
| `Planner.TreatmentPlanner.SearchStage` | main.py:66-76 | one stage yields its matching alternatives' records, then the record of its non-empty matching joint block |
| `Planner.TreatmentPlanner.SearchGroup` | main.py:65-76 | one patient group yields its stages' results, in stage order |
| `Planner.TreatmentPlanner.SearchVariant` | main.py:62-76 | one variant yields its patient groups' results, in group order |
| `Planner.TreatmentPlanner.SearchDisease` | main.py:61-76 | one disease yields its variants' results, in variant order |
| `Planner.TreatmentPlanner.SearchMethodsByKeyword` | main.py:55-77 | the search lowers the keyword once and returns exactly the specified results; it reads the knowledge base and changes nothing |
| `Scenario.ScenarioVariants` | main.py:23-28 | on a one-disease document, the variants are found under the disease's name, and an unknown name gives none |
| `Scenario.ScenarioGroups` | main.py:30-45 | the single group under `varik1` gets id `varik1_0`; the `ICD-10_code` field contributes nothing |
| `Scenario.CastMatches` | main.py:79-88 | the example method matches `ibuprofen` through its medicine `Ibuprofen` |
| `Scenario.ScenarioStage` | main.py:66-76 | the example's one stage yields exactly the record of that method |
| `Scenario.ScenarioSearch` | main.py:55-77 | searching for `ibuprofen` finds exactly the one method, whose medicine is `Ibuprofen`, with its group and stage |

## Left out

- The Streamlit UI in `main()` (main.py:152-398), including the knowledge-base counters computed inline: presentation and widget state.
- `generate_treatment_report` (main.py:401-456): text templating interleaved with UI calls.
- Reading and parsing the JSON file (main.py:14-17). This is file I/O plus the foreign `json.load`. `LoadKnowledgeBase` and the constructor take the parsed document as a value, and a missing file is not modelled.
- `Strings.LowerChar`: does not model Python's full Unicode `str.lower()`. It lower-cases only Latin `A`-`Z` and the Cyrillic capitals U+0400-U+042F, and leaves every other character unchanged.
- `Strings.Lower`: inherits that restricted mapping from `Strings.LowerChar`. The general lemmas about matching and search hold for any character mapping. The worked example `Scenario.ScenarioSearch` relies on `I` being lowered to `i`.
- `str(field)` coercion (main.py:88, 97, 107): every searched field is modelled as a string.
- Malformed documents. A missing `name`, `type_variant` or `name_stage` (a `KeyError` in Python) cannot be expressed, because those fields are required by the types. A `varik` key holding a non-empty list of strings (an `AttributeError` in Python) is excluded by the precondition `VariantWellShaped`. Other type confusions, such as a string where a list is expected, are not representable.
- `Navigation.GroupIdsDistinct`: does not treat distinct dictionary keys as an invariant of the variant type. Key uniqueness is the lemma's hypothesis `KeysDistinct`, since a `seq` of pairs can repeat a key where a Python dictionary cannot.
- `Planner.TreatmentPlanner.SearchMethodsByKeyword`: the source writes five nested `for` loops that append to one list. The model gives each nesting level its own method, and their results are concatenated in the same order. This keeps every proof small; the results are the same.
