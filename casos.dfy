/**
 * The "Casos" page: the search and filter predicate over the loaded cases, the case-type
 * label with its fallback, and the status colour.
 */
module Casos {
  import opened Wrappers
  import opened Seqs
  import opened Text

  datatype Case = Case(
    id: string,
    caseNumber: Option<string>,
    matter: string,
    caseType: string,
    status: string,
    clientName: string)

  /** The search box: empty, or a lower-cased substring of matter, client name or case number. */
  predicate MatchesSearch(c: Case, search: string) {
    var q := ToLower(search);
    || search == ""
    || Includes(ToLower(c.matter), q)
    || Includes(ToLower(c.clientName), q)
    || (c.caseNumber.Some? && c.caseNumber.value != "" && Includes(ToLower(c.caseNumber.value), q))
  }

  predicate MatchesStatus(c: Case, statusFilter: string) {
    statusFilter == "" || c.status == statusFilter
  }

  predicate MatchesType(c: Case, typeFilter: string) {
    typeFilter == "" || c.caseType == typeFilter
  }

  predicate CaseMatches(c: Case, search: string, statusFilter: string, typeFilter: string) {
    MatchesSearch(c, search) && MatchesStatus(c, statusFilter) && MatchesType(c, typeFilter)
  }

  /** `filteredCases`. */
  function FilteredCases(cases: seq<Case>, search: string, statusFilter: string, typeFilter: string): seq<Case> {
    Filter(cases, (c: Case) => CaseMatches(c, search, statusFilter, typeFilter))
  }

  /**
   * The kept cases are, in their order, exactly those meeting all three conditions; with
   * nothing entered every case is kept.
   */
  lemma FilteredCasesSpec(cases: seq<Case>, search: string, statusFilter: string, typeFilter: string)
    ensures var r := FilteredCases(cases, search, statusFilter, typeFilter);
      && IsSubsequence(r, cases)
      && (forall c :: c in cases ==> (c in r <==> CaseMatches(c, search, statusFilter, typeFilter)))
      && (forall i :: 0 <= i < |r| ==>
            (statusFilter != "" ==> r[i].status == statusFilter) && (typeFilter != "" ==> r[i].caseType == typeFilter))
    ensures search == "" && statusFilter == "" && typeFilter == "" ==> FilteredCases(cases, search, statusFilter, typeFilter) == cases
  {
    FilterIsSubsequence(cases, (c: Case) => CaseMatches(c, search, statusFilter, typeFilter));
    if search == "" && statusFilter == "" && typeFilter == "" {
      FilterAll(cases, (c: Case) => CaseMatches(c, search, statusFilter, typeFilter));
    }
  }

  /** Choosing a status or a type can only shorten the list. */
  lemma FiltersNarrow(cases: seq<Case>, search: string, statusFilter: string, typeFilter: string)
    ensures |FilteredCases(cases, search, statusFilter, typeFilter)| <= |FilteredCases(cases, search, "", "")|
  {
    FilterMonotone(cases, (c: Case) => CaseMatches(c, search, statusFilter, typeFilter), (c: Case) => CaseMatches(c, search, "", ""));
  }

  /** A non-null case number that contains the search makes the case match, whatever its matter. */
  lemma CaseNumberFindsCase(c: Case, search: string, i: int)
    requires c.caseNumber.Some? && OccursAt(ToLower(c.caseNumber.value), ToLower(search), i)
    ensures MatchesSearch(c, search)
  {
    PositionGivesIncludes(ToLower(c.caseNumber.value), ToLower(search), i);
  }

  /** `CASE_TYPES`. */
  const CaseTypes: map<string, string> := map[
    "civil" := "Civil", "penal" := "Penal", "familiar" := "Familiar",
    "mercantil" := "Mercantil", "laboral" := "Laboral", "amparo" := "Amparo",
    "administrativo" := "Administrativo"]

  /** `CASE_TYPES[t] || t`: a known type shows its label, any other caseType shows as it is. */
  function TypeLabel(t: string): (r: string)
    ensures t in CaseTypes ==> r == CaseTypes[t]
    ensures t !in CaseTypes ==> r == t
  {
    if t in CaseTypes && CaseTypes[t] != "" then CaseTypes[t] else t
  }

  /** A caseType is shown unchanged exactly when it is not one of the known keys: every label differs from its key. */
  lemma LabelShowsRawType(t: string)
    ensures TypeLabel(t) == t <==> t !in CaseTypes
  {
    if t in CaseTypes {
      assert CaseTypes[t][0] != t[0];
    }
  }

  datatype StatusColor = Green | Yellow | Gray | Stone

  /** The status pill's colour; 'archivado' and any unknown status fall to stone. */
  function StatusColorOf(status: string): (c: StatusColor)
    ensures c == Green <==> status == "activo"
    ensures c == Yellow <==> status == "suspendido"
    ensures c == Gray <==> status == "cerrado"
    ensures c == Stone <==> status !in {"activo", "suspendido", "cerrado"}
  {
    if status == "activo" then Green
    else if status == "suspendido" then Yellow
    else if status == "cerrado" then Gray
    else Stone
  }
}
