/** What an incident's saved facts require of its paperwork packet. */
module PacketPlan {
  import opened Base

  /** A JSON value as the planner sees it: text with its white space collapsed and in lower
      case, anything else as it prints. */
  datatype Value =
    | Absent
    | Flag(yes: bool)
    | Words(tidy: string)
    | Number(shown: string)
    | Collection(shown: string, empty: bool)

  /** A saved incident revision: reviewed answers, extracted facts and the classification,
      where the revision has them, and its own fields. */
  datatype Snapshot = Snapshot(
    gapAnswers: Option<map<string, Value>>,
    extractedFacts: Option<map<string, Value>>,
    classification: Option<map<string, Value>>,
    fields: map<string, Value>)

  datatype Group = Required | Recommended

  function FactIn(container: Option<map<string, Value>>, key: string): Option<Value> {
    if container.Some? && key in container.value then Some(container.value[key]) else None
  }

  /** Reviewed answers hide extracted facts, which hide the classification, even when the
      answer is null. */
  function Fact(s: Snapshot, key: string): Value {
    if FactIn(s.gapAnswers, key).Some? then s.gapAnswers.value[key]
    else if FactIn(s.extractedFacts, key).Some? then s.extractedFacts.value[key]
    else if FactIn(s.classification, key).Some? then s.classification.value[key]
    else if key in s.fields then s.fields[key]
    else Absent
  }

  function NonEmpty(s: string): Option<string> {
    if s == "" then None else Some(s)
  }

  function Normalized(v: Value): Option<string> {
    match v
    case Absent => None
    case Flag(yes) => Some(if yes then "yes" else "no")
    case Words(tidy) => NonEmpty(tidy)
    case Number(shown) => NonEmpty(shown)
    case Collection(shown, _) => NonEmpty(shown)
  }

  predicate IsTrue(v: Value) {
    Normalized(v) in {Some("yes"), Some("true"), Some("1"), Some("completed"), Some("conducted"), Some("filed"), Some("obtained")}
  }

  predicate IsFalse(v: Value) {
    Normalized(v) in {Some("no"), Some("false"), Some("0"), Some("n/a"), Some("na"), Some("not applicable"),
                      Some("n/a - no injuries reported")}
  }

  predicate HasValue(v: Value) {
    match v
    case Absent => false
    case Words(tidy) => tidy != ""
    case Collection(_, empty) => !empty
    case _ => true
  }

  predicate HasInjury(v: Value) {
    Normalized(v) !in {None, Some("no"), Some("none"), Some("no injury"), Some("no injuries"), Some("none reported"),
                       Some("no injuries reported"), Some("n/a"), Some("not applicable")}
    && HasValue(v)
  }

  datatype Condition =
    | Always | PhotoVideo | MedicalDocumentation | DrugTest | SuspectedDrugs | MoneyConfiscated
    | WeaponInvolved | WitnessStatements | EnemyAlert | OutsideMedical | StaffInjured

  /** The fact that a condition asks about. */
  function MainFact(c: Condition): string {
    match c
    case Always => ""
    case PhotoVideo => "photo_video_obtained"
    case MedicalDocumentation => "medical_disposition"
    case DrugTest => "drug_test_disposition"
    case SuspectedDrugs => "contraband_is_suspected_drugs"
    case MoneyConfiscated => "contraband_includes_money"
    case WeaponInvolved => "weapon_involved"
    case WitnessStatements => "witness_statements_collected"
    case EnemyAlert => "enemy_alert_filed"
    case OutsideMedical => "medical_disposition"
    case StaffInjured => "staff_injured"
  }

  function YesOrEvidence(v: Value, evidence: bool): Option<Group> {
    if IsTrue(v) || evidence then Some(Required)
    else if IsFalse(v) then None
    else Some(Recommended)
  }

  function GroupFor(c: Condition, s: Snapshot): Option<Group> {
    var v := Fact(s, MainFact(c));
    match c
    case Always => Some(Required)
    case PhotoVideo | WitnessStatements | EnemyAlert => YesOrEvidence(v, false)
    case MedicalDocumentation =>
      if IsFalse(v) then None
      else if v != Absent || HasInjury(Fact(s, "inmate_injuries")) || HasInjury(Fact(s, "officer_injuries")) then Some(Required)
      else Some(Recommended)
    case DrugTest =>
      if IsFalse(v) then None else if v != Absent then Some(Required) else Some(Recommended)
    case SuspectedDrugs => YesOrEvidence(v, HasValue(Fact(s, "field_test_result_summary")))
    case MoneyConfiscated => YesOrEvidence(v, HasValue(Fact(s, "money_receipt_number")))
    case WeaponInvolved => YesOrEvidence(v, HasValue(Fact(s, "weapon_custody_officer")))
    case OutsideMedical =>
      if Normalized(v) == Some("sent by ambulance to outside facility") || IsTrue(Fact(s, "emergency_gate_pass"))
      then Some(Required)
      else if Normalized(v).None? then Some(Recommended)
      else None
    case StaffInjured => YesOrEvidence(v, HasInjury(Fact(s, "officer_injuries")))
  }

  /** What makes a form required even though its question was answered with no. */
  predicate OtherEvidence(c: Condition, s: Snapshot) {
    match c
    case SuspectedDrugs => HasValue(Fact(s, "field_test_result_summary"))
    case MoneyConfiscated => HasValue(Fact(s, "money_receipt_number"))
    case WeaponInvolved => HasValue(Fact(s, "weapon_custody_officer"))
    case OutsideMedical => IsTrue(Fact(s, "emergency_gate_pass"))
    case StaffInjured => HasInjury(Fact(s, "officer_injuries"))
    case _ => false
  }

  /** A recognised yes or no among the reviewed answers settles a condition whatever was
      extracted: nothing is merely recommended any more.  A yes requires the form; after a
      no, and after either for treatment outside, it is required exactly on other evidence,
      so medical and drug-test paperwork never. */
  lemma ReviewedAnswersSettle(c: Condition, s: Snapshot, answer: Value)
    requires IsTrue(answer) || IsFalse(answer)
    requires FactIn(s.gapAnswers, MainFact(c)) == Some(answer)
    ensures GroupFor(c, s) != Some(Recommended)
    ensures IsTrue(answer) && !c.OutsideMedical? ==> GroupFor(c, s) == Some(Required)
    ensures (IsFalse(answer) && !c.Always?) || c.OutsideMedical? ==>
              GroupFor(c, s) == if OtherEvidence(c, s) then Some(Required) else None
  {
  }

  /** The recognised words for yes and for no; nothing is both. */
  lemma YesAndNo(v: Value)
    ensures !(IsTrue(v) && IsFalse(v))
    ensures v.Flag? ==> (IsTrue(v) <==> v.yes) && (IsFalse(v) <==> !v.yes)
    ensures v.Absent? ==> !IsTrue(v) && !IsFalse(v)
    ensures v.Words? ==> (IsTrue(v) <==> v.tidy in ["yes", "true", "1", "completed", "conducted", "filed", "obtained"])
    ensures v.Words? ==> (IsFalse(v) <==> v.tidy in ["no", "false", "0", "n/a", "na", "not applicable", "n/a - no injuries reported"])
  {
  }

  predicate Injuries(s: Snapshot) {
    HasInjury(Fact(s, "inmate_injuries")) || HasInjury(Fact(s, "officer_injuries"))
  }

  /** A question that nobody answered leaves its form recommended, unless other evidence or a
      reported injury requires it. */
  lemma UnansweredIsRecommended(c: Condition, s: Snapshot)
    requires !c.Always? && Fact(s, MainFact(c)) == Absent && !OtherEvidence(c, s)
    ensures GroupFor(c, s) == if c.MedicalDocumentation? && Injuries(s) then Some(Required) else Some(Recommended)
  {
  }

  /** When each question requires its form and when it rules it out, wherever the answer is. */
  lemma AnswersDecide(c: Condition, s: Snapshot)
    requires !c.Always?
    ensures var v := Fact(s, MainFact(c));
            match c
            case MedicalDocumentation =>
              && (GroupFor(c, s) == None <==> IsFalse(v))
              && (GroupFor(c, s) == Some(Recommended) <==> v == Absent && !Injuries(s))
            case DrugTest =>
              && (GroupFor(c, s) == None <==> IsFalse(v)) && (GroupFor(c, s) == Some(Recommended) <==> v == Absent)
            case OutsideMedical =>
              && (GroupFor(c, s) == Some(Required) <==>
                    Normalized(v) == Some("sent by ambulance to outside facility") || OtherEvidence(c, s))
              && (GroupFor(c, s) == Some(Recommended) <==> Normalized(v) == None && !OtherEvidence(c, s))
            case _ =>
              && (GroupFor(c, s) == Some(Required) <==> IsTrue(v) || OtherEvidence(c, s))
              && (GroupFor(c, s) == None <==> IsFalse(v) && !OtherEvidence(c, s))
  {
    YesAndNo(Fact(s, MainFact(c)));
  }

  /** A layer that has a fact, null or not, hides the layers below it; one that lacks it
      hides nothing. */
  lemma LayersHide(s: Snapshot, key: string)
    ensures FactIn(s.gapAnswers, key).Some? ==> Some(Fact(s, key)) == FactIn(s.gapAnswers, key)
    ensures FactIn(s.gapAnswers, key).None? ==> Fact(s, key) == Fact(s.(gapAnswers := None), key)
    ensures FactIn(s.gapAnswers, key).None? && FactIn(s.extractedFacts, key).Some? ==> Some(Fact(s, key)) == FactIn(s.extractedFacts, key)
    ensures FactIn(s.gapAnswers, key).None? && FactIn(s.extractedFacts, key).None? && FactIn(s.classification, key).Some? ==>
              Some(Fact(s, key)) == FactIn(s.classification, key)
    ensures s.gapAnswers.None? && s.extractedFacts.None? && s.classification.None? ==>
              Fact(s, key) == if key in s.fields then s.fields[key] else Absent
  {
  }

  /** What reviewed answers say hides everything below them: two revisions with the same
      answers to every question agree. */
  lemma ReviewedAnswersDecide(c: Condition, s: Snapshot, t: Snapshot)
    requires s.gapAnswers.Some? && t.gapAnswers == s.gapAnswers
    requires {MainFact(c), "inmate_injuries", "officer_injuries", "field_test_result_summary", "money_receipt_number",
              "weapon_custody_officer", "emergency_gate_pass"} <= s.gapAnswers.value.Keys
    ensures GroupFor(c, s) == GroupFor(c, t)
  {
    assert forall key :: key in s.gapAnswers.value.Keys ==> Fact(s, key) == Fact(t, key);
    assert MainFact(c) in s.gapAnswers.value.Keys;
  }

  // ----- The checklist -----

  datatype Requirement = Requirement(codes: seq<string>, condition: Condition, perOfficer: bool, wording: string)

  /** The entries a checklist may name. */
  datatype Entry =
    | CoverLetter | Form005409 | PhotoVideoEvidence | ChainOfCustody | ConfiscationF401 | FieldTestResult
    | MedicalReport | InmateDrugTest | MoneyReceiptBusinessOffice | WeaponChainOfCustodyF401
    | StatementsOfWitnesses | EnemyAlertForm | Review24Hour | Review72Hour | EmergencyGatePassIfTreatedOutside
    | InjuredStaffCompanyNurse | OfficerAccidentReport | ForcedCellMovementFactSheet | PreaChecklist
    | PreaNotification

  const OFFICER_FORM := "form_005_409"

  function EntryNamed(name: string): Option<Entry> {
    if name == "cover_letter" then Some(CoverLetter)
    else if name == "005_409" then Some(Form005409)
    else if name == "photo_video" then Some(PhotoVideoEvidence)
    else if name == "chain_of_custody" then Some(ChainOfCustody)
    else if name == "confiscation_f401" then Some(ConfiscationF401)
    else if name == "field_test_result" then Some(FieldTestResult)
    else if name == "medical_report" then Some(MedicalReport)
    else if name == "inmate_drug_test" then Some(InmateDrugTest)
    else if name == "money_receipt_business_office" then Some(MoneyReceiptBusinessOffice)
    else if name == "weapon_chain_of_custody_f401" then Some(WeaponChainOfCustodyF401)
    else if name == "witness_statements" then Some(StatementsOfWitnesses)
    else if name == "enemy_alert_form" then Some(EnemyAlertForm)
    else if name == "24_hour_review" then Some(Review24Hour)
    else if name == "72_hour_review" then Some(Review72Hour)
    else if name == "emergency_gate_pass_if_treated_outside" then Some(EmergencyGatePassIfTreatedOutside)
    else if name == "injured_staff_company_nurse" then Some(InjuredStaffCompanyNurse)
    else if name == "officer_accident_report" then Some(OfficerAccidentReport)
    else if name == "forced_cell_movement_fact_sheet" then Some(ForcedCellMovementFactSheet)
    else if name == "prea_checklist" then Some(PreaChecklist)
    else if name == "prea_notification" then Some(PreaNotification)
    else None
  }

  /** The form templates of an entry. */
  function CodesOf(e: Entry): seq<string> {
    match e
    case CoverLetter => ["cover_letter"]
    case Form005409 => [OFFICER_FORM]
    case PhotoVideoEvidence => ["photo_video_attachment"]
    case ChainOfCustody => ["chain_of_custody_physical"]
    case ConfiscationF401 => ["confiscation_f401_physical"]
    case FieldTestResult => ["field_test_result_attachment"]
    case MedicalReport => ["medical_documentation_checklist"]
    case InmateDrugTest => ["inmate_drug_test_reminder"]
    case MoneyReceiptBusinessOffice => ["business_office_receipt_reminder"]
    case WeaponChainOfCustodyF401 => ["chain_of_custody_physical", "confiscation_f401_physical"]
    case StatementsOfWitnesses => ["additional_officer_statement"]
    case EnemyAlertForm => ["enemy_alert_form"]
    case Review24Hour => ["review_24_hour"]
    case Review72Hour => ["review_72_hour"]
    case EmergencyGatePassIfTreatedOutside => ["emergency_gate_pass"]
    case InjuredStaffCompanyNurse => ["company_nurse_confirmation"]
    case OfficerAccidentReport => ["officer_accident_report"]
    case ForcedCellMovementFactSheet => ["forced_cell_movement_fact_sheet"]
    case PreaChecklist => ["prea_checklist"]
    case PreaNotification => ["prea_notification"]
  }

  /** When an entry applies. */
  function ConditionOf(e: Entry): Condition {
    match e
    case PhotoVideoEvidence => PhotoVideo
    case FieldTestResult => SuspectedDrugs
    case MedicalReport => MedicalDocumentation
    case InmateDrugTest => DrugTest
    case MoneyReceiptBusinessOffice => MoneyConfiscated
    case WeaponChainOfCustodyF401 => WeaponInvolved
    case StatementsOfWitnesses => WitnessStatements
    case EnemyAlertForm => EnemyAlert
    case EmergencyGatePassIfTreatedOutside => OutsideMedical
    case InjuredStaffCompanyNurse => StaffInjured
    case OfficerAccidentReport => StaffInjured
    case _ => Always
  }

  function WordingOf(e: Entry): string {
    match e
    case CoverLetter => "cover letter"
    case Form005409 => "005/409 incident report"
    case PhotoVideoEvidence => "photograph or video evidence"
    case ChainOfCustody => "physical Chain of Custody form"
    case ConfiscationF401 => "F401 confiscation form"
    case FieldTestResult => "field-test result documentation"
    case MedicalReport => "medical documentation"
    case InmateDrugTest => "inmate drug-test documentation"
    case MoneyReceiptBusinessOffice => "Business Office money receipt"
    case WeaponChainOfCustodyF401 => "weapon custody and F401 paperwork"
    case StatementsOfWitnesses => "witness statements"
    case EnemyAlertForm => "Enemy Alert form"
    case Review24Hour => "24-hour review"
    case Review72Hour => "72-hour review"
    case EmergencyGatePassIfTreatedOutside => "emergency medical gate pass"
    case InjuredStaffCompanyNurse => "Company Nurse confirmation"
    case OfficerAccidentReport => "Officer Accident Report"
    case ForcedCellMovementFactSheet => "Forced Cell Movement Fact Sheet"
    case PreaChecklist => "PREA step-by-step checklist"
    case PreaNotification => "PREA incident notification"
  }

  function RequirementOf(e: Entry): Requirement {
    Requirement(CodesOf(e), ConditionOf(e), e == Form005409, WordingOf(e))
  }

  function RequirementNamed(name: string): Option<Requirement> {
    var e := EntryNamed(name);
    if e.None? then None else Some(RequirementOf(e.value))
  }

  /** Which fact decides on which forms, here and in the next lemma. */
  lemma FactsDecideForms()
    ensures Decides("photo_video_obtained", PhotoVideoEvidence, ["photo_video_attachment"])
    ensures Decides("contraband_is_suspected_drugs", FieldTestResult, ["field_test_result_attachment"])
    ensures Decides("drug_test_disposition", InmateDrugTest, ["inmate_drug_test_reminder"])
    ensures Decides("contraband_includes_money", MoneyReceiptBusinessOffice, ["business_office_receipt_reminder"])
    ensures Decides("weapon_involved", WeaponChainOfCustodyF401, ["chain_of_custody_physical", "confiscation_f401_physical"])
  {
  }

  lemma PeoplesFactsDecideForms()
    ensures Decides("medical_disposition", MedicalReport, ["medical_documentation_checklist"])
    ensures Decides("witness_statements_collected", StatementsOfWitnesses, ["additional_officer_statement"])
    ensures Decides("enemy_alert_filed", EnemyAlertForm, ["enemy_alert_form"])
    ensures Decides("medical_disposition", EmergencyGatePassIfTreatedOutside, ["emergency_gate_pass"])
    ensures Decides("staff_injured", InjuredStaffCompanyNurse, ["company_nurse_confirmation"])
    ensures Decides("staff_injured", OfficerAccidentReport, ["officer_accident_report"])
    ensures RequirementOf(MedicalReport).condition == MedicalDocumentation
    ensures RequirementOf(EmergencyGatePassIfTreatedOutside).condition == OutsideMedical
  {
  }

  predicate Decides(fact: string, e: Entry, codes: seq<string>) {
    && RequirementOf(e).codes == codes && !RequirementOf(e).condition.Always?
    && MainFact(RequirementOf(e).condition) == fact
  }

  /** Which forms need no question. */
  lemma FormsAlwaysRequired(s: Snapshot)
    ensures Requires(s, CoverLetter, ["cover_letter"]) && Requires(s, Form005409, ["form_005_409"])
    ensures Requires(s, ChainOfCustody, ["chain_of_custody_physical"]) && Requires(s, ConfiscationF401, ["confiscation_f401_physical"])
    ensures Requires(s, Review24Hour, ["review_24_hour"]) && Requires(s, Review72Hour, ["review_72_hour"])
    ensures Requires(s, ForcedCellMovementFactSheet, ["forced_cell_movement_fact_sheet"])
    ensures Requires(s, PreaChecklist, ["prea_checklist"]) && Requires(s, PreaNotification, ["prea_notification"])
  {
  }

  predicate Requires(s: Snapshot, e: Entry, codes: seq<string>) {
    GroupFor(RequirementOf(e).condition, s) == Some(Required) && RequirementOf(e).codes == codes
  }

  predicate IsReportOutput(name: string) {
    name == "major_disciplinary_form" || name == "use_of_force_report_409"
  }

  predicate OtherCode(code: string) {
    |code| != 12 || code[0] != 'f'
  }

  lemma OtherCodes(e: Entry)
    requires e != Form005409
    ensures forall i :: 0 <= i < |CodesOf(e)| ==> OtherCode(CodesOf(e)[i])
  {
  }

  /** A form is planned for each officer or for the whole incident, never both, so the
      officers' form cannot be added for the incident. */
  lemma ScopesAreConsistent(e: Entry)
    ensures RequirementOf(e).perOfficer <==> OFFICER_FORM in RequirementOf(e).codes
  {
    assert !OtherCode(OFFICER_FORM);
    if e == Form005409 {
      assert CodesOf(e)[0] == OFFICER_FORM;
    } else {
      OtherCodes(e);
    }
  }

  const REASON_LIMIT := 240

  function Reason(title: string, wording: string, group: Group): string {
    (if group == Required then "Required" else "Recommended while information is incomplete")
    + " by " + title + " checklist: " + wording + "."
  }

  // ----- The plan -----

  datatype Key = Key(code: string, staff: Option<Uuid>)

  datatype Planned = Planned(group: Group, reason: string)

  /** One requirement's call for one form. */
  datatype Call = Call(key: Key, planned: Planned)

  type Plan = map<Key, Planned>

  datatype Error = NoOfficer | UnknownRequirement(name: string) | MissingTemplate(code: string) | ReasonTooLong(name: string)

  function Merged(was: Planned, more: Planned): Planned {
    var group := if was.group == Required || more.group == Required then Required else Recommended;
    var joined := if was.reason == more.reason then was.reason else was.reason + " " + more.reason;
    Planned(group, if |joined| > REASON_LIMIT then was.reason else joined)
  }

  function WithCall(plan: Plan, c: Call): Plan {
    plan[c.key := if c.key in plan then Merged(plan[c.key], c.planned) else c.planned]
  }

  function PlanOf(calls: seq<Call>): Plan {
    if calls == [] then map[] else WithCall(PlanOf(calls[..|calls| - 1]), calls[|calls| - 1])
  }

  /** An incident to plan for: the requirement table, the verdict of its saved revision on
      each condition, its reporting officers and the active form templates. */
  datatype Case = Case(
    title: string,
    requirements: string -> Option<Requirement>,
    verdict: Condition -> Option<Group>,
    staff: seq<Uuid>,
    catalog: set<string>)

  function CaseOf(title: string, s: Snapshot, staff: seq<Uuid>, catalog: set<string>): Case {
    Case(title, RequirementNamed, c => GroupFor(c, s), staff, catalog)
  }

  function Scopes(x: Case, r: Requirement): seq<Option<Uuid>> {
    if r.perOfficer then seq(|x.staff|, i requires 0 <= i < |x.staff| => Some(x.staff[i])) else [None]
  }

  function CallsFor(code: string, planned: Planned, scopes: seq<Option<Uuid>>): seq<Call> {
    seq(|scopes|, i requires 0 <= i < |scopes| => Call(Key(code, scopes[i]), planned))
  }

  function CallsOfCodes(x: Case, name: string, r: Requirement, codes: seq<string>, group: Group): Result<seq<Call>, Error> {
    if codes == [] then Ok([])
    else
      var front := CallsOfCodes(x, name, r, codes[..|codes| - 1], group);
      var code, reason := codes[|codes| - 1], Reason(x.title, r.wording, group);
      if front.Err? then front
      else if code !in x.catalog then Err(MissingTemplate(code))
      else if |reason| > REASON_LIMIT then Err(ReasonTooLong(name))
      else Ok(front.value + CallsFor(code, Planned(group, reason), Scopes(x, r)))
  }

  function CallsOfName(x: Case, name: string): Result<seq<Call>, Error> {
    if IsReportOutput(name) then Ok([])
    else
      var r := x.requirements(name);
      if r.None? then Err(UnknownRequirement(name))
      else
        var group := x.verdict(r.value.condition);
        if group.None? then Ok([]) else CallsOfCodes(x, name, r.value, r.value.codes, group.value)
  }

  function CallsOf(x: Case, names: seq<string>): Result<seq<Call>, Error> {
    if names == [] then Ok([])
    else
      var front := CallsOf(x, names[..|names| - 1]);
      if front.Err? then front
      else
        var last := CallsOfName(x, names[|names| - 1]);
        if last.Err? then last else Ok(front.value + last.value)
  }

  /** The plan once more calls have been merged, unless they could not be made. */
  function PlanAfter(calls: seq<Call>, more: Result<seq<Call>, Error>): Result<Plan, Error> {
    match more
    case Ok(m) => Ok(PlanOf(calls + m))
    case Err(e) => Err(e)
  }

  /** The plan of an incident revision is the merged calls of its checklist; the first
      requirement that cannot be planned is reported. */
  method PlanIncidentPacket(x: Case, names: seq<string>) returns (r: Result<Plan, Error>)
    ensures x.staff == [] ==> r == Err(NoOfficer)
    ensures x.staff != [] ==> r == PlanAfter([], CallsOf(x, names))
  {
    if x.staff == [] {
      return Err(NoOfficer);
    }
    var plan: Plan := map[];
    ghost var calls := [];
    var i := 0;
    while i < |names|
      invariant 0 <= i <= |names|
      invariant CallsOf(x, names[..i]) == Ok(calls) && plan == PlanOf(calls)
    {
      var name := names[i];
      assert names[..i + 1][..i] == names[..i];
      var more := PlanName(x, name, plan, calls);
      if more.Err? {
        FirstError(x, names, i + 1);
        return Err(more.error);
      }
      plan, calls := more.value, calls + CallsOfName(x, name).value;
      i := i + 1;
    }
    assert names[..|names|] == names && [] + calls == calls;
    return Ok(plan);
  }

  method PlanName(x: Case, name: string, plan: Plan, ghost calls: seq<Call>) returns (r: Result<Plan, Error>)
    requires x.staff != [] && plan == PlanOf(calls)
    ensures r == PlanAfter(calls, CallsOfName(x, name))
  {
    assert calls + [] == calls;
    if IsReportOutput(name) {
      return Ok(plan);
    }
    var requirement := x.requirements(name);
    if requirement.None? {
      return Err(UnknownRequirement(name));
    }
    var group := x.verdict(requirement.value.condition);
    if group.None? {
      return Ok(plan);
    }
    r := PlanCodes(x, name, requirement.value, group.value, plan, calls);
  }

  lemma NextCode(x: Case, name: string, r: Requirement, group: Group, i: nat, calls: seq<Call>, more: seq<Call>)
    returns (all: seq<Call>)
    requires i < |r.codes| && CallsOfCodes(x, name, r, r.codes[..i], group) == Ok(more)
    requires r.codes[i] in x.catalog && |Reason(x.title, r.wording, group)| <= REASON_LIMIT
    ensures CallsOfCodes(x, name, r, r.codes[..i + 1], group) == Ok(all)
    ensures calls + all == calls + more + CallsFor(r.codes[i], Planned(group, Reason(x.title, r.wording, group)), Scopes(x, r))
  {
    assert r.codes[..i + 1][..i] == r.codes[..i];
    all := more + CallsFor(r.codes[i], Planned(group, Reason(x.title, r.wording, group)), Scopes(x, r));
  }

  method PlanCodes(x: Case, name: string, r: Requirement, group: Group, plan: Plan, ghost calls: seq<Call>)
    returns (outcome: Result<Plan, Error>)
    requires x.staff != [] && plan == PlanOf(calls)
    ensures outcome == PlanAfter(calls, CallsOfCodes(x, name, r, r.codes, group))
  {
    var after := plan;
    ghost var more := [];
    assert calls + more == calls;
    var i := 0;
    while i < |r.codes|
      invariant 0 <= i <= |r.codes|
      invariant CallsOfCodes(x, name, r, r.codes[..i], group) == Ok(more) && after == PlanOf(calls + more)
    {
      var code, reason := r.codes[i], Reason(x.title, r.wording, group);
      assert r.codes[..i + 1][..i] == r.codes[..i];
      if code !in x.catalog {
        FirstCodeError(x, name, r, r.codes, group, i + 1);
        return Err(MissingTemplate(code));
      }
      if |reason| > REASON_LIMIT {
        FirstCodeError(x, name, r, r.codes, group, i + 1);
        return Err(ReasonTooLong(name));
      }
      after := PlanScopes(code, Planned(group, reason), Scopes(x, r), after, calls + more);
      more := NextCode(x, name, r, group, i, calls, more);
      i := i + 1;
    }
    assert r.codes[..|r.codes|] == r.codes;
    return Ok(after);
  }

  lemma OneMoreCall(calls: seq<Call>, more: seq<Call>, k: nat)
    requires k < |more|
    ensures PlanOf(calls + more[..k + 1]) == WithCall(PlanOf(calls + more[..k]), more[k])
  {
    assert (calls + more[..k + 1])[..|calls| + k] == calls + more[..k];
  }

  method PlanScopes(code: string, planned: Planned, scopes: seq<Option<Uuid>>, plan: Plan, ghost calls: seq<Call>)
    returns (after: Plan)
    requires plan == PlanOf(calls)
    ensures after == PlanOf(calls + CallsFor(code, planned, scopes))
  {
    after := plan;
    ghost var here := CallsFor(code, planned, scopes);
    assert calls + here[..0] == calls;
    var k := 0;
    while k < |scopes|
      invariant 0 <= k <= |scopes| == |here|
      invariant after == PlanOf(calls + here[..k])
    {
      after := WithCall(after, Call(Key(code, scopes[k]), planned));
      OneMoreCall(calls, here, k);
      k := k + 1;
    }
    assert here[..|here|] == here;
  }

  /** The two report outputs are skipped and any other name outside the table is an error. */
  lemma NamesOutsideTheTable(x: Case, name: string)
    requires x.requirements(name).None?
    ensures CallsOfName(x, name) ==
            if name in ["major_disciplinary_form", "use_of_force_report_409"] then Ok([]) else Err(UnknownRequirement(name))
  {
  }

  lemma {:induction false} FirstError(x: Case, names: seq<string>, i: nat)
    requires i <= |names| && CallsOf(x, names[..i]).Err?
    ensures CallsOf(x, names) == CallsOf(x, names[..i])
    decreases |names|
  {
    if i < |names| {
      assert names[..|names| - 1][..i] == names[..i];
      FirstError(x, names[..|names| - 1], i);
    } else {
      assert names[..i] == names;
    }
  }

  lemma {:induction false} FirstCodeError(x: Case, name: string, r: Requirement, codes: seq<string>, group: Group, i: nat)
    requires i <= |codes| && CallsOfCodes(x, name, r, codes[..i], group).Err?
    ensures CallsOfCodes(x, name, r, codes, group) == CallsOfCodes(x, name, r, codes[..i], group)
    decreases |codes|
  {
    if i < |codes| {
      assert codes[..|codes| - 1][..i] == codes[..i];
      FirstCodeError(x, name, r, codes[..|codes| - 1], group, i);
    } else {
      assert codes[..i] == codes;
    }
  }

  // ----- What a plan means -----

  ghost predicate Called(calls: seq<Call>, key: Key) {
    exists i :: 0 <= i < |calls| && calls[i].key == key
  }

  ghost predicate CalledAsRequired(calls: seq<Call>, key: Key) {
    exists i :: 0 <= i < |calls| && calls[i].key == key && calls[i].planned.group == Required
  }

  /** A form is planned exactly when some call names it, and is required exactly when some
      call requires it, whatever the order of the calls. */
  lemma {:induction false} PlanMergesGroups(calls: seq<Call>, key: Key)
    ensures key in PlanOf(calls) <==> Called(calls, key)
    ensures key in PlanOf(calls) ==> (PlanOf(calls)[key].group == Required <==> CalledAsRequired(calls, key))
  {
    if calls != [] {
      var front := calls[..|calls| - 1];
      PlanMergesGroups(front, key);
      assert calls == front + [calls[|calls| - 1]];
      if Called(front, key) {
        var i :| 0 <= i < |front| && front[i].key == key;
        assert calls[i].key == key;
      }
      if CalledAsRequired(front, key) {
        var i :| 0 <= i < |front| && front[i].key == key && front[i].planned.group == Required;
        assert calls[i].key == key && calls[i].planned.group == Required;
      }
    }
  }

  /** The checklist may be listed in any order. */
  lemma GroupsIgnoreOrder(calls: seq<Call>, others: seq<Call>, key: Key)
    requires forall c :: c in calls <==> c in others
    ensures key in PlanOf(calls) <==> key in PlanOf(others)
    ensures key in PlanOf(calls) ==> PlanOf(calls)[key].group == PlanOf(others)[key].group
  {
    PlanMergesGroups(calls, key);
    PlanMergesGroups(others, key);
    SameCalls(calls, others, key);
    SameCalls(others, calls, key);
  }

  lemma SameCalls(calls: seq<Call>, others: seq<Call>, key: Key)
    requires forall c :: c in calls ==> c in others
    ensures Called(calls, key) ==> Called(others, key)
    ensures CalledAsRequired(calls, key) ==> CalledAsRequired(others, key)
  {
    if Called(calls, key) {
      var i :| 0 <= i < |calls| && calls[i].key == key;
      assert calls[i] in others;
    }
    if CalledAsRequired(calls, key) {
      var i :| 0 <= i < |calls| && calls[i].key == key && calls[i].planned.group == Required;
      assert calls[i] in others;
    }
  }

  /** A planned reason fits its column and begins with the reason of the first call. */
  lemma {:induction false} ReasonsFit(calls: seq<Call>, key: Key, i: nat)
    requires i < |calls| && calls[i].key == key && forall j :: 0 <= j < i ==> calls[j].key != key
    requires forall j :: 0 <= j < |calls| ==> |calls[j].planned.reason| <= REASON_LIMIT
    ensures key in PlanOf(calls)
    ensures |PlanOf(calls)[key].reason| <= REASON_LIMIT && calls[i].planned.reason <= PlanOf(calls)[key].reason
    decreases |calls|
  {
    var front := calls[..|calls| - 1];
    if i < |front| {
      ReasonsFit(front, key, i);
    } else {
      PlanMergesGroups(front, key);
    }
  }

  /** Two calls for one form: their reasons are joined if they differ and fit, and the first
      stands alone otherwise. */
  lemma TwoReasons(key: Key, a: Planned, b: Planned)
    ensures var plan := PlanOf([Call(key, a), Call(key, b)]);
            && key in plan
            && (a.reason == b.reason ==> plan[key].reason == a.reason)
            && (a.reason != b.reason && |a.reason| + 1 + |b.reason| <= 240 ==> plan[key].reason == a.reason + " " + b.reason)
            && (a.reason != b.reason && |a.reason| + 1 + |b.reason| > 240 ==> plan[key].reason == a.reason)
  {
    var calls := [Call(key, a), Call(key, b)];
    var first := [Call(key, a)];
    assert first[..0] == [] && PlanOf(first) == map[key := a];
    assert calls[..1] == first && PlanOf(calls) == WithCall(map[key := a], Call(key, b));
  }

  /** A reason begins with its group and names the category and the requirement. */
  lemma ReasonsName(title: string, wording: string, group: Group)
    ensures var reason := Reason(title, wording, group);
            && (group == Required ==> "Required by " + title + " checklist: " <= reason)
            && (group == Recommended ==> "Recommended while information is incomplete by " + title + " checklist: " <= reason)
            && reason[|reason| - |wording| - 1..] == wording + "."
  {
    var head := (if group == Required then "Required" else "Recommended while information is incomplete")
                + " by " + title + " checklist: ";
    var reason := Reason(title, wording, group);
    assert reason == head + (wording + ".");
    assert group == Required ==> head == "Required by " + title + " checklist: ";
    assert group == Recommended ==> head == "Recommended while information is incomplete by " + title + " checklist: ";
    assert reason[..|head|] == head;
  }

  /** What a checklist entry calls for. */
  ghost predicate Asks(x: Case, name: string, key: Key, group: Group) {
    && !IsReportOutput(name) && x.requirements(name).Some?
    && var r := x.requirements(name).value;
       && x.verdict(r.condition) == Some(group) && key.code in r.codes
       && if r.perOfficer then key.staff.Some? && key.staff.value in x.staff else key.staff.None?
  }

  /** The forms of a plan, from the checklist: a form is planned exactly when some entry
      asks for it, for the incident or for that officer, and is required exactly when some
      entry requires it. */
  lemma PlanIsTheChecklist(x: Case, names: seq<string>, key: Key)
    requires CallsOf(x, names).Ok?
    ensures var plan := PlanOf(CallsOf(x, names).value);
            && (key in plan <==> AskedFor(x, names, key, Required) || AskedFor(x, names, key, Recommended))
            && (key in plan ==> (plan[key].group == Required <==> AskedFor(x, names, key, Required)))
  {
    var calls := CallsOf(x, names).value;
    PlanMergesGroups(calls, key);
    NamesCall(x, names, key, Required);
    NamesCall(x, names, key, Recommended);
    CalledInSomeGroup(calls, key);
  }

  /** What an entry calls for, given a saved revision. */
  ghost predicate SnapshotAsks(s: Snapshot, staff: seq<Uuid>, name: string, key: Key, group: Group) {
    && !IsReportOutput(name) && RequirementNamed(name).Some?
    && var r := RequirementNamed(name).value;
       && GroupFor(r.condition, s) == Some(group) && key.code in r.codes
       && if r.perOfficer then key.staff.Some? && key.staff.value in staff else key.staff.None?
  }

  ghost predicate SnapshotAsksFor(s: Snapshot, staff: seq<Uuid>, names: seq<string>, key: Key, group: Group) {
    exists name :: name in names && SnapshotAsks(s, staff, name, key, group)
  }

  /** The same for the program's own requirement table and the facts of a saved revision. */
  lemma PlanFollowsTheSnapshot(title: string, s: Snapshot, staff: seq<Uuid>, catalog: set<string>, names: seq<string>, key: Key)
    requires CallsOf(CaseOf(title, s, staff, catalog), names).Ok?
    ensures var plan := PlanOf(CallsOf(CaseOf(title, s, staff, catalog), names).value);
            && (key in plan <==> SnapshotAsksFor(s, staff, names, key, Required) || SnapshotAsksFor(s, staff, names, key, Recommended))
            && (key in plan ==> (plan[key].group == Required <==> SnapshotAsksFor(s, staff, names, key, Required)))
  {
    var x := CaseOf(title, s, staff, catalog);
    PlanIsTheChecklist(x, names, key);
    AsksAlike(title, s, staff, catalog, names, key, Required);
    AsksAlike(title, s, staff, catalog, names, key, Recommended);
  }

  lemma AsksAlike(title: string, s: Snapshot, staff: seq<Uuid>, catalog: set<string>, names: seq<string>, key: Key, group: Group)
    ensures AskedFor(CaseOf(title, s, staff, catalog), names, key, group) <==> SnapshotAsksFor(s, staff, names, key, group)
  {
    var x := CaseOf(title, s, staff, catalog);
    forall name | name in names ensures Asks(x, name, key, group) <==> SnapshotAsks(s, staff, name, key, group) {
      assert x.requirements(name) == RequirementNamed(name);
    }
  }

  ghost predicate AskedFor(x: Case, names: seq<string>, key: Key, group: Group) {
    exists name :: name in names && Asks(x, name, key, group)
  }

  lemma CalledInSomeGroup(calls: seq<Call>, key: Key)
    ensures Called(calls, key) <==> CalledAs(calls, key, Required) || CalledAs(calls, key, Recommended)
    ensures CalledAsRequired(calls, key) <==> CalledAs(calls, key, Required)
  {
    if i :| 0 <= i < |calls| && calls[i].key == key {
      assert calls[i].planned.group == Required || calls[i].planned.group == Recommended;
    }
  }

  ghost predicate CalledAs(calls: seq<Call>, key: Key, group: Group) {
    exists i :: 0 <= i < |calls| && calls[i].key == key && calls[i].planned.group == group
  }

  lemma JoinCalls(a: seq<Call>, b: seq<Call>, key: Key, group: Group)
    ensures CalledAs(a + b, key, group) <==> CalledAs(a, key, group) || CalledAs(b, key, group)
  {
    if CalledAs(a, key, group) {
      var i :| 0 <= i < |a| && a[i].key == key && a[i].planned.group == group;
      assert (a + b)[i] == a[i];
    }
    if CalledAs(b, key, group) {
      var i :| 0 <= i < |b| && b[i].key == key && b[i].planned.group == group;
      assert (a + b)[|a| + i] == b[i];
    }
  }

  lemma {:induction false} NamesCall(x: Case, names: seq<string>, key: Key, group: Group)
    requires CallsOf(x, names).Ok?
    ensures CalledAs(CallsOf(x, names).value, key, group) <==> AskedFor(x, names, key, group)
    decreases |names|
  {
    if names != [] {
      var front, last := names[..|names| - 1], names[|names| - 1];
      NamesCall(x, front, key, group);
      NameCalls(x, last, key, group);
      JoinCalls(CallsOf(x, front).value, CallsOfName(x, last).value, key, group);
      assert forall name :: name in names <==> name in front || name == last;
    }
  }

  lemma NameCalls(x: Case, name: string, key: Key, group: Group)
    requires CallsOfName(x, name).Ok?
    ensures CalledAs(CallsOfName(x, name).value, key, group) <==> Asks(x, name, key, group)
  {
    if !IsReportOutput(name) {
      var r := x.requirements(name).value;
      var given := x.verdict(r.condition);
      if given.Some? {
        CodesCall(x, name, r, r.codes, given.value, key, group);
        ScopesContain(x, r, key.staff);
      }
    }
  }

  lemma ScopesContain(x: Case, r: Requirement, staff: Option<Uuid>)
    ensures staff in Scopes(x, r) <==> if r.perOfficer then staff.Some? && staff.value in x.staff else staff.None?
  {
    if r.perOfficer && staff.Some? && staff.value in x.staff {
      var i :| 0 <= i < |x.staff| && x.staff[i] == staff.value;
      assert Scopes(x, r)[i] == staff;
    }
  }

  lemma {:induction false} CodesCall(x: Case, name: string, r: Requirement, codes: seq<string>, given: Group, key: Key, group: Group)
    requires CallsOfCodes(x, name, r, codes, given).Ok?
    ensures CalledAs(CallsOfCodes(x, name, r, codes, given).value, key, group)
            <==> group == given && key.code in codes && key.staff in Scopes(x, r)
    decreases |codes|
  {
    if codes != [] {
      var front, last := codes[..|codes| - 1], codes[|codes| - 1];
      var here := CallsFor(last, Planned(given, Reason(x.title, r.wording, given)), Scopes(x, r));
      CodesCall(x, name, r, front, given, key, group);
      JoinCalls(CallsOfCodes(x, name, r, front, given).value, here, key, group);
      CodeCalls(last, Planned(given, Reason(x.title, r.wording, given)), Scopes(x, r), key, group);
      assert forall code :: code in codes <==> code in front || code == last;
    }
  }

  lemma CodeCalls(code: string, planned: Planned, scopes: seq<Option<Uuid>>, key: Key, group: Group)
    ensures CalledAs(CallsFor(code, planned, scopes), key, group)
            <==> group == planned.group && key.code == code && key.staff in scopes
  {
    var calls := CallsFor(code, planned, scopes);
    if group == planned.group && key.code == code && key.staff in scopes {
      var i :| 0 <= i < |scopes| && scopes[i] == key.staff;
      assert calls[i].key == key;
    }
  }
}
