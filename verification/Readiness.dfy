/** The evidence readiness gate of focused research tasks: which admitted bindings each assignment needs,
    and which are missing. */
module Readiness {
  import opened Common
  import Thresholds

  datatype Category = IndexExposure | MarketContext | MacroContext | ExpectationsContext | IndustryContext | CompanyIndexMapping

  datatype Agent = MacroPolicy | MarketNews | AiStorage | OtherAgent(name: Id)

  /** An adapter's attestation that an item covers a category for some instruments. */
  datatype Binding = Binding(category: Category, item: Id, sourceHash: Id, instruments: seq<Id>, from: int, through: int)

  datatype Admission = Admission(snapshotHash: Id, bindings: seq<Binding>)

  datatype Item = Item(id: Id, sourceHash: Id)

  /** What the assessment reads of a research snapshot. */
  datatype Snapshot = Snapshot(contentHash: Id, items: seq<Item>, baseSession: int, nextSession: int)

  datatype Assignment = Assignment(
    id: Id, agent: Agent, naturalView: bool, deterministic: bool, allowed: seq<Id>, target: Thresholds.Target)

  datatype Requirement = Requirement(category: Category, instruments: set<Id>)

  datatype Issue = Issue(assignment: Id, category: Category, missing: set<Id>)

  datatype Status = Ready | NotReady | DemoOnly

  datatype Report = Report(status: Status, issues: seq<Issue>)

  const CSI1000: Id := Thresholds.CSI1000
  const CSI300: Id := Thresholds.CSI300

  // ----- Admission -----

  predicate BindingValid(b: Binding) {
    b.from <= b.through && b.instruments != [] && Unique(b.instruments) == b.instruments
  }

  predicate AdmissionValid(a: Admission) {
    && (forall b :: b in a.bindings ==> BindingValid(b))
    && Unique(Map(a.bindings, (b: Binding) => (b.category, b.item))) == Map(a.bindings, (b: Binding) => (b.category, b.item))
  }

  /** The binding names an item of the snapshot under its own hash, and is in force for its session. */
  predicate BindingHolds(s: Snapshot, b: Binding) {
    var session := if b.category == IndexExposure || b.category == CompanyIndexMapping then s.nextSession else s.baseSession;
    Item(b.item, b.sourceHash) in s.items && b.from <= session <= b.through
  }

  function ItemIds(s: Snapshot): seq<Id> {
    Map(s.items, (i: Item) => i.id)
  }

  function BindingsOf(admission: Option<Admission>): seq<Binding> {
    if admission.Some? then admission.value.bindings else []
  }

  predicate AdmissionHolds(s: Snapshot, admission: Option<Admission>) {
    && Unique(ItemIds(s)) == ItemIds(s)
    && (admission.Some? ==> admission.value.snapshotHash == s.contentHash)
    && (forall b :: b in BindingsOf(admission) ==> BindingHolds(s, b))
  }

  // ----- Requirements -----

  function Required(a: Assignment): seq<Requirement> {
    var both, primary := {CSI1000, CSI300}, {CSI1000};
    [Requirement(IndexExposure, both)] +
    if !a.naturalView then []
    else
      match a.agent
      case MarketNews => [Requirement(MarketContext, primary)]
      case MacroPolicy => [Requirement(MacroContext, primary), Requirement(ExpectationsContext, primary)]
      case AiStorage => [Requirement(IndustryContext, both), Requirement(CompanyIndexMapping, both)]
      case OtherAgent(_) => []
  }

  predicate Exempt(a: Assignment, demo: bool) {
    demo || a.deterministic
  }

  function Covered(bindings: seq<Binding>, a: Assignment, category: Category): set<Id> {
    set b, i | b in bindings && b.category == category && b.item in a.allowed && i in b.instruments :: i
  }

  function IssueFor(bindings: seq<Binding>, a: Assignment, r: Requirement): seq<Issue> {
    var missing := r.instruments - Covered(bindings, a, r.category);
    if missing == {} then [] else [Issue(a.id, r.category, missing)]
  }

  function IssuesFor(bindings: seq<Binding>, a: Assignment, rs: seq<Requirement>): seq<Issue> {
    if rs == [] then [] else IssuesFor(bindings, a, rs[..|rs| - 1]) + IssueFor(bindings, a, rs[|rs| - 1])
  }

  function Issues(bindings: seq<Binding>, assignments: seq<Assignment>, demo: bool): seq<Issue> {
    if assignments == [] then []
    else
      var a := assignments[|assignments| - 1];
      Issues(bindings, assignments[..|assignments| - 1], demo) + if Exempt(a, demo) then [] else IssuesFor(bindings, a, Required(a))
  }

  function ReportOf(bindings: seq<Binding>, assignments: seq<Assignment>, demo: bool): Report {
    var issues := Issues(bindings, assignments, demo);
    Report(if demo then DemoOnly else if issues != [] then NotReady else Ready, issues)
  }

  // ----- The code -----

  method CheckBindings(s: Snapshot, bindings: seq<Binding>) returns (r: Result<bool>)
    ensures r.Ok? <==> forall b :: b in bindings ==> BindingHolds(s, b)
  {
    for i := 0 to |bindings|
      invariant forall k :: 0 <= k < i ==> BindingHolds(s, bindings[k])
    {
      if !BindingHolds(s, bindings[i]) {
        assert bindings[i] in bindings;
        return Err("evidence admission does not hold for its session");
      }
    }
    return Ok(true);
  }

  /** The inner loop over the requirements of one assignment. */
  method FindIssues(bindings: seq<Binding>, a: Assignment, required: seq<Requirement>) returns (issues: seq<Issue>)
    ensures issues == IssuesFor(bindings, a, required)
  {
    issues := [];
    for j := 0 to |required|
      invariant issues == IssuesFor(bindings, a, required[..j])
    {
      assert required[..j + 1][..j] == required[..j];
      var missing := required[j].instruments - Covered(bindings, a, required[j].category);
      if missing != {} {
        issues := issues + [Issue(a.id, required[j].category, missing)];
      }
    }
    assert required[..|required|] == required;
  }

  /** `assess_evidence_readiness` */
  method AssessEvidenceReadiness(s: Snapshot, assignments: seq<Assignment>, admission: Option<Admission>, demo: bool)
    returns (r: Result<Report>)
    ensures r.Ok? <==> AdmissionHolds(s, admission)
    ensures r.Ok? ==> r.value == ReportOf(BindingsOf(admission), assignments, demo)
  {
    if Unique(ItemIds(s)) != ItemIds(s) {
      return Err("readiness requires unique snapshot evidence IDs");
    }
    var bindings := BindingsOf(admission);
    if admission.Some? && admission.value.snapshotHash != s.contentHash {
      return Err("evidence admission binds another snapshot");
    }
    var checked := CheckBindings(s, bindings);
    if checked.Err? {
      return Err(checked.error);
    }
    var issues: seq<Issue> := [];
    for i := 0 to |assignments|
      invariant issues == Issues(bindings, assignments[..i], demo)
    {
      var a := assignments[i];
      assert assignments[..i + 1][..i] == assignments[..i];
      if !Exempt(a, demo) {
        var found := FindIssues(bindings, a, Required(a));
        issues := issues + found;
      }
    }
    assert assignments[..|assignments|] == assignments;
    r := Ok(Report(if demo then DemoOnly else if issues != [] then NotReady else Ready, issues));
  }

  // ----- Exactness -----

  /** Some binding of the category, usable by the assignment, speaks for the instrument. */
  ghost predicate Speaks(bindings: seq<Binding>, a: Assignment, category: Category, instrument: Id) {
    exists b :: b in bindings && b.category == category && b.item in a.allowed && instrument in b.instruments
  }

  /** Every requirement of every assignment that is not exempt is spoken for. */
  ghost predicate AllSpokenFor(bindings: seq<Binding>, assignments: seq<Assignment>, demo: bool) {
    forall a, r, i :: a in assignments && !Exempt(a, demo) && r in Required(a) && i in r.instruments ==> Speaks(bindings, a, r.category, i)
  }

  ghost predicate IsIssue(bindings: seq<Binding>, a: Assignment, rs: seq<Requirement>, issue: Issue) {
    exists r :: r in rs && issue == Issue(a.id, r.category, r.instruments - Covered(bindings, a, r.category)) && issue.missing != {}
  }

  lemma {:induction false} IssuesForIff(bindings: seq<Binding>, a: Assignment, rs: seq<Requirement>, issue: Issue)
    ensures issue in IssuesFor(bindings, a, rs) <==> IsIssue(bindings, a, rs, issue)
  {
    if rs != [] {
      IssuesForIff(bindings, a, rs[..|rs| - 1], issue);
      assert rs == rs[..|rs| - 1] + [rs[|rs| - 1]];
      assert rs[|rs| - 1] in rs;
    }
  }

  lemma LastAssignment(bindings: seq<Binding>, assignments: seq<Assignment>, demo: bool, issue: Issue)
    requires assignments != []
    ensures var last := assignments[|assignments| - 1];
            issue in Issues(bindings, assignments, demo) <==>
            issue in Issues(bindings, assignments[..|assignments| - 1], demo) ||
            (!Exempt(last, demo) && issue in IssuesFor(bindings, last, Required(last)))
  {
  }

  /** The issues are exactly the (assignment, category) pairs with an uncovered instrument, each naming the
      instruments that are missing. */
  lemma {:induction false} IssuesAreExact(bindings: seq<Binding>, assignments: seq<Assignment>, demo: bool, issue: Issue)
    ensures issue in Issues(bindings, assignments, demo) <==>
            exists a :: a in assignments && !Exempt(a, demo) && IsIssue(bindings, a, Required(a), issue)
  {
    if assignments != [] {
      var init, last := assignments[..|assignments| - 1], assignments[|assignments| - 1];
      IssuesAreExact(bindings, init, demo, issue);
      LastAssignment(bindings, assignments, demo, issue);
      IssuesForIff(bindings, last, Required(last), issue);
      InSnoc(assignments, init, last);
    }
  }

  lemma InSnoc(assignments: seq<Assignment>, init: seq<Assignment>, last: Assignment)
    requires assignments != [] && init == assignments[..|assignments| - 1] && last == assignments[|assignments| - 1]
    ensures forall a :: a in assignments <==> a in init || a == last
  {
    assert assignments == init + [last];
  }

  lemma CoveredIff(bindings: seq<Binding>, a: Assignment, category: Category, instrument: Id)
    ensures instrument in Covered(bindings, a, category) <==> Speaks(bindings, a, category, instrument)
  {
  }

  /** The gate in terms of what it is for: a live task is ready if and only if every instrument of every
      required category is spoken for by an admitted binding the assignment may use. */
  lemma ReadyIff(bindings: seq<Binding>, assignments: seq<Assignment>, demo: bool)
    ensures Issues(bindings, assignments, demo) == [] <==> AllSpokenFor(bindings, assignments, demo)
    ensures ReportOf(bindings, assignments, demo).status == Ready <==> !demo && AllSpokenFor(bindings, assignments, demo)
  {
    var issues := Issues(bindings, assignments, demo);
    if AllSpokenFor(bindings, assignments, demo) {
      if issues != [] {
        IssuesAreExact(bindings, assignments, demo, issues[0]);
        assert issues[0] in issues;
        SpokenForHasNoIssue(bindings, assignments, demo, issues[0]);
      }
    } else {
      var a, r, i :| a in assignments && !Exempt(a, demo) && r in Required(a) && i in r.instruments && !Speaks(bindings, a, r.category, i);
      CoveredIff(bindings, a, r.category, i);
      var missing := r.instruments - Covered(bindings, a, r.category);
      assert i in missing;
      assert IsIssue(bindings, a, Required(a), Issue(a.id, r.category, missing));
      IssuesAreExact(bindings, assignments, demo, Issue(a.id, r.category, missing));
    }
  }

  lemma SpokenForHasNoIssue(bindings: seq<Binding>, assignments: seq<Assignment>, demo: bool, issue: Issue)
    requires AllSpokenFor(bindings, assignments, demo)
    ensures !exists a :: a in assignments && !Exempt(a, demo) && IsIssue(bindings, a, Required(a), issue)
  {
    forall a | a in assignments && !Exempt(a, demo) ensures !IsIssue(bindings, a, Required(a), issue) {
      forall r | r in Required(a) ensures r.instruments - Covered(bindings, a, r.category) == {} {
        forall i | i in r.instruments ensures i in Covered(bindings, a, r.category) {
          CoveredIff(bindings, a, r.category, i);
        }
      }
    }
  }

  /** Adding bindings, as long as the larger admission still holds, never turns ready into not ready. */
  lemma MoreBindingsKeepReady(s: Snapshot, assignments: seq<Assignment>, fewer: Option<Admission>, more: Option<Admission>, demo: bool)
    requires AdmissionHolds(s, fewer) && AdmissionHolds(s, more)
    requires forall b :: b in BindingsOf(fewer) ==> b in BindingsOf(more)
    ensures ReportOf(BindingsOf(fewer), assignments, demo).status != NotReady ==> ReportOf(BindingsOf(more), assignments, demo).status != NotReady
  {
    ReadyIff(BindingsOf(fewer), assignments, demo);
    ReadyIff(BindingsOf(more), assignments, demo);
    if AllSpokenFor(BindingsOf(fewer), assignments, demo) {
      forall a, r, i | a in assignments && !Exempt(a, demo) && r in Required(a) && i in r.instruments
        ensures Speaks(BindingsOf(more), a, r.category, i)
      {
        assert Speaks(BindingsOf(fewer), a, r.category, i);
      }
    }
  }

  // ----- The request and its answer -----

  function View(s: Thresholds.Snapshot): Snapshot
    requires s.futureSessions != []
  {
    Snapshot(s.contentHash, Map(s.items, (i: Thresholds.Item) => Item(i.id, i.sourceHash)), s.baseSession, s.futureSessions[0])
  }

  function Targets(assignments: seq<Assignment>): seq<Thresholds.Target> {
    Map(assignments, (a: Assignment) => a.target)
  }

  /** The version-4 request repeats the report and the thresholds, and is refused when it is not ready. */
  datatype Request = Request(
    snapshot: Thresholds.Snapshot, assignments: seq<Assignment>, admission: Option<Admission>, demo: bool,
    report: Report, thresholds: map<Thresholds.Target, real>)

  /** The validators of the request and of the admission it contains, on a snapshot that passed its own. */
  ghost predicate Accepted(r: Request, program: Id, sqrt: real -> real) {
    && Thresholds.SnapshotValid(r.snapshot, program, sqrt)
    && (r.admission.Some? ==> AdmissionValid(r.admission.value))
    && AdmissionHolds(View(r.snapshot), r.admission)
    && r.report == ReportOf(BindingsOf(r.admission), r.assignments, r.demo) && r.report.status != NotReady
    && Thresholds.ThresholdsFor(r.snapshot, Targets(r.assignments), sqrt) == Ok(r.thresholds)
  }

  /** What decides whether a request can be made at all. */
  ghost predicate CanRequest(s: Thresholds.Snapshot, assignments: seq<Assignment>, admission: Option<Admission>, demo: bool)
    requires s.futureSessions != []
  {
    && (admission.Some? ==> AdmissionValid(admission.value)) && AdmissionHolds(View(s), admission)
    && AllSpokenFor(BindingsOf(admission), assignments, demo)
    && forall a :: a in assignments ==> !a.target.Unknown?
  }

  lemma KnownTargets(assignments: seq<Assignment>)
    ensures (forall t :: t in Targets(assignments) ==> !t.Unknown?) <==> forall a :: a in assignments ==> !a.target.Unknown?
  {
    forall a | a in assignments ensures a.target in Targets(assignments) {
      var k :| 0 <= k < |assignments| && assignments[k] == a;
      assert Targets(assignments)[k] == a.target;
    }
  }

  /** On a valid snapshot some report and some thresholds get a request accepted if and only if the
      admission holds, speaks for every requirement of every live task and every target is known. */
  lemma AcceptedRequestIff(s: Thresholds.Snapshot, assignments: seq<Assignment>, admission: Option<Admission>, demo: bool,
                           program: Id, sqrt: real -> real)
    requires Thresholds.SnapshotValid(s, program, sqrt) && Thresholds.IsRootFunction(sqrt)
    ensures (exists report, thresholds :: Accepted(Request(s, assignments, admission, demo, report, thresholds), program, sqrt)) <==>
            CanRequest(s, assignments, admission, demo)
  {
    ReadyIff(BindingsOf(admission), assignments, demo);
    KnownTargets(assignments);
    Thresholds.ThresholdsForIff(s, program, Targets(assignments), sqrt);
    if CanRequest(s, assignments, admission, demo) {
      var report := ReportOf(BindingsOf(admission), assignments, demo);
      var thresholds := Thresholds.ThresholdsFor(s, Targets(assignments), sqrt).value;
      assert Accepted(Request(s, assignments, admission, demo, report, thresholds), program, sqrt);
    }
  }

  /** Nothing can be substituted in an accepted request: its report is the clean one, and its thresholds
      are those of the targets of its assignments, each from the sealed history, and no others. */
  lemma AcceptedRequestIsFixed(r: Request, program: Id, sqrt: real -> real)
    requires Accepted(r, program, sqrt) && Thresholds.IsRootFunction(sqrt)
    ensures r.report == Report(if r.demo then DemoOnly else Ready, [])
    ensures r.thresholds.Keys == ToSet(Targets(r.assignments))
    ensures forall t :: t in r.thresholds ==> Thresholds.ThresholdForTarget(r.snapshot, t, sqrt) == Ok(r.thresholds[t])
  {
    ReadyIff(BindingsOf(r.admission), r.assignments, r.demo);
    Thresholds.ThresholdsForIff(r.snapshot, program, Targets(r.assignments), sqrt);
    assert forall t :: Thresholds.ThresholdOf(r.snapshot, sqrt)(t) == Thresholds.ThresholdForTarget(r.snapshot, t, sqrt);
  }
}
