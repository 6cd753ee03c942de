/** The paperwork packet of one incident: reconciled with the plan of a saved revision and
    edited by officers in between. */
module Packets {
  import opened Base
  import P = PacketPlan

  datatype Group = Required | Recommended | Additional

  datatype State = Selected | Removed | NotApplicable

  datatype Item = Item(group: Group, state: State, reason: string, naReason: Option<string>, source: nat)

  type Items = map<P.Key, Item>

  datatype Error = ItemNotFound | TemplateNotFound | NotAllowed

  const LIBRARY_REASON := "Added by an authorized officer from the Forms Library."
  const NA_LIMIT := 500

  function GroupOf(p: P.Planned): Group {
    if p.group == P.Required then Required else Recommended
  }

  // ----- What a rebuild does to one form -----

  function Settled(item: Item, planned: P.Planned, revision: nat): Item {
    var now := item.(group := GroupOf(planned), source := revision, reason := planned.reason);
    if now.group == Required && item.state == Removed then now.(state := Selected, naReason := None)
    else if now.group == Recommended && item.state == NotApplicable then now.(state := Removed, naReason := None)
    else if item.group == Additional then now.(state := Selected, naReason := None)
    else now
  }

  function Reconciled(item: Option<Item>, planned: Option<P.Planned>, revision: nat): Option<Item> {
    match (item, planned)
    case (None, None) => None
    case (None, Some(p)) => Some(Item(GroupOf(p), Selected, p.reason, None, revision))
    case (Some(i), Some(p)) => Some(Settled(i, p, revision))
    case (Some(i), None) =>
      if i.group == Additional then Some(i) else Some(i.(state := Removed, naReason := None, source := revision))
  }

  function At<T>(m: map<P.Key, T>, key: P.Key): Option<T> {
    if key in m then Some(m[key]) else None
  }

  function Rebuilt(items: Items, plan: P.Plan, revision: nat): Items {
    map key | key in items.Keys + plan.Keys :: Reconciled(At(items, key), At(plan, key), revision).value
  }

  // ----- What officers do -----

  function RemoveRecommended(items: Items, key: P.Key): Result<Items, Error> {
    if key !in items then Err(ItemNotFound)
    else if items[key].group != Recommended then Err(NotAllowed)
    else Ok(items[key := items[key].(state := Removed, naReason := None)])
  }

  /** `cleaned`: the officer's reason with its white space collapsed. */
  function MarkNotApplicable(items: Items, key: P.Key, cleaned: string): Result<Items, Error> {
    if key !in items then Err(ItemNotFound)
    else if items[key].group != Required then Err(NotAllowed)
    else if !(1 <= |cleaned| <= NA_LIMIT) then Err(NotAllowed)
    else Ok(items[key := items[key].(state := NotApplicable, naReason := Some(cleaned))])
  }

  function AddAdditional(items: Items, active: set<string>, code: string, revision: nat): Result<Items, Error> {
    var key := P.Key(code, None);
    if code !in active then Err(TemplateNotFound)
    else if code == P.OFFICER_FORM then Err(NotAllowed)
    else if key !in items then Ok(items[key := Item(Additional, Selected, LIBRARY_REASON, None, revision)])
    else if items[key].group == Required then Ok(items)
    else Ok(items[key := items[key].(state := Selected, naReason := None, source := revision)])
  }

  // ----- The packet -----

  /** The rows of one incident, at most one for a form and officer. */
  class Packet {
    var items: Items

    constructor ()
      ensures items == map[]
    {
      items := map[];
    }

    method Build(plan: P.Plan, revision: nat)
      modifies this
      ensures items == Rebuilt(old(items), plan, revision)
    {
      SettlePlanned(plan, revision);
      RemoveUnplanned(plan, revision);
    }

    method SettlePlanned(plan: P.Plan, revision: nat)
      modifies this
      ensures items.Keys == old(items).Keys + plan.Keys
      ensures forall key :: key in items ==>
                items[key] == if key in plan then Reconciled(At(old(items), key), At(plan, key), revision).value else old(items)[key]
    {
      ghost var was := items;
      var todo := plan.Keys;
      while todo != {}
        invariant todo <= plan.Keys && items.Keys == was.Keys + (plan.Keys - todo)
        invariant forall key :: key in items ==>
          items[key] == if key in plan && key !in todo then Reconciled(At(was, key), At(plan, key), revision).value else was[key]
      {
        var key :| key in todo;
        var planned := plan[key];
        if key !in items {
          items := items[key := Item(GroupOf(planned), Selected, planned.reason, None, revision)];
        } else {
          var item, before := items[key], items[key].group;
          item := item.(group := GroupOf(planned), source := revision, reason := planned.reason);
          if item.group == Required && item.state == Removed {
            item := item.(state := Selected, naReason := None);
          } else if item.group == Recommended && item.state == NotApplicable {
            item := item.(state := Removed, naReason := None);
          } else if before == Additional {
            item := item.(state := Selected, naReason := None);
          }
          items := items[key := item];
        }
        todo := todo - {key};
      }
    }

    method RemoveUnplanned(plan: P.Plan, revision: nat)
      requires plan.Keys <= items.Keys
      modifies this
      ensures items.Keys == old(items).Keys
      ensures forall key :: key in items ==>
                items[key] == if key in plan then old(items)[key] else Reconciled(At(old(items), key), None, revision).value
    {
      ghost var was := items;
      var todo := items.Keys - plan.Keys;
      while todo != {}
        invariant todo <= was.Keys - plan.Keys && items.Keys == was.Keys
        invariant forall key :: key in items ==>
          items[key] == if key in plan || key in todo then was[key] else Reconciled(At(was, key), None, revision).value
      {
        var key :| key in todo;
        if items[key].group != Additional {
          items := items[key := items[key].(state := Removed, naReason := None, source := revision)];
        }
        todo := todo - {key};
      }
    }

    method RemoveRecommendedForm(key: P.Key) returns (r: Result<Item, Error>)
      modifies this
      ensures match RemoveRecommended(old(items), key)
              case Ok(after) => items == after && key in after && r == Ok(after[key])
              case Err(e) => items == old(items) && r == Err(e)
    {
      if key !in items {
        return Err(ItemNotFound);
      }
      var item := items[key];
      if item.group != Recommended {
        return Err(NotAllowed);
      }
      item := item.(state := Removed, naReason := None);
      items := items[key := item];
      return Ok(item);
    }

    method MarkFormNotApplicable(key: P.Key, cleaned: string) returns (r: Result<Item, Error>)
      modifies this
      ensures match MarkNotApplicable(old(items), key, cleaned)
              case Ok(after) => items == after && key in after && r == Ok(after[key])
              case Err(e) => items == old(items) && r == Err(e)
    {
      if key !in items {
        return Err(ItemNotFound);
      }
      var item := items[key];
      if item.group != Required || cleaned == "" || |cleaned| > NA_LIMIT {
        return Err(NotAllowed);
      }
      item := item.(state := NotApplicable, naReason := Some(cleaned));
      items := items[key := item];
      return Ok(item);
    }

    method AddAdditionalForm(active: set<string>, code: string, revision: nat) returns (r: Result<Item, Error>)
      modifies this
      ensures match AddAdditional(old(items), active, code, revision)
              case Ok(after) => items == after && P.Key(code, None) in after && r == Ok(after[P.Key(code, None)])
              case Err(e) => items == old(items) && r == Err(e)
    {
      if code !in active {
        return Err(TemplateNotFound);
      }
      if code == P.OFFICER_FORM {
        return Err(NotAllowed);
      }
      var key := P.Key(code, None);
      if key !in items {
        items := items[key := Item(Additional, Selected, LIBRARY_REASON, None, revision)];
      } else if items[key].group != Required {
        items := items[key := items[key].(state := Selected, naReason := None, source := revision)];
      }
      return Ok(items[key]);
    }
  }

  // ----- Runs -----

  datatype Event =
    | Build(plan: P.Plan, revision: nat)
    | Remove(key: P.Key)
    | Dismiss(key: P.Key, cleaned: string)
    | Add(active: set<string>, code: string, revision: nat)

  function Or(r: Result<Items, Error>, items: Items): Items {
    if r.Ok? then r.value else items
  }

  function Step(items: Items, e: Event): Items {
    match e
    case Build(plan, revision) => Rebuilt(items, plan, revision)
    case Remove(key) => Or(RemoveRecommended(items, key), items)
    case Dismiss(key, cleaned) => Or(MarkNotApplicable(items, key, cleaned), items)
    case Add(active, code, revision) => Or(AddAdditional(items, active, code, revision), items)
  }

  function Run(items: Items, run: seq<Event>): Items
    decreases |run|
  {
    if run == [] then items else Step(Run(items, run[..|run| - 1]), run[|run| - 1])
  }

  /** "Not applicable" occurs only on a required form and with a reason; an additional form
      is selected and belongs to the whole incident. */
  predicate ItemOk(key: P.Key, i: Item) {
    && (i.state == NotApplicable ==> i.group == Required)
    && (i.state == NotApplicable <==> i.naReason.Some?)
    && (i.naReason.Some? ==> 1 <= |i.naReason.value| <= NA_LIMIT)
    && (i.group == Additional ==> i.state == Selected && key.staff.None? && key.code != P.OFFICER_FORM)
  }

  ghost predicate Inv(items: Items) {
    forall key :: key in items ==> ItemOk(key, items[key])
  }

  lemma {:induction false} RunInv(run: seq<Event>)
    ensures Inv(Run(map[], run))
  {
    if run != [] {
      RunInv(run[..|run| - 1]);
      StepInv(Run(map[], run[..|run| - 1]), run[|run| - 1]);
    }
  }

  lemma StepInv(items: Items, e: Event)
    requires Inv(items)
    ensures Inv(Step(items, e))
  {
    var after := Step(items, e);
    forall key | key in after ensures ItemOk(key, after[key]) {
      assert key in items ==> ItemOk(key, items[key]);
      if e.Build? {
        ReconciledOk(key, At(items, key), At(e.plan, key), e.revision);
      }
    }
  }

  lemma ReconciledOk(key: P.Key, item: Option<Item>, planned: Option<P.Planned>, revision: nat)
    requires item.Some? ==> ItemOk(key, item.value)
    ensures var after := Reconciled(item, planned, revision); after.Some? ==> ItemOk(key, after.value)
  {
  }

  /** No row is ever deleted. */
  lemma {:induction false} RowsStay(items: Items, run: seq<Event>)
    ensures items.Keys <= Run(items, run).Keys
    decreases |run|
  {
    if run != [] {
      RowsStay(items, run[..|run| - 1]);
    }
  }

  /** What a packet looks like after a rebuild: every required form is selected or
      dismissed with a reason, every recommended one is selected or removed, and every
      form that is neither planned nor added by an officer is removed. */
  ghost predicate Agrees(items: Items, plan: P.Plan) {
    && plan.Keys <= items.Keys
    && (forall key :: key in plan ==>
          && items[key].group == GroupOf(plan[key]) && items[key].reason == plan[key].reason
          && (items[key].group == Required ==> items[key].state != Removed)
          && (items[key].group == Recommended ==> items[key].state != NotApplicable))
    && (forall key :: key in items && key !in plan ==> items[key].group == Additional || items[key].state == Removed)
  }

  lemma AgreesAfter(items: Items, plan: P.Plan, revision: nat)
    requires Inv(items)
    ensures Agrees(Rebuilt(items, plan, revision), plan)
  {
    var after := Rebuilt(items, plan, revision);
    forall key | key in items.Keys + plan.Keys
      ensures key in plan ==>
                && after[key].group == GroupOf(plan[key]) && after[key].reason == plan[key].reason
                && (after[key].group == Required ==> after[key].state != Removed)
                && (after[key].group == Recommended ==> after[key].state != NotApplicable)
      ensures key !in plan ==> after[key].group == Additional || after[key].state == Removed
    {
      assert key in items ==> ItemOk(key, items[key]);
    }
  }

  lemma RebuildFollowsThePlan(run: seq<Event>, plan: P.Plan, revision: nat)
    ensures Agrees(Run(map[], run + [Build(plan, revision)]), plan)
  {
    var all := run + [Build(plan, revision)];
    assert all[..|all| - 1] == run;
    RunInv(run);
    AgreesAfter(Run(map[], run), plan, revision);
  }

  lemma ReconciledTwice(item: Option<Item>, planned: Option<P.Planned>, first: nat, second: nat)
    requires item.Some? || planned.Some?
    ensures var once := Reconciled(item, planned, first);
            once.Some? && Reconciled(once, planned, second).Some?
            && Reconciled(once, planned, second).value.(source := once.value.source) == once.value
            && Reconciled(once, planned, first) == once
  {
  }

  /** Rebuilding again for the same plan changes nothing at all. */
  lemma RebuildIsIdempotent(items: Items, plan: P.Plan, revision: nat)
    ensures Rebuilt(Rebuilt(items, plan, revision), plan, revision) == Rebuilt(items, plan, revision)
  {
    var once := Rebuilt(items, plan, revision);
    var twice := Rebuilt(once, plan, revision);
    assert twice.Keys == once.Keys;
    forall key | key in once ensures twice[key] == once[key] {
      assert key in items.Keys + plan.Keys;
      ReconciledTwice(At(items, key), At(plan, key), revision, revision);
    }
  }

  /** After any run, a rebuild for a saved revision gives each form the group that the
      checklist asks for it with: a required form is selected or dismissed with a reason, a
      recommended one selected or removed, and a form that nothing asks for is removed
      unless an officer added it. */
  lemma PacketFollowsTheSnapshot(
      run: seq<Event>, title: string, s: P.Snapshot, staff: seq<Uuid>, catalog: set<string>, names: seq<string>, revision: nat, key: P.Key)
    requires P.CallsOf(P.CaseOf(title, s, staff, catalog), names).Ok?
    ensures var plan := P.PlanOf(P.CallsOf(P.CaseOf(title, s, staff, catalog), names).value);
            var items := Run(map[], run + [Build(plan, revision)]);
            var required := P.SnapshotAsksFor(s, staff, names, key, P.Required);
            var recommended := P.SnapshotAsksFor(s, staff, names, key, P.Recommended);
            && (required ==> key in items && items[key].group == Required && items[key].state != Removed)
            && (recommended && !required ==> key in items && items[key].group == Recommended && items[key].state != NotApplicable)
            && (!required && !recommended && key in items ==> items[key].group == Additional || items[key].state == Removed)
  {
    var plan := P.PlanOf(P.CallsOf(P.CaseOf(title, s, staff, catalog), names).value);
    P.PlanFollowsTheSnapshot(title, s, staff, catalog, names, key);
    RebuildFollowsThePlan(run, plan, revision);
  }

  /** Rebuilding for a later revision with the same plan changes no group, state or reason. */
  lemma RebuildForALaterRevision(items: Items, plan: P.Plan, first: nat, second: nat)
    ensures var once, twice := Rebuilt(items, plan, first), Rebuilt(Rebuilt(items, plan, first), plan, second);
            && twice.Keys == once.Keys
            && forall key :: key in once ==> twice[key].(source := once[key].source) == once[key]
  {
    var once := Rebuilt(items, plan, first);
    var twice := Rebuilt(once, plan, second);
    assert twice.Keys == once.Keys;
    forall key | key in once ensures twice[key].(source := once[key].source) == once[key] {
      assert key in items.Keys + plan.Keys;
      ReconciledTwice(At(items, key), At(plan, key), first, second);
    }
  }

  /** An officer's decision outlives a rebuild exactly as long as the plan supports it: a
      dismissal while the form stays required, a removal unless it becomes required. */
  lemma DecisionsSurviveIff(items: Items, plan: P.Plan, revision: nat, key: P.Key)
    requires key in items && ItemOk(key, items[key])
    ensures var after := Rebuilt(items, plan, revision);
            && (items[key].state == NotApplicable ==>
                  (after[key].state == NotApplicable <==> key in plan && plan[key].group == P.Required)
                  && (after[key].state == NotApplicable ==> after[key].naReason == items[key].naReason)
                  && (after[key].state != NotApplicable ==> after[key].state == Removed))
            && (items[key].state == Removed ==>
                  (after[key].state == Removed <==> !(key in plan && plan[key].group == P.Required)))
  {
  }

  /** A form the plan drops is selected again as soon as the plan requires it again, even
      though an officer had dismissed it. */
  lemma DismissalsAreForgotten(items: Items, without: P.Plan, plan: P.Plan, revision: nat, key: P.Key)
    requires key in items && ItemOk(key, items[key]) && items[key].state == NotApplicable
    requires !(key in without && without[key].group == P.Required) && key in plan && plan[key].group == P.Required
    ensures var after := Rebuilt(Rebuilt(items, without, revision), plan, revision);
            after[key].state == Selected && after[key].naReason == None
  {
    assert key in items.Keys + without.Keys;
  }

  // ----- What officers decide -----

  /** A recommended form, and no other, can be removed; nothing else changes. */
  lemma RemovesIff(items: Items, key: P.Key)
    ensures RemoveRecommended(items, key).Ok? <==> key in items && items[key].group == Recommended
    ensures RemoveRecommended(items, key).Ok? ==>
              var after := RemoveRecommended(items, key).value;
              && after.Keys == items.Keys
              && after[key] == Item(Recommended, Removed, items[key].reason, None, items[key].source)
              && forall other :: other in items && other != key ==> after[other] == items[other]
  {
  }

  /** A required form, and no other, can be dismissed, with a reason of 1 to 500 characters;
      nothing else changes. */
  lemma DismissesIff(items: Items, key: P.Key, cleaned: string)
    ensures MarkNotApplicable(items, key, cleaned).Ok? <==> key in items && items[key].group == Required && 1 <= |cleaned| <= 500
    ensures MarkNotApplicable(items, key, cleaned).Ok? ==>
              var after := MarkNotApplicable(items, key, cleaned).value;
              && after.Keys == items.Keys
              && after[key] == Item(Required, NotApplicable, items[key].reason, Some(cleaned), items[key].source)
              && forall other :: other in items && other != key ==> after[other] == items[other]
  {
  }

  /** A removal outlasts any number of rebuilds that do not require the form, and a dismissal
      with its reason any number that do. */
  lemma {:induction false} DecisionsOutlastRebuilds(items: Items, run: seq<Event>, key: P.Key)
    requires key in items && forall i :: 0 <= i < |run| ==> run[i].Build?
    ensures key in Run(items, run)
    ensures items[key].state == Removed && items[key].group != Additional
            && (forall i :: 0 <= i < |run| ==> !(key in run[i].plan && run[i].plan[key].group == P.Required)) ==>
              Run(items, run)[key].state == Removed && Run(items, run)[key].group != Additional
    ensures items[key].state == NotApplicable && items[key].group == Required
            && (forall i :: 0 <= i < |run| ==> key in run[i].plan && run[i].plan[key].group == P.Required) ==>
              && Run(items, run)[key].state == NotApplicable && Run(items, run)[key].group == Required
              && Run(items, run)[key].naReason == items[key].naReason
    decreases |run|
  {
    if run != [] {
      DecisionsOutlastRebuilds(items, run[..|run| - 1], key);
    }
  }

  /** A rebuild stamps every planned form, and every form it removes, with its revision. */
  lemma RebuildsStampRevisions(items: Items, plan: P.Plan, revision: nat, key: P.Key)
    requires key in items.Keys + plan.Keys
    ensures var after := Rebuilt(items, plan, revision)[key];
            && (key in plan ==> after.source == revision)
            && (key !in plan && items[key].group != Additional ==> after.source == revision && after.reason == items[key].reason)
            && (key !in plan && items[key].group == Additional ==> after == items[key])
  {
  }

  // ----- Adding a form from the library -----

  /** Any active form but the officers' own can be added; a new row is the officer's own. */
  lemma AddsIff(items: Items, active: set<string>, code: string, revision: nat)
    ensures AddAdditional(items, active, code, revision).Ok? <==> code in active && code != "form_005_409"
    ensures AddAdditional(items, active, code, revision).Ok? ==>
              var after := AddAdditional(items, active, code, revision).value;
              && after.Keys == items.Keys + {P.Key(code, None)}
              && (P.Key(code, None) !in items ==>
                    after[P.Key(code, None)]
                    == Item(Additional, Selected, "Added by an authorized officer from the Forms Library.", None, revision))
              && (P.Key(code, None) in items ==> after[P.Key(code, None)].group == items[P.Key(code, None)].group)
              && forall other :: other in items && other != P.Key(code, None) ==> after[other] == items[other]
  {
  }

  /** Adding a form leaves it selected exactly when it was not a required form that is
      dismissed or removed; those it silently leaves as they are. */
  lemma AddSelectsIff(items: Items, active: set<string>, code: string, revision: nat)
    requires AddAdditional(items, active, code, revision).Ok?
    ensures var key := P.Key(code, None);
            var after := AddAdditional(items, active, code, revision).value;
            && key in after
            && (after[key].state == Selected <==> !(key in items && items[key].group == Required && items[key].state != Selected))
            && (after[key].state != Selected ==> after == items)
  {
  }

  /** A row that was required, fell out of the plan and is asked for by an officer: the
      call succeeds and the form stays removed. */
  lemma AddCanDoNothing(code: string, plan: P.Plan)
    requires code != P.OFFICER_FORM
    requires plan == map[P.Key(code, None) := P.Planned(P.Required, "Required")]
    ensures var items := Run(map[], [Build(plan, 1), Build(map[], 2)]);
            && AddAdditional(items, {code}, code, 2) == Ok(items)
            && P.Key(code, None) in items && items[P.Key(code, None)].state == Removed
  {
    var run := [Build(plan, 1), Build(map[], 2)];
    assert run[..1] == [Build(plan, 1)] && run[..1][..0] == [];
    assert Run(map[], run[..1]) == Rebuilt(map[], plan, 1);
    assert Run(map[], run) == Rebuilt(Rebuilt(map[], plan, 1), map[], 2);
  }

  /** A form an officer added survives a rebuild exactly when the plan has it or its row was
      the officer's own: a recommendation that the plan had dropped is removed again. */
  lemma AddedFormSurvivesIff(items: Items, active: set<string>, code: string, plan: P.Plan, revision: nat)
    requires AddAdditional(items, active, code, revision).Ok?
    requires AddAdditional(items, active, code, revision).value[P.Key(code, None)].state == Selected
    ensures var key := P.Key(code, None);
            var after := Rebuilt(AddAdditional(items, active, code, revision).value, plan, revision);
            after[key].state == Selected <==> key in plan || key !in items || items[key].group == Additional
  {
    assert P.Key(code, None) in AddAdditional(items, active, code, revision).value;
  }

  /** And once the plan has had an officer's form, the plan owns it: it stays selected
      exactly as long as the plan keeps it. */
  lemma AddedFormIsTakenOverIff(items: Items, first: P.Plan, second: P.Plan, revision: nat, key: P.Key)
    requires key in items && ItemOk(key, items[key]) && items[key].group == Additional
    ensures var after := Rebuilt(Rebuilt(items, first, revision), second, revision);
            after[key].state == Selected <==> key !in first || key in second
  {
    assert key in items.Keys + first.Keys;
  }
}
