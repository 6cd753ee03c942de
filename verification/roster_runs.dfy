/** Any number of processes updating one roster object at the same time. */
module RosterRuns {
  import opened Base
  import opened Roster

  /** A call of `update` between its steps.  Positions count the successful writes. */
  datatype Phase =
    | ToFetch(attempt: nat)
    | ToWrite(attempt: nat, doc: Document, generation: nat, position: nat)
    | Wrote(reply: Reply, at: nat)
    | Declined(at: nat, ended: nat)
    | Lost

  datatype Call = Call(m: Mutation, began: nat, phase: Phase)

  datatype Write = Write(call: Uuid, m: Mutation, generation: nat)

  datatype World = World(seed: Document, generation: nat, content: Document, history: seq<Write>, calls: map<Uuid, Call>)

  datatype Event =
    | Begin(id: Uuid, m: Mutation)
    | Fetch(id: Uuid)
    /** Mutate and write conditionally; the bucket skips `gap` generation numbers. */
    | Save(id: Uuid, gap: nat)

  function Initial(seed: Document): World {
    World(seed, 0, seed, [], map[])
  }

  function Put(w: World, id: Uuid, p: Phase): World
    requires id in w.calls
  {
    w.(calls := w.calls[id := w.calls[id].(phase := p)])
  }

  function Step(f: Apply, w: World, e: Event): World {
    match e
    case Begin(id, m) =>
      if id in w.calls then w else w.(calls := w.calls[id := Call(m, |w.history|, ToFetch(1))])
    case Fetch(id) =>
      if id in w.calls && w.calls[id].phase.ToFetch?
      then Put(w, id, ToWrite(w.calls[id].phase.attempt, w.content, w.generation, |w.history|))
      else w
    case Save(id, gap) =>
      if id in w.calls && w.calls[id].phase.ToWrite? then Saved(f, w, id, gap) else w
  }

  function Saved(f: Apply, w: World, id: Uuid, gap: nat): World
    requires id in w.calls && w.calls[id].phase.ToWrite?
  {
    var c := w.calls[id];
    var change := f(c.m, c.phase.doc);
    if change.None? then Put(w, id, Declined(c.phase.position, |w.history|))
    else if c.phase.generation == w.generation then
      var next := w.generation + 1 + gap;
      Put(w.(generation := next, content := change.value.doc, history := w.history + [Write(id, c.m, next)]),
          id, Wrote(change.value.reply, |w.history|))
    else Put(w, id, if c.phase.attempt == ATTEMPTS then Lost else ToFetch(c.phase.attempt + 1))
  }

  function Run(f: Apply, w: World, run: seq<Event>): World
    decreases |run|
  {
    if run == [] then w else Step(f, Run(f, w, run[..|run| - 1]), run[|run| - 1])
  }

  /** The documents of the successful writes applied one after another. */
  function Replay(f: Apply, seed: Document, history: seq<Write>): Document
    decreases |history|
  {
    if history == [] then seed
    else
      var doc := Replay(f, seed, history[..|history| - 1]);
      var change := f(history[|history| - 1].m, doc);
      if change.Some? then change.value.doc else doc
  }

  function GenerationAt(history: seq<Write>, k: nat): nat
    requires k <= |history|
  {
    if k == 0 then 0 else history[k - 1].generation
  }

  function At(f: Apply, w: World, k: nat): Document
    requires k <= |w.history|
  {
    Replay(f, w.seed, w.history[..k])
  }

  predicate PhaseOk(f: Apply, w: World, id: Uuid)
    requires id in w.calls
  {
    var c := w.calls[id];
    match c.phase
    case ToFetch(a) => 1 <= a <= ATTEMPTS && c.began + a - 1 <= |w.history|
    case ToWrite(a, doc, g, k) =>
      && 1 <= a <= ATTEMPTS && c.began + a - 1 <= k <= |w.history|
      && doc == At(f, w, k) && g == GenerationAt(w.history, k)
    case Wrote(reply, at) =>
      && c.began <= at < |w.history| && w.history[at].call == id && w.history[at].m == c.m
      && f(c.m, At(f, w, at)) == Some(Change(At(f, w, at + 1), reply))
    case Declined(at, ended) => c.began <= at <= ended <= |w.history| && f(c.m, At(f, w, at)) == None
    case Lost => c.began + ATTEMPTS <= |w.history|
  }

  predicate WriteOk(w: World, k: nat)
    requires k < |w.history|
  {
    var x := w.history[k];
    && GenerationAt(w.history, k) < x.generation
    && x.call in w.calls && w.calls[x.call].phase.Wrote? && w.calls[x.call].phase.at == k
  }

  ghost predicate Inv(f: Apply, w: World) {
    && w.content == Replay(f, w.seed, w.history)
    && w.generation == GenerationAt(w.history, |w.history|)
    && (forall id :: id in w.calls ==> PhaseOk(f, w, id))
    && (forall k :: 0 <= k < |w.history| ==> WriteOk(w, k))
  }

  lemma {:induction false} GenerationsGrow(w: World, k: nat)
    requires k <= |w.history|
    requires forall i :: 0 <= i < |w.history| ==> WriteOk(w, i)
    ensures k < |w.history| ==> GenerationAt(w.history, k) < GenerationAt(w.history, |w.history|)
    decreases |w.history| - k
  {
    if k < |w.history| {
      assert WriteOk(w, k);
      GenerationsGrow(w, k + 1);
    }
  }

  lemma {:induction false} StepInv(f: Apply, w: World, e: Event)
    requires Inv(f, w)
    ensures Inv(f, Step(f, w, e))
  {
    var after := Step(f, w, e);
    assert w.history[..|w.history|] == w.history;
    if e.Save? && e.id in w.calls && w.calls[e.id].phase.ToWrite? {
      SaveInv(f, w, e.id, e.gap);
    } else {
      KeepsAt(f, w, after);
      forall id | id in after.calls ensures PhaseOk(f, after, id) {
        if id in w.calls {
          assert PhaseOk(f, w, id);
          if after.calls[id] == w.calls[id] {
            OtherPhase(f, w, after, id);
          }
        }
      }
      forall k | 0 <= k < |after.history| ensures WriteOk(after, k) {
        assert WriteOk(w, k);
      }
    }
  }

  lemma SaveInv(f: Apply, w: World, id: Uuid, gap: nat)
    requires Inv(f, w) && id in w.calls && w.calls[id].phase.ToWrite?
    ensures Inv(f, Saved(f, w, id, gap))
  {
    var after := Saved(f, w, id, gap);
    assert PhaseOk(f, w, id);
    GenerationsGrow(w, w.calls[id].phase.position);
    assert w.history[..|w.history|] == w.history;
    assert after.history[..|w.history|] == w.history;
    KeepsAt(f, w, after);
    OwnPhase(f, w, id, gap);
    forall other | other in after.calls ensures PhaseOk(f, after, other) {
      if other != id {
        assert PhaseOk(f, w, other);
        OtherPhase(f, w, after, other);
      }
    }
    forall k | 0 <= k < |after.history| ensures WriteOk(after, k) {
      if k < |w.history| {
        assert WriteOk(w, k);
      }
    }
  }

  lemma OtherPhase(f: Apply, w: World, after: World, id: Uuid)
    requires id in w.calls && PhaseOk(f, w, id)
    requires id in after.calls && after.calls[id] == w.calls[id]
    requires |w.history| <= |after.history| && after.history[..|w.history|] == w.history
    requires forall k :: 0 <= k <= |w.history| ==> At(f, after, k) == At(f, w, k) && GenerationAt(after.history, k) == GenerationAt(w.history, k)
    ensures PhaseOk(f, after, id)
  {
    assert forall k :: 0 <= k < |w.history| ==> after.history[k] == after.history[..|w.history|][k];
  }

  lemma OwnPhase(f: Apply, w: World, id: Uuid, gap: nat)
    requires id in w.calls && w.calls[id].phase.ToWrite? && PhaseOk(f, w, id)
    requires w.content == Replay(f, w.seed, w.history)
    requires var k := w.calls[id].phase.position;
             k < |w.history| ==> GenerationAt(w.history, k) < w.generation
    requires w.generation == GenerationAt(w.history, |w.history|)
    ensures PhaseOk(f, Saved(f, w, id, gap), id)
    ensures var after := Saved(f, w, id, gap); after.content == Replay(f, after.seed, after.history)
  {
    var after := Saved(f, w, id, gap);
    assert w.history[..|w.history|] == w.history;
    assert after.history[..|w.history|] == w.history;
    assert after.history[..|after.history|] == after.history;
    KeepsAt(f, w, after);
  }

  lemma KeepsAt(f: Apply, w: World, after: World)
    requires |w.history| <= |after.history| && after.history[..|w.history|] == w.history && after.seed == w.seed
    ensures forall k :: 0 <= k <= |w.history| ==> At(f, after, k) == At(f, w, k) && GenerationAt(after.history, k) == GenerationAt(w.history, k)
  {
    forall k | 0 <= k <= |w.history| ensures At(f, after, k) == At(f, w, k) && GenerationAt(after.history, k) == GenerationAt(w.history, k) {
      assert after.history[..k] == w.history[..k];
      assert k > 0 ==> w.history[k - 1] == after.history[..|w.history|][k - 1];
    }
  }

  lemma {:induction false} RunInv(f: Apply, seed: Document, run: seq<Event>)
    ensures Inv(f, Run(f, Initial(seed), run)) && Run(f, Initial(seed), run).seed == seed
  {
    if run != [] {
      RunInv(f, seed, run[..|run| - 1]);
      StepInv(f, Run(f, Initial(seed), run[..|run| - 1]), run[|run| - 1]);
    }
  }

  /** However the processes interleave, the object holds the successful changes applied one
      after another, in the order of their generations. */
  lemma NoUpdateIsLost(f: Apply, seed: Document, run: seq<Event>)
    ensures var w := Run(f, Initial(seed), run);
            && w.content == Replay(f, seed, w.history)
            && forall i, j :: 0 <= i < j < |w.history| ==>
                 w.history[i].generation < w.history[j].generation && w.history[i].call != w.history[j].call
  {
    var w := Run(f, Initial(seed), run);
    RunInv(f, seed, run);
    forall i, j | 0 <= i < j < |w.history|
      ensures w.history[i].generation < w.history[j].generation && w.history[i].call != w.history[j].call
    {
      assert WriteOk(w, i) && WriteOk(w, j);
      EarlierIsSmaller(w, i, j);
    }
  }

  lemma {:induction false} EarlierIsSmaller(w: World, i: nat, j: nat)
    requires i < j < |w.history|
    requires forall k :: 0 <= k < |w.history| ==> WriteOk(w, k)
    ensures w.history[i].generation < w.history[j].generation
    decreases j
  {
    assert WriteOk(w, j);
    if i < j - 1 {
      EarlierIsSmaller(w, i, j - 1);
    }
  }

  /** Each call takes effect at one moment between its start and its end.  A call that
      answers wrote exactly once and its answer is right for the document it replaced; a
      call that declines had nothing to change in a document that was current during the
      call; a call that gives up did so because five other writes came in. */
  lemma EveryCallTakesEffectAtOnce(f: Apply, seed: Document, run: seq<Event>, id: Uuid)
    requires id in Run(f, Initial(seed), run).calls
    ensures var w := Run(f, Initial(seed), run);
            var c := w.calls[id];
            && (c.phase.Wrote? ==>
                  && c.began <= c.phase.at < |w.history| && w.history[c.phase.at].call == id
                  && f(c.m, At(f, w, c.phase.at)) == Some(Change(At(f, w, c.phase.at + 1), c.phase.reply)))
            && (c.phase.Declined? ==>
                  && c.began <= c.phase.at <= c.phase.ended <= |w.history|
                  && f(c.m, At(f, w, c.phase.at)) == None)
            && (!c.phase.Wrote? ==> forall k :: 0 <= k < |w.history| ==> w.history[k].call != id)
            && (c.phase.Lost? ==> c.began + 5 <= |w.history|)
  {
    var w := Run(f, Initial(seed), run);
    RunInv(f, seed, run);
    assert PhaseOk(f, w, id);
    forall k | 0 <= k < |w.history| && w.history[k].call == id
      ensures w.calls[id].phase.Wrote?
    {
      assert WriteOk(w, k);
    }
  }

  /** A write that lost to a rival is tried again, with a fresh fetch, exactly unless it was
      the fifth; a write that met no rival lands. */
  lemma FifthLossGivesUp(f: Apply, w: World, id: Uuid, gap: nat)
    requires Inv(f, w) && id in w.calls && w.calls[id].phase.ToWrite?
    requires f(w.calls[id].m, w.calls[id].phase.doc).Some?
    ensures var p, after := w.calls[id].phase, Step(f, w, Save(id, gap)).calls[id].phase;
            && 1 <= p.attempt <= 5
            && (after.Wrote? <==> p.generation == w.generation)
            && (after.Lost? <==> p.generation != w.generation && p.attempt == 5)
            && (after == ToFetch(p.attempt + 1) <==> p.generation != w.generation && p.attempt < 5)
  {
    assert PhaseOk(f, w, id);
  }

  // ----- What calls achieve -----

  /** A call to add a person from a report that wrote answered so and appended exactly that
      person, to a document in which nobody resembled it; one that declined did so on a
      document, current during the call, in which somebody had the number or had both the
      last and the first name. */
  lemma ReportAdditionsTakeEffect(t: Text, seed: Document, run: seq<Event>, id: Uuid)
    requires id in Run(Mutator(t), Initial(seed), run).calls && Run(Mutator(t), Initial(seed), run).calls[id].m.AddFromReport?
    ensures var w := Run(Mutator(t), Initial(seed), run);
            var c, p := w.calls[id], w.calls[id].m.person;
            && (c.phase.Wrote? ==>
                  && c.began <= c.phase.at < |w.history| && c.phase.reply == Added
                  && (forall i :: 0 <= i < |At(Mutator(t), w, c.phase.at).staff| ==> !Resembles(t, At(Mutator(t), w, c.phase.at).staff[i], p))
                  && At(Mutator(t), w, c.phase.at + 1)
                     == Document(At(Mutator(t), w, c.phase.at).shifts, At(Mutator(t), w, c.phase.at).staff + [p]))
            && (c.phase.Declined? ==>
                  && c.began <= c.phase.at <= c.phase.ended <= |w.history|
                  && exists i :: 0 <= i < |At(Mutator(t), w, c.phase.at).staff| && Resembles(t, At(Mutator(t), w, c.phase.at).staff[i], p))
  {
    var w := Run(Mutator(t), Initial(seed), run);
    EveryCallTakesEffectAtOnce(Mutator(t), seed, run, id);
    var c := w.calls[id];
    if c.phase.Wrote? {
      ReportAdditions(t, c.m.person, At(Mutator(t), w, c.phase.at));
    } else if c.phase.Declined? {
      ReportAdditions(t, c.m.person, At(Mutator(t), w, c.phase.at));
    }
  }

  /** And conversely: when the call's attempt finds nobody like that in the document it
      fetched, it does not decline, and it writes unless a rival wrote first; when it finds
      somebody, it declines. */
  lemma ReportAdditionsDecide(t: Text, w: World, id: Uuid, gap: nat)
    requires id in w.calls && w.calls[id].m.AddFromReport? && w.calls[id].phase.ToWrite?
    ensures var c, after := w.calls[id], Step(Mutator(t), w, Save(id, gap));
            var found := exists i :: 0 <= i < |c.phase.doc.staff| && Resembles(t, c.phase.doc.staff[i], c.m.person);
            && id in after.calls
            && (after.calls[id].phase.Declined? <==> found)
            && (after.calls[id].phase.Wrote? <==> !found && c.phase.generation == w.generation)
            && (after.calls[id].phase.Wrote? ==> after.content == Document(c.phase.doc.shifts, c.phase.doc.staff + [c.m.person]))
            && (!after.calls[id].phase.Wrote? ==> after.content == w.content)
  {
    ReportAdditions(t, w.calls[id].m.person, w.calls[id].phase.doc);
  }

  // ----- Staff stay unique -----

  lemma {:induction false} ReplayKeepsNumbers(t: Text, seed: Document, history: seq<Write>)
    requires FoldsAgree(t) && NumbersUnique(t, seed.staff)
    requires forall k :: 0 <= k < |history| ==> Stripped(t, history[k].m)
    ensures NumbersUnique(t, Replay(Mutator(t), seed, history).staff)
    decreases |history|
  {
    if history != [] {
      ReplayKeepsNumbers(t, seed, history[..|history| - 1]);
      NumbersStayUnique(t, history[|history| - 1].m, Replay(Mutator(t), seed, history[..|history| - 1]));
    }
  }

  lemma {:induction false} ReplayKeepsNames(t: Text, seed: Document, history: seq<Write>)
    requires NamesUnique(t, seed.staff)
    requires forall k :: 0 <= k < |history| ==> history[k].m.AddFromReport? || history[k].m.Remove?
    ensures NamesUnique(t, Replay(Mutator(t), seed, history).staff)
    decreases |history|
  {
    if history != [] {
      ReplayKeepsNames(t, seed, history[..|history| - 1]);
      NamesStayUnique(t, history[|history| - 1].m, Replay(Mutator(t), seed, history[..|history| - 1]));
    }
  }

  /** At every moment of every run the names are unique exactly when every write met its
      mutation's condition. */
  lemma NamesStayUniqueIff(t: Text, seed: Document, run: seq<Event>)
    requires NamesUnique(t, seed.staff)
    ensures var w := Run(Mutator(t), Initial(seed), run);
            AlwaysUnique(t, seed, w.history) <==> AlwaysKept(t, seed, w.history)
    ensures var w := Run(Mutator(t), Initial(seed), run);
            AlwaysKept(t, seed, w.history) ==> NamesUnique(t, w.content.staff)
  {
    var w := Run(Mutator(t), Initial(seed), run);
    RunInv(Mutator(t), seed, run);
    UniqueIffKept(t, seed, w.history);
    assert w.history[..|w.history|] == w.history;
    if AlwaysUnique(t, seed, w.history) {
      assert UniqueAt(t, seed, w.history, |w.history|);
    }
  }

  /** Before any write, after one write, and so on. */
  ghost predicate UniqueAt(t: Text, seed: Document, history: seq<Write>, k: nat)
    requires k <= |history|
  {
    NamesUnique(t, Replay(Mutator(t), seed, history[..k]).staff)
  }

  predicate KeptAt(t: Text, seed: Document, history: seq<Write>, k: nat)
    requires k < |history|
  {
    KeepsNames(t, history[k].m, Replay(Mutator(t), seed, history[..k]))
  }

  ghost predicate AlwaysUnique(t: Text, seed: Document, history: seq<Write>) {
    forall k :: 0 <= k <= |history| ==> UniqueAt(t, seed, history, k)
  }

  ghost predicate AlwaysKept(t: Text, seed: Document, history: seq<Write>) {
    forall k :: 0 <= k < |history| ==> KeptAt(t, seed, history, k)
  }

  lemma UniqueIffKept(t: Text, seed: Document, history: seq<Write>)
    requires NamesUnique(t, seed.staff)
    ensures AlwaysUnique(t, seed, history) <==> AlwaysKept(t, seed, history)
  {
    assert history[..0] == [];
    ghost var good := seq(|history| + 1, k requires 0 <= k <= |history| => UniqueAt(t, seed, history, k));
    ghost var kept := seq(|history|, k requires 0 <= k < |history| => KeptAt(t, seed, history, k));
    forall k | 0 <= k < |kept| && good[k] ensures good[k + 1] <==> kept[k] {
      UniqueAfterIff(t, seed, history, k);
    }
    StepwiseIff(good, kept);
    assert AlwaysUnique(t, seed, history) <==> AllTrue(good) by {
      assert forall k :: 0 <= k < |good| ==> (good[k] <==> UniqueAt(t, seed, history, k));
    }
    assert AlwaysKept(t, seed, history) <==> AllTrue(kept) by {
      assert forall k :: 0 <= k < |kept| ==> (kept[k] <==> KeptAt(t, seed, history, k));
    }
  }

  predicate AllTrue(s: seq<bool>) {
    forall k :: 0 <= k < |s| ==> s[k]
  }

  /** What holds at first and survives each step exactly under its condition holds throughout
      exactly when every condition does. */
  lemma {:induction false} StepwiseIff(good: seq<bool>, kept: seq<bool>)
    requires |good| == |kept| + 1 && good[0]
    requires forall k :: 0 <= k < |kept| && good[k] ==> (good[k + 1] <==> kept[k])
    ensures AllTrue(good) <==> AllTrue(kept)
    decreases |kept|
  {
    var n := |kept|;
    if n > 0 {
      StepwiseIff(good[..n], kept[..n - 1]);
      assert AllTrue(good) <==> AllTrue(good[..n]) && good[n];
      assert AllTrue(kept) <==> AllTrue(kept[..n - 1]) && kept[n - 1];
      assert AllTrue(good[..n]) ==> good[..n][n - 1];
    }
  }

  lemma UniqueAfterIff(t: Text, seed: Document, history: seq<Write>, k: nat)
    requires k < |history| && UniqueAt(t, seed, history, k)
    ensures UniqueAt(t, seed, history, k + 1) <==> KeptAt(t, seed, history, k)
  {
    assert history[..k + 1][..k] == history[..k];
    Roster.NamesStayUniqueIff(t, history[k].m, Replay(Mutator(t), seed, history[..k]));
  }

  /** In every run the employee numbers stay unique, and in every run of additions from
      reports and of removals the names do too. */
  lemma StaffStayUnique(t: Text, seed: Document, run: seq<Event>)
    requires FoldsAgree(t) && NumbersUnique(t, seed.staff)
    requires forall i :: 0 <= i < |run| && run[i].Begin? ==> Stripped(t, run[i].m)
    ensures var w := Run(Mutator(t), Initial(seed), run);
            && NumbersUnique(t, w.content.staff)
            && (NamesUnique(t, seed.staff)
                && (forall i :: 0 <= i < |run| && run[i].Begin? ==> run[i].m.AddFromReport? || run[i].m.Remove?)
                ==> NamesUnique(t, w.content.staff))
  {
    var w := Run(Mutator(t), Initial(seed), run);
    RunInv(Mutator(t), seed, run);
    forall k | 0 <= k < |w.history| ensures exists i :: 0 <= i < |run| && run[i].Begin? && run[i].m == w.history[k].m {
      assert WriteOk(w, k) && PhaseOk(Mutator(t), w, w.history[k].call);
      CallsWereRequested(Mutator(t), seed, run, w.history[k].call);
    }
    ReplayKeepsNumbers(t, seed, w.history);
    if NamesUnique(t, seed.staff)
       && (forall i :: 0 <= i < |run| && run[i].Begin? ==> run[i].m.AddFromReport? || run[i].m.Remove?) {
      ReplayKeepsNames(t, seed, w.history);
    }
  }

  lemma {:induction false} CallsWereRequested(f: Apply, seed: Document, run: seq<Event>, id: Uuid)
    requires id in Run(f, Initial(seed), run).calls
    ensures exists i :: 0 <= i < |run| && run[i].Begin? && run[i].m == Run(f, Initial(seed), run).calls[id].m
  {
    var front, e := run[..|run| - 1], run[|run| - 1];
    if id in Run(f, Initial(seed), front).calls {
      CallsWereRequested(f, seed, front, id);
    } else {
      assert run[|run| - 1].Begin?;
    }
  }

  /** A person added by a successful call is on the roster at the end of the run, unless
      a later call removed or edited somebody. */
  lemma NoAddIsLost(t: Text, seed: Document, run: seq<Event>, id: Uuid)
    requires var w := Run(Mutator(t), Initial(seed), run);
             && id in w.calls && w.calls[id].phase.Wrote? && w.calls[id].phase.reply == Added
             && forall k :: w.calls[id].phase.at < k < |w.history| ==> w.history[k].m.AddFromReport? || w.history[k].m.AddByAdmin?
    ensures var w := Run(Mutator(t), Initial(seed), run);
            (w.calls[id].m.AddFromReport? || w.calls[id].m.AddByAdmin?) && w.calls[id].m.person in w.content.staff
  {
    var w := Run(Mutator(t), Initial(seed), run);
    RunInv(Mutator(t), seed, run);
    assert PhaseOk(Mutator(t), w, id);
    var at := w.calls[id].phase.at;
    AdditionsKeep(t, w.seed, w.history, at + 1, w.calls[id].m.person);
  }

  lemma {:induction false} AdditionsKeep(t: Text, seed: Document, history: seq<Write>, from: nat, p: Person)
    requires from <= |history| && p in Replay(Mutator(t), seed, history[..from]).staff
    requires forall k :: from <= k < |history| ==> history[k].m.AddFromReport? || history[k].m.AddByAdmin?
    ensures p in Replay(Mutator(t), seed, history).staff
    decreases |history|
  {
    if from < |history| {
      assert history[..|history| - 1][..from] == history[..from];
      AdditionsKeep(t, seed, history[..|history| - 1], from, p);
    } else {
      assert history[..from] == history;
    }
  }
}
