/** Grounding an answer that carries no markers by the words it shares with the passages. */
module Inference {
  import opened Base
  import opened Citations

  /** The content words of a text, and of each of its sentences. */
  datatype Tokens = Tokens(words: string -> set<string>, sentences: string -> seq<set<string>>)

  const MIN_SENTENCE_WORDS := 4

  predicate Below(s: seq<nat>, n: nat) {
    forall i :: 0 <= i < |s| ==> s[i] < n
  }

  /** The fraction of shared words reaches three fifths. */
  predicate Supports(shared: nat, of: nat) {
    5 * shared >= 3 * of
  }

  function Shared(sentence: set<string>, passages: seq<set<string>>, i: nat): nat
    requires i < |passages|
  {
    |sentence * passages[i]|
  }

  /** The first passage that shares the most words with the sentence, if any is shared. */
  function Best(sentence: set<string>, passages: seq<set<string>>): (r: Option<nat>)
    ensures r.Some? ==> r.value < |passages|
  {
    if passages == [] then None
    else
      var front, last := Best(sentence, passages[..|passages| - 1]), |passages| - 1;
      if Shared(sentence, passages, last) > (if front.Some? then Shared(sentence, passages, front.value) else 0)
      then Some(last)
      else front
  }

  lemma {:induction false} BestIsFirstMaximum(sentence: set<string>, passages: seq<set<string>>)
    ensures match Best(sentence, passages)
            case None => forall i :: 0 <= i < |passages| ==> Shared(sentence, passages, i) == 0
            case Some(b) =>
              && b < |passages| && Shared(sentence, passages, b) > 0
              && (forall i :: 0 <= i < |passages| ==> Shared(sentence, passages, i) <= Shared(sentence, passages, b))
              && (forall i :: 0 <= i < b ==> Shared(sentence, passages, i) < Shared(sentence, passages, b))
  {
    if passages != [] {
      var front := passages[..|passages| - 1];
      BestIsFirstMaximum(sentence, front);
      assert forall i :: 0 <= i < |front| ==> Shared(sentence, passages, i) == Shared(sentence, front, i);
    }
  }

  /** The passage a sentence is attributed to. */
  function Choice(sentence: set<string>, passages: seq<set<string>>): (r: Option<nat>)
    ensures r.Some? ==> r.value < |passages|
  {
    var best := Best(sentence, passages);
    if best.Some? && Supports(Shared(sentence, passages, best.value), |sentence|) then best else None
  }

  function Substantive(sentences: seq<set<string>>): seq<set<string>> {
    if sentences == [] then []
    else
      var front, last := Substantive(sentences[..|sentences| - 1]), sentences[|sentences| - 1];
      if |last| >= MIN_SENTENCE_WORDS then front + [last] else front
  }

  /** The attributed passages in first-use order. */
  function Used(sentences: seq<set<string>>, passages: seq<set<string>>): (r: seq<nat>)
    ensures Below(r, |passages|)
    ensures Distinct(r)
    decreases |sentences|
  {
    if sentences == [] then []
    else
      var front, c := Used(sentences[..|sentences| - 1], passages), Choice(sentences[|sentences| - 1], passages);
      if c.Some? && c.value !in front then front + [c.value] else front
  }

  function Supported(sentences: seq<set<string>>, passages: seq<set<string>>): nat
    decreases |sentences|
  {
    if sentences == [] then 0
    else Supported(sentences[..|sentences| - 1], passages)
         + if Choice(sentences[|sentences| - 1], passages).Some? then 1 else 0
  }

  function WordsOf(t: Tokens, contexts: seq<Passage>): (r: seq<set<string>>)
    ensures |r| == |contexts|
  {
    seq(|contexts|, i requires 0 <= i < |contexts| => t.words(contexts[i].text))
  }

  function CiteUsed(used: seq<nat>, contexts: seq<Passage>): (cs: seq<Citation>)
    requires Below(used, |contexts|)
    ensures |cs| == |used|
  {
    seq(|used|, i requires 0 <= i < |used| => Citation(i + 1, contexts[used[i]]))
  }

  datatype Inferred = Inferred(citations: seq<Citation>, grounded: bool)

  const NOTHING := Inferred([], false)

  function Infer(t: Tokens, answer: string, contexts: seq<Passage>): Inferred {
    var ss, ps := Substantive(t.sentences(answer)), WordsOf(t, contexts);
    if contexts == [] || ss == [] || 2 * Supported(ss, ps) < |ss| then NOTHING
    else Inferred(CiteUsed(Used(ss, ps), contexts), true)
  }

  method InferCitations(t: Tokens, answer: string, contexts: seq<Passage>) returns (r: Inferred)
    ensures r == Infer(t, answer, contexts)
  {
    var ss, ps := Substantive(t.sentences(answer)), WordsOf(t, contexts);
    if contexts == [] || ss == [] {
      return NOTHING;
    }
    var supported, used := Attribute(ss, ps);
    if 2 * supported < |ss| {
      return NOTHING;
    }
    return Inferred(CiteUsed(used, contexts), true);
  }

  method Attribute(ss: seq<set<string>>, ps: seq<set<string>>) returns (supported: nat, used: seq<nat>)
    ensures supported == Supported(ss, ps) && used == Used(ss, ps)
  {
    supported, used := 0, [];
    var k := 0;
    while k < |ss|
      invariant 0 <= k <= |ss|
      invariant supported == Supported(ss[..k], ps) && used == Used(ss[..k], ps)
    {
      NextSentence(ss, ps, k);
      var best := BestPassage(ss[k], ps);
      if best.Some? && Supports(Shared(ss[k], ps, best.value), |ss[k]|) {
        supported := supported + 1;
        if best.value !in used {
          used := used + [best.value];
        }
      }
      k := k + 1;
    }
    assert ss[..|ss|] == ss;
  }

  lemma NextSentence(ss: seq<set<string>>, ps: seq<set<string>>, k: nat)
    requires k < |ss|
    ensures var c, used := Choice(ss[k], ps), Used(ss[..k], ps);
            && Supported(ss[..k + 1], ps) == Supported(ss[..k], ps) + (if c.Some? then 1 else 0)
            && Used(ss[..k + 1], ps) == if c.Some? && c.value !in used then used + [c.value] else used
  {
    assert ss[..k + 1][..k] == ss[..k];
  }

  method BestPassage(sentence: set<string>, ps: seq<set<string>>) returns (best: Option<nat>)
    ensures best == Best(sentence, ps)
  {
    var score := 0;
    best := None;
    var i := 0;
    while i < |ps|
      invariant 0 <= i <= |ps| && best == Best(sentence, ps[..i])
      invariant score == if best.Some? then Shared(sentence, ps, best.value) else 0
    {
      assert ps[..i + 1][..i] == ps[..i];
      if Shared(sentence, ps, i) > score {
        best, score := Some(i), Shared(sentence, ps, i);
      }
      i := i + 1;
    }
    assert ps[..|ps|] == ps;
  }

  // ----- What an inferred citation means -----

  /** The threshold is 0.6 of the sentence's words, and half of the sentences that have at
      least four must reach it. */
  lemma Thresholds(shared: nat, of: nat)
    requires of > 0
    ensures Supports(shared, of) <==> shared as real / of as real >= 0.6
    ensures 2 * shared < of <==> shared as real / of as real < 0.5
  {
    Ratio(shared, of as real, 0.6);
    Ratio(shared, of as real, 0.5);
  }

  lemma Ratio(a: nat, b: real, limit: real)
    requires b > 0.0
    ensures a as real / b >= limit <==> a as real >= limit * b
  {
    var ratio := a as real / b;
    assert ratio * b == a as real;
    if ratio >= limit {
      assert (ratio - limit) * b >= 0.0;
    } else {
      assert (limit - ratio) * b > 0.0;
    }
  }

  /** An answer without markers is grounded exactly when it has sentences of four words or
      more and at least half of them share 0.6 of their words with some passage. */
  lemma GroundedIff(t: Tokens, answer: string, contexts: seq<Passage>)
    ensures var ss := Substantive(t.sentences(answer));
            Infer(t, answer, contexts).grounded
            <==> ss != [] && contexts != [] && 2 * |Evidenced(ss, WordsOf(t, contexts))| >= |ss|
  {
    var ss := Substantive(t.sentences(answer));
    forall k | 0 <= k < |ss| ensures |ss[k]| >= 4 {
      SubstantiveOnes(t.sentences(answer), k);
    }
    CountsEvidenced(ss, WordsOf(t, contexts));
  }

  /** The sentences that some passage supports. */
  ghost function Evidenced(ss: seq<set<string>>, ps: seq<set<string>>): set<int> {
    set k | 0 <= k < |ss| && HasEvidence(ss[k], ps)
  }

  predicate HasEvidence(sentence: set<string>, ps: seq<set<string>>) {
    exists i :: 0 <= i < |ps| && Supports(Shared(sentence, ps, i), |sentence|)
  }

  lemma {:induction false} CountsEvidenced(ss: seq<set<string>>, ps: seq<set<string>>)
    requires forall k :: 0 <= k < |ss| ==> |ss[k]| >= 4
    ensures Supported(ss, ps) == |Evidenced(ss, ps)|
    decreases |ss|
  {
    if ss != [] {
      var n := |ss| - 1;
      CountsEvidenced(ss[..n], ps);
      AttributedIff(ss[n], ps);
      assert Evidenced(ss, ps) == Evidenced(ss[..n], ps) + if HasEvidence(ss[n], ps) then {n} else {};
    }
  }

  lemma {:induction false} SubstantiveExactly(sentences: seq<set<string>>, s: set<string>)
    ensures s in Substantive(sentences) <==> s in sentences && |s| >= 4
  {
    if sentences != [] {
      SubstantiveExactly(sentences[..|sentences| - 1], s);
      assert s in sentences <==> s in sentences[..|sentences| - 1] || s == sentences[|sentences| - 1];
    }
  }

  /** A sentence is attributed exactly when some passage has three fifths of its words. */
  lemma AttributedIff(sentence: set<string>, passages: seq<set<string>>)
    requires sentence != {}
    ensures Choice(sentence, passages).Some?
            <==> exists i :: 0 <= i < |passages| && Supports(Shared(sentence, passages, i), |sentence|)
  {
    BestIsFirstMaximum(sentence, passages);
  }

  lemma {:induction false} SubstantiveOnes(sentences: seq<set<string>>, k: nat)
    requires k < |Substantive(sentences)|
    ensures |Substantive(sentences)[k]| >= MIN_SENTENCE_WORDS && Substantive(sentences)[k] in sentences
  {
    var front := sentences[..|sentences| - 1];
    if k < |Substantive(front)| {
      SubstantiveOnes(front, k);
    }
  }

  /** A passage is cited exactly when some sentence is attributed to it. */
  lemma {:induction false} UsedExactly(sentences: seq<set<string>>, passages: seq<set<string>>, v: nat)
    ensures v in Used(sentences, passages) <==> Attributed(sentences, passages, v)
    decreases |sentences|
  {
    if sentences != [] {
      UsedExactly(sentences[..|sentences| - 1], passages, v);
      AttributedStep(sentences, passages, v);
    }
  }

  ghost predicate Attributed(sentences: seq<set<string>>, passages: seq<set<string>>, v: nat) {
    exists k :: 0 <= k < |sentences| && Choice(sentences[k], passages) == Some(v)
  }

  lemma AttributedStep(sentences: seq<set<string>>, passages: seq<set<string>>, v: nat)
    requires sentences != []
    ensures Attributed(sentences, passages, v) <==>
              Attributed(sentences[..|sentences| - 1], passages, v) || Choice(sentences[|sentences| - 1], passages) == Some(v)
  {
    var front := sentences[..|sentences| - 1];
    assert forall k :: 0 <= k < |front| ==> front[k] == sentences[k];
    if Attributed(front, passages, v) {
      var k :| 0 <= k < |front| && Choice(front[k], passages) == Some(v);
      assert Choice(sentences[k], passages) == Some(v);
    }
  }

  /** Every inferred citation has three fifths of the words of some substantive sentence. */
  lemma CitationsAreEvidence(t: Tokens, answer: string, contexts: seq<Passage>, c: Citation)
    requires c in Infer(t, answer, contexts).citations
    ensures exists s :: s in t.sentences(answer) && |s| >= MIN_SENTENCE_WORDS
                        && Supports(|s * t.words(c.passage.text)|, |s|)
    ensures c.passage in contexts
  {
    var ss, ps := Substantive(t.sentences(answer)), WordsOf(t, contexts);
    var used, cs := Used(ss, ps), Infer(t, answer, contexts).citations;
    var i :| 0 <= i < |cs| && cs[i] == c;
    assert used[i] in used;
    UsedExactly(ss, ps, used[i]);
    var k :| 0 <= k < |ss| && Choice(ss[k], ps) == Some(used[i]);
    SubstantiveOnes(t.sentences(answer), k);
    assert Supports(|ss[k] * t.words(c.passage.text)|, |ss[k]|);
  }

  // ----- Inferring again from the cited passages -----

  /** The words of the passages cited, in the order cited. */
  function Again(used: seq<nat>, passages: seq<set<string>>): (r: seq<set<string>>)
    requires Below(used, |passages|)
    ensures |r| == |used|
  {
    seq(|used|, i requires 0 <= i < |used| => passages[used[i]])
  }

  /** On the cited passages a sentence stays attributed or not as before.  It keeps its
      passage exactly when none cited earlier shares as many words with it. */
  lemma KeepsItsPassageIff(sentence: set<string>, passages: seq<set<string>>, used: seq<nat>, q: nat)
    requires Distinct(used) && Below(used, |passages|)
    requires q < |used| && Choice(sentence, passages) == Some(used[q])
    ensures var again := Again(used, passages);
            && Choice(sentence, again).Some?
            && (Choice(sentence, again) == Some(q)
                <==> forall j :: 0 <= j < q ==> Shared(sentence, passages, used[j]) < Shared(sentence, passages, used[q]))
  {
    var again := Again(used, passages);
    BestIsFirstMaximum(sentence, passages);
    BestIsFirstMaximum(sentence, again);
    forall j | 0 <= j < |used|
      ensures Shared(sentence, again, j) == Shared(sentence, passages, used[j])
    {
    }
    assert Shared(sentence, again, q) > 0;
    var b := Best(sentence, again).value;
    assert Shared(sentence, again, b) == Shared(sentence, again, q);
  }

  lemma StaysUnattributed(sentence: set<string>, passages: seq<set<string>>, used: seq<nat>)
    requires Below(used, |passages|)
    requires Choice(sentence, passages) == None
    ensures Choice(sentence, Again(used, passages)) == None
  {
    var again := Again(used, passages);
    BestIsFirstMaximum(sentence, passages);
    BestIsFirstMaximum(sentence, again);
    forall j | 0 <= j < |used|
      ensures Shared(sentence, again, j) == Shared(sentence, passages, used[j])
    {
    }
  }

  lemma {:induction false} SameSupport(sentences: seq<set<string>>, passages: seq<set<string>>, used: seq<nat>)
    requires Distinct(used) && Below(used, |passages|)
    requires forall k :: 0 <= k < |sentences| && Choice(sentences[k], passages).Some? ==> Choice(sentences[k], passages).value in used
    ensures Supported(sentences, Again(used, passages)) == Supported(sentences, passages)
    decreases |sentences|
  {
    if sentences != [] {
      var last := sentences[|sentences| - 1];
      SameSupport(sentences[..|sentences| - 1], passages, used);
      if Choice(last, passages).Some? {
        var q :| 0 <= q < |used| && used[q] == Choice(last, passages).value;
        KeepsItsPassageIff(last, passages, used, q);
      } else {
        StaysUnattributed(last, passages, used);
      }
    }
  }

  /** Inferring again on the cited passages grounds the answer again and cites nothing new. */
  lemma InferringAgainStaysGrounded(t: Tokens, answer: string, contexts: seq<Passage>)
    requires Infer(t, answer, contexts).grounded
    ensures var first := Infer(t, answer, contexts);
            var second := Infer(t, answer, PassagesOf(first.citations));
            second.grounded && forall c :: c in second.citations ==> c.passage in PassagesOf(first.citations)
  {
    var ss, ps := Substantive(t.sentences(answer)), WordsOf(t, contexts);
    var used := Used(ss, ps);
    var first := Infer(t, answer, contexts);
    var cited := PassagesOf(first.citations);
    forall k | 0 <= k < |ss| && Choice(ss[k], ps).Some? ensures Choice(ss[k], ps).value in used {
      UsedExactly(ss, ps, Choice(ss[k], ps).value);
    }
    SameSupport(ss, ps, used);
    AgainIsWordsOf(t, contexts, used);
    if used == [] {
      NothingUsed(ss, ps);
    }
    forall c | c in Infer(t, answer, cited).citations ensures c.passage in cited {
      CitationsAreEvidence(t, answer, cited, c);
    }
  }

  lemma AgainIsWordsOf(t: Tokens, contexts: seq<Passage>, used: seq<nat>)
    requires Below(used, |contexts|)
    ensures WordsOf(t, PassagesOf(CiteUsed(used, contexts))) == Again(used, WordsOf(t, contexts))
  {
  }

  lemma {:induction false} NothingUsed(sentences: seq<set<string>>, passages: seq<set<string>>)
    requires Used(sentences, passages) == []
    ensures Supported(sentences, passages) == 0
    decreases |sentences|
  {
    if sentences != [] {
      NothingUsed(sentences[..|sentences| - 1], passages);
    }
  }

  /** No other passage shares as many words with the sentence as the one it is attributed to. */
  ghost predicate Untied(sentence: set<string>, passages: seq<set<string>>) {
    var c := Choice(sentence, passages);
    c.Some? ==> forall i :: 0 <= i < |passages| && i != c.value ==> Shared(sentence, passages, i) < Shared(sentence, passages, c.value)
  }

  ghost predicate NoTies(sentences: seq<set<string>>, passages: seq<set<string>>) {
    forall k :: 0 <= k < |sentences| ==> Untied(sentences[k], passages)
  }

  function UpTo(n: nat): (r: seq<nat>)
    ensures |r| == n && forall i :: 0 <= i < n ==> r[i] == i
  {
    seq(n, i => i)
  }

  lemma NextUse(u: seq<nat>, used: seq<nat>, c: nat, q: nat)
    requires Distinct(used) && u <= used && q < |used| && used[q] == c
    requires c in u || u + [c] <= used
    ensures if c in u then q in UpTo(|u|) else q !in UpTo(|u|) && UpTo(|u|) + [q] == UpTo(|u| + 1)
  {
    if c in u {
      var h :| 0 <= h < |u| && u[h] == c;
      assert used[h] == c && h == q;
      assert UpTo(|u|)[q] == q;
    } else {
      assert used[|u|] == (u + [c])[|u|];
      assert q == |u|;
    }
  }

  lemma KeepsItsPassage(sentence: set<string>, passages: seq<set<string>>, used: seq<nat>, q: nat)
    requires Distinct(used) && Below(used, |passages|)
    requires q < |used| && Choice(sentence, passages) == Some(used[q]) && Untied(sentence, passages)
    ensures Choice(sentence, Again(used, passages)) == Some(q)
  {
    KeepsItsPassageIff(sentence, passages, used, q);
    assert forall j :: 0 <= j < q ==> used[j] != used[q];
  }

  lemma {:induction false} UsedAgain(sentences: seq<set<string>>, passages: seq<set<string>>, used: seq<nat>)
    requires NoTies(sentences, passages)
    requires Distinct(used) && Below(used, |passages|)
    requires Used(sentences, passages) <= used
    ensures Used(sentences, Again(used, passages)) == UpTo(|Used(sentences, passages)|)
    decreases |sentences|
  {
    if sentences != [] {
      var front, last := sentences[..|sentences| - 1], sentences[|sentences| - 1];
      assert forall k :: 0 <= k < |front| ==> front[k] == sentences[k];
      UsedAgain(front, passages, used);
      var u, c := Used(front, passages), Choice(last, passages);
      if c.Some? {
        assert c.value in Used(sentences, passages);
        var q :| 0 <= q < |Used(sentences, passages)| && Used(sentences, passages)[q] == c.value;
        assert Untied(sentences[|sentences| - 1], passages);
        KeepsItsPassage(last, passages, used, q);
        NextUse(u, used, c.value, q);
      } else {
        StaysUnattributed(last, passages, used);
      }
    }
  }

  /** Without ties, inferring again on the cited passages changes nothing. */
  lemma InferringAgainChangesNothing(t: Tokens, answer: string, contexts: seq<Passage>)
    requires NoTies(Substantive(t.sentences(answer)), WordsOf(t, contexts))
    requires Infer(t, answer, contexts).grounded
    ensures Infer(t, answer, PassagesOf(Infer(t, answer, contexts).citations)) == Infer(t, answer, contexts)
  {
    var ss, ps := Substantive(t.sentences(answer)), WordsOf(t, contexts);
    var used := Used(ss, ps);
    var first := Infer(t, answer, contexts);
    InferringAgainStaysGrounded(t, answer, contexts);
    AgainIsWordsOf(t, contexts, used);
    UsedAgain(ss, ps, used);
    assert CiteUsed(UpTo(|used|), PassagesOf(first.citations)) == first.citations;
  }

  // ----- Exactly when inferring again changes nothing -----

  /** Among the cited passages the `q`-th is the first that shares as many words with the
      sentence as the passage it is attributed to. */
  predicate FirstTied(sentence: set<string>, passages: seq<set<string>>, used: seq<nat>, q: nat)
    requires Below(used, |passages|) && q < |used|
  {
    var c := Choice(sentence, passages);
    && c.Some? && Shared(sentence, passages, used[q]) == Shared(sentence, passages, c.value)
    && forall j :: 0 <= j < q ==> Shared(sentence, passages, used[j]) < Shared(sentence, passages, c.value)
  }

  lemma AgainChoosesIff(sentence: set<string>, passages: seq<set<string>>, used: seq<nat>, q: nat)
    requires Distinct(used) && Below(used, |passages|) && q < |used|
    requires var c := Choice(sentence, passages); c.Some? ==> c.value in used
    ensures Choice(sentence, Again(used, passages)) == Some(q) <==> FirstTied(sentence, passages, used, q)
  {
    var c, again := Choice(sentence, passages), Again(used, passages);
    if c.None? {
      StaysUnattributed(sentence, passages, used);
    } else {
      var p :| 0 <= p < |used| && used[p] == c.value;
      KeepsItsPassageIff(sentence, passages, used, p);
      BestIsFirstMaximum(sentence, passages);
      BestIsFirstMaximum(sentence, again);
      assert forall j :: 0 <= j < |used| ==> Shared(sentence, again, j) == Shared(sentence, passages, used[j]);
      assert Shared(sentence, again, p) == Shared(sentence, passages, c.value);
    }
  }

  /** The passages that the sentences are attributed to. */
  function Choices(sentences: seq<set<string>>, passages: seq<set<string>>): (r: seq<Option<nat>>)
    ensures |r| == |sentences| && forall k :: 0 <= k < |r| ==> r[k] == Choice(sentences[k], passages)
  {
    seq(|sentences|, k requires 0 <= k < |sentences| => Choice(sentences[k], passages))
  }

  function FirstUses(cs: seq<Option<nat>>): seq<nat> {
    if cs == [] then []
    else
      var front, c := FirstUses(cs[..|cs| - 1]), cs[|cs| - 1];
      if c.Some? && c.value !in front then front + [c.value] else front
  }

  lemma {:induction false} UsedAreFirstUses(sentences: seq<set<string>>, passages: seq<set<string>>)
    ensures Used(sentences, passages) == FirstUses(Choices(sentences, passages))
    decreases |sentences|
  {
    if sentences != [] {
      var front := sentences[..|sentences| - 1];
      UsedAreFirstUses(front, passages);
      assert Choices(sentences, passages)[..|front|] == Choices(front, passages);
    }
  }

  /** The `k`-th choice is `q` and none before it is greater. */
  predicate Introduces(cs: seq<Option<nat>>, k: int, q: nat) {
    0 <= k < |cs| && cs[k] == Some(q) && forall h :: 0 <= h < k && cs[h].Some? ==> cs[h].value <= q
  }

  predicate Introduced(cs: seq<Option<nat>>, q: nat) {
    exists k :: 0 <= k < |cs| && Introduces(cs, k, q)
  }

  predicate AllBelow(cs: seq<Option<nat>>, n: nat) {
    forall k :: 0 <= k < |cs| && cs[k].Some? ==> cs[k].value < n
  }

  predicate InOrder(cs: seq<Option<nat>>, n: nat) {
    AllBelow(cs, n) && forall q :: 0 <= q < n ==> Introduced(cs, q)
  }

  lemma IntroducedStep(cs: seq<Option<nat>>, q: nat)
    requires cs != []
    ensures Introduced(cs, q) <==> Introduced(cs[..|cs| - 1], q) || Introduces(cs, |cs| - 1, q)
  {
    var front := cs[..|cs| - 1];
    assert forall k :: 0 <= k < |front| ==> (Introduces(front, k, q) <==> Introduces(cs, k, q));
    if Introduced(front, q) {
      var k :| 0 <= k < |front| && Introduces(front, k, q);
      assert Introduces(cs, k, q);
    }
  }

  lemma FirstUsesContain(cs: seq<Option<nat>>, q: nat)
    requires Some(q) in cs
    ensures q in FirstUses(cs)
  {
    if cs[|cs| - 1] != Some(q) {
      assert Some(q) in cs[..|cs| - 1];
      FirstUsesContain(cs[..|cs| - 1], q);
    }
  }

  /** The numbers below `n` are first used in ascending order exactly when no other is used
      and each has a use before every use of a greater one. */
  lemma {:induction false} FirstUsesAscendIff(cs: seq<Option<nat>>, n: nat)
    ensures FirstUses(cs) == UpTo(n) <==> InOrder(cs, n)
  {
    if cs == [] {
      assert !Introduced(cs, 0);
    } else {
      var front, c := cs[..|cs| - 1], cs[|cs| - 1];
      FirstUsesAscendIff(front, n);
      if c.None? {
        forall q | 0 <= q < n ensures Introduced(cs, q) <==> Introduced(front, q) {
          IntroducedStep(cs, q);
        }
        assert AllBelow(cs, n) <==> AllBelow(front, n);
      } else if c.value >= n {
        FirstUsesContain(cs, c.value);
        assert c.value !in UpTo(n);
      } else {
        if n > 0 {
          FirstUsesAscendIff(front, n - 1);
        }
        OneMoreUsed(FirstUses(front), c.value, n);
        LastInOrderIff(cs, n);
      }
    }
  }

  lemma OneMoreUsed(u: seq<nat>, v: nat, n: nat)
    requires v < n
    ensures (if v in u then u else u + [v]) == UpTo(n) <==> u == UpTo(n) || (v == n - 1 && u == UpTo(n - 1))
  {
    assert UpTo(n) == UpTo(n - 1) + [n - 1];
    assert UpTo(n)[v] == v;
    if v !in u && u + [v] == UpTo(n) {
      assert u == (u + [v])[..|u|] == UpTo(n - 1);
      assert v == (u + [v])[n - 1];
    }
  }

  /** The last choice either adds nothing to the order or completes it. */
  lemma LastInOrderIff(cs: seq<Option<nat>>, n: nat)
    requires cs != [] && cs[|cs| - 1].Some? && cs[|cs| - 1].value < n
    ensures InOrder(cs, n) <==>
              InOrder(cs[..|cs| - 1], n) || (cs[|cs| - 1].value == n - 1 && InOrder(cs[..|cs| - 1], n - 1))
  {
    var front, last, v := cs[..|cs| - 1], |cs| - 1, cs[|cs| - 1].value;
    forall q | 0 <= q < n
      ensures Introduced(cs, q) <==> Introduced(front, q) || Introduces(cs, last, q)
    {
      IntroducedStep(cs, q);
    }
    if v == n - 1 && InOrder(front, n - 1) {
      assert Introduces(cs, last, n - 1);
    }
    if InOrder(cs, n) && !InOrder(front, n) {
      var q :| 0 <= q < n && !Introduced(front, q);
      assert Introduced(cs, q) && Introduces(cs, last, q);
      assert q == v;
      Completed(cs, n);
    }
  }

  lemma Completed(cs: seq<Option<nat>>, n: nat)
    requires cs != [] && InOrder(cs, n)
    requires cs[|cs| - 1].Some? && !Introduced(cs[..|cs| - 1], cs[|cs| - 1].value)
    ensures cs[|cs| - 1].value == n - 1 && InOrder(cs[..|cs| - 1], n - 1)
  {
    var front, last, v := cs[..|cs| - 1], |cs| - 1, cs[|cs| - 1].value;
    IntroducedStep(cs, v);
    IntroducedStep(cs, n - 1);
    assert Introduced(cs, v) && Introduced(cs, n - 1);
    assert v == n - 1;
    forall k | 0 <= k < |front| && front[k].Some? ensures front[k].value < n - 1 {
      assert front[k] == cs[k];
      assert front[k].value == n - 1 ==> Introduces(front, k, n - 1);
    }
    forall q | 0 <= q < n - 1 ensures Introduced(front, q) {
      assert Introduced(cs, q);
      IntroducedStep(cs, q);
    }
  }

  /** Each cited passage is, for some sentence, the first cited one with as many words as
      that sentence's own, and no earlier sentence first ties with a later one. */
  ghost predicate ReusedInOrder(sentences: seq<set<string>>, passages: seq<set<string>>) {
    var used := Used(sentences, passages);
    forall q :: 0 <= q < |used| ==> Reused(sentences, passages, used, q)
  }

  ghost predicate Reused(sentences: seq<set<string>>, passages: seq<set<string>>, used: seq<nat>, q: nat)
    requires Below(used, |passages|) && q < |used|
  {
    exists k :: 0 <= k < |sentences| && Reuses(sentences, passages, used, k, q)
  }

  ghost predicate Reuses(sentences: seq<set<string>>, passages: seq<set<string>>, used: seq<nat>, k: nat, q: nat)
    requires Below(used, |passages|) && q < |used| && k < |sentences|
  {
    && FirstTied(sentences[k], passages, used, q)
    && forall h, p :: 0 <= h < k && q < p < |used| ==> !FirstTied(sentences[h], passages, used, p)
  }

  lemma ReusesIff(sentences: seq<set<string>>, passages: seq<set<string>>, k: nat, q: nat)
    requires k < |sentences| && q < |Used(sentences, passages)|
    ensures var used := Used(sentences, passages);
            Reuses(sentences, passages, used, k, q) <==> Introduces(Choices(sentences, Again(used, passages)), k, q)
  {
    var used := Used(sentences, passages);
    var again := Again(used, passages);
    var cs := Choices(sentences, again);
    ChoosesAgainIff(sentences, passages, k, q);
    if Reuses(sentences, passages, used, k, q) {
      forall h | 0 <= h < k && cs[h].Some? ensures cs[h].value <= q {
        ChoosesAgainIff(sentences, passages, h, cs[h].value);
      }
    }
    if Introduces(cs, k, q) {
      forall h, p | 0 <= h < k && q < p < |used| ensures !FirstTied(sentences[h], passages, used, p) {
        ChoosesAgainIff(sentences, passages, h, p);
      }
    }
  }

  lemma ChoosesAgainIff(sentences: seq<set<string>>, passages: seq<set<string>>, h: nat, p: nat)
    requires h < |sentences| && p < |Used(sentences, passages)|
    ensures var used := Used(sentences, passages);
            Choice(sentences[h], Again(used, passages)) == Some(p) <==> FirstTied(sentences[h], passages, used, p)
  {
    var c := Choice(sentences[h], passages);
    if c.Some? {
      UsedExactly(sentences, passages, c.value);
      assert Attributed(sentences, passages, c.value);
    }
    AgainChoosesIff(sentences[h], passages, Used(sentences, passages), p);
  }

  lemma ReusedInOrderIff(sentences: seq<set<string>>, passages: seq<set<string>>)
    ensures var used := Used(sentences, passages);
            Used(sentences, Again(used, passages)) == UpTo(|used|) <==> ReusedInOrder(sentences, passages)
  {
    var used := Used(sentences, passages);
    var cs := Choices(sentences, Again(used, passages));
    UsedAreFirstUses(sentences, Again(used, passages));
    FirstUsesAscendIff(cs, |used|);
    assert AllBelow(cs, |used|);
    forall q | 0 <= q < |used| ensures Reused(sentences, passages, used, q) <==> Introduced(cs, q) {
      ReusedIff(sentences, passages, q);
    }
  }

  lemma ReusedIff(sentences: seq<set<string>>, passages: seq<set<string>>, q: nat)
    requires q < |Used(sentences, passages)|
    ensures var used := Used(sentences, passages);
            Reused(sentences, passages, used, q) <==> Introduced(Choices(sentences, Again(used, passages)), q)
  {
    var used := Used(sentences, passages);
    var cs := Choices(sentences, Again(used, passages));
    forall k | 0 <= k < |sentences|
      ensures Reuses(sentences, passages, used, k, q) <==> Introduces(cs, k, q)
    {
      ReusesIff(sentences, passages, k, q);
    }
  }

  /** No two cited passages have the same words. */
  lemma CitedWordsDiffer(sentences: seq<set<string>>, passages: seq<set<string>>, i: nat, j: nat)
    requires i < |Used(sentences, passages)| && j < |Used(sentences, passages)|
    requires Used(sentences, passages)[i] < Used(sentences, passages)[j]
    ensures passages[Used(sentences, passages)[i]] != passages[Used(sentences, passages)[j]]
  {
    var used := Used(sentences, passages);
    assert used[j] in used;
    UsedExactly(sentences, passages, used[j]);
    var k :| 0 <= k < |sentences| && Choice(sentences[k], passages) == Some(used[j]);
    BestIsFirstMaximum(sentences[k], passages);
    assert Shared(sentences[k], passages, used[i]) < Shared(sentences[k], passages, used[j]);
  }

  /** Inferring again on the cited passages changes nothing exactly when they are reused in
      order. */
  lemma InferringAgainIff(t: Tokens, answer: string, contexts: seq<Passage>)
    requires Infer(t, answer, contexts).grounded
    ensures Infer(t, answer, PassagesOf(Infer(t, answer, contexts).citations)) == Infer(t, answer, contexts)
            <==> ReusedInOrder(Substantive(t.sentences(answer)), WordsOf(t, contexts))
  {
    var ss, ps := Substantive(t.sentences(answer)), WordsOf(t, contexts);
    var used, first := Used(ss, ps), Infer(t, answer, contexts);
    var cited := PassagesOf(first.citations);
    InferringAgainStaysGrounded(t, answer, contexts);
    AgainIsWordsOf(t, contexts, used);
    ReusedInOrderIff(ss, ps);
    var again := Used(ss, WordsOf(t, cited));
    assert Infer(t, answer, cited) == Inferred(CiteUsed(again, cited), true);
    RecitedIff(t, contexts, ss, again);
  }

  /** The cited passages cited again by number are the same citations exactly when the
      numbers are 1, 2, and so on. */
  lemma RecitedIff(t: Tokens, contexts: seq<Passage>, ss: seq<set<string>>, again: seq<nat>)
    requires Below(again, |Used(ss, WordsOf(t, contexts))|)
    ensures var used := Used(ss, WordsOf(t, contexts));
            var first := CiteUsed(used, contexts);
            CiteUsed(again, PassagesOf(first)) == first <==> again == UpTo(|used|)
  {
    var ps := WordsOf(t, contexts);
    var used := Used(ss, ps);
    var first := CiteUsed(used, contexts);
    var second := CiteUsed(again, PassagesOf(first));
    if again == UpTo(|used|) {
      assert second == first;
    }
    if second == first {
      forall i | 0 <= i < |again| ensures again[i] == i {
        assert second[i].passage == contexts[used[again[i]]] && first[i].passage == contexts[used[i]];
        assert ps[used[again[i]]] == ps[used[i]];
        SameWordsSamePlace(ss, ps, again[i], i);
      }
      assert |again| == |second| == |used|;
    }
  }

  lemma SameWordsSamePlace(sentences: seq<set<string>>, passages: seq<set<string>>, i: nat, j: nat)
    requires i < |Used(sentences, passages)| && j < |Used(sentences, passages)|
    requires passages[Used(sentences, passages)[i]] == passages[Used(sentences, passages)[j]]
    ensures i == j
  {
    var used := Used(sentences, passages);
    if used[i] < used[j] {
      CitedWordsDiffer(sentences, passages, i, j);
    } else if used[j] < used[i] {
      CitedWordsDiffer(sentences, passages, j, i);
    }
  }

  // ----- Grounding with inference -----

  function BuildGroundedWith(t: Tokens, answer: string, contexts: seq<Passage>, infer: bool): Grounded {
    var marked := BuildGrounded(answer, contexts);
    if !marked.grounded && infer then
      var r := Infer(t, answer, contexts);
      if r.grounded then Grounded(answer, r.citations, true) else marked
    else marked
  }

  /** Whether the citations of an answer are inferred. */
  predicate InfersCitations(t: Tokens, answer: string, contexts: seq<Passage>, infer: bool) {
    infer && !BuildGrounded(answer, contexts).grounded && Infer(t, answer, contexts).grounded
  }

  /** Grounding its own output keeps the answer and the verdict and cites nothing new.  It
      changes nothing exactly when no citations were inferred or they are reused in order. */
  lemma GroundingAgain(t: Tokens, answer: string, contexts: seq<Passage>, infer: bool)
    ensures var first := BuildGroundedWith(t, answer, contexts, infer);
            var second := BuildGroundedWith(t, first.answer, PassagesOf(first.citations), infer);
            && second.answer == first.answer && second.grounded == first.grounded
            && (forall c :: c in second.citations ==> c.passage in PassagesOf(first.citations))
            && (second == first <==>
                  (InfersCitations(t, answer, contexts, infer) ==>
                     ReusedInOrder(Substantive(t.sentences(answer)), WordsOf(t, contexts))))
  {
    var marked, first := BuildGrounded(answer, contexts), BuildGroundedWith(t, answer, contexts, infer);
    GroundingIsIdempotent(answer, contexts);
    if !marked.grounded {
      UsedAtMostOnce(Substantive(t.sentences(answer)), WordsOf(t, contexts));
      NoMarkersFor(answer, |contexts|, |first.citations|);
      if first.grounded {
        InferringAgainStaysGrounded(t, answer, contexts);
        InferringAgainIff(t, answer, contexts);
      }
    }
    assert forall i :: 0 <= i < |first.citations| ==> PassagesOf(first.citations)[i] == first.citations[i].passage;
  }

  /** For instance when the first sentence matches a long passage and the second one both it
      and a short one: the short one comes first in the list and is cited second, and on the
      passages as cited the second sentence joins the first. */
  lemma TiesReattribute(t: Tokens, answer: string, short: Passage, long: Passage)
    requires t.words(short.text) == {"officer", "secure", "keys", "cabinet"}
    requires t.words(long.text) == t.words(short.text) + {"count", "inmates", "night", "lock"}
    requires t.sentences(answer) == [t.words(long.text), t.words(short.text)]
    requires Cited(Scan(answer), 2) == []
    ensures var first := BuildGroundedWith(t, answer, [short, long], true);
            && first == Grounded(answer, [Citation(1, long), Citation(2, short)], true)
            && BuildGroundedWith(t, answer, PassagesOf(first.citations), true) == Grounded(answer, [Citation(1, long)], true)
  {
    var p, q := t.words(short.text), t.words(long.text);
    assert |p| == 4 && |q| == 8 && p < q;
    LongThenShort(t, answer, short, long);
  }

  lemma LongThenShort(t: Tokens, answer: string, short: Passage, long: Passage)
    requires t.words(short.text) < t.words(long.text) && |t.words(short.text)| == 4 && |t.words(long.text)| == 8
    requires t.sentences(answer) == [t.words(long.text), t.words(short.text)]
    requires Cited(Scan(answer), 2) == []
    ensures var first := BuildGroundedWith(t, answer, [short, long], true);
            && first == Grounded(answer, [Citation(1, long), Citation(2, short)], true)
            && BuildGroundedWith(t, answer, PassagesOf(first.citations), true) == Grounded(answer, [Citation(1, long)], true)
  {
    var p, q := t.words(short.text), t.words(long.text);
    BothSubstantive(q, p);
    TwoSentences(p, q);
    InfersUsed(t, answer, [short, long], [q, p], [p, q]);
    InfersUsed(t, answer, [long, short], [q, p], [q, p]);
    CitedTwice(short, long);
  }

  lemma CitedTwice(short: Passage, long: Passage)
    ensures CiteUsed([1, 0], [short, long]) == [Citation(1, long), Citation(2, short)]
    ensures PassagesOf([Citation(1, long), Citation(2, short)]) == [long, short]
    ensures CiteUsed([0], [long, short]) == [Citation(1, long)]
  {
  }

  lemma BothSubstantive(a: set<string>, b: set<string>)
    requires |a| >= MIN_SENTENCE_WORDS && |b| >= MIN_SENTENCE_WORDS
    ensures Substantive([a, b]) == [a, b]
  {
    assert [a][..0] == [] && Substantive([a]) == [a];
    assert [a, b][..1] == [a];
  }

  lemma InfersUsed(t: Tokens, answer: string, contexts: seq<Passage>, ss: seq<set<string>>, ps: seq<set<string>>)
    requires |contexts| == |ps| && forall i :: 0 <= i < |ps| ==> t.words(contexts[i].text) == ps[i]
    requires contexts != [] && Substantive(t.sentences(answer)) == ss != [] && 2 * Supported(ss, ps) >= |ss|
    ensures Infer(t, answer, contexts) == Inferred(CiteUsed(Used(ss, ps), contexts), true)
  {
    assert WordsOf(t, contexts) == ps;
  }

  lemma TwoSentences(p: set<string>, q: set<string>)
    requires p < q && |p| == 4 && |q| == 8
    ensures Used([q, p], [p, q]) == [1, 0] && Supported([q, p], [p, q]) == 2
    ensures Used([q, p], [q, p]) == [0] && Supported([q, p], [q, p]) == 2
  {
    var s1, s2 := [q, p], [p, q];
    assert s1[..1] == [q] && [q][..0] == [] && s2[..1] == [p] && [p][..0] == [];
    assert q * p == p && p * q == p && q * q == q && p * p == p;
    assert Best(q, []) == None && Best(p, []) == None;
    assert Best(q, [p]) == Some(0) && Best(q, s2) == Some(1);
    assert Best(p, [p]) == Some(0) && Best(p, s2) == Some(0);
    assert Best(q, [q]) == Some(0) && Best(q, s1) == Some(0);
    assert Best(p, [q]) == Some(0) && Best(p, s1) == Some(0);
    assert Used([q], s2) == [1] && Used([q], s1) == [0];
    assert Supported([q], s2) == 1 && Supported([q], s1) == 1;
  }

  lemma FewerPassagesCiteLess(answer: string, n: nat, k: nat)
    requires k <= n
    ensures forall v :: v in Cited(Scan(answer), k) ==> v in Cited(Scan(answer), n)
  {
    var ps := Scan(answer);
    forall v | v in Cited(ps, k) ensures v in Cited(ps, n) {
      CitedExactly(ps, k, v);
      var i :| Cites(ps, k, i, v);
      assert Cites(ps, n, i, v);
      CitedExactly(ps, n, v);
    }
  }

  lemma NoMarkersFor(answer: string, n: nat, k: nat)
    requires Cited(Scan(answer), n) == [] && k <= n
    ensures Cited(Scan(answer), k) == []
  {
    var c := Cited(Scan(answer), k);
    if c != [] {
      assert c[0] in c;
      FewerPassagesCiteLess(answer, n, k);
    }
  }

  lemma UsedAtMostOnce(sentences: seq<set<string>>, passages: seq<set<string>>)
    ensures |Used(sentences, passages)| <= |passages|
  {
    var used := Used(sentences, passages);
    var numbers: seq<nat> := seq(|used|, i requires 0 <= i < |used| => used[i] + 1);
    assert forall v :: v in numbers ==> 1 <= v <= |passages|;
    DistinctBounded(numbers, |passages|);
  }
}
