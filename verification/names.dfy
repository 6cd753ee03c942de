/** Rewriting the names in a generated report: the first mention of a person in full, the
    later ones short. */
module Names {
  import opened Base

  /** Where a person is named in the text, and which person of the list. */
  datatype Span = Span(start: nat, end: nat, who: nat)

  /** A person's fields without surrounding white space. */
  datatype Person = Person(inmate: bool, rank: string, first: string, last: string, adc: string)

  /** The character operations of the host language. */
  datatype Text = Text(upper: char -> string, isUpper: char -> bool, isSpace: char -> bool, lower: string -> string)

  // ----- Forms of a name -----

  function Trim(s: string): string {
    if s != "" && s[0] == ' ' then Trim(s[1..])
    else if s != "" && s[|s| - 1] == ' ' then Trim(s[..|s| - 1])
    else s
  }

  function FullForm(p: Person): string {
    if p.inmate then
      if p.last != "" && p.first != "" && p.adc != "" then "inmate " + p.last + ", " + p.first + " ADC# " + p.adc
      else if p.last != "" && p.adc != "" then "inmate " + p.last + " ADC# " + p.adc
      else if p.last != "" && p.first != "" then "inmate " + p.last + ", " + p.first
      else if p.last != "" then "inmate " + p.last
      else ""
    else Trim(p.rank + " " + p.first + " " + p.last)
  }

  function ShortForm(p: Person): string {
    if p.inmate then if p.last != "" then "inmate " + p.last else ""
    else if p.rank != "" && p.last != "" then Trim(p.rank + " " + p.last)
    else p.last
  }

  lemma {:induction false} TrimKeepsAName(s: string, i: nat)
    requires i < |s| && s[i] != ' '
    ensures Trim(s) != ""
    decreases |s|
  {
    if s[0] == ' ' {
      TrimKeepsAName(s[1..], i - 1);
    } else if s[|s| - 1] == ' ' {
      TrimKeepsAName(s[..|s| - 1], i);
    }
  }

  /** Whoever has a last name can be written in both forms. */
  lemma FormsExist(p: Person)
    requires p.last != "" && p.last[0] != ' '
    ensures FullForm(p) != "" && ShortForm(p) != ""
  {
    if !p.inmate {
      var s := p.rank + " " + p.first + " " + p.last;
      assert s[|p.rank + " " + p.first + " "|] == p.last[0];
      TrimKeepsAName(s, |p.rank + " " + p.first + " "|);
      if p.rank != "" {
        assert (p.rank + " " + p.last)[|p.rank| + 1] == p.last[0];
        TrimKeepsAName(p.rank + " " + p.last, |p.rank| + 1);
      }
    }
  }

  /** No space at either end. */
  predicate Neat(s: string) {
    s == "" || (s[0] != ' ' && s[|s| - 1] != ' ')
  }

  lemma NeatlyJoined(a: string, b: string)
    requires Neat(a) && Neat(b) && b != ""
    ensures Trim(a + " " + b) == if a == "" then b else a + " " + b
  {
    var s := a + " " + b;
    if a == "" {
      assert s[1..] == b;
    } else {
      assert s[0] == a[0] && s[|s| - 1] == b[|b| - 1];
    }
  }

  /** Staff are written rank, first and last name, then rank and last name; what is missing
      is left out.  With a rank and no first name, two spaces separate rank and last name in
      the full form. */
  lemma StaffForms(p: Person)
    requires !p.inmate && Neat(p.rank) && Neat(p.first) && Neat(p.last) && p.last != ""
    ensures p.rank != "" && p.first != "" ==> FullForm(p) == p.rank + " " + p.first + " " + p.last
    ensures p.rank == "" && p.first != "" ==> FullForm(p) == p.first + " " + p.last
    ensures p.rank != "" && p.first == "" ==> FullForm(p) == p.rank + "  " + p.last
    ensures p.rank == "" && p.first == "" ==> FullForm(p) == p.last
    ensures ShortForm(p) == if p.rank != "" then p.rank + " " + p.last else p.last
  {
    var s := p.rank + " " + p.first + " " + p.last;
    if p.rank != "" {
      NeatlyJoined(p.rank, p.last);
      assert s[0] == p.rank[0] && s[|s| - 1] == p.last[|p.last| - 1];
      assert p.first == "" ==> s == p.rank + "  " + p.last;
    } else {
      assert s[0] == ' ' && s[1..] == p.first + " " + p.last;
      NeatlyJoined(p.first, p.last);
    }
  }

  /** Inmates are written last name, first name and number after the word "inmate", then
      with the last name alone; what is missing is left out. */
  lemma InmateForms(p: Person)
    requires p.inmate && p.last != ""
    ensures FullForm(p) == "inmate " + p.last + (if p.first != "" then ", " + p.first else "") + (if p.adc != "" then " ADC# " + p.adc else "")
    ensures ShortForm(p) == "inmate " + p.last
  {
  }

  // ----- Shared last names -----

  function CountOf(names: seq<string>, name: string): nat {
    if names == [] then 0
    else CountOf(names[..|names| - 1], name) + if names[|names| - 1] == name then 1 else 0
  }

  ghost predicate Shared(names: seq<string>, name: string) {
    exists i, j :: 0 <= i < j < |names| && names[i] == name == names[j]
  }

  lemma {:induction false} CountsSharing(names: seq<string>, name: string)
    ensures CountOf(names, name) >= 1 <==> name in names
    ensures CountOf(names, name) >= 2 <==> Shared(names, name)
  {
    if names != [] {
      var front, last := names[..|names| - 1], names[|names| - 1];
      CountsSharing(front, name);
      assert forall i :: 0 <= i < |front| ==> names[i] == front[i];
      if last == name && name in front {
        var i :| 0 <= i < |front| && front[i] == name;
        assert names[i] == name == names[|names| - 1];
      }
      if Shared(front, name) {
        var i, j :| 0 <= i < j < |front| && front[i] == name == front[j];
        assert names[i] == name == names[j];
      }
    }
  }

  /** A last name, in lower case and not blank, is ambiguous exactly when two people of
      the list have it. */
  method AmbiguousLastNames(t: Text, persons: seq<Person>) returns (ambiguous: set<string>)
    ensures forall name :: name in ambiguous <==>
              name != "" && Shared(seq(|persons|, i requires 0 <= i < |persons| => t.lower(persons[i].last)), name)
  {
    ghost var names := seq(|persons|, i requires 0 <= i < |persons| => t.lower(persons[i].last));
    var counts: map<string, nat> := map[];
    var i := 0;
    while i < |persons|
      invariant 0 <= i <= |persons|
      invariant "" !in counts
      invariant forall name :: name != "" ==> CountOf(names[..i], name) == if name in counts then counts[name] else 0
    {
      var last := t.lower(persons[i].last);
      assert names[..i + 1][..i] == names[..i] && names[i] == last;
      if last != "" {
        counts := counts[last := (if last in counts then counts[last] else 0) + 1];
      }
      i := i + 1;
    }
    ambiguous := set name | name in counts && counts[name] > 1;
    assert names[..|persons|] == names;
    forall name | name != "" ensures name in ambiguous <==> Shared(names, name) {
      CountsSharing(names, name);
    }
  }

  // ----- Choosing spans -----

  /** The order of spans: by start, longer ones first. */
  predicate LessEq(a: Span, b: Span) {
    a.start < b.start || (a.start == b.start && a.end >= b.end)
  }

  predicate Ordered(s: seq<Span>) {
    forall i, j :: 0 <= i < j < |s| ==> LessEq(s[i], s[j])
  }

  predicate SamePlace(a: Span, b: Span) {
    a.start == b.start && a.end == b.end
  }

  function Insert(s: seq<Span>, x: Span): seq<Span> {
    if s == [] || LessEq(s[|s| - 1], x) then s + [x]
    else Insert(s[..|s| - 1], x) + [s[|s| - 1]]
  }

  function Sorted(s: seq<Span>): seq<Span> {
    if s == [] then [] else Insert(Sorted(s[..|s| - 1]), s[|s| - 1])
  }

  /** The spans of the same place as `x`, in the order of the list. */
  function Ties(s: seq<Span>, x: Span): seq<Span> {
    if s == [] then []
    else Ties(s[..|s| - 1], x) + if SamePlace(s[|s| - 1], x) then [s[|s| - 1]] else []
  }

  lemma {:induction false} InsertSorts(s: seq<Span>, x: Span)
    requires Ordered(s)
    ensures Ordered(Insert(s, x))
    ensures |Insert(s, x)| == |s| + 1
    ensures forall y :: y in Insert(s, x) <==> y in s || y == x
  {
    if s != [] && !LessEq(s[|s| - 1], x) {
      var front, last := s[..|s| - 1], s[|s| - 1];
      InsertSorts(front, x);
      var r := Insert(front, x);
      assert forall y :: y in s <==> y in front || y == last;
      forall i | 0 <= i < |r| ensures LessEq(r[i], last) {
        assert r[i] in r;
        if r[i] in front {
          var j :| 0 <= j < |front| && front[j] == r[i];
          assert s[j] == r[i];
        }
      }
    } else if s != [] {
      assert forall i :: 0 <= i < |s| ==> LessEq(s[i], s[|s| - 1]) || i == |s| - 1;
    }
  }

  lemma {:induction false} InsertIsStable(s: seq<Span>, x: Span, place: Span)
    ensures Ties(Insert(s, x), place) == Ties(s, place) + if SamePlace(x, place) then [x] else []
  {
    if s == [] || LessEq(s[|s| - 1], x) {
      assert (s + [x])[..|s|] == s;
    } else {
      var front, last := s[..|s| - 1], s[|s| - 1];
      InsertIsStable(front, x, place);
      assert (Insert(front, x) + [last])[..|Insert(front, x)|] == Insert(front, x);
    }
  }

  lemma {:induction false} SortedSorts(s: seq<Span>)
    ensures Ordered(Sorted(s)) && |Sorted(s)| == |s|
    ensures forall y :: y in Sorted(s) <==> y in s
  {
    if s != [] {
      var front, last := s[..|s| - 1], s[|s| - 1];
      SortedSorts(front);
      InsertSorts(Sorted(front), last);
      assert forall y :: y in s <==> y in front || y == last;
    }
  }

  lemma {:induction false} SortedIsStable(s: seq<Span>, place: Span)
    ensures Ties(Sorted(s), place) == Ties(s, place)
  {
    if s != [] {
      SortedIsStable(s[..|s| - 1], place);
      InsertIsStable(Sorted(s[..|s| - 1]), s[|s| - 1], place);
    }
  }

  function Kept(s: seq<Span>): seq<Span> {
    if s == [] then []
    else
      var kept, x := Kept(s[..|s| - 1]), s[|s| - 1];
      if kept != [] && x.start < kept[|kept| - 1].end then kept else kept + [x]
  }

  function Selected(spans: seq<Span>): seq<Span> {
    Kept(Sorted(spans))
  }

  method SelectSpans(spans: seq<Span>) returns (chosen: seq<Span>)
    ensures chosen == Selected(spans)
  {
    var sorted := Sorted(spans);
    chosen := [];
    var i := 0;
    while i < |sorted|
      invariant 0 <= i <= |sorted| && chosen == Kept(sorted[..i])
    {
      assert sorted[..i + 1][..i] == sorted[..i];
      if !(chosen != [] && sorted[i].start < chosen[|chosen| - 1].end) {
        chosen := chosen + [sorted[i]];
      }
      i := i + 1;
    }
    assert sorted[..|sorted|] == sorted;
  }

  ghost predicate Spans(s: seq<Span>) {
    forall i :: 0 <= i < |s| ==> s[i].start < s[i].end
  }

  ghost predicate AscendingDisjoint(s: seq<Span>) {
    && (forall i :: 0 <= i < |s| ==> s[i].start < s[i].end)
    && (forall i, j :: 0 <= i < j < |s| ==> s[i].end <= s[j].start)
  }

  predicate Overlap(a: Span, b: Span) {
    a.start < b.end && b.start < a.end
  }

  lemma {:induction false} KeptAscends(s: seq<Span>)
    requires Ordered(s) && Spans(s)
    ensures AscendingDisjoint(Kept(s)) && (s != [] ==> Kept(s) != [])
    ensures forall y :: y in Kept(s) ==> y in s
    ensures forall i :: 0 <= i < |s| ==> s[i].start < Kept(s)[|Kept(s)| - 1].end
  {
    if s != [] {
      var front, x := s[..|s| - 1], s[|s| - 1];
      KeptAscends(front);
      var kept := Kept(front);
      assert forall y :: y in s <==> y in front || y == x;
      assert forall i :: 0 <= i < |front| ==> s[i] == front[i];
      if kept == [] || x.start >= kept[|kept| - 1].end {
        OneMoreKept(kept, x);
      }
    }
  }

  lemma OneMoreKept(kept: seq<Span>, x: Span)
    requires AscendingDisjoint(kept) && x.start < x.end
    requires kept != [] ==> kept[|kept| - 1].end <= x.start
    ensures AscendingDisjoint(kept + [x]) && (kept != [] ==> kept[|kept| - 1].end < x.end)
  {
    assert forall i :: 0 <= i < |kept| ==> kept[i].end <= kept[|kept| - 1].end;
  }

  /** A chosen span overlaps this one and starts earlier, or with it and is as long. */
  ghost predicate Beaten(kept: seq<Span>, y: Span) {
    exists z :: z in kept && (z.start < y.start || (z.start == y.start && z.end >= y.end)) && Overlap(z, y)
  }

  lemma {:induction false} KeptRejects(s: seq<Span>, i: nat)
    requires Ordered(s) && Spans(s) && i < |s|
    ensures s[i] in Kept(s) || Beaten(Kept(s), s[i])
    decreases |s|
  {
    var front := s[..|s| - 1];
    var kept := Kept(front);
    KeptAscends(front);
    if i < |front| {
      KeptRejects(front, i);
      assert forall z :: z in kept ==> z in Kept(s);
    } else if kept != [] && s[i].start < kept[|kept| - 1].end {
      var z := kept[|kept| - 1];
      assert z in front;
      var j :| 0 <= j < |front| && front[j] == z;
      assert LessEq(s[j], s[i]);
      assert z in Kept(s) && Overlap(z, s[i]);
    }
  }

  lemma {:induction false} KeptIsFirst(s: seq<Span>, y: Span)
    requires Ordered(s) && Spans(s) && y in Kept(s)
    ensures Ties(s, y) != [] && Ties(s, y)[0] == y
    decreases |s|
  {
    var front, x := s[..|s| - 1], s[|s| - 1];
    KeptAscends(front);
    if y in Kept(front) {
      KeptIsFirst(front, y);
    } else {
      NoTies(front, x);
    }
  }

  lemma {:induction false} NoTies(s: seq<Span>, x: Span)
    requires forall i :: 0 <= i < |s| ==> s[i].start != x.start || s[i].end != x.end
    ensures Ties(s, x) == []
  {
    if s != [] {
      NoTies(s[..|s| - 1], x);
    }
  }

  /** The chosen spans ascend and do not overlap.  A rejected span overlaps a chosen one that
      starts earlier, or starts with it and is at least as long; of several spans of one
      place the first of the list is chosen. */
  lemma SelectionIsGreedy(spans: seq<Span>)
    requires Spans(spans)
    ensures AscendingDisjoint(Selected(spans))
    ensures forall y :: y in Selected(spans) ==> y in spans
    ensures forall y :: y in spans && y !in Selected(spans) ==> Beaten(Selected(spans), y)
    ensures forall y :: y in Selected(spans) ==> Ties(spans, y) != [] && Ties(spans, y)[0] == y
  {
    var s := Sorted(spans);
    SortedSorts(spans);
    assert Spans(s) by {
      forall i | 0 <= i < |s| ensures s[i].start < s[i].end {
        assert s[i] in spans;
      }
    }
    KeptAscends(s);
    forall y | y in spans && y !in Selected(spans) ensures Beaten(Selected(spans), y) {
      var i :| 0 <= i < |s| && s[i] == y;
      KeptRejects(s, i);
    }
    forall y | y in Selected(spans) ensures Ties(spans, y) != [] && Ties(spans, y)[0] == y {
      KeptIsFirst(s, y);
      SortedIsStable(spans, y);
    }
  }

  // ----- Rewriting -----

  function RightTrimmed(t: Text, s: string): string {
    if s != "" && t.isSpace(s[|s| - 1]) then RightTrimmed(t, s[..|s| - 1]) else s
  }

  function SentenceCased(t: Text, replacement: string, text: string, start: nat): string
    requires start <= |text|
  {
    if replacement == "" || t.isUpper(replacement[0]) then replacement
    else
      var preceding := RightTrimmed(t, text[..start]);
      if preceding == "" || preceding[|preceding| - 1] in ".!?:" || preceding[|preceding| - 1] == '\n'
      then t.upper(replacement[0]) + replacement[1..]
      else replacement
  }

  /** Spans of a text that ascend, do not overlap and name listed people with last names. */
  ghost predicate Fits(text: string, persons: seq<Person>, s: seq<Span>) {
    && AscendingDisjoint(s)
    && (forall i :: 0 <= i < |s| ==> s[i].end <= |text| && s[i].who < |persons|)
    && (forall i :: 0 <= i < |s| ==> persons[s[i].who].last != "" && persons[s[i].who].last[0] != ' ')
  }

  /** Matches in a text of patterns that contain a person's last name. */
  ghost predicate Found(text: string, persons: seq<Person>, spans: seq<Span>) {
    forall x :: x in spans ==>
      && x.start < x.end <= |text| && x.who < |persons|
      && persons[x.who].last != "" && persons[x.who].last[0] != ' '
  }

  lemma SelectionFits(text: string, persons: seq<Person>, spans: seq<Span>)
    requires Found(text, persons, spans)
    ensures Fits(text, persons, Selected(spans))
  {
    SelectionIsGreedy(spans);
    var s := Selected(spans);
    assert forall i :: 0 <= i < |s| ==> s[i] in spans;
  }

  /** Whether one of the first `k` chosen spans names the person. */
  predicate Seen(s: seq<Span>, k: nat, who: nat)
    requires k <= |s|
  {
    exists j :: 0 <= j < k && s[j].who == who
  }

  /** What the `k`-th chosen span becomes. */
  function Replacement(t: Text, text: string, persons: seq<Person>, s: seq<Span>, k: nat): string
    requires k < |s| && s[k].who < |persons| && s[k].start <= |text|
  {
    var p := persons[s[k].who];
    SentenceCased(t, if Seen(s, k, s[k].who) then ShortForm(p) else FullForm(p), text, s[k].start)
  }

  function Cursor(s: seq<Span>, k: nat): nat
    requires k <= |s|
  {
    if k == 0 then 0 else s[k - 1].end
  }

  ghost predicate Laid(text: string, persons: seq<Person>, s: seq<Span>) {
    && (forall k {:trigger Cursor(s, k)} :: 0 <= k < |s| ==> Cursor(s, k) <= s[k].start < s[k].end <= |text| && s[k].who < |persons|)
    && Cursor(s, |s|) <= |text|
  }

  /** The text between the chosen spans, before each of them. */
  ghost function Gaps(text: string, persons: seq<Person>, s: seq<Span>): (r: seq<string>)
    requires Laid(text, persons, s)
    ensures |r| == |s|
  {
    seq(|s|, k requires 0 <= k < |s| => text[Cursor(s, k)..s[k].start])
  }

  ghost function Replacements(t: Text, text: string, persons: seq<Person>, s: seq<Span>): (r: seq<string>)
    requires Laid(text, persons, s)
    ensures |r| == |s|
  {
    seq(|s|, k requires 0 <= k < |s| => assert Cursor(s, k) <= s[k].start; Replacement(t, text, persons, s, k))
  }

  /** The chosen spans of the original text. */
  ghost function Mentions(text: string, persons: seq<Person>, s: seq<Span>): (r: seq<string>)
    requires Laid(text, persons, s)
    ensures |r| == |s|
  {
    seq(|s|, k requires 0 <= k < |s| => assert Cursor(s, k) <= s[k].start; text[s[k].start..s[k].end])
  }

  /** The first `n` gaps, each followed by its piece. */
  function Interleaved(gaps: seq<string>, pieces: seq<string>, n: nat): string
    requires n <= |gaps| && n <= |pieces|
  {
    if n == 0 then "" else Interleaved(gaps, pieces, n - 1) + gaps[n - 1] + pieces[n - 1]
  }

  /** The chosen spans replaced, the rest of the text as it was. */
  ghost function Output(t: Text, text: string, persons: seq<Person>, s: seq<Span>): string
    requires Fits(text, persons, s)
  {
    InOrder(text, persons, s);
    Interleaved(Gaps(text, persons, s), Replacements(t, text, persons, s), |s|) + text[Cursor(s, |s|)..]
  }

  lemma InOrder(text: string, persons: seq<Person>, s: seq<Span>)
    requires Fits(text, persons, s)
    ensures Laid(text, persons, s) && Named(persons, s)
  {
  }

  /** The output up to the end of the `k`-th chosen span. */
  ghost function Written(t: Text, text: string, persons: seq<Person>, s: seq<Span>, k: nat): string
    requires Laid(text, persons, s) && k <= |s|
  {
    Interleaved(Gaps(text, persons, s), Replacements(t, text, persons, s), k)
  }

  ghost predicate Named(persons: seq<Person>, s: seq<Span>) {
    forall k :: 0 <= k < |s| ==> s[k].who < |persons| && persons[s[k].who].last != "" && persons[s[k].who].last[0] != ' '
  }

  lemma NextPiece(t: Text, text: string, persons: seq<Person>, s: seq<Span>, k: nat)
    requires Laid(text, persons, s) && Named(persons, s) && k < |s|
    ensures Cursor(s, k) <= s[k].start < s[k].end == Cursor(s, k + 1) <= |text| && s[k].who < |persons|
    ensures var p := persons[s[k].who];
            var form := if Seen(s, k, s[k].who) then ShortForm(p) else FullForm(p);
            && form != ""
            && Written(t, text, persons, s, k + 1)
               == Written(t, text, persons, s, k) + text[Cursor(s, k)..s[k].start] + SentenceCased(t, form, text, s[k].start)
  {
    assert Cursor(s, k) <= s[k].start;
    FormsExist(persons[s[k].who]);
  }

  method Rewrite(t: Text, text: string, persons: seq<Person>, spans: seq<Span>) returns (out: string)
    requires Found(text, persons, spans)
    ensures Fits(text, persons, Selected(spans))
    ensures out == Output(t, text, persons, Selected(spans))
  {
    SelectionFits(text, persons, spans);
    var selected := SelectSpans(spans);
    InOrder(text, persons, selected);
    if selected == [] {
      return text;
    }
    out := RewriteSelected(t, text, persons, selected);
  }

  method RewriteSelected(t: Text, text: string, persons: seq<Person>, selected: seq<Span>) returns (out: string)
    requires Laid(text, persons, selected) && Named(persons, selected)
    ensures out == Written(t, text, persons, selected, |selected|) + text[Cursor(selected, |selected|)..]
  {
    out := "";
    var cursor := 0;
    var seen: set<nat> := {};
    var k := 0;
    while k < |selected|
      invariant 0 <= k <= |selected|
      invariant cursor == Cursor(selected, k)
      invariant forall w :: w in seen <==> Seen(selected, k, w)
      invariant out == Written(t, text, persons, selected, k)
    {
      NextPiece(t, text, persons, selected, k);
      NextSeen(selected, k);
      var span := selected[k];
      var person := persons[span.who];
      var replacement := if span.who !in seen then FullForm(person) else ShortForm(person);
      if replacement != "" {
        out := out + text[cursor..span.start];
        out := out + SentenceCased(t, replacement, text, span.start);
        seen := seen + {span.who};
        cursor := span.end;
      }
      k := k + 1;
    }
    out := out + text[cursor..];
  }

  lemma NextSeen(s: seq<Span>, k: nat)
    requires k < |s|
    ensures forall w :: Seen(s, k + 1, w) <==> Seen(s, k, w) || w == s[k].who
  {
    forall w ensures Seen(s, k + 1, w) <==> Seen(s, k, w) || w == s[k].who {
      assert s[k].who == w ==> Seen(s, k + 1, w);
    }
  }

  // ----- What the output means -----

  /** The `k`-th piece stands in the output after the `k`-th gap, which stands after the
      piece before it. */
  lemma {:induction false} PiecesStandInOrder(gaps: seq<string>, pieces: seq<string>, tail: string, k: nat)
    requires k < |gaps| == |pieces|
    ensures var out := Interleaved(gaps, pieces, |gaps|) + tail;
            var from := |Interleaved(gaps, pieces, k)|;
            var at := from + |gaps[k]|;
            && at + |pieces[k]| == |Interleaved(gaps, pieces, k + 1)| <= |out|
            && out[from..at] == gaps[k] && out[at..at + |pieces[k]|] == pieces[k]
  {
    PrefixOf(gaps, pieces, k + 1, |gaps|);
    Inside(Interleaved(gaps, pieces, k), gaps[k], pieces[k], Interleaved(gaps, pieces, |gaps|) + tail);
  }

  lemma Inside(a: string, b: string, c: string, out: string)
    requires a + b + c <= out
    ensures out[|a|..|a| + |b|] == b && out[|a| + |b|..|a| + |b| + |c|] == c
  {
    assert out[..|a + b + c|] == a + b + c;
    assert out[|a|..|a| + |b|] == (a + b + c)[|a|..|a| + |b|];
    assert out[|a| + |b|..|a| + |b| + |c|] == (a + b + c)[|a| + |b|..];
  }

  lemma {:induction false} PrefixOf(gaps: seq<string>, pieces: seq<string>, k: nat, n: nat)
    requires k <= n <= |gaps| && n <= |pieces|
    ensures Interleaved(gaps, pieces, k) <= Interleaved(gaps, pieces, n)
    decreases n
  {
    if k < n {
      PrefixOf(gaps, pieces, k, n - 1);
    }
  }

  /** The same gaps with the original mentions are the original text: rewriting loses,
      moves and repeats nothing but the chosen mentions. */
  lemma NothingElseChanges(text: string, persons: seq<Person>, s: seq<Span>)
    requires Fits(text, persons, s)
    ensures Laid(text, persons, s)
    ensures Interleaved(Gaps(text, persons, s), Mentions(text, persons, s), |s|) + text[Cursor(s, |s|)..] == text
  {
    InOrder(text, persons, s);
    MentionsRestore(text, persons, s, |s|);
    Rejoined(text, Cursor(s, |s|));
  }

  lemma {:induction false} MentionsRestore(text: string, persons: seq<Person>, s: seq<Span>, n: nat)
    requires Laid(text, persons, s) && n <= |s|
    ensures Interleaved(Gaps(text, persons, s), Mentions(text, persons, s), n) == text[..Cursor(s, n)]
  {
    if n > 0 {
      MentionsRestore(text, persons, s, n - 1);
      Join(text, Cursor(s, n - 1), s[n - 1].start, s[n - 1].end);
    }
  }

  lemma Rejoined(text: string, a: nat)
    requires a <= |text|
    ensures text[..a] + text[a..] == text
  {
  }

  lemma Join(text: string, a: nat, b: nat, c: nat)
    requires a <= b <= c <= |text|
    ensures text[..a] + text[a..b] + text[b..c] == text[..c]
  {
  }

  /** Only white space, or white space after a full stop, an exclamation or question mark, a
      colon or a line end, precedes the position. */
  predicate AtSentenceStart(t: Text, text: string, start: nat)
    requires start <= |text|
  {
    || (forall j :: 0 <= j < start ==> t.isSpace(text[j]))
    || exists i :: 0 <= i < start && LastBefore(t, text, i, start) && (text[i] in ".!?:" || text[i] == '\n')
  }

  predicate LastBefore(t: Text, text: string, i: nat, start: nat)
    requires i < start <= |text|
  {
    !t.isSpace(text[i]) && forall j :: i < j < start ==> t.isSpace(text[j])
  }

  lemma {:induction false} TrimsSpaces(t: Text, s: string)
    ensures RightTrimmed(t, s) <= s
    ensures forall j :: |RightTrimmed(t, s)| <= j < |s| ==> t.isSpace(s[j])
    ensures RightTrimmed(t, s) != "" ==> !t.isSpace(s[|RightTrimmed(t, s)| - 1])
  {
    if s != "" && t.isSpace(s[|s| - 1]) {
      TrimsSpaces(t, s[..|s| - 1]);
    }
  }

  /** A form is capitalised exactly at the start of a sentence, unless it is already. */
  lemma CapitalisedIff(t: Text, form: string, text: string, start: nat)
    requires start <= |text| && form != ""
    ensures SentenceCased(t, form, text, start)
            == if !t.isUpper(form[0]) && AtSentenceStart(t, text, start) then t.upper(form[0]) + form[1..] else form
  {
    var before, kept := text[..start], RightTrimmed(t, text[..start]);
    TrimsSpaces(t, before);
    assert forall j :: 0 <= j < start ==> before[j] == text[j];
    if kept != "" {
      var i := |kept| - 1;
      assert kept[i] == text[i] && LastBefore(t, text, i, start);
      assert forall h :: 0 <= h < start && LastBefore(t, text, h, start) ==> h == i;
    }
  }

  /** How a chosen mention is to be written: the person's first one in full and every later
      one short, capitalised exactly at the start of a sentence. */
  ghost function Shown(t: Text, text: string, persons: seq<Person>, s: seq<Span>, k: nat): string
    requires Laid(text, persons, s) && Named(persons, s) && k < |s|
  {
    assert Cursor(s, k) <= s[k].start;
    var p := persons[s[k].who];
    var form := if forall j :: 0 <= j < k ==> s[j].who != s[k].who then FullForm(p) else ShortForm(p);
    if form != "" && !t.isUpper(form[0]) && AtSentenceStart(t, text, s[k].start) then t.upper(form[0]) + form[1..] else form
  }

  /** Each person's first kept mention is written in full and every later one short. */
  lemma FirstMentionInFull(t: Text, text: string, persons: seq<Person>, s: seq<Span>, k: nat)
    requires Laid(text, persons, s) && Named(persons, s) && k < |s|
    ensures Cursor(s, k) <= s[k].start && s[k].start <= |text| && s[k].who < |persons|
    ensures Replacement(t, text, persons, s, k) == Shown(t, text, persons, s, k)
  {
    assert Cursor(s, k) <= s[k].start;
    var p := persons[s[k].who];
    FormsExist(p);
    CapitalisedIff(t, if Seen(s, k, s[k].who) then ShortForm(p) else FullForm(p), text, s[k].start);
  }

  /** In the rewritten text each chosen mention stands as it is to be written, right after
      the untouched text that separates it from the mention before it. */
  lemma MentionsStand(t: Text, text: string, persons: seq<Person>, spans: seq<Span>, k: nat)
    requires Found(text, persons, spans) && k < |Selected(spans)|
    ensures var s := Selected(spans);
            Fits(text, persons, s) && Laid(text, persons, s) && Named(persons, s)
    ensures var s := Selected(spans);
            Standing(t, text, persons, s, k, Output(t, text, persons, s))
  {
    SelectionFits(text, persons, spans);
    InOrder(text, persons, Selected(spans));
    Stands(t, text, persons, Selected(spans), k);
  }

  /** A gap and a piece stand in a text one after the other, from a position on. */
  predicate StandAt(out: string, from: nat, gap: string, piece: string) {
    && from + |gap| + |piece| <= |out|
    && out[from..from + |gap|] == gap && out[from + |gap|..from + |gap| + |piece|] == piece
  }

  /** The gap before the `k`-th mention begins where what was written for the mentions
      before it ends, the `k`-th mention follows the gap, and there the next gap begins. */
  ghost predicate Standing(t: Text, text: string, persons: seq<Person>, s: seq<Span>, k: nat, out: string)
    requires Laid(text, persons, s) && Named(persons, s) && k < |s|
  {
    assert Cursor(s, k) <= s[k].start;
    var gap, shown := text[Cursor(s, k)..s[k].start], Shown(t, text, persons, s, k);
    && StandAt(out, |Written(t, text, persons, s, k)|, gap, shown)
    && |Written(t, text, persons, s, k + 1)| == |Written(t, text, persons, s, k)| + |gap| + |shown|
  }

  lemma Stands(t: Text, text: string, persons: seq<Person>, s: seq<Span>, k: nat)
    requires Fits(text, persons, s) && Laid(text, persons, s) && Named(persons, s) && k < |s|
    ensures Standing(t, text, persons, s, k, Output(t, text, persons, s))
  {
    var gaps, pieces, tail := Gaps(text, persons, s), Replacements(t, text, persons, s), text[Cursor(s, |s|)..];
    PieceStands(gaps, pieces, tail, k);
    FirstMentionInFull(t, text, persons, s, k);
    assert Output(t, text, persons, s) == Interleaved(gaps, pieces, |gaps|) + tail;
  }

  lemma PieceStands(gaps: seq<string>, pieces: seq<string>, tail: string, k: nat)
    requires k < |gaps| == |pieces|
    ensures StandAt(Interleaved(gaps, pieces, |gaps|) + tail, |Interleaved(gaps, pieces, k)|, gaps[k], pieces[k])
    ensures |Interleaved(gaps, pieces, k + 1)| == |Interleaved(gaps, pieces, k)| + |gaps[k]| + |pieces[k]|
  {
    PiecesStandInOrder(gaps, pieces, tail, k);
  }
}
