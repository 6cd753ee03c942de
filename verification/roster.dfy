/** The staff roster document, its four mutations, and the store that keeps it in a
    bucket object behind a generation check. */
module Roster {
  import opened Base

  datatype Person = Person(rank: string, first: string, last: string, number: string, shift: string)

  datatype Document = Document(shifts: seq<string>, staff: seq<Person>)

  /** The string operations of the host language. */
  datatype Text = Text(lower: string -> string, casefold: string -> string, strip: string -> string)

  /** A requested change.  The optional fields of `Edit` are the fields of the request. */
  datatype Mutation =
    | AddFromReport(person: Person)
    | AddByAdmin(person: Person)
    | Edit(id: string, rank: Option<string>, first: Option<string>, last: Option<string>,
           number: Option<string>, shift: Option<string>)
    | Remove(id: string)

  datatype Reply = Added | Duplicate | Updated | Missing | Removed

  datatype Change = Change(doc: Document, reply: Reply)

  // ----- The mutations -----

  predicate SameNumber(t: Text, p: Person, q: Person) {
    t.lower(p.number) == t.lower(q.number)
  }

  predicate SameName(t: Text, p: Person, q: Person) {
    t.lower(p.last) == t.lower(q.last) && t.lower(p.first) == t.lower(q.first)
  }

  /** Position of the first person whose folded number is the folded `id`. */
  function Find(t: Text, staff: seq<Person>, id: string): (r: Option<nat>)
    ensures r.Some? ==> r.value < |staff| && t.casefold(t.strip(staff[r.value].number)) == t.casefold(t.strip(id))
    ensures r.Some? ==> forall i :: 0 <= i < r.value ==> t.casefold(t.strip(staff[i].number)) != t.casefold(t.strip(id))
    ensures r.None? ==> forall i :: 0 <= i < |staff| ==> t.casefold(t.strip(staff[i].number)) != t.casefold(t.strip(id))
  {
    if staff == [] then None
    else
      var front := Find(t, staff[..|staff| - 1], id);
      if front.Some? then front
      else if t.casefold(t.strip(staff[|staff| - 1].number)) == t.casefold(t.strip(id)) then Some(|staff| - 1)
      else None
  }

  function Without(t: Text, staff: seq<Person>, id: string): seq<Person> {
    if staff == [] then []
    else
      var rest := Without(t, staff[..|staff| - 1], id);
      if t.strip(staff[|staff| - 1].number) == t.strip(id) then rest else rest + [staff[|staff| - 1]]
  }

  function Or(given: Option<string>, current: string): string {
    if given.Some? then given.value else current
  }

  function Edited(p: Person, m: Mutation): Person
    requires m.Edit?
  {
    Person(Or(m.rank, p.rank), Or(m.first, p.first), Or(m.last, p.last), Or(m.number, p.number), Or(m.shift, p.shift))
  }

  /** What a mutation does to a document; None means that nothing is to be written.  The
      administrator's mutations answer a duplicate or a missing person by writing the
      document back unchanged. */
  function Mutate(t: Text, m: Mutation, doc: Document): Option<Change> {
    match m
    case AddFromReport(p) =>
      if exists q :: q in doc.staff && (SameNumber(t, q, p) || SameName(t, q, p)) then None
      else Some(Change(doc.(staff := doc.staff + [p]), Added))
    case AddByAdmin(p) =>
      if exists q :: q in doc.staff && t.lower(t.strip(q.number)) == t.lower(p.number) then Some(Change(doc, Duplicate))
      else Some(Change(doc.(staff := doc.staff + [p]), Added))
    case Edit(id, _, _, _, number, _) =>
      var at := Find(t, doc.staff, id);
      if at.None? then Some(Change(doc, Missing))
      else if number.Some? && exists j :: 0 <= j < |doc.staff| && j != at.value
                                          && t.casefold(t.strip(doc.staff[j].number)) == t.casefold(number.value)
      then Some(Change(doc, Duplicate))
      else Some(Change(doc.(staff := doc.staff[at.value := Edited(doc.staff[at.value], m)]), Updated))
    case Remove(id) =>
      var kept := Without(t, doc.staff, id);
      if |kept| == |doc.staff| then None else Some(Change(doc.(staff := kept), Removed))
  }

  /** What a caller hands to the store: any function that edits a document. */
  type Apply = (Mutation, Document) -> Option<Change>

  function Mutator(t: Text): Apply {
    (m, doc) => Mutate(t, m, doc)
  }

  // ----- What a mutation does to the staff -----

  /** An addition from a report is declined exactly when somebody has the number or has both
      the last and the first name, in lower case; otherwise it answers that the person was
      added and appends exactly that person. */
  lemma ReportAdditions(t: Text, p: Person, doc: Document)
    ensures Mutate(t, AddFromReport(p), doc) == None <==>
              exists i :: 0 <= i < |doc.staff| && Resembles(t, doc.staff[i], p)
    ensures Mutate(t, AddFromReport(p), doc).Some? ==>
              Mutate(t, AddFromReport(p), doc) == Some(Change(Document(doc.shifts, doc.staff + [p]), Added))
  {
    if i :| 0 <= i < |doc.staff| && Resembles(t, doc.staff[i], p) {
      assert doc.staff[i] in doc.staff;
    }
  }

  predicate Resembles(t: Text, q: Person, p: Person) {
    || t.lower(q.number) == t.lower(p.number)
    || (t.lower(q.last) == t.lower(p.last) && t.lower(q.first) == t.lower(p.first))
  }

  /** The administrator's addition always writes: the document as it was if somebody has the
      number, or else with exactly that person appended. */
  lemma AdminAdditions(t: Text, p: Person, doc: Document)
    ensures Mutate(t, AddByAdmin(p), doc) ==
              Some(if exists i :: 0 <= i < |doc.staff| && t.lower(t.strip(doc.staff[i].number)) == t.lower(p.number)
                   then Change(doc, Duplicate)
                   else Change(Document(doc.shifts, doc.staff + [p]), Added))
  {
    if i :| 0 <= i < |doc.staff| && t.lower(t.strip(doc.staff[i].number)) == t.lower(p.number) {
      assert doc.staff[i] in doc.staff;
    }
  }

  /** The first person with the number. */
  predicate IsFirst(t: Text, staff: seq<Person>, id: string, at: nat) {
    && at < |staff| && t.casefold(t.strip(staff[at].number)) == t.casefold(t.strip(id))
    && forall j :: 0 <= j < at ==> t.casefold(t.strip(staff[j].number)) != t.casefold(t.strip(id))
  }

  /** An edit changes the requested fields of the first person with the number, keeps that
      person's other fields and everybody else; it is refused exactly when nobody has the
      number or another one has the new number. */
  lemma Edits(t: Text, m: Mutation, doc: Document)
    requires m.Edit?
    ensures Mutate(t, m, doc).Some?
    ensures var change := Mutate(t, m, doc).value;
            && (change.reply == Missing <==> forall j :: 0 <= j < |doc.staff| ==> !IsFirst(t, doc.staff, m.id, j))
            && (change.reply != Updated ==> change.doc == doc && (change.reply == Missing || change.reply == Duplicate))
            && forall at: nat :: IsFirst(t, doc.staff, m.id, at) ==>
                 && (change.reply == Duplicate <==>
                       m.number.Some? && exists j :: 0 <= j < |doc.staff| && j != at
                                              && t.casefold(t.strip(doc.staff[j].number)) == t.casefold(m.number.value))
                 && (change.reply == Updated ==>
                       && change.doc.shifts == doc.shifts && |change.doc.staff| == |doc.staff|
                       && (forall j :: 0 <= j < |doc.staff| && j != at ==> change.doc.staff[j] == doc.staff[j])
                       && IsEdited(m, doc.staff[at], change.doc.staff[at]))
  {
    var found := Find(t, doc.staff, m.id);
    if found.Some? {
      assert IsFirst(t, doc.staff, m.id, found.value);
    }
    assert forall at: nat :: IsFirst(t, doc.staff, m.id, at) ==> found == Some(at);
  }

  predicate IsEdited(m: Mutation, was: Person, now: Person)
    requires m.Edit?
  {
    && (m.rank.Some? ==> now.rank == m.rank.value) && (m.rank.None? ==> now.rank == was.rank)
    && (m.first.Some? ==> now.first == m.first.value) && (m.first.None? ==> now.first == was.first)
    && (m.last.Some? ==> now.last == m.last.value) && (m.last.None? ==> now.last == was.last)
    && (m.number.Some? ==> now.number == m.number.value) && (m.number.None? ==> now.number == was.number)
    && (m.shift.Some? ==> now.shift == m.shift.value) && (m.shift.None? ==> now.shift == was.shift)
  }

  // ----- Uniqueness -----

  /** Strings that differ when folded also differ in lower case. */
  ghost predicate FoldsAgree(t: Text) {
    forall a, b :: t.lower(a) == t.lower(b) ==> t.casefold(a) == t.casefold(b)
  }

  ghost predicate NumbersUnique(t: Text, staff: seq<Person>) {
    && (forall i :: 0 <= i < |staff| ==> t.strip(staff[i].number) == staff[i].number)
    && (forall i, j :: 0 <= i < j < |staff| ==> !SameNumber(t, staff[i], staff[j]))
  }

  ghost predicate NamesUnique(t: Text, staff: seq<Person>) {
    forall i, j :: 0 <= i < j < |staff| ==> !SameName(t, staff[i], staff[j])
  }

  /** The callers strip a number before they build the mutation. */
  predicate Stripped(t: Text, m: Mutation) {
    match m
    case AddFromReport(p) => t.strip(p.number) == p.number
    case AddByAdmin(p) => t.strip(p.number) == p.number
    case Edit(_, _, _, _, number, _) => number.Some? ==> t.strip(number.value) == number.value
    case Remove(_) => true
  }

  /** Whoever is left after a removal stays, in the old order. */
  lemma {:induction false} WithoutKeeps(t: Text, staff: seq<Person>, id: string) returns (at: seq<nat>)
    ensures |at| == |Without(t, staff, id)|
    ensures forall k :: 0 <= k < |at| ==> at[k] < |staff| && Without(t, staff, id)[k] == staff[at[k]]
    ensures forall k, l :: 0 <= k < l < |at| ==> at[k] < at[l]
  {
    at := [];
    if staff != [] {
      at := WithoutKeeps(t, staff[..|staff| - 1], id);
      if t.strip(staff[|staff| - 1].number) != t.strip(id) {
        at := at + [|staff| - 1];
      }
    }
  }

  /** A removal that writes answers so and keeps exactly the others, in order, and the shifts. */
  lemma Removals(t: Text, id: string, doc: Document) returns (at: seq<nat>)
    ensures Mutate(t, Remove(id), doc).Some? ==>
              var change := Mutate(t, Remove(id), doc).value;
              && change.reply == Removed && change.doc.shifts == doc.shifts
              && |at| == |change.doc.staff|
              && (forall k :: 0 <= k < |at| ==> at[k] < |doc.staff| && change.doc.staff[k] == doc.staff[at[k]])
              && (forall k, l :: 0 <= k < l < |at| ==> at[k] < at[l])
              && (forall p :: p in change.doc.staff <==> p in doc.staff && t.strip(p.number) != t.strip(id))
  {
    at := WithoutKeeps(t, doc.staff, id);
    forall p ensures p in Without(t, doc.staff, id) <==> p in doc.staff && t.strip(p.number) != t.strip(id) {
      WithoutRemoves(t, doc.staff, id, p);
    }
  }

  /** Exactly those with the number leave. */
  lemma {:induction false} WithoutRemoves(t: Text, staff: seq<Person>, id: string, p: Person)
    ensures p in Without(t, staff, id) <==> p in staff && t.strip(p.number) != t.strip(id)
  {
    if staff != [] {
      WithoutRemoves(t, staff[..|staff| - 1], id, p);
      assert p in staff <==> p in staff[..|staff| - 1] || p == staff[|staff| - 1];
    }
  }

  /** A removal writes exactly when somebody has the number. */
  lemma RemoveWritesIff(t: Text, id: string, doc: Document)
    ensures Mutate(t, Remove(id), doc).Some? <==> exists p :: p in doc.staff && t.strip(p.number) == t.strip(id)
  {
    ShorterIff(t, doc.staff, id);
  }

  lemma {:induction false} ShorterIff(t: Text, staff: seq<Person>, id: string)
    ensures |Without(t, staff, id)| <= |staff|
    ensures |Without(t, staff, id)| < |staff| <==> exists p :: p in staff && t.strip(p.number) == t.strip(id)
  {
    if staff != [] {
      var front, last := staff[..|staff| - 1], staff[|staff| - 1];
      ShorterIff(t, front, id);
      assert forall p :: p in staff <==> p in front || p == last;
    }
  }

  /** Every mutation keeps the employee numbers unique. */
  lemma NumbersStayUnique(t: Text, m: Mutation, doc: Document)
    requires FoldsAgree(t) && Stripped(t, m) && NumbersUnique(t, doc.staff)
    ensures Mutate(t, m, doc).Some? ==> NumbersUnique(t, Mutate(t, m, doc).value.doc.staff)
  {
    var c := Mutate(t, m, doc);
    if c.Some? {
      match m
      case AddFromReport(p) =>
        assert forall i :: 0 <= i < |doc.staff| ==> doc.staff[i] in doc.staff;
      case AddByAdmin(p) =>
        assert forall i :: 0 <= i < |doc.staff| ==> doc.staff[i] in doc.staff;
      case Edit(id, _, _, _, _, _) =>
      case Remove(id) =>
        var at := WithoutKeeps(t, doc.staff, id);
    }
  }

  /** A removal and an addition from a report keep the names unique. */
  lemma NamesStayUnique(t: Text, m: Mutation, doc: Document)
    requires m.AddFromReport? || m.Remove?
    requires NamesUnique(t, doc.staff)
    ensures Mutate(t, m, doc).Some? ==> NamesUnique(t, Mutate(t, m, doc).value.doc.staff)
  {
    match m
    case AddFromReport(p) =>
      assert forall i :: 0 <= i < |doc.staff| ==> doc.staff[i] in doc.staff;
    case Remove(id) =>
      var at := WithoutKeeps(t, doc.staff, id);
    case _ =>
  }

  /** The administrator's form does not look at names: it keeps them unique exactly when
      the number is taken or the name is new. */
  lemma AdminKeepsNamesUniqueIff(t: Text, p: Person, doc: Document)
    requires NamesUnique(t, doc.staff)
    ensures NamesUnique(t, Mutate(t, AddByAdmin(p), doc).value.doc.staff)
            <==> (|| (exists q :: q in doc.staff && t.lower(t.strip(q.number)) == t.lower(p.number))
                  || !exists q :: q in doc.staff && SameName(t, q, p))
  {
    var after := Mutate(t, AddByAdmin(p), doc).value.doc.staff;
    if !exists q :: q in doc.staff && t.lower(t.strip(q.number)) == t.lower(p.number) {
      if q :| q in doc.staff && SameName(t, q, p) {
        var i :| 0 <= i < |doc.staff| && doc.staff[i] == q;
        assert SameName(t, after[i], after[|doc.staff|]);
      } else {
        assert forall i :: 0 <= i < |doc.staff| ==> doc.staff[i] in doc.staff;
      }
    }
  }

  predicate NewName(t: Text, staff: seq<Person>, p: Person, except: Option<nat>) {
    forall j :: 0 <= j < |staff| && Some(j) != except ==> !SameName(t, staff[j], p)
  }

  /** When a mutation does no harm to unique names: the administrator's addition if it adds
      nobody or a new name, the administrator's edit if it edits nobody or gives a name that
      no other position has; the others always. */
  predicate KeepsNames(t: Text, m: Mutation, doc: Document) {
    match m
    case AddByAdmin(p) => Mutate(t, m, doc).value.reply == Added ==> NewName(t, doc.staff, p, None)
    case Edit(id, _, _, _, _, _) =>
      Mutate(t, m, doc).value.reply == Updated ==>
        var at := Find(t, doc.staff, id).value;
        NewName(t, doc.staff, Edited(doc.staff[at], m), Some(at))
    case _ => true
  }

  /** The administrator's edit does not look at names either: once it answers that somebody
      was updated, names are unique exactly when no other position has the new name. */
  lemma EditKeepsNamesUniqueIff(t: Text, m: Mutation, doc: Document)
    requires m.Edit? && NamesUnique(t, doc.staff)
    requires Mutate(t, m, doc).value.reply == Updated
    ensures var at := Find(t, doc.staff, m.id).value;
            NamesUnique(t, Mutate(t, m, doc).value.doc.staff) <==> NewName(t, doc.staff, Edited(doc.staff[at], m), Some(at))
  {
    var at := Find(t, doc.staff, m.id).value;
    RenamedIff(t, doc.staff, at, Edited(doc.staff[at], m));
  }

  lemma RenamedIff(t: Text, staff: seq<Person>, at: nat, p: Person)
    requires NamesUnique(t, staff) && at < |staff|
    ensures NamesUnique(t, staff[at := p]) <==> NewName(t, staff, p, Some(at))
  {
    var after := staff[at := p];
    if !NewName(t, staff, p, Some(at)) {
      var j :| 0 <= j < |staff| && j != at && SameName(t, staff[j], p);
      assert if j < at then SameName(t, after[j], after[at]) else SameName(t, after[at], after[j]);
    }
  }

  /** For all mutations together. */
  lemma NamesStayUniqueIff(t: Text, m: Mutation, doc: Document)
    requires NamesUnique(t, doc.staff)
    ensures (Mutate(t, m, doc).Some? ==> NamesUnique(t, Mutate(t, m, doc).value.doc.staff)) <==> KeepsNames(t, m, doc)
  {
    match m
    case AddFromReport(_) => NamesStayUnique(t, m, doc);
    case Remove(_) => NamesStayUnique(t, m, doc);
    case AddByAdmin(p) =>
      AdminKeepsNamesUniqueIff(t, p, doc);
      NewNameIff(t, doc.staff, p);
    case Edit(_, _, _, _, _, _) =>
      if Mutate(t, m, doc).value.reply == Updated {
        EditKeepsNamesUniqueIff(t, m, doc);
      }
  }

  lemma NewNameIff(t: Text, staff: seq<Person>, p: Person)
    ensures NewName(t, staff, p, None) <==> !exists q :: q in staff && SameName(t, q, p)
  {
    assert forall j :: 0 <= j < |staff| ==> staff[j] in staff;
  }

  /** For instance a second person of the same name under another number. */
  lemma AdditionOfANamesake(t: Text, shifts: seq<string>, a: Person, b: Person)
    requires SameName(t, a, b) && t.lower(t.strip(a.number)) != t.lower(b.number)
    ensures var change := Mutate(t, AddByAdmin(b), Document(shifts, [a])).value;
            NamesUnique(t, [a]) && change.reply == Added && !NamesUnique(t, change.doc.staff)
  {
    var doc := Document(shifts, [a]);
    AdminKeepsNamesUniqueIff(t, b, doc);
    assert a in doc.staff;
  }

  /** And one of two people edited to bear the other's name. */
  lemma EditToANamesake(t: Text, shifts: seq<string>, a: Person, b: Person)
    requires !SameName(t, a, b) && t.casefold(t.strip(a.number)) != t.casefold(t.strip(b.number))
    ensures var m := Edit(b.number, None, Some(a.first), Some(a.last), None, None);
            var change := Mutate(t, m, Document(shifts, [a, b])).value;
            NamesUnique(t, [a, b]) && change.reply == Updated && !NamesUnique(t, change.doc.staff)
  {
    var doc := Document(shifts, [a, b]);
    var m := Edit(b.number, None, Some(a.first), Some(a.last), None, None);
    assert doc.staff[1] == b;
    var at := Find(t, doc.staff, b.number);
    assert at == Some(1);
    EditKeepsNamesUniqueIff(t, m, doc);
    assert SameName(t, doc.staff[0], Edited(doc.staff[1], m));
  }

  // ----- The store of one process -----

  const ATTEMPTS := 5

  datatype Cached = Cached(doc: Document, expires: Instant)

  datatype Outcome = Answered(reply: Reply) | NothingToDo | GaveUp

  /** The document the `k`-th attempt fetches, if rivals leave `rivals[i]` behind between
      the fetch and the write of attempt `i`. */
  function Fetched(doc: Document, rivals: seq<Option<Document>>, k: nat): Document
    requires k <= |rivals|
  {
    if k == 0 then doc
    else if rivals[k - 1].Some? then rivals[k - 1].value
    else Fetched(doc, rivals, k - 1)
  }

  /** The bucket object, created by the first write, and one process's cache of it. */
  class Store {
    var generation: nat
    var content: Document
    var cache: Option<Cached>

    constructor (seed: Document)
      ensures generation == 0 && content == seed && cache == None
    {
      generation, content, cache := 0, seed, None;
    }

    method Invalidate()
      modifies this`cache
      ensures cache == None
    {
      cache := None;
    }

    /** The conditional write of the bucket: refused unless the object is still the one
        of generation `expected`. */
    method Write(doc: Document, expected: nat) returns (ok: bool)
      modifies this`generation, this`content
      ensures ok == (old(generation) == expected)
      ensures ok ==> content == doc && generation > old(generation)
      ensures !ok ==> content == old(content) && generation == old(generation)
    {
      ok := generation == expected;
      if ok {
        content, generation := doc, generation + 1;
      }
    }

    /** `clock` is read before the lookup and `stored` after the download. */
    method Read(refresh: bool, clock: Instant, stored: Instant, ttl: int) returns (doc: Document)
      modifies this`cache
      ensures var hit := !refresh && old(cache).Some? && clock < old(cache).value.expires;
              && doc == (if hit then old(cache).value.doc else content)
              && cache == if hit then old(cache) else Some(Cached(content, stored + ttl))
    {
      if !refresh && cache.Some? && clock < cache.value.expires {
        return cache.value.doc;
      }
      cache := Some(Cached(content, stored + ttl));
      return content;
    }

    /** The change is applied to the newest document or not at all: it is made on what the
        last attempt fetched, that attempt saw no rival, and all earlier ones did. */
    method Update(f: Apply, m: Mutation, rivals: seq<Option<Document>>) returns (out: Outcome, tries: nat)
      requires |rivals| == ATTEMPTS
      modifies this
      ensures 1 <= tries <= ATTEMPTS
      ensures forall k :: 0 <= k < tries - 1 ==> rivals[k].Some?
      ensures var doc := Fetched(old(content), rivals, tries - 1);
              match out
              case Answered(reply) => rivals[tries - 1].None? && f(m, doc) == Some(Change(content, reply)) && cache == None
              case NothingToDo => f(m, doc) == None && content == doc
              case GaveUp => tries == ATTEMPTS && rivals[4].Some? && content == rivals[4].value
      ensures out == NothingToDo && tries == 1 ==> cache == old(cache) && generation == old(generation)
      ensures out == NothingToDo && tries > 1 ==> cache == None
    {
      tries := 1;
      while true
        invariant 1 <= tries <= ATTEMPTS
        invariant forall k :: 0 <= k < tries - 1 ==> rivals[k].Some?
        invariant content == Fetched(old(content), rivals, tries - 1)
        invariant if tries == 1 then cache == old(cache) && generation == old(generation) else cache == None
        decreases ATTEMPTS - tries
      {
        var doc, seen := content, generation;
        var change := f(m, doc);
        if change.None? {
          return NothingToDo, tries;
        }
        if rivals[tries - 1].Some? {
          content, generation := rivals[tries - 1].value, generation + 1;
        }
        var ok := Write(change.value.doc, seen);
        if !ok && tries == ATTEMPTS {
          return GaveUp, tries;
        }
        Invalidate();
        if ok {
          return Answered(change.value.reply), tries;
        }
        tries := tries + 1;
      }
    }
  }
}
