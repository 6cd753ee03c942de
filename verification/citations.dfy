/** Citation markers in a generated answer: scanning, renumbering and grounding. */
module Citations {
  import opened Base
  import opened Decimal

  datatype Passage = Passage(source: string, text: string)

  datatype Citation = Citation(n: nat, passage: Passage)

  datatype Grounded = Grounded(answer: string, citations: seq<Citation>, grounded: bool)

  // ----- Text as a sequence of plain characters and [digits] markers -----

  datatype Piece = Plain(c: char) | Mark(digits: string)

  /** Length of the longest run of digits that starts `s`. */
  function DigitRun(s: string): (n: nat)
    ensures n <= |s| && AllDigits(s[..n])
    ensures n < |s| ==> !IsDigit(s[n])
  {
    if s == [] || !IsDigit(s[0]) then 0
    else
      var n := DigitRun(s[1..]);
      assert forall i :: 0 <= i < n ==> s[1..][..n][i] == s[1..][i] == s[i + 1];
      1 + n
  }

  /** Whether a marker, an opening bracket, digits and a closing bracket, starts `s`. */
  predicate MarkStarts(s: string) {
    s != [] && s[0] == '[' &&
    var n := DigitRun(s[1..]);
    n > 0 && n + 1 < |s| && s[n + 1] == ']'
  }

  /** Left-to-right scan for non-overlapping markers. */
  function Scan(s: string): (ps: seq<Piece>)
    decreases |s|
  {
    if s == [] then []
    else if MarkStarts(s) then
      var n := DigitRun(s[1..]);
      [Mark(s[1..n + 1])] + Scan(s[n + 2..])
    else [Plain(s[0])] + Scan(s[1..])
  }

  function PieceText(p: Piece): string {
    match p
    case Plain(c) => [c]
    case Mark(d) => "[" + d + "]"
  }

  function Text(ps: seq<Piece>): string {
    if ps == [] then "" else PieceText(ps[0]) + Text(ps[1..])
  }

  predicate Numeral(p: Piece) {
    p.Mark? ==> p.digits != "" && AllDigits(p.digits)
  }

  /** Pieces that a scan can return: every marker holds digits, and no plain
      bracket is the start of a marker. */
  predicate Canonical(ps: seq<Piece>) {
    ps != [] ==>
      && Numeral(ps[0])
      && (ps[0].Plain? ==> !MarkStarts(Text(ps)))
      && Canonical(ps[1..])
  }

  /** Scanning loses no character, and what it returns is canonical. */
  lemma {:induction false} ScanIsFaithful(s: string)
    ensures Text(Scan(s)) == s
    ensures Canonical(Scan(s))
    decreases |s|
  {
    if s != [] {
      if MarkStarts(s) {
        var n := DigitRun(s[1..]);
        ScanIsFaithful(s[n + 2..]);
        MarkSplits(s);
        AddPiece(Mark(s[1..n + 1]), Scan(s[n + 2..]));
      } else {
        ScanIsFaithful(s[1..]);
        assert s == [s[0]] + s[1..];
        AddPiece(Plain(s[0]), Scan(s[1..]));
      }
    }
  }

  lemma MarkSplits(s: string)
    requires MarkStarts(s)
    ensures var n := DigitRun(s[1..]);
            && s == "[" + s[1..n + 1] + "]" + s[n + 2..]
            && s[1..n + 1] != "" && AllDigits(s[1..n + 1])
  {
    var n := DigitRun(s[1..]);
    assert s[1..n + 1] == s[1..][..n];
  }

  lemma AddPiece(p: Piece, ps: seq<Piece>)
    requires Canonical(ps) && Numeral(p) && (p.Plain? ==> !MarkStarts(PieceText(p) + Text(ps)))
    ensures Canonical([p] + ps) && Text([p] + ps) == PieceText(p) + Text(ps)
  {
    assert ([p] + ps)[1..] == ps;
  }

  /** Canonical pieces are exactly what their text scans to. */
  lemma {:induction false} ScanInvertsText(ps: seq<Piece>)
    requires Canonical(ps)
    ensures Scan(Text(ps)) == ps
  {
    if ps != [] {
      ScanInvertsText(ps[1..]);
      match ps[0]
      case Plain(c) =>
        ScanPlain(c, Text(ps[1..]));
        assert ps == [Plain(c)] + ps[1..];
      case Mark(d) =>
        ScanMarker(d, Text(ps[1..]));
        assert ps == [Mark(d)] + ps[1..];
    }
  }

  lemma ScanPlain(c: char, rest: string)
    requires !MarkStarts([c] + rest)
    ensures Scan([c] + rest) == [Plain(c)] + Scan(rest)
  {
    assert ([c] + rest)[1..] == rest;
  }

  lemma ScanMarker(d: string, rest: string)
    requires d != "" && AllDigits(d)
    ensures Scan("[" + d + "]" + rest) == [Mark(d)] + Scan(rest)
  {
    var t := "[" + d + "]" + rest;
    assert t[1..] == d + "]" + rest;
    RunBeforeBracket(d, rest);
    assert t[1..|d| + 1] == d;
    assert t[|d| + 2..] == rest;
  }

  lemma {:induction false} RunBeforeBracket(d: string, rest: string)
    requires AllDigits(d)
    ensures DigitRun(d + "]" + rest) == |d|
  {
    var s := d + "]" + rest;
    if d != "" {
      RunBeforeBracket(d[1..], rest);
      assert s[1..] == d[1..] + "]" + rest;
    }
  }

  // ----- Scanning for valid citations -----

  predicate Valid(p: Piece, n: nat) {
    p.Mark? && AllDigits(p.digits) && 1 <= ValueOf(p.digits) <= n
  }

  /** One marker of the scan: a valid number not seen before is appended. */
  function Extend(out: seq<nat>, p: Piece, n: nat): seq<nat> {
    if Valid(p, n) && ValueOf(p.digits) !in out then out + [ValueOf(p.digits)] else out
  }

  /** Distinct valid passage numbers in order of first appearance. */
  function Cited(ps: seq<Piece>, n: nat): (out: seq<nat>)
    ensures Distinct(out)
    ensures forall v :: v in out ==> 1 <= v <= n
  {
    if ps == [] then []
    else
      Extend(Cited(ps[..|ps| - 1], n), ps[|ps| - 1], n)
  }

  /** The loop over markers returns the distinct valid numbers in first-use order. */
  method CitedIndices(answer: string, passages: nat) returns (out: seq<nat>)
    ensures out == Cited(Scan(answer), passages)
  {
    var found := Scan(answer);
    ScanIsFaithful(answer);
    out := [];
    for k := 0 to |found|
      invariant out == Cited(found[..k], passages)
    {
      CitedStep(found, k + 1, passages);
      if found[k].Mark? {
        NumeralAt(found, k);
        var i := ValueOf(found[k].digits);
        if 1 <= i <= passages && i !in out {
          out := out + [i];
        }
      }
    }
    assert found[..|found|] == found;
  }

  lemma CitedStep(ps: seq<Piece>, j: nat, n: nat)
    requires 0 < j <= |ps|
    ensures Cited(ps[..j], n) == Extend(Cited(ps[..j - 1], n), ps[j - 1], n)
  {
    assert ps[..j][..j - 1] == ps[..j - 1];
  }

  lemma {:induction false} NumeralAt(ps: seq<Piece>, k: nat)
    requires Canonical(ps) && k < |ps|
    ensures Numeral(ps[k])
  {
    if k > 0 {
      NumeralAt(ps[1..], k - 1);
    }
  }

  lemma CitedGrows(ps: seq<Piece>, k: nat, n: nat)
    requires k <= |ps|
    ensures Cited(ps[..k], n) <= Cited(ps, n)
  {
    if k == |ps| {
      assert ps[..k] == ps;
    } else {
      CitedGrows(ps[..|ps| - 1], k, n);
      assert ps[..|ps| - 1][..k] == ps[..k];
    }
  }

  /** The `k`-th piece is a valid marker for passage `v`. */
  predicate Cites(ps: seq<Piece>, n: nat, k: int, v: nat) {
    0 <= k < |ps| && Valid(ps[k], n) && ValueOf(ps[k].digits) == v
  }

  ghost predicate SomeCites(ps: seq<Piece>, n: nat, v: nat) {
    exists k :: Cites(ps, n, k, v)
  }

  /** A number is returned exactly when a valid marker carries it. */
  lemma {:induction false} CitedExactly(ps: seq<Piece>, n: nat, v: nat)
    ensures v in Cited(ps, n) <==> SomeCites(ps, n, v)
  {
    if ps != [] {
      CitedExactly(ps[..|ps| - 1], n, v);
      CitesStep(ps, n, v);
    }
  }

  lemma CitesStep(ps: seq<Piece>, n: nat, v: nat)
    requires ps != []
    ensures SomeCites(ps, n, v)
            <==> SomeCites(ps[..|ps| - 1], n, v) || (Valid(ps[|ps| - 1], n) && ValueOf(ps[|ps| - 1].digits) == v)
  {
    var front, m := ps[..|ps| - 1], |ps| - 1;
    assert forall k :: k < m ==> (Cites(ps, n, k, v) <==> Cites(front, n, k, v));
    if Valid(ps[m], n) && ValueOf(ps[m].digits) == v {
      assert Cites(ps, n, m, v);
    }
  }

  /** An earlier entry has a marker before every marker of a later entry. */
  lemma {:induction false} CitedInFirstUseOrder(ps: seq<Piece>, n: nat, i: nat, j: nat, k: nat)
    requires i < j < |Cited(ps, n)| && Cites(ps, n, k, Cited(ps, n)[j])
    ensures exists f :: f < k && Cites(ps, n, f, Cited(ps, n)[i])
  {
    var front, m := ps[..|ps| - 1], |ps| - 1;
    var c, full := Cited(front, n), Cited(ps, n);
    assert full[i] == c[i];
    if k < m {
      assert Cites(front, n, k, full[j]);
      CitedExactly(front, n, full[j]);
      assert full[j] == c[j] by {
        assert full[j] in c;
      }
      CitedInFirstUseOrder(front, n, i, j, k);
      var f :| f < k && Cites(front, n, f, c[i]);
      assert Cites(ps, n, f, full[i]);
    } else {
      CitedExactly(front, n, c[i]);
      var f :| Cites(front, n, f, c[i]);
      assert Cites(ps, n, f, full[i]);
    }
  }

  // ----- Renumbering -----

  /** The original-to-new number mapping built by enumerating `cited` from 1. */
  function Mapping(cited: seq<nat>): (m: map<nat, nat>)
    ensures forall v :: v in m <==> v in cited
  {
    if cited == [] then map[]
    else
      assert cited == cited[..|cited| - 1] + [cited[|cited| - 1]];
      Mapping(cited[..|cited| - 1])[cited[|cited| - 1] := |cited|]
  }

  lemma {:induction false} MappingNumbersFromOne(cited: seq<nat>, i: nat)
    requires Distinct(cited) && i < |cited|
    ensures cited[i] in Mapping(cited) && Mapping(cited)[cited[i]] == i + 1
  {
    if i < |cited| - 1 {
      MappingNumbersFromOne(cited[..|cited| - 1], i);
    }
  }

  function NewPiece(p: Piece, mapping: map<nat, nat>): Piece {
    if p.Mark? && AllDigits(p.digits) && ValueOf(p.digits) in mapping
    then Mark(Print(mapping[ValueOf(p.digits)]))
    else p
  }

  function NewPieces(ps: seq<Piece>, mapping: map<nat, nat>): (qs: seq<Piece>)
    ensures |qs| == |ps|
    ensures forall k :: 0 <= k < |ps| ==> qs[k] == NewPiece(ps[k], mapping)
  {
    seq(|ps|, k requires 0 <= k < |ps| => NewPiece(ps[k], mapping))
  }

  /** The rewritten answer: markers of `cited` become 1..k, all else is kept. */
  function Renumber(answer: string, cited: seq<nat>): string {
    Text(NewPieces(Scan(answer), Mapping(cited)))
  }

  /** What follows the digits that start a text. */
  function AfterDigits(s: string): Option<char> {
    if DigitRun(s) < |s| then Some(s[DigitRun(s)]) else None
  }

  lemma {:induction false} SameRun(ps: seq<Piece>, m: map<nat, nat>)
    requires forall k :: 0 <= k < |ps| ==> Numeral(ps[k])
    ensures DigitRun(Text(ps)) == DigitRun(Text(NewPieces(ps, m)))
    ensures AfterDigits(Text(ps)) == AfterDigits(Text(NewPieces(ps, m)))
  {
    if ps != [] {
      var qs := NewPieces(ps, m);
      var t, u := Text(ps), Text(qs);
      if ps[0].Plain? {
        SameRun(ps[1..], m);
        assert t[1..] == Text(ps[1..]) && u[1..] == Text(qs[1..]);
        assert qs[1..] == NewPieces(ps[1..], m);
      } else {
        assert t[0] == '[' && u[0] == '[';
      }
    }
  }

  lemma {:induction false} RewriteKeepsCanonical(ps: seq<Piece>, m: map<nat, nat>)
    requires Canonical(ps)
    ensures Canonical(NewPieces(ps, m))
  {
    if ps != [] {
      var qs := NewPieces(ps, m);
      RewriteKeepsCanonical(ps[1..], m);
      assert qs[1..] == NewPieces(ps[1..], m);
      if ps[0].Plain? {
        forall k | 0 <= k < |ps[1..]| ensures Numeral(ps[1..][k]) { NumeralAt(ps[1..], k); }
        SameRun(ps[1..], m);
        assert Text(ps)[1..] == Text(ps[1..]) && Text(qs)[1..] == Text(qs[1..]);
      } else if ValueOf(ps[0].digits) in m {
        PrintedValue(m[ValueOf(ps[0].digits)]);
      }
    }
  }

  /** Renumbering changes nothing but the digits inside cited markers: the new text
      scans to the old pieces, one for one, with only those digits replaced. */
  lemma RenumberAligns(answer: string, cited: seq<nat>)
    ensures Scan(Renumber(answer, cited)) == NewPieces(Scan(answer), Mapping(cited))
  {
    ScanIsFaithful(answer);
    RewriteKeepsCanonical(Scan(answer), Mapping(cited));
    ScanInvertsText(NewPieces(Scan(answer), Mapping(cited)));
  }

  // ----- Grounding -----

  function Cite(cited: seq<nat>, contexts: seq<Passage>): (cs: seq<Citation>)
    requires forall v :: v in cited ==> 1 <= v <= |contexts|
    ensures |cs| == |cited|
  {
    seq(|cited|, i requires 0 <= i < |cited| =>
      assert cited[i] in cited && cited[i] in Mapping(cited);
      Citation(Mapping(cited)[cited[i]], contexts[cited[i] - 1]))
  }

  /** Post-processing of an answer, with lexical inference switched off. */
  function BuildGrounded(answer: string, contexts: seq<Passage>): Grounded {
    var cited := Cited(Scan(answer), |contexts|);
    if cited == [] then Grounded(answer, [], false)
    else Grounded(Renumber(answer, cited), Cite(cited, contexts), true)
  }

  function PassagesOf(cs: seq<Citation>): seq<Passage> {
    seq(|cs|, i requires 0 <= i < |cs| => cs[i].passage)
  }

  /** How a marker of the old answer relates to the piece that replaces it. */
  ghost predicate SameMeaning(before: Piece, contexts: seq<Passage>, after: Piece, citations: seq<Citation>) {
    match before
    case Plain(_) => after == before
    case Mark(_) =>
      if Valid(before, |contexts|) then
        && Valid(after, |citations|)
        && var c := citations[ValueOf(after.digits) - 1];
        && c.n == ValueOf(after.digits)
        && c.passage == contexts[ValueOf(before.digits) - 1]
      else after == before && !Valid(after, |citations|)
  }

  /** Grounding keeps the meaning of every piece: plain text is unchanged, a valid
      marker carries the number of the citation with the passage it named before, and
      an invalid marker is unchanged and names no citation. */
  lemma MarkersKeepTheirPassage(answer: string, contexts: seq<Passage>)
    ensures var r := BuildGrounded(answer, contexts);
            && |Scan(r.answer)| == |Scan(answer)|
            && forall k :: 0 <= k < |Scan(answer)| ==> SameMeaning(Scan(answer)[k], contexts, Scan(r.answer)[k], r.citations)
  {
    var ps, n := Scan(answer), |contexts|;
    var cited, r := Cited(ps, n), BuildGrounded(answer, contexts);
    ScanIsFaithful(answer);
    if cited != [] {
      RenumberAligns(answer, cited);
    }
    forall k | 0 <= k < |ps| ensures SameMeaning(ps[k], contexts, Scan(r.answer)[k], r.citations) {
      NumeralAt(ps, k);
      MarkerKeepsItsPassage(ps, contexts, k);
    }
  }

  lemma MarkerKeepsItsPassage(ps: seq<Piece>, contexts: seq<Passage>, k: nat)
    requires k < |ps| && Numeral(ps[k])
    ensures var c := Cited(ps, |contexts|);
            SameMeaning(ps[k], contexts, NewPiece(ps[k], Mapping(c)), Cite(c, contexts))
  {
    var i := RenumberedPiece(ps, k, |contexts|);
    ghost var c := Cited(ps, |contexts|);
    RenumberedMeaning(ps[k], contexts, c, i, NewPiece(ps[k], Mapping(c)));
  }

  lemma RenumberedMeaning(p: Piece, contexts: seq<Passage>, c: seq<nat>, i: nat, q: Piece)
    requires Distinct(c) && forall v :: v in c ==> 1 <= v <= |contexts|
    requires if Valid(p, |contexts|)
             then i < |c| && c[i] == ValueOf(p.digits) && q == Mark(Print(i + 1))
             else q == p && !Valid(q, |c|)
    ensures SameMeaning(p, contexts, q, Cite(c, contexts))
  {
    if Valid(p, |contexts|) {
      CitationAt(c, contexts, i);
      PrintedMark(i + 1);
    }
  }

  lemma CitationAt(c: seq<nat>, contexts: seq<Passage>, i: nat)
    requires Distinct(c) && i < |c|
    requires forall v :: v in c ==> 1 <= v <= |contexts|
    ensures 1 <= c[i] <= |contexts| && Cite(c, contexts)[i] == Citation(i + 1, contexts[c[i] - 1])
  {
    assert c[i] in c;
    MappingNumbersFromOne(c, i);
  }

  lemma PrintedMark(n: nat)
    ensures var q := Mark(Print(n)); AllDigits(q.digits) && ValueOf(q.digits) == n
  {
    PrintedValue(n);
  }

  /** A valid marker is rewritten to the printed position, from 1, of its number
      among the cited ones; any other piece is kept and is no marker of 1..k. */
  lemma RenumberedPiece(ps: seq<Piece>, k: nat, n: nat) returns (i: nat)
    requires k < |ps| && Numeral(ps[k])
    ensures var c := Cited(ps, n);
            var q := NewPiece(ps[k], Mapping(c));
            if Valid(ps[k], n)
            then i < |c| && c[i] == ValueOf(ps[k].digits) && q == Mark(Print(i + 1))
            else q == ps[k] && !Valid(q, |c|)
  {
    var c := Cited(ps, n);
    DistinctBounded(c, n);
    i := 0;
    if ps[k].Mark? {
      var v := ValueOf(ps[k].digits);
      CitedExactly(ps, n, v);
      if Valid(ps[k], n) {
        assert Cites(ps, n, k, v);
        i :| 0 <= i < |c| && c[i] == v;
        MappingNumbersFromOne(c, i);
      } else {
        assert v !in c;
      }
    }
  }

  function OneTo(k: nat): (s: seq<nat>)
    ensures |s| == k && forall i :: 0 <= i < k ==> s[i] == i + 1
  {
    seq(k, i => i + 1)
  }

  lemma {:induction false} RescanPrefix(ps: seq<Piece>, j: nat, n: nat)
    requires j <= |ps|
    requires forall k :: 0 <= k < |ps| ==> Numeral(ps[k])
    ensures var c := Cited(ps, n);
            Cited(NewPieces(ps, Mapping(c))[..j], |c|) == OneTo(|Cited(ps[..j], n)|)
  {
    if j > 0 {
      var c := Cited(ps, n);
      var qs := NewPieces(ps, Mapping(c));
      RescanPrefix(ps, j - 1, n);
      var i := RenumberedPiece(ps, j - 1, n);
      CitedStep(ps, j, n);
      CitedStep(qs, j, |c|);
      if Valid(ps[j - 1], n) {
        FirstUsePosition(ps, j, n, i);
        OneToStep(|Cited(ps[..j - 1], n)|, i, |c|, qs[j - 1]);
      }
    }
  }

  lemma OneToStep(m: nat, i: nat, k: nat, q: Piece)
    requires i <= m && i < k && q == Mark(Print(i + 1))
    ensures Extend(OneTo(m), q, k) == if i < m then OneTo(m) else OneTo(m + 1)
  {
    PrintedMark(i + 1);
    assert Valid(q, k);
    if i < m {
      assert OneTo(m)[i] == i + 1;
    } else {
      assert OneTo(m) + [i + 1] == OneTo(m + 1);
    }
  }

  /** The position of a number among all cited ones is its position among those
      cited so far, or the next one when it is new. */
  lemma FirstUsePosition(ps: seq<Piece>, j: nat, n: nat, i: nat)
    requires 0 < j <= |ps| && Valid(ps[j - 1], n)
    requires i < |Cited(ps, n)| && Cited(ps, n)[i] == ValueOf(ps[j - 1].digits)
    ensures var before, at := Cited(ps[..j - 1], n), Cited(ps[..j], n);
            if i < |before| then at == before else i == |before| && |at| == i + 1
  {
    var c, at := Cited(ps, n), Cited(ps[..j], n);
    CitedGrows(ps, j, n);
    assert ps[..j][..j - 1] == ps[..j - 1];
    var v := ValueOf(ps[j - 1].digits);
    assert v in at;
    var h :| 0 <= h < |at| && at[h] == v;
    assert c[h] == v;
    assert h == i;
  }

  /** Rescanning the renumbered answer finds exactly 1..k in first-use order. */
  lemma RescanFindsOneToK(answer: string, n: nat)
    ensures var c := Cited(Scan(answer), n);
            Cited(Scan(Renumber(answer, c)), |c|) == OneTo(|c|)
  {
    var ps := Scan(answer);
    var c := Cited(ps, n);
    ScanIsFaithful(answer);
    forall k | 0 <= k < |ps| ensures Numeral(ps[k]) { NumeralAt(ps, k); }
    RescanPrefix(ps, |ps|, n);
    RenumberAligns(answer, c);
    assert ps[..|ps|] == ps;
    var qs := NewPieces(ps, Mapping(c));
    assert qs[..|qs|] == qs;
  }

  lemma {:induction false} IdentityMapping(k: nat)
    ensures forall v :: v in Mapping(OneTo(k)) <==> 1 <= v <= k
    ensures forall v :: v in Mapping(OneTo(k)) ==> Mapping(OneTo(k))[v] == v
  {
    var s := OneTo(k);
    forall v | v in Mapping(s)
      ensures 1 <= v <= k && Mapping(s)[v] == v
    {
      var i :| 0 <= i < |s| && s[i] == v;
      MappingNumbersFromOne(s, i);
    }
    forall v | 1 <= v <= k
      ensures v in Mapping(s)
    {
      assert s[v - 1] == v;
    }
  }

  /** Grounding a grounded answer again, on its own citations, changes nothing. */
  lemma GroundingIsIdempotent(answer: string, contexts: seq<Passage>)
    ensures var r := BuildGrounded(answer, contexts);
            BuildGrounded(r.answer, PassagesOf(r.citations)) == r
  {
    var ps, n := Scan(answer), |contexts|;
    var c := Cited(ps, n);
    var r := BuildGrounded(answer, contexts);
    if c == [] {
      assert Cited(ps, 0) == [] by {
        if Cited(ps, 0) != [] {
          assert Cited(ps, 0)[0] in Cited(ps, 0);
        }
      }
    } else {
      RescanFindsOneToK(answer, n);
      RenumberTwice(answer, n);
      CiteTwice(c, contexts);
    }
  }

  lemma CiteTwice(c: seq<nat>, contexts: seq<Passage>)
    requires Distinct(c) && forall v :: v in c ==> 1 <= v <= |contexts|
    ensures Cite(OneTo(|c|), PassagesOf(Cite(c, contexts))) == Cite(c, contexts)
  {
    var first := Cite(c, contexts);
    var again := Cite(OneTo(|c|), PassagesOf(first));
    IdentityMapping(|c|);
    forall i | 0 <= i < |c|
      ensures again[i] == first[i]
    {
      MappingNumbersFromOne(c, i);
      assert OneTo(|c|)[i] == i + 1;
    }
  }

  lemma RenumberTwice(answer: string, n: nat)
    ensures var c := Cited(Scan(answer), n);
            Renumber(Renumber(answer, c), OneTo(|c|)) == Renumber(answer, c)
  {
    var ps := Scan(answer);
    var c := Cited(ps, n);
    var qs, id := NewPieces(ps, Mapping(c)), Mapping(OneTo(|c|));
    RenumberAligns(answer, c);
    IdentityMapping(|c|);
    forall i | 0 <= i < |qs|
      ensures NewPiece(qs[i], id) == qs[i]
    {
      ScanIsFaithful(answer);
      NumeralAt(ps, i);
      PrintedMarks(ps, n, i);
    }
    assert NewPieces(qs, id) == qs;
  }

  /** After renumbering, a marker in 1..k is already printed the way it would be
      printed again. */
  lemma PrintedMarks(ps: seq<Piece>, n: nat, k: nat)
    requires k < |ps| && Numeral(ps[k])
    ensures var c := Cited(ps, n);
            var q := NewPiece(ps[k], Mapping(c));
            Valid(q, |c|) ==> q == Mark(Print(ValueOf(q.digits)))
  {
    var i := RenumberedPiece(ps, k, n);
    PrintedValue(i + 1);
  }
}
