/** The compact reference of a bulk export, stored for replaying it, and its decoder. */
module BulkReference {
  import opened Base
  import D = Decimal
  import opened Hexadecimal

  datatype Reason = NotFound | GenerationFailed

  datatype Failure = Failure(report: Uuid, revision: Option<int>, reason: Reason)

  datatype Reference = Reference(ok: string, failed: string)

  datatype Malformed = BadIdentifier | BadReason | BadNumber

  // ----- Integers -----

  function PrintInt(i: int): string {
    if i < 0 then "-" + D.Print(-i) else D.Print(i)
  }

  function ParseInt(s: string): Option<int> {
    if s != "" && D.AllDigits(s) then Some(D.ValueOf(s) as int)
    else if |s| > 1 && s[0] == '-' && D.AllDigits(s[1..]) then Some(-(D.ValueOf(s[1..]) as int))
    else None
  }

  lemma IntRoundTrip(i: int)
    ensures ParseInt(PrintInt(i)) == Some(i)
  {
    D.PrintedValue(if i < 0 then -i else i);
    if i < 0 {
      assert PrintInt(i)[0] == '-' && !D.IsDigit(PrintInt(i)[0]);
      assert PrintInt(i)[1..] == D.Print(-i);
    }
  }

  // ----- Lists -----

  function Join(items: seq<string>): string {
    if items == [] then ""
    else if |items| == 1 then items[0]
    else Join(items[..|items| - 1]) + "," + items[|items| - 1]
  }

  /** The pieces between commas, at least one, possibly empty. */
  function Split(s: string): (r: seq<string>)
    ensures |r| >= 1
  {
    if s == "" then [""]
    else
      var front, c := Split(s[..|s| - 1]), s[|s| - 1];
      if c == ',' then front + [""] else front[..|front| - 1] + [front[|front| - 1] + [c]]
  }

  predicate Plain(s: string) {
    forall i :: 0 <= i < |s| ==> s[i] != ','
  }

  lemma {:induction false} SplitAppend(s: string, item: string)
    requires Plain(item)
    ensures Split(s + "," + item) == Split(s) + [item]
  {
    if item == "" {
      assert (s + "," + item)[..|s|] == s && s + "," + item == s + ",";
    } else {
      var front, c := item[..|item| - 1], item[|item| - 1];
      assert (s + "," + item)[..|s + "," + item| - 1] == s + "," + front;
      SplitAppend(s, front);
      assert front + [c] == item;
    }
  }

  lemma {:induction false} SplitPlain(item: string)
    requires Plain(item)
    ensures Split(item) == [item]
  {
    if item != "" {
      SplitPlain(item[..|item| - 1]);
      assert item[..|item| - 1] + [item[|item| - 1]] == item;
    }
  }

  lemma {:induction false} SplitJoin(items: seq<string>)
    requires items != [] && forall i :: 0 <= i < |items| ==> Plain(items[i])
    ensures Split(Join(items)) == items
  {
    if |items| == 1 {
      SplitPlain(items[0]);
    } else {
      var front, last := items[..|items| - 1], items[|items| - 1];
      SplitJoin(front);
      SplitAppend(Join(front), last);
      assert front + [last] == items;
    }
  }

  // ----- The reference -----

  function Letter(r: Reason): char {
    if r == NotFound then 'n' else 'g'
  }

  function EncodeFailure(f: Failure): string {
    Hex(f.report, 32) + [Letter(f.reason)] + PrintInt(if f.revision.Some? then f.revision.value else 0)
  }

  function Encode(revisions: seq<Uuid>, failures: seq<Failure>): Reference {
    Reference(Join(seq(|revisions|, i requires 0 <= i < |revisions| => Hex(revisions[i], 32))),
              Join(seq(|failures|, i requires 0 <= i < |failures| => EncodeFailure(failures[i]))))
  }

  function DecodeUuid(item: string): Result<Uuid, Malformed> {
    if |item| == 32 && HexValue(item).Some? then Ok(HexValue(item).value) else Err(BadIdentifier)
  }

  function DecodeFailure(item: string): Result<Failure, Malformed> {
    if |item| < 32 || HexValue(item[..32]).None? then Err(BadIdentifier)
    else if |item| == 32 || (item[32] != 'n' && item[32] != 'g') then Err(BadReason)
    else
      var number := ParseInt(item[33..]);
      if number.None? then Err(BadNumber)
      else Ok(Failure(HexValue(item[..32]).value, if number.value == 0 then None else number,
                      if item[32] == 'n' then NotFound else GenerationFailed))
  }

  /** Decodes the nonempty items in order, up to the first malformed one. */
  function Decoded<T>(items: seq<string>, decode: string -> Result<T, Malformed>): Result<seq<T>, Malformed> {
    if items == [] then Ok([])
    else
      var front := Decoded(items[..|items| - 1], decode);
      if front.Err? || items[|items| - 1] == "" then front
      else
        var last := decode(items[|items| - 1]);
        if last.Err? then Err(last.error) else Ok(front.value + [last.value])
  }

  method Decode(reference: Reference) returns (r: Result<(seq<Uuid>, seq<Failure>), Malformed>)
    ensures var ids := Decoded(Split(reference.ok), DecodeUuid);
            var failures := Decoded(Split(reference.failed), DecodeFailure);
            r == if ids.Err? then Err(ids.error)
                 else if failures.Err? then Err(failures.error)
                 else Ok((ids.value, failures.value))
  {
    var ids := DecodeItems(Split(reference.ok), DecodeUuid);
    if ids.Err? {
      return Err(ids.error);
    }
    var failures := DecodeItems(Split(reference.failed), DecodeFailure);
    if failures.Err? {
      return Err(failures.error);
    }
    return Ok((ids.value, failures.value));
  }

  method DecodeItems<T>(items: seq<string>, decode: string -> Result<T, Malformed>) returns (r: Result<seq<T>, Malformed>)
    ensures r == Decoded(items, decode)
  {
    var values := [];
    var i := 0;
    while i < |items|
      invariant 0 <= i <= |items| && Decoded(items[..i], decode) == Ok(values)
    {
      assert items[..i + 1][..i] == items[..i];
      if items[i] != "" {
        var value := decode(items[i]);
        if value.Err? {
          StopsAt(items, decode, i + 1);
          return Err(value.error);
        }
        values := values + [value.value];
      }
      i := i + 1;
    }
    assert items[..|items|] == items;
    return Ok(values);
  }

  lemma {:induction false} StopsAt<T>(items: seq<string>, decode: string -> Result<T, Malformed>, i: nat)
    requires i <= |items| && Decoded(items[..i], decode).Err?
    ensures Decoded(items, decode) == Decoded(items[..i], decode)
    decreases |items|
  {
    if i < |items| {
      assert items[..|items| - 1][..i] == items[..i];
      StopsAt(items[..|items| - 1], decode, i);
    } else {
      assert items[..i] == items;
    }
  }

  /** If every item decodes, the list does, item by item. */
  lemma {:induction false} DecodesAll<T>(items: seq<string>, decode: string -> Result<T, Malformed>, values: seq<T>)
    requires |items| == |values|
    requires forall i :: 0 <= i < |items| ==> items[i] != "" && decode(items[i]) == Ok(values[i])
    ensures Decoded(items, decode) == Ok(values)
  {
    if items != [] {
      DecodesAll(items[..|items| - 1], decode, values[..|values| - 1]);
      assert values == values[..|values| - 1] + [values[|values| - 1]];
    }
  }

  lemma DecodesJoined<T>(items: seq<string>, decode: string -> Result<T, Malformed>, values: seq<T>)
    requires |items| == |values|
    requires forall i :: 0 <= i < |items| ==> items[i] != "" && Plain(items[i]) && decode(items[i]) == Ok(values[i])
    ensures Decoded(Split(Join(items)), decode) == Ok(values)
  {
    if items == [] {
      assert Decoded([""], decode) == Decoded([""][..0], decode);
    } else {
      SplitJoin(items);
      DecodesAll(items, decode, values);
    }
  }

  function Kept(f: Failure): Failure {
    if f.revision == Some(0) then f.(revision := None) else f
  }

  lemma FailureRoundTrip(f: Failure)
    requires IsUuid(f.report)
    ensures EncodeFailure(f) != "" && Plain(EncodeFailure(f)) && DecodeFailure(EncodeFailure(f)) == Ok(Kept(f))
  {
    var number := if f.revision.Some? then f.revision.value else 0;
    var s := EncodeFailure(f);
    HexRoundTrip(f.report, 32);
    IntRoundTrip(number);
    assert s[..32] == Hex(f.report, 32) && s[32] == Letter(f.reason) && s[33..] == PrintInt(number);
    assert Plain(PrintInt(number));
  }

  /** A stored failure is the report's 32 hexadecimal digits, `n` for a report that was not
      found or `g` for one that could not be generated, and the revision number or zero. */
  lemma StoredFailure(f: Failure)
    ensures var s := EncodeFailure(f);
            && |s| >= 34 && s[..32] == Hex(f.report, 32)
            && s[32] == (if f.reason == NotFound then 'n' else 'g')
            && ParseInt(s[33..]) == Some(if f.revision.Some? then f.revision.value else 0)
  {
    var number := if f.revision.Some? then f.revision.value else 0;
    IntRoundTrip(number);
    var s := EncodeFailure(f);
    assert s[..32] == Hex(f.report, 32) && s[33..] == PrintInt(number);
  }

  /** Decoding a stored reference gives back the selection, in order; a failure of revision
      zero alone comes back without a revision. */
  lemma ReferenceDecodes(revisions: seq<Uuid>, failures: seq<Failure>)
    requires forall i :: 0 <= i < |revisions| ==> IsUuid(revisions[i])
    requires forall i :: 0 <= i < |failures| ==> IsUuid(failures[i].report)
    ensures var x := Encode(revisions, failures);
            && Decoded(Split(x.ok), DecodeUuid) == Ok(revisions)
            && Decoded(Split(x.failed), DecodeFailure)
                 == Ok(seq(|failures|, i requires 0 <= i < |failures| => Kept(failures[i])))
  {
    var ids := seq(|revisions|, i requires 0 <= i < |revisions| => Hex(revisions[i], 32));
    forall i | 0 <= i < |ids| ensures ids[i] != "" && Plain(ids[i]) && DecodeUuid(ids[i]) == Ok(revisions[i]) {
      HexRoundTrip(revisions[i], 32);
    }
    DecodesJoined(ids, DecodeUuid, revisions);
    var items := seq(|failures|, i requires 0 <= i < |failures| => EncodeFailure(failures[i]));
    var kept := seq(|failures|, i requires 0 <= i < |failures| => Kept(failures[i]));
    forall i | 0 <= i < |items| ensures items[i] != "" && Plain(items[i]) && DecodeFailure(items[i]) == Ok(kept[i]) {
      FailureRoundTrip(failures[i]);
    }
    DecodesJoined(items, DecodeFailure, kept);
  }

  /** The round trip is exact for exactly the lists without a revision zero. */
  lemma RoundTripIff(revisions: seq<Uuid>, failures: seq<Failure>)
    requires forall i :: 0 <= i < |revisions| ==> IsUuid(revisions[i])
    requires forall i :: 0 <= i < |failures| ==> IsUuid(failures[i].report)
    ensures var x := Encode(revisions, failures);
            (Decoded(Split(x.ok), DecodeUuid) == Ok(revisions) && Decoded(Split(x.failed), DecodeFailure) == Ok(failures))
            <==> forall i :: 0 <= i < |failures| ==> failures[i].revision != Some(0)
  {
    ReferenceDecodes(revisions, failures);
    var kept := seq(|failures|, i requires 0 <= i < |failures| => Kept(failures[i]));
    if kept == failures {
      forall i | 0 <= i < |failures| ensures failures[i].revision != Some(0) {
        assert kept[i] == failures[i];
      }
    }
    assert (forall i :: 0 <= i < |failures| ==> failures[i].revision != Some(0)) ==> kept == failures;
  }

  /** Different selections have different references. */
  lemma EncodeIsInjective(r1: seq<Uuid>, f1: seq<Failure>, r2: seq<Uuid>, f2: seq<Failure>)
    requires forall i :: 0 <= i < |r1| ==> IsUuid(r1[i])
    requires forall i :: 0 <= i < |r2| ==> IsUuid(r2[i])
    requires forall i :: 0 <= i < |f1| ==> IsUuid(f1[i].report) && f1[i].revision != Some(0)
    requires forall i :: 0 <= i < |f2| ==> IsUuid(f2[i].report) && f2[i].revision != Some(0)
    requires Encode(r1, f1) == Encode(r2, f2)
    ensures r1 == r2 && f1 == f2
  {
    RoundTripIff(r1, f1);
    RoundTripIff(r2, f2);
  }
}
