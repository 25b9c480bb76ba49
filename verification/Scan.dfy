/** The streaming scan of a resync body: the decoder's tokens are read until the marker, and the
    array behind it is decoded element by element without decoding the whole document. */
module Scan {
  import opened Options
  import opened Resync

  datatype Atom = Null | Bool(b: bool) | Number(n: int)
  datatype Json = Atomic(a: Atom) | Str(s: string) | Arr(elems: seq<Json>) | Obj(fields: seq<Field>)
  datatype Field = Field(key: string, value: Json)

  // What the decoder's `Token` returns; commas and colons are left out.
  datatype Token = ObjOpen | ObjClose | ArrOpen | ArrClose | Text(s: string) | Scalar(a: Atom)

  // ----- Writing and reading documents as tokens -----

  function Tokens(j: Json): seq<Token>
    decreases j
  {
    match j
    case Arr(elems) => [ArrOpen] + ElementTokens(elems) + [ArrClose]
    case Obj(fields) => [ObjOpen] + FieldTokens(fields) + [ObjClose]
    case Str(s) => [Text(s)]
    case Atomic(a) => [Scalar(a)]
  }

  function ElementTokens(elems: seq<Json>): seq<Token>
    decreases elems
  {
    if elems == [] then [] else Tokens(elems[0]) + ElementTokens(elems[1..])
  }

  function FieldTokens(fields: seq<Field>): seq<Token>
    decreases fields
  {
    if fields == [] then [] else [Text(fields[0].key)] + Tokens(fields[0].value) + FieldTokens(fields[1..])
  }

  datatype Parsed<T> = Parsed(value: T, rest: seq<Token>)

  // One value from the front of the tokens.
  function ParseValue(ts: seq<Token>): (r: Option<Parsed<Json>>)
    ensures r.Some? ==> |r.value.rest| < |ts|
    decreases |ts|, 0
  {
    if ts == [] then None
    else match ts[0]
      case Text(s) => Some(Parsed(Str(s), ts[1..]))
      case Scalar(a) => Some(Parsed(Atomic(a), ts[1..]))
      case ArrOpen =>
        var r := ParseElements(ts[1..]);
        if r.None? || r.value.rest == [] || r.value.rest[0] != ArrClose then None
        else Some(Parsed(Arr(r.value.value), r.value.rest[1..]))
      case ObjOpen =>
        var r := ParseFields(ts[1..]);
        if r.None? || r.value.rest == [] || r.value.rest[0] != ObjClose then None
        else Some(Parsed(Obj(r.value.value), r.value.rest[1..]))
      case _ => None
  }

  function ParseElements(ts: seq<Token>): (r: Option<Parsed<seq<Json>>>)
    ensures r.Some? ==> |r.value.rest| <= |ts|
    decreases |ts|, 1
  {
    if !MoreAt(ts) then Some(Parsed([], ts))
    else
      var first := ParseValue(ts);
      if first.None? then None
      else
        var others := ParseElements(first.value.rest);
        if others.None? then None else Some(Parsed([first.value.value] + others.value.value, others.value.rest))
  }

  function ParseFields(ts: seq<Token>): (r: Option<Parsed<seq<Field>>>)
    ensures r.Some? ==> |r.value.rest| <= |ts|
    decreases |ts|, 1
  {
    if !MoreAt(ts) then Some(Parsed([], ts))
    else if !ts[0].Text? then None
    else
      var first := ParseValue(ts[1..]);
      if first.None? then None
      else
        var others := ParseFields(first.value.rest);
        if others.None? then None
        else Some(Parsed([Field(ts[0].s, first.value.value)] + others.value.value, others.value.rest))
  }

  // There is another element in the array or object being read.
  predicate MoreAt(ts: seq<Token>) {
    ts != [] && ts[0] != ArrClose && ts[0] != ObjClose
  }

  lemma FirstToken(j: Json, rest: seq<Token>)
    ensures MoreAt(Tokens(j) + rest)
  {
  }

  predicate EndsHere(ts: seq<Token>) {
    ts != [] && !MoreAt(ts)
  }

  /** Reading back what was written, value by value, with anything behind it. */
  lemma {:induction false} ParseRoundTrip(j: Json, rest: seq<Token>)
    ensures ParseValue(Tokens(j) + rest) == Some(Parsed(j, rest))
    decreases j
  {
    hide ParseElements, ParseFields, ElementTokens, FieldTokens;
    var ts := Tokens(j) + rest;
    match j
    case Arr(elems) =>
      ParseElementsRoundTrip(elems, [ArrClose] + rest);
      assert ts[1..] == ElementTokens(elems) + ([ArrClose] + rest);
    case Obj(fields) =>
      ParseFieldsRoundTrip(fields, [ObjClose] + rest);
      assert ts[1..] == FieldTokens(fields) + ([ObjClose] + rest);
    case _ =>
  }

  lemma {:induction false} ParseElementsRoundTrip(elems: seq<Json>, rest: seq<Token>)
    requires EndsHere(rest)
    ensures ParseElements(ElementTokens(elems) + rest) == Some(Parsed(elems, rest))
    decreases elems
  {
    hide ParseValue, ParseFields, Tokens, FieldTokens;
    if elems == [] {
      assert ElementTokens(elems) + rest == rest;
    } else {
      var others := ElementTokens(elems[1..]) + rest;
      assert ElementTokens(elems) + rest == Tokens(elems[0]) + others;
      FirstToken(elems[0], others);
      ParseRoundTrip(elems[0], others);
      ParseElementsRoundTrip(elems[1..], rest);
      assert [elems[0]] + elems[1..] == elems;
    }
  }

  lemma {:induction false} ParseFieldsRoundTrip(fields: seq<Field>, rest: seq<Token>)
    requires EndsHere(rest)
    ensures ParseFields(FieldTokens(fields) + rest) == Some(Parsed(fields, rest))
    decreases fields
  {
    hide ParseValue, ParseElements, Tokens, ElementTokens;
    if fields == [] {
      assert FieldTokens(fields) + rest == rest;
    } else {
      var others := FieldTokens(fields[1..]) + rest;
      var ts := FieldTokens(fields) + rest;
      assert ts == [Text(fields[0].key)] + (Tokens(fields[0].value) + others);
      assert ts[1..] == Tokens(fields[0].value) + others;
      ParseRoundTrip(fields[0].value, others);
      ParseFieldsRoundTrip(fields[1..], rest);
      assert [Field(ts[0].s, fields[0].value)] + fields[1..] == fields;
    }
  }

  // ----- The scan as a function of the tokens -----

  // What reading an array element by element yields: the elements decoded before the first one that
  // does not decode, whether there was such a one, and the tokens that follow.
  datatype Reading<T> = Reading(values: seq<T>, failed: bool, rest: seq<Token>)

  function ReadElements<T>(ts: seq<Token>, decode: Json -> Option<T>): (r: Reading<T>)
    ensures |r.rest| <= |ts|
    decreases |ts|
  {
    if !MoreAt(ts) then Reading([], false, ts)
    else
      var first := ParseValue(ts);
      if first.None? then Reading([], true, ts)
      else
        var value := decode(first.value.value);
        if value.None? then Reading([], true, first.value.rest)
        else
          var others := ReadElements(first.value.rest, decode);
          others.(values := [value.value] + others.values)
  }

  ghost predicate Yields<T>(r: Reading<T>, values: seq<T>) {
    r.values == values && !r.failed
  }

  // The scan for resources: the first marker decides.
  function ScanOnce<T>(ts: seq<Token>, marker: string, decode: Json -> Option<T>): Reading<T>
    decreases |ts|
  {
    if ts == [] then Reading([], false, [])
    else if ts[0] != Text(marker) then ScanOnce(ts[1..], marker, decode)
    else if ts[1..] == [] then Reading([], true, [])
    else ReadElements(ts[2..], decode)
  }

  // The scan for edges goes on to the end of the document.
  function ScanAll<T>(ts: seq<Token>, marker: string, decode: Json -> Option<T>): Reading<T>
    decreases |ts|
  {
    if ts == [] then Reading([], false, [])
    else if ts[0] != Text(marker) then ScanAll(ts[1..], marker, decode)
    else if ts[1..] == [] then Reading([], true, [])
    else
      var r := ReadElements(ts[2..], decode);
      if r.failed then r
      else
        var others := ScanAll(r.rest, marker, decode);
        others.(values := r.values + others.values)
  }

  // ----- The scan as a loop over a decoder -----

  class Decoder {
    var rest: seq<Token>

    constructor (body: seq<Token>)
      ensures rest == body
    {
      rest := body;
    }

    // None: the end of the input.
    method Token() returns (field: Option<Token>)
      modifies this
      ensures old(rest) == [] ==> field.None? && rest == []
      ensures old(rest) != [] ==> field == Some(old(rest)[0]) && rest == old(rest)[1..]
    {
      if rest == [] { return None; }
      field := Some(rest[0]);
      rest := rest[1..];
    }

    predicate More()
      reads this
    {
      MoreAt(rest)
    }

    method Decode() returns (value: Option<Json>)
      modifies this
      ensures var r := ParseValue(old(rest));
        if r.None? then value.None? && rest == old(rest)
        else value == Some(r.value.value) && rest == r.value.rest
    {
      var r := ParseValue(rest);
      if r.None? { return None; }
      value := Some(r.value.value);
      rest := r.value.rest;
    }
  }

  // Decode the elements that are left of the array.
  method ReadArray<T>(dec: Decoder, decode: Json -> Option<T>) returns (values: seq<T>, failed: bool)
    modifies dec
    ensures Reading(values, failed, dec.rest) == ReadElements(old(dec.rest), decode)
    ensures |dec.rest| <= |old(dec.rest)|
  {
    values, failed := [], false;
    while dec.More()
      invariant !failed && |dec.rest| <= |old(dec.rest)|
      invariant var r := ReadElements(dec.rest, decode);
        ReadElements(old(dec.rest), decode) == r.(values := values + r.values)
      decreases |dec.rest|
    {
      var json := dec.Decode();
      if json.None? { return values, true; }
      var value := decode(json.value);
      if value.None? { return values, true; }
      values := values + [value.value];
    }
  }

  method ScanResources<T>(
    body: seq<Token>, marker: string, decode: Json -> Option<T>)
      returns (values: seq<T>, failed: bool)
    ensures values == ScanOnce(body, marker, decode).values && failed == ScanOnce(body, marker, decode).failed
  {
    var dec := new Decoder(body);
    while true
      invariant ScanOnce(body, marker, decode) == ScanOnce(dec.rest, marker, decode)
      decreases |dec.rest|
    {
      var field := dec.Token();
      if field.None? { break; }
      if field.value == Text(marker) {
        var opening := dec.Token();
        if opening.None? { return [], true; }
        values, failed := ReadArray(dec, decode);
        return;
      }
    }
    return [], false;
  }

  lemma ScanAllAt<T>(ts: seq<Token>, marker: string, decode: Json -> Option<T>)
    requires |ts| > 1 && ts[0] == Text(marker)
    ensures var r := ReadElements(ts[2..], decode);
      var all := ScanAll(ts, marker, decode);
      var others := ScanAll(r.rest, marker, decode);
      if r.failed then all.values == r.values && all.failed
      else all.values == r.values + others.values && all.failed == others.failed
  {
  }

  method ScanEdges<T>(
    body: seq<Token>, marker: string, decode: Json -> Option<T>)
      returns (values: seq<T>, failed: bool)
    ensures values == ScanAll(body, marker, decode).values && failed == ScanAll(body, marker, decode).failed
  {
    hide ReadElements;
    var dec := new Decoder(body);
    values, failed := [], false;
    ghost var all := ScanAll(body, marker, decode);
    while true
      invariant !failed
      invariant all.values == values + ScanAll(dec.rest, marker, decode).values
      invariant all.failed == ScanAll(dec.rest, marker, decode).failed
      decreases |dec.rest|
    {
      ghost var ts := dec.rest;
      var field := dec.Token();
      if field.None? { break; }
      if field.value == Text(marker) {
        var opening := dec.Token();
        if opening.None? { return values, true; }
        ScanAllAt(ts, marker, decode);
        var more, bad := ReadArray(dec, decode);
        values := values + more;
        if bad { return values, true; }
      }
    }
  }

  // ----- The scan agrees with decoding the whole document -----

  // The elements of an array as the decoder meets them.
  function ElementsOf<T>(elems: seq<Json>, decode: Json -> Option<T>): seq<Element<T>> {
    seq(|elems|, i requires 0 <= i < |elems| =>
      match decode(elems[i]) case Some(v) => Decoded(v) case None => Malformed)
  }

  // The array under a top-level key of a document that is decoded as a whole; the last one counts.
  function ArrayUnder(fields: seq<Field>, key: string): seq<Json> {
    if fields == [] then []
    else
      var last := fields[|fields| - 1];
      if last.key == key && last.value.Arr? then last.value.elems else ArrayUnder(fields[..|fields| - 1], key)
  }

  lemma {:induction false} ReadsElements<T>(elems: seq<Json>, rest: seq<Token>, decode: Json -> Option<T>)
    requires EndsHere(rest)
    ensures var r := ReadElements(ElementTokens(elems) + rest, decode);
      && r.values == Readable(ElementsOf(elems, decode))
      && (r.failed <==> !AllDecoded(ElementsOf(elems, decode)))
      && (!r.failed ==> r.rest == rest)
    decreases |elems|
  {
    var all := ElementsOf(elems, decode);
    if elems == [] {
      assert ElementTokens(elems) + rest == rest;
    } else {
      var others := ElementTokens(elems[1..]) + rest;
      assert ElementTokens(elems) + rest == Tokens(elems[0]) + others;
      FirstToken(elems[0], others);
      ParseRoundTrip(elems[0], others);
      ReadsElements(elems[1..], rest, decode);
      assert all[1..] == ElementsOf(elems[1..], decode);
      assert all[0].Malformed? <==> decode(elems[0]).None?;
      assert AllDecoded(all) <==> all[0].Decoded? && AllDecoded(all[1..]);
    }
  }

  lemma {:induction false} SkipsOnce<T>(skipped: seq<Token>, ts: seq<Token>, marker: string, decode: Json -> Option<T>)
    requires Text(marker) !in skipped
    ensures ScanOnce(skipped + ts, marker, decode) == ScanOnce(ts, marker, decode)
    decreases |skipped|
  {
    if skipped == [] {
      assert skipped + ts == ts;
    } else {
      assert (skipped + ts)[1..] == skipped[1..] + ts;
      SkipsOnce(skipped[1..], ts, marker, decode);
    }
  }

  lemma {:induction false} SkipsAll<T>(skipped: seq<Token>, ts: seq<Token>, marker: string, decode: Json -> Option<T>)
    requires Text(marker) !in skipped
    ensures ScanAll(skipped + ts, marker, decode) == ScanAll(ts, marker, decode)
    decreases |skipped|
  {
    if skipped == [] {
      assert skipped + ts == ts;
    } else {
      assert (skipped + ts)[1..] == skipped[1..] + ts;
      SkipsAll(skipped[1..], ts, marker, decode);
    }
  }

  // Every marker that the scan for edges meets has a token and then a closing bracket behind it, so
  // that it takes no element from there. `more`: other tokens follow.
  predicate Skims(ts: seq<Token>, marker: string, more: bool)
    decreases |ts|
  {
    if ts == [] then true
    else if ts[0] != Text(marker) then Skims(ts[1..], marker, more)
    else |ts| >= (if more then 3 else 2) && !MoreAt(ts[2..]) && Skims(ts[2..], marker, more)
  }

  lemma {:induction false} NoMarkerSkims(ts: seq<Token>, marker: string, more: bool)
    requires Text(marker) !in ts
    ensures Skims(ts, marker, more)
    decreases |ts|
  {
    if ts != [] { NoMarkerSkims(ts[1..], marker, more); }
  }

  lemma {:induction false} SkimsOver<T>(skimmed: seq<Token>, ts: seq<Token>, marker: string, decode: Json -> Option<T>)
    requires Skims(skimmed, marker, true)
    ensures ScanAll(skimmed + ts, marker, decode) == ScanAll(ts, marker, decode)
    decreases |skimmed|
  {
    var all := skimmed + ts;
    if skimmed == [] {
      assert all == ts;
    } else if skimmed[0] != Text(marker) {
      assert all[1..] == skimmed[1..] + ts;
      SkimsOver(skimmed[1..], ts, marker, decode);
    } else {
      assert all[2..] == skimmed[2..] + ts && all[1..] != [];
      SkimsOver(skimmed[2..], ts, marker, decode);
      assert ReadElements(all[2..], decode) == Reading([], false, all[2..]);
    }
  }

  lemma {:induction false} SkimsToTheEnd<T>(ts: seq<Token>, marker: string, decode: Json -> Option<T>)
    requires Skims(ts, marker, false)
    ensures ScanAll(ts, marker, decode).values == [] && !ScanAll(ts, marker, decode).failed
    decreases |ts|
  {
    if ts != [] {
      if ts[0] != Text(marker) {
        SkimsToTheEnd(ts[1..], marker, decode);
      } else {
        SkimsToTheEnd(ts[2..], marker, decode);
        assert ReadElements(ts[2..], decode) == Reading([], false, ts[2..]);
      }
    }
  }

  lemma {:induction false} FieldTokensConcat(a: seq<Field>, b: seq<Field>)
    ensures FieldTokens(a + b) == FieldTokens(a) + FieldTokens(b)
    decreases |a|
  {
    if a == [] {
      assert a + b == b;
    } else {
      assert (a + b)[1..] == a[1..] + b;
      FieldTokensConcat(a[1..], b);
    }
  }

  // The tokens of a document around one of its top-level arrays.
  lemma Around(fields: seq<Field>, i: nat)
    requires i < |fields| && fields[i].value.Arr?
    ensures Tokens(Obj(fields))
      == [ObjOpen] + FieldTokens(fields[..i])
         + ([Text(fields[i].key), ArrOpen]
            + (ElementTokens(fields[i].value.elems) + ([ArrClose] + (FieldTokens(fields[i + 1..]) + [ObjClose]))))
  {
    assert fields == fields[..i] + fields[i..];
    FieldTokensConcat(fields[..i], fields[i..]);
    assert fields[i..][1..] == fields[i + 1..];
  }

  /** If no earlier string of the document is the marker, the streaming scan yields exactly the
      elements of the array under it, in order, up to the first that does not decode. */
  lemma ScanOnceFinds<T>(fields: seq<Field>, i: nat, decode: Json -> Option<T>)
    requires i < |fields| && fields[i].value.Arr? && Text(fields[i].key) !in FieldTokens(fields[..i])
    ensures var all := ElementsOf(fields[i].value.elems, decode);
      var r := ScanOnce(Tokens(Obj(fields)), fields[i].key, decode);
      r.values == Readable(all) && (r.failed <==> !AllDecoded(all))
  {
    hide ReadElements, AllDecoded, ElementsOf;
    var marker := fields[i].key;
    var after := ElementTokens(fields[i].value.elems) + ([ArrClose] + (FieldTokens(fields[i + 1..]) + [ObjClose]));
    var here := [Text(marker), ArrOpen] + after;
    Around(fields, i);
    SkipsOnce([ObjOpen] + FieldTokens(fields[..i]), here, marker, decode);
    assert here[2..] == after && here[1..] != [];
    ReadsElements(fields[i].value.elems, [ArrClose] + (FieldTokens(fields[i + 1..]) + [ObjClose]), decode);
  }

  /** The scan for edges reads on, so that it must skim over what is behind the array, too. */
  lemma ScanAllFinds<T>(fields: seq<Field>, i: nat, decode: Json -> Option<T>)
    requires i < |fields| && fields[i].value.Arr?
    requires Skims(FieldTokens(fields[..i]), fields[i].key, true)
    requires Skims(FieldTokens(fields[i + 1..]) + [ObjClose], fields[i].key, false)
    ensures var all := ElementsOf(fields[i].value.elems, decode);
      var r := ScanAll(Tokens(Obj(fields)), fields[i].key, decode);
      r.values == Readable(all) && (r.failed <==> !AllDecoded(all))
  {
    hide ReadElements, AllDecoded, ElementsOf;
    var marker := fields[i].key;
    var tail := [ArrClose] + (FieldTokens(fields[i + 1..]) + [ObjClose]);
    var after := ElementTokens(fields[i].value.elems) + tail;
    var here := [Text(marker), ArrOpen] + after;
    var front := [ObjOpen] + FieldTokens(fields[..i]);
    Around(fields, i);
    assert front[1..] == FieldTokens(fields[..i]) && tail[1..] == FieldTokens(fields[i + 1..]) + [ObjClose];
    SkimsOver(front, here, marker, decode);
    assert here[2..] == after && here[1..] != [];
    ReadsElements(fields[i].value.elems, tail, decode);
    SkimsToTheEnd(tail, marker, decode);
    ScanAllAt(here, marker, decode);
  }

  lemma {:induction false} NoMarkerNoArray(fields: seq<Field>, marker: string)
    requires Text(marker) !in FieldTokens(fields)
    ensures ArrayUnder(fields, marker) == []
    decreases |fields|
  {
    if fields != [] {
      var n := |fields| - 1;
      FieldTokensConcat(fields[..n], [fields[n]]);
      assert fields == fields[..n] + [fields[n]];
      NoMarkerNoArray(fields[..n], marker);
      assert FieldTokens([fields[n]])[0] == Text(fields[n].key);
    }
  }

  lemma {:induction false} OnlyArray(fields: seq<Field>, i: nat)
    requires i < |fields| && fields[i].value.Arr? && Text(fields[i].key) !in FieldTokens(fields[i + 1..])
    ensures ArrayUnder(fields, fields[i].key) == fields[i].value.elems
    decreases |fields|
  {
    var n := |fields| - 1;
    if i < n {
      assert fields[i + 1..] == fields[i + 1..n] + [fields[n]];
      FieldTokensConcat(fields[i + 1..n], [fields[n]]);
      assert fields[..n][i + 1..] == fields[i + 1..n];
      OnlyArray(fields[..n], i);
      assert FieldTokens([fields[n]])[0] == Text(fields[n].key);
    }
  }

  /** An earlier string that happens to be the marker misleads the scan: here the array under the
      marker is taken for a single element. */
  lemma EarlierMarkerMisleads<T>(marker: string, key: string, x: Json, v: T, decode: Json -> Option<T>)
    requires decode(x) == Some(v) && decode(Arr([x])) == None && key != marker
    ensures var fields := [Field(key, Str(marker)), Field(marker, Arr([x]))];
      && Readable(ElementsOf(ArrayUnder(fields, marker), decode)) == [v]
      && ScanOnce(Tokens(Obj(fields)), marker, decode).failed
  {
    var fields := [Field(key, Str(marker)), Field(marker, Arr([x]))];
    var ts := Tokens(Obj(fields));
    var behind := Tokens(Arr([x])) + [ObjClose];
    var here := [Text(marker), Text(marker)] + behind;
    assert fields[1..] == [Field(marker, Arr([x]))] && fields[1..][1..] == [];
    assert FieldTokens(fields[1..]) == [Text(marker)] + Tokens(Arr([x]));
    assert FieldTokens(fields) == [Text(key), Text(marker)] + ([Text(marker)] + Tokens(Arr([x])));
    assert ts == [ObjOpen, Text(key)] + here;
    SkipsOnce([ObjOpen, Text(key)], here, marker, decode);
    assert here[2..] == behind;
    ParseRoundTrip(Arr([x]), [ObjClose]);
    FirstToken(Arr([x]), [ObjClose]);
    var all := ElementsOf([x], decode);
    assert all == [Decoded(v)] && all[1..] == [];
  }

  // ----- Exactly when the scans find the elements -----

  // A document with an array under the marker, between other fields.
  function Document(before: seq<Field>, marker: string, elems: seq<Json>, after: seq<Field>): seq<Token> {
    Tokens(Obj(before + [Field(marker, Arr(elems))] + after))
  }

  // Elements taken as they are.
  function Whole(): Json -> Option<Json> {
    (j: Json) => Some(j)
  }

  // The tokens behind the array.
  function Behind(after: seq<Field>): seq<Token> {
    [ArrClose] + (FieldTokens(after) + [ObjClose])
  }

  // The tokens from the marker on.
  function FromMarker(marker: string, elems: seq<Json>, after: seq<Field>): seq<Token> {
    [Text(marker), ArrOpen] + (ElementTokens(elems) + Behind(after))
  }

  lemma DocumentTokens(before: seq<Field>, marker: string, elems: seq<Json>, after: seq<Field>)
    ensures Document(before, marker, elems, after)
      == ([ObjOpen] + FieldTokens(before)) + FromMarker(marker, elems, after)
  {
    var fields := before + [Field(marker, Arr(elems))] + after;
    assert fields[..|before|] == before && fields[|before| + 1..] == after;
    Around(fields, |before|);
  }

  lemma {:induction false} WholeReads(elems: seq<Json>)
    ensures Readable(ElementsOf(elems, Whole())) == elems && AllDecoded(ElementsOf(elems, Whole()))
    decreases |elems|
  {
    if elems != [] {
      var all := ElementsOf(elems, Whole());
      assert all[1..] == ElementsOf(elems[1..], Whole());
      WholeReads(elems[1..]);
      assert [elems[0]] + elems[1..] == elems;
    }
  }

  // The first token tells which arrays cannot be what is read.
  lemma FirstDecides(ts: seq<Token>)
    requires ts != []
    ensures var r := ReadElements(ts, Whole());
      if ts[0].Text? || ts[0].Scalar? then r.values != [] else r.values != [Atomic(Null)]
  {
    var first := ParseValue(ts);
    if MoreAt(ts) && first.Some? {
      assert ReadElements(ts, Whole()).values[0] == first.value.value;
      assert first.value.value != Atomic(Null) || ts[0].Scalar?;
    }
  }

  // The scan for resources, with the first marker at `i` of the tokens before the array.
  lemma StopsAtFirst(front: seq<Token>, i: nat, ts: seq<Token>, marker: string)
    requires i < |front| && front[i] == Text(marker) && Text(marker) !in front[..i] && |ts| >= 2
    ensures ScanOnce(front + ts, marker, Whole()) == ReadElements((front + ts)[i + 2..], Whole())
  {
    var here := front[i..] + ts;
    assert front + ts == front[..i] + here;
    SkipsOnce(front[..i], here, marker, Whole());
    assert here[2..] == (front + ts)[i + 2..] && here[1..] != [];
  }

  lemma {:induction false} FirstMarker(ts: seq<Token>, marker: string) returns (i: nat)
    requires Text(marker) in ts
    ensures i < |ts| && ts[i] == Text(marker) && Text(marker) !in ts[..i]
    decreases |ts|
  {
    if ts[0] == Text(marker) {
      i := 0;
    } else {
      var j := FirstMarker(ts[1..], marker);
      i := j + 1;
      assert ts[..i] == [ts[0]] + ts[1..][..j];
    }
  }

  /** The scan for resources yields the elements of the array, whichever they are, if and only if the
      marker is no string of the document before it. */
  lemma ScanOnceExact(before: seq<Field>, marker: string, after: seq<Field>)
    ensures (forall elems :: Yields(ScanOnce(Document(before, marker, elems, after), marker, Whole()), elems))
      <==> Text(marker) !in FieldTokens(before)
  {
    if Text(marker) !in FieldTokens(before) {
      forall elems ensures Yields(ScanOnce(Document(before, marker, elems, after), marker, Whole()), elems) {
        var fields := before + [Field(marker, Arr(elems))] + after;
        assert fields[..|before|] == before;
        ScanOnceFinds(fields, |before|, Whole());
        WholeReads(elems);
      }
    } else {
      var elems := MissedArray(before, marker, after);
      assert !Yields(ScanOnce(Document(before, marker, elems, after), marker, Whole()), elems);
    }
  }

  // One of two arrays is not found, the empty one or the one that holds a null.
  lemma MissedArray(before: seq<Field>, marker: string, after: seq<Field>) returns (elems: seq<Json>)
    requires Text(marker) in FieldTokens(before)
    ensures !Yields(ScanOnce(Document(before, marker, elems, after), marker, Whole()), elems)
  {
    hide ReadElements, ScanOnce, Document;
    var front := [ObjOpen] + FieldTokens(before);
    var i := FirstMarker(front, marker);
    var none, one := FromMarker(marker, [], after), FromMarker(marker, [Atomic(Null)], after);
    DocumentTokens(before, marker, [], after);
    DocumentTokens(before, marker, [Atomic(Null)], after);
    StopsAtFirst(front, i, none, marker);
    StopsAtFirst(front, i, one, marker);
    assert (front + none)[i + 2] == (front + one)[i + 2];
    FirstDecides((front + none)[i + 2..]);
    FirstDecides((front + one)[i + 2..]);
    var t := (front + none)[i + 2];
    elems := if t.Text? || t.Scalar? then [] else [Atomic(Null)];
  }

  // Reading takes something, or fails, where there is more.
  lemma TakesSomething<T>(ts: seq<Token>, decode: Json -> Option<T>)
    requires MoreAt(ts)
    ensures !Yields(ReadElements(ts, decode), [])
  {
  }

  // A scan that meets a marker with more behind it does not yield the empty array.
  lemma {:induction false} NotSkimming<T>(
    front: seq<Token>, ts: seq<Token>, marker: string, decode: Json -> Option<T>)
    requires !Skims(front, marker, true) && |ts| >= 2 && MoreAt(ts) && MoreAt(ts[1..])
    ensures !Yields(ScanAll(front + ts, marker, decode), [])
    decreases |front|
  {
    hide ReadElements;
    var all := front + ts;
    if front[0] != Text(marker) {
      assert all[1..] == front[1..] + ts;
      NotSkimming(front[1..], ts, marker, decode);
    } else {
      assert all[1..] != [];
      ScanAllAt(all, marker, decode);
      if |front| >= 3 && !MoreAt(front[2..]) {
        assert all[2..] == front[2..] + ts;
        NothingToRead(all[2..], decode);
        NotSkimming(front[2..], ts, marker, decode);
      } else {
        assert all[2..] == if |front| == 1 then ts[1..] else front[2..] + ts;
        TakesSomething(all[2..], decode);
      }
    }
  }

  lemma NothingToRead<T>(ts: seq<Token>, decode: Json -> Option<T>)
    requires !MoreAt(ts)
    ensures ReadElements(ts, decode) == Reading([], false, ts)
  {
  }

  lemma {:induction false} NotSkimmingToTheEnd<T>(ts: seq<Token>, marker: string, decode: Json -> Option<T>)
    requires !Skims(ts, marker, false)
    ensures !Yields(ScanAll(ts, marker, decode), [])
    decreases |ts|
  {
    hide ReadElements;
    if ts[0] != Text(marker) {
      NotSkimmingToTheEnd(ts[1..], marker, decode);
    } else if |ts| >= 2 {
      ScanAllAt(ts, marker, decode);
      if !MoreAt(ts[2..]) {
        NothingToRead(ts[2..], decode);
        NotSkimmingToTheEnd(ts[2..], marker, decode);
      } else {
        TakesSomething(ts[2..], decode);
      }
    }
  }

  /** Whatever the tokens and the decoder, the scan for edges finds nothing, and does not fail, if and only if
      it skims over every occurrence of the marker. */
  lemma ScanAllIsEmptyIffSkims<T>(ts: seq<Token>, marker: string, decode: Json -> Option<T>)
    ensures Yields(ScanAll(ts, marker, decode), []) <==> Skims(ts, marker, false)
  {
    if Skims(ts, marker, false) { SkimsToTheEnd(ts, marker, decode); }
    else { NotSkimmingToTheEnd(ts, marker, decode); }
  }

  // ----- No array under the marker -----

  // A document with null under the marker, which decodes as a whole to no elements.
  function NullDocument(before: seq<Field>, marker: string, after: seq<Field>): seq<Token> {
    Tokens(Obj(before + [Field(marker, Atomic(Null))] + after))
  }

  lemma OneField(field: Field)
    ensures FieldTokens([field]) == [Text(field.key)] + Tokens(field.value)
  {
    assert [field][1..] == [];
  }

  lemma Regroup(a: seq<Token>, b: seq<Token>, c: seq<Token>, d: seq<Token>, e: seq<Token>)
    ensures a + (b + c + d) + e == (a + b) + (c + (d + e))
  {
  }

  lemma NullDocumentTokens(before: seq<Field>, marker: string, after: seq<Field>)
    ensures NullDocument(before, marker, after)
      == ([ObjOpen] + FieldTokens(before)) + ([Text(marker), Scalar(Null)] + (FieldTokens(after) + [ObjClose]))
  {
    var nothing := Field(marker, Atomic(Null));
    var fields := before + [nothing] + after;
    assert Tokens(Obj(fields)) == [ObjOpen] + FieldTokens(fields) + [ObjClose];
    FieldTokensConcat(before + [nothing], after);
    FieldTokensConcat(before, [nothing]);
    OneField(nothing);
    var here := [Text(marker), Scalar(Null)];
    assert FieldTokens([nothing]) == here;
    hide Tokens, FieldTokens;
    Regroup([ObjOpen], FieldTokens(before), here, FieldTokens(after), [ObjClose]);
  }

  // Behind the null there is more, unless it is the last field.
  lemma MoreBehindNull(after: seq<Field>)
    ensures MoreAt(FieldTokens(after) + [ObjClose]) <==> after != []
  {
    if after != [] { assert (FieldTokens(after) + [ObjClose])[0] == Text(after[0].key); }
  }

  /** Null under the marker is read as no elements by the scan for resources if and only if it is the last
      field: it is taken for the opening bracket. */
  lemma ScanOnceReadsNullIffLast<T>(
    before: seq<Field>, marker: string, after: seq<Field>, decode: Json -> Option<T>)
    requires Text(marker) !in FieldTokens(before)
    ensures Yields(ScanOnce(NullDocument(before, marker, after), marker, decode), []) <==> after == []
  {
    hide ReadElements, NullDocument;
    var behind := FieldTokens(after) + [ObjClose];
    var here := [Text(marker), Scalar(Null)] + behind;
    NullDocumentTokens(before, marker, after);
    SkipsOnce([ObjOpen] + FieldTokens(before), here, marker, decode);
    assert here[2..] == behind && here[1..] != [];
    MoreBehindNull(after);
    if after == [] { NothingToRead(behind, decode); } else { TakesSomething(behind, decode); }
  }

  /** The same for the scan for edges, which must skim over what is before. */
  lemma ScanAllReadsNullIffLast<T>(
    before: seq<Field>, marker: string, after: seq<Field>, decode: Json -> Option<T>)
    ensures Yields(ScanAll(NullDocument(before, marker, after), marker, decode), [])
      <==> Skims(FieldTokens(before), marker, true) && after == []
  {
    hide ReadElements, NullDocument;
    var front, behind := [ObjOpen] + FieldTokens(before), FieldTokens(after) + [ObjClose];
    var here := [Text(marker), Scalar(Null)] + behind;
    NullDocumentTokens(before, marker, after);
    assert front[1..] == FieldTokens(before) && here[2..] == behind;
    MoreBehindNull(after);
    if Skims(front, marker, true) {
      SkimsOver(front, here, marker, decode);
      ScanAllIsEmptyIffSkims(here, marker, decode);
      assert Skims(here, marker, false) <==> !MoreAt(behind) && Skims(behind, marker, false);
      if after == [] {
        assert behind == [ObjClose] && behind[1..] == [];
        assert Skims(behind[1..], marker, false) && Skims(behind, marker, false);
      }
    } else {
      NotSkimming(front, here, marker, decode);
    }
  }

  /** A body with null under the marker and another field behind it makes the scan fail, or take what is
      behind for elements, where a full decode succeeds with none. */
  lemma NullMisleads<T>(marker: string, key: string, value: Json, decode: Json -> Option<T>)
    requires key != marker
    ensures var fields := [Field(marker, Atomic(Null)), Field(key, value)];
      && ArrayUnder(fields, marker) == []
      && !Yields(ScanOnce(Tokens(Obj(fields)), marker, decode), [])
      && !Yields(ScanAll(Tokens(Obj(fields)), marker, decode), [])
  {
    var fields := [Field(marker, Atomic(Null)), Field(key, value)];
    assert [] + [Field(marker, Atomic(Null))] + [Field(key, value)] == fields;
    ScanOnceReadsNullIffLast([], marker, [Field(key, value)], decode);
    ScanAllReadsNullIffLast([], marker, [Field(key, value)], decode);
    assert fields[..1] == [fields[0]] && [fields[0]][..0] == [];
    assert ArrayUnder(fields, marker) == ArrayUnder([fields[0]], marker) == ArrayUnder([], marker);
  }

  lemma FoundThenTail(marker: string, elems: seq<Json>, after: seq<Field>)
    ensures var all := ScanAll(FromMarker(marker, elems, after), marker, Whole());
      var tail := ScanAll(Behind(after), marker, Whole());
      all.values == elems + tail.values && all.failed == tail.failed
  {
    hide ReadElements;
    var here := FromMarker(marker, elems, after);
    assert here[2..] == ElementTokens(elems) + Behind(after);
    ScanAllAt(here, marker, Whole());
    ReadsElements(elems, Behind(after), Whole());
    WholeReads(elems);
  }

  /** The scan for edges yields the elements of the array, whichever they are, if and only if it skims over
      every earlier and later occurrence of the marker. */
  lemma ScanAllExact(before: seq<Field>, marker: string, after: seq<Field>)
    ensures (forall elems :: Yields(ScanAll(Document(before, marker, elems, after), marker, Whole()), elems))
      <==> Skims(FieldTokens(before), marker, true) && Skims(FieldTokens(after) + [ObjClose], marker, false)
  {
    hide ReadElements, ScanAll, Document, FromMarker;
    var front := [ObjOpen] + FieldTokens(before);
    assert front[1..] == FieldTokens(before) && Behind(after)[1..] == FieldTokens(after) + [ObjClose];
    if Skims(FieldTokens(before), marker, true) {
      forall elems
        ensures Yields(ScanAll(Document(before, marker, elems, after), marker, Whole()), elems)
          <==> Yields(ScanAll(Behind(after), marker, Whole()), [])
      {
        DocumentTokens(before, marker, elems, after);
        SkimsOver(front, FromMarker(marker, elems, after), marker, Whole());
        FoundThenTail(marker, elems, after);
      }
      if Skims(FieldTokens(after) + [ObjClose], marker, false) { SkimsToTheEnd(Behind(after), marker, Whole()); }
      else {
        NotSkimmingToTheEnd(Behind(after), marker, Whole());
        assert !Yields(ScanAll(Document(before, marker, [], after), marker, Whole()), []);
      }
    } else {
      DocumentTokens(before, marker, [], after);
      MarkerThenArray(marker, after);
      NotSkimming(front, FromMarker(marker, [], after), marker, Whole());
      assert !Yields(ScanAll(Document(before, marker, [], after), marker, Whole()), []);
    }
  }

  /** An earlier marker need not mislead it: one but last in an array, it is skimmed over. */
  lemma SkimmedMarker(key: string, marker: string)
    requires key != marker
    ensures var tokens := FieldTokens([Field(key, Arr([Str(marker), Atomic(Null)]))]);
      Text(marker) in tokens && Skims(tokens, marker, true)
  {
    var elems := [Str(marker), Atomic(Null)];
    assert elems[1..] == [Atomic(Null)] && elems[1..][1..] == [];
    assert ElementTokens([Atomic(Null)]) == [Scalar(Null)] + ElementTokens([]);
    assert ElementTokens(elems) == [Text(marker)] + [Scalar(Null)];
    var tokens := [Text(key), ArrOpen, Text(marker), Scalar(Null), ArrClose];
    var field := Field(key, Arr(elems));
    assert [field][1..] == [] && FieldTokens([field]) == tokens;
    assert tokens[2] == Text(marker);
    var inner := [Text(marker), Scalar(Null), ArrClose];
    assert tokens[1..][1..] == inner && inner[2..] == [ArrClose] && [ArrClose][1..] == [];
    assert Skims([ArrClose], marker, true) && Skims(inner, marker, true);
    assert Skims(tokens[1..], marker, true);
  }

  lemma MarkerThenArray(marker: string, after: seq<Field>)
    ensures var ts := FromMarker(marker, [], after); |ts| >= 2 && MoreAt(ts) && MoreAt(ts[1..])
  {
  }

  // ----- The scan agrees with decoding the whole document, null included -----

  // The marker is a string of the document nowhere, or only as one top-level key with an array, in whose
  // elements it may occur, or with null if that is the last field.
  ghost predicate MarksOneArray(fields: seq<Field>, marker: string) {
    || Text(marker) !in FieldTokens(fields)
    || exists i: nat :: i < |fields| && MarksArrayAt(fields, marker, i)
  }

  ghost predicate MarksArrayAt(fields: seq<Field>, marker: string, i: nat)
    requires i < |fields|
  {
    fields[i].key == marker && (fields[i].value.Arr? || (fields[i].value == Atomic(Null) && i == |fields| - 1))
    && Text(marker) !in FieldTokens(fields[..i]) && Text(marker) !in FieldTokens(fields[i + 1..])
  }

  lemma LastIsNull<T>(fields: seq<Field>, marker: string, decode: Json -> Option<T>)
    requires fields != [] && fields[|fields| - 1] == Field(marker, Atomic(Null))
    requires Text(marker) !in FieldTokens(fields[..|fields| - 1])
    ensures ArrayUnder(fields, marker) == []
    ensures Yields(ScanOnce(Tokens(Obj(fields)), marker, decode), [])
    ensures Yields(ScanAll(Tokens(Obj(fields)), marker, decode), [])
  {
    var before := fields[..|fields| - 1];
    assert before + [Field(marker, Atomic(Null))] + [] == fields;
    NoMarkerNoArray(before, marker);
    NoMarkerSkims(FieldTokens(before), marker, true);
    ScanOnceReadsNullIffLast(before, marker, [], decode);
    ScanAllReadsNullIffLast(before, marker, [], decode);
  }

  /** Scanning the stream of tokens and decoding the whole document yield the same elements. */
  lemma ScanAgreesWithDecode<T>(fields: seq<Field>, marker: string, decode: Json -> Option<T>)
    requires MarksOneArray(fields, marker)
    ensures var all := ElementsOf(ArrayUnder(fields, marker), decode);
      var once, every := ScanOnce(Tokens(Obj(fields)), marker, decode), ScanAll(Tokens(Obj(fields)), marker, decode);
      && once.values == every.values == Readable(all)
      && once.failed == every.failed == !AllDecoded(all)
  {
    hide ReadElements;
    if Text(marker) !in FieldTokens(fields) {
      NoMarkerNoArray(fields, marker);
      var ts := Tokens(Obj(fields));
      SkipsOnce(ts, [], marker, decode);
      SkipsAll(ts, [], marker, decode);
      assert ts + [] == ts;
    } else {
      var i: nat :| i < |fields| && MarksArrayAt(fields, marker, i);
      if !fields[i].value.Arr? {
        LastIsNull(fields, marker, decode);
        return;
      }
      OnlyArray(fields, i);
      ScanOnceFinds(fields, i, decode);
      NoMarkerSkims(FieldTokens(fields[..i]), marker, true);
      NoMarkerSkims(FieldTokens(fields[i + 1..]) + [ObjClose], marker, false);
      ScanAllFinds(fields, i, decode);
    }
  }
}
