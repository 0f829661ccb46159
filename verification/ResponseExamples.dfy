/** Values that limitMcpResponse cuts although the answer does not hold the prefix it announces. */
module ResponseExamples {
  import opened Wrappers
  import opened Texts
  import opened JsonTexts
  import opened ResponseLimit
  import opened McpGateway
  import Proofs = ResponseLimitProofs

  function Repeated(n: nat): (s: string)
    ensures |s| == n && forall k :: 0 <= k < n ==> s[k] == 'x'
  {
    seq(n, _ => 'x')
  }

  // The value [null, "x..x"].
  function Pair(n: nat): seq<Json> { [Null, Str(Repeated(n))] }

  lemma {:induction false} PlainSize(s: string)
    requires forall k :: 0 <= k < |s| ==> s[k] == 'x'
    ensures StringBytes(s) == |s| + 2
  {
    if s != "" { PlainSize(s[1..]); }
  }

  lemma PairSize(n: nat)
    ensures Size(Arr(Pair(n))) == n + 9
  {
    PlainSize(Repeated(n));
    var v := Str(Repeated(n));
    assert Pair(n) == [Null, v];
    assert [Null, v][1..] == [v] && [v][1..] == [];
    assert ItemsSize([v]) == Size(v) + 1 + ItemsSize([]);
    assert ItemsSize([Null, v]) == Size(Null) + 1 + ItemsSize([v]);
  }

  lemma OneField(f: Field)
    ensures Size(Obj([f])) == StringBytes(f.key) + Size(f.value) + 3
  {
    assert [f][1..] == [];
    assert FieldsSize([f]) == StringBytes(f.key) + 1 + Size(f.value) + 1 + FieldsSize([]);
  }

  lemma FourFields(a: Field, b: Field, d: Field, e: Field)
    ensures Size(Obj([a, b, d, e])) == StringBytes(a.key) + Size(a.value) + StringBytes(b.key) + Size(b.value)
                                       + StringBytes(d.key) + Size(d.value) + StringBytes(e.key) + Size(e.value) + 9
  {
    assert [a, b, d, e][1..] == [b, d, e];
    ThreeFields(b, d, e);
  }

  lemma MarkerIsSmall(target: Target, keep: nat)
    requires |JoinDots(target.path)| <= 20 && keep < 10 && |target.items| < 10
    ensures Size(Marker(target, keep)) <= 2_000
  {
    var field, total := Str(JoinDots(target.path)), Number(Digits(|target.items|));
    DigitsAreFew(keep, 1);
    DigitsAreFew(|target.items|, 1);
    assert |HINT| < 200;
    FourFields(Field("field", field), Field("returned", Number(Digits(keep))), Field("total", total),
               Field("message", Str(HINT)));
  }

  // When all items but the last fit, that is the cut.
  lemma CutToLast(fields: seq<Field>, target: Target, n: nat, r: Json)
    requires LargestArray(fields) == Some(target) && |target.items| == n + 1 && Fits(fields, target, 0)
    requires Fits(fields, target, n)
    requires Size(Obj(fields)) > MAX_BYTES && Limits(Obj(fields), r)
    ensures r == Obj(Candidate(fields, target, n))
  {
    SizeIsLength(Obj(fields));
    FitsExactly(fields, target, 0);
    FitsExactly(fields, target, n);
    assert IsCut(fields, target, r.fields);
    var keep :| IsLongest(fields, target, keep) && r.fields == Candidate(fields, target, keep);
    assert keep == n;
  }

  // ---------- The chosen array lies under the key "truncated" ----------

  function UnderMarker(items: seq<Json>): seq<Field> { [Field("truncated", Obj([Field("r", Arr(items))]))] }

  function UnderTarget(items: seq<Json>): Target { Target(["truncated", "r"], items, Size(Arr(items))) }

  lemma UnderMarkerTarget(items: seq<Json>)
    ensures LargestArray(UnderMarker(items)) == Some(UnderTarget(items))
    ensures Proofs.Targets(UnderMarker(items), UnderTarget(items))
  {
    var inner := [Field("r", Arr(items))];
    var path: seq<string> := [];
    assert path + ["truncated"] == ["truncated"] && ["truncated"] + ["r"] == ["truncated", "r"];
    assert inner[1..] == [] && UnderMarker(items)[1..] == [];
    Proofs.LargestStep(inner, 0, ["truncated"], None);
    assert inner[0..] == inner && LargestFrom(inner, ["truncated"], None) == Some(UnderTarget(items));
    Proofs.LargestStep(UnderMarker(items), 0, path, None);
    assert UnderMarker(items)[0..] == UnderMarker(items);
    assert ["truncated", "r"][1..] == ["r"];
  }

  lemma UnderMarkerCandidate(items: seq<Json>, keep: nat)
    requires keep < |items|
    ensures Candidate(UnderMarker(items), UnderTarget(items), keep)
      == [Field("truncated", Marker(UnderTarget(items), keep))]
  {
    var fields, target := UnderMarker(items), UnderTarget(items);
    UnderMarkerTarget(items);
    var v := Proofs.WithSlicePuts(fields, target.path, items, keep);
    var cut := Put(fields, "truncated", v);
    assert cut == [Field("truncated", v)] + fields[1..];
    assert Put(cut, "truncated", Marker(target, keep)) == [Field("truncated", Marker(target, keep))] + cut[1..];
  }

  lemma UnderMarkerFits(items: seq<Json>, keep: nat)
    requires keep < |items| < 10
    ensures Fits(UnderMarker(items), UnderTarget(items), keep)
  {
    var target := UnderTarget(items);
    UnderMarkerCandidate(items, keep);
    assert JoinDots(target.path) == "truncated" + "." + "r" by { assert target.path[1..] == ["r"]; }
    MarkerIsSmall(target, keep);
    OneField(Field("truncated", Marker(target, keep)));
  }

  lemma UnderMarkerSize(items: seq<Json>)
    ensures Size(Obj(UnderMarker(items))) > Size(Arr(items))
  {
    OneField(Field("r", Arr(items)));
    OneField(Field("truncated", Obj([Field("r", Arr(items))])));
  }

  lemma UnderMarkerLimited(items: seq<Json>, r: Json)
    requires |items| == 2 && Size(Arr(items)) > MAX_BYTES && Limits(Obj(UnderMarker(items)), r)
    ensures r == Obj([Field("truncated", Marker(UnderTarget(items), 1))])
  {
    UnderMarkerSize(items);
    UnderMarkerTarget(items);
    UnderMarkerFits(items, 0);
    UnderMarkerFits(items, 1);
    UnderMarkerCandidate(items, 1);
    CutToLast(UnderMarker(items), UnderTarget(items), 1, r);
  }

  lemma MarkerHasNoArray(target: Target, keep: nat)
    ensures At([Field("truncated", Marker(target, keep))], ["truncated", "r"]).None?
  {
    Proofs.GetOfMarker(target, keep, "r");
    var f := Marker(target, keep).fields;
    assert f[1..][1..] == f[2..] && f[2..][1..] == f[3..] && f[3..][1..] == [];
    assert ["truncated", "r"][1..] == ["r"];
    assert Get(f[3..], "r").None? && Get(f[2..], "r").None? && Get(f[1..], "r").None?;
  }

  /** {"truncated": {"r": [null, "x..x"]}} is cut to an answer that announces one item and holds none. */
  lemma UnderMarkerHoldsNothing(r: Json)
    requires Limits(Obj(UnderMarker(Pair(50_000))), r)
    ensures r == Obj([Field("truncated", Marker(UnderTarget(Pair(50_000)), 1))])
    ensures At(r.fields, ["truncated", "r"]).None?
  {
    PairSize(50_000);
    UnderMarkerLimited(Pair(50_000), r);
    MarkerHasNoArray(UnderTarget(Pair(50_000)), 1);
  }

  // ---------- A key on the path is empty ----------

  function EmptyKey(items: seq<Json>, bulk: string): seq<Field> {
    [Field("", Arr(items)), Field("truncated", Str(bulk))]
  }

  function EmptyTarget(items: seq<Json>): Target { Target([""], items, Size(Arr(items))) }

  lemma EmptyKeyTarget(items: seq<Json>, bulk: string)
    ensures LargestArray(EmptyKey(items, bulk)) == Some(EmptyTarget(items))
  {
    var fields := EmptyKey(items, bulk);
    var path: seq<string> := [];
    assert path + [""] == [""] && fields[1..] == [fields[1]] && fields[1..][1..] == [];
    Proofs.LargestStep(fields, 0, path, None);
    Proofs.LargestStep(fields, 1, path, Some(EmptyTarget(items)));
    assert fields[0..] == fields && fields[2..] == [];
  }

  lemma EmptyKeyCandidate(items: seq<Json>, bulk: string, keep: nat)
    ensures Candidate(EmptyKey(items, bulk), EmptyTarget(items), keep) ==
      [Field("", Arr(items)), Field("truncated", Marker(EmptyTarget(items), keep))]
  {
    var fields, marker := EmptyKey(items, bulk), Marker(EmptyTarget(items), keep);
    assert WithSlice(fields, [""], keep) == fields;
    assert fields[1..] == [fields[1]] && fields[1..][1..] == [];
    assert Put(fields[1..], "truncated", marker) == [Field("truncated", marker)] + [];
  }

  lemma EmptyKeyFits(items: seq<Json>, bulk: string, keep: nat)
    requires keep < |items| < 10 && Size(Arr(items)) <= 40_000
    ensures Fits(EmptyKey(items, bulk), EmptyTarget(items), keep)
  {
    EmptyKeyCandidate(items, bulk, keep);
    MarkerIsSmall(EmptyTarget(items), keep);
    TwoFields(Field("", Arr(items)), Field("truncated", Marker(EmptyTarget(items), keep)));
  }

  lemma EmptyKeyLimited(items: seq<Json>, bulk: string, r: Json)
    requires |items| == 2 && Size(Arr(items)) <= 40_000 && Size(Arr(items)) + StringBytes(bulk) > MAX_BYTES
    requires Limits(Obj(EmptyKey(items, bulk)), r)
    ensures r == Obj([Field("", Arr(items)), Field("truncated", Marker(EmptyTarget(items), 1))])
  {
    TwoFields(Field("", Arr(items)), Field("truncated", Str(bulk)));
    EmptyKeyTarget(items, bulk);
    EmptyKeyFits(items, bulk, 0);
    EmptyKeyFits(items, bulk, 1);
    EmptyKeyCandidate(items, bulk, 1);
    CutToLast(EmptyKey(items, bulk), EmptyTarget(items), 1, r);
  }

  /** {"": [null, "x..x"], "truncated": "x..x"} is cut to an answer that announces one item and holds both. */
  lemma EmptyKeyHoldsEverything(r: Json)
    requires Limits(Obj(EmptyKey(Pair(30_000), Repeated(25_000))), r)
    ensures r == Obj([Field("", Arr(Pair(30_000))), Field("truncated", Marker(EmptyTarget(Pair(30_000)), 1))])
    ensures At(r.fields, [""]) == Some(Arr(Pair(30_000)))
  {
    PairSize(30_000);
    PlainSize(Repeated(25_000));
    EmptyKeyLimited(Pair(30_000), Repeated(25_000), r);
  }
}
