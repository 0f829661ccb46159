/** The loops of limitMcpResponse in apps/api/src/services/mcpGateway.ts, over module ResponseLimit. */
module McpGateway {
  import opened Wrappers
  import opened Texts
  import opened JsonTexts
  import opened ResponseLimit
  import Proofs = ResponseLimitProofs

  method FindLargestArray(fields: seq<Field>, path: seq<string>) returns (best: Option<Target>)
    ensures best == LargestFrom(fields, path, None)
    decreases fields
  {
    best := None;
    assert fields[0..] == fields;
    var k := 0;
    while k < |fields|
      invariant 0 <= k <= |fields|
      invariant LargestFrom(fields, path, None) == LargestFrom(fields[k..], path, best)
    {
      Proofs.LargestStep(fields, k, path, best);
      var candidate: Option<Target> := None;
      match fields[k].value {
        case Arr(items) => candidate := Some(Target(path + [fields[k].key], items, Size(fields[k].value)));
        case Obj(inner) => candidate := FindLargestArray(inner, path + [fields[k].key]);
        case _ =>
      }
      if candidate.Some? && (best.None? || candidate.value.bytes > best.value.bytes) { best := candidate; }
      k := k + 1;
    }
  }

  // The marked response with this prefix is at most 50000 bytes long.
  ghost predicate FitsIn(fields: seq<Field>, target: Target, keep: nat) {
    |Serialise(Obj(Candidate(fields, target, keep)))| <= 50_000
  }

  lemma FitsExactly(fields: seq<Field>, target: Target, keep: nat)
    ensures Fits(fields, target, keep) <==> FitsIn(fields, target, keep)
  {
    SizeIsLength(Obj(Candidate(fields, target, keep)));
  }

  // The longest proper prefix with which the marked response fits.
  ghost predicate IsLongest(fields: seq<Field>, target: Target, keep: nat) {
    && keep < |target.items| && FitsIn(fields, target, keep)
    && forall n :: keep < n < |target.items| ==> !FitsIn(fields, target, n)
  }

  // Dropping every item of the chosen array makes the response fit.
  ghost predicate CanCut(fields: seq<Field>) {
    var target := LargestArray(fields);
    target.Some? && target.value.items != [] && FitsIn(fields, target.value, 0)
  }

  ghost predicate IsCut(fields: seq<Field>, target: Target, cut: seq<Field>) {
    exists keep :: IsLongest(fields, target, keep) && cut == Candidate(fields, target, keep)
  }

  method TruncateLargestArray(fields: seq<Field>) returns (best: Option<seq<Field>>)
    requires IsRecord(fields)
    ensures best.Some? <==> CanCut(fields)
    ensures best.Some? ==> IsCut(fields, LargestArray(fields).value, best.value)
  {
    best := None;
    var found := FindLargestArray(fields, []);
    if found.None? || found.value.items == [] { return; }
    var target := found.value;
    Proofs.LargestArrayIsLargest(fields, target.path, target.items);
    var keep := LongestPrefix(fields, target);
    if keep.Some? { best := Some(Candidate(fields, target, keep.value)); }
  }

  method LongestPrefix(fields: seq<Field>, target: Target) returns (best: Option<nat>)
    requires Proofs.Targets(fields, target) && target.items != []
    ensures best.Some? ==> IsLongest(fields, target, best.value)
    ensures best.Some? <==> FitsIn(fields, target, 0)
  {
    best := SearchPrefix(fields, target);
    if best.Some? { Proofs.FittingIsMonotone(fields, target, 0, best.value); }
    forall n: nat | n < |target.items| ensures Fits(fields, target, n) <==> FitsIn(fields, target, n) {
      FitsExactly(fields, target, n);
    }
  }

  // The binary search.
  method SearchPrefix(fields: seq<Field>, target: Target) returns (best: Option<nat>)
    requires Proofs.Targets(fields, target) && target.items != []
    ensures best.Some? ==> best.value < |target.items| && Fits(fields, target, best.value)
    ensures best.Some? ==> forall n :: best.value < n < |target.items| ==> !Fits(fields, target, n)
    ensures best.None? ==> !Fits(fields, target, 0)
  {
    best := None;
    ghost var fits := (n: nat) => Fits(fields, target, n);
    var low: int, high: int := 0, |target.items| - 1;
    while low <= high
      invariant 0 <= low <= high + 1 <= |target.items|
      invariant best == if low == 0 then None else Some(low - 1)
      invariant low > 0 ==> fits(low - 1)
      invariant forall n :: high < n < |target.items| ==> !fits(n)
      decreases high - low
    {
      var keep := (low + high) / 2;
      if Fits(fields, target, keep) {
        best := Some(keep);
        low := keep + 1;
      } else {
        NothingLongerFits(fields, target, keep);
        high := keep - 1;
      }
    }
    assert forall n: nat :: n < |target.items| ==> fits(n) == Fits(fields, target, n);
  }

  lemma NothingLongerFits(fields: seq<Field>, target: Target, keep: nat)
    requires Proofs.Targets(fields, target) && !Fits(fields, target, keep)
    ensures forall n :: keep <= n < |target.items| ==> !Fits(fields, target, n)
  {
    forall n | keep <= n < |target.items| ensures !Fits(fields, target, n) {
      if Fits(fields, target, n) { Proofs.FittingIsMonotone(fields, target, keep, n); }
    }
  }

  // The fallback: its status, the limit and the length of what it stands for.
  ghost predicate Refuses(r: Json, actualBytes: nat) {
    && r.Obj? && Get(r.fields, "status") == Some(Str("response_too_large"))
    && IsNumber(At(r.fields, ["limits", "responseMaxBytes"]), 50_000)
    && IsNumber(At(r.fields, ["limits", "actualBytes"]), actualBytes)
  }

  ghost predicate IsNumber(v: Option<Json>, n: nat) { v.Some? && v.value.Number? && Decimal(v.value.text) == n }

  lemma GetTwo(a: Field, b: Field)
    requires a.key != b.key
    ensures Get([a, b], a.key) == Some(a.value) && Get([a, b], b.key) == Some(b.value)
  {
    assert [a, b][1..] == [b];
  }

  lemma GetThree(a: Field, b: Field, d: Field)
    requires a.key != b.key && a.key != d.key && b.key != d.key
    ensures Get([a, b, d], a.key) == Some(a.value) && Get([a, b, d], b.key) == Some(b.value)
    ensures Get([a, b, d], d.key) == Some(d.value)
  {
    assert [a, b, d][1..] == [b, d];
    GetTwo(b, d);
  }

  lemma AtTwo(fields: seq<Field>, outer: string, inner: seq<Field>, key: string)
    requires Get(fields, outer) == Some(Obj(inner))
    ensures At(fields, [outer, key]) == Get(inner, key)
  {
    assert [outer, key][1..] == [key];
  }

  lemma RefusalRefuses(actualBytes: nat)
    ensures Refuses(Refusal(actualBytes), actualBytes)
  {
    var fields := Refusal(actualBytes).fields;
    var limits := fields[2].value.fields;
    DecimalOfDigits(MAX_BYTES);
    DecimalOfDigits(actualBytes);
    GetThree(fields[0], fields[1], fields[2]);
    GetTwo(limits[0], limits[1]);
    AtTwo(fields, "limits", limits, "responseMaxBytes");
    AtTwo(fields, "limits", limits, "actualBytes");
  }

  ghost predicate Limits(value: Json, r: Json) {
    if |Serialise(value)| <= 50_000 then r == value
    else if value.Obj? && CanCut(value.fields) then
      r.Obj? && IsCut(value.fields, LargestArray(value.fields).value, r.fields)
    else r == Refusal(|Serialise(value)|)
  }

  // The marker names the array and says how many of its items are kept.
  ghost predicate Announces(m: Json, target: Target, keep: nat) {
    && m.Obj? && Get(m.fields, "field") == Some(Str(JoinDots(target.path)))
    && IsNumber(Get(m.fields, "returned"), keep) && IsNumber(Get(m.fields, "total"), |target.items|)
  }

  lemma MarkerAnnounces(target: Target, keep: nat, n: nat)
    ensures Announces(Marker(target, keep), target, n) <==> n == keep
  {
    var f := Marker(target, keep).fields;
    DecimalOfDigits(keep);
    DecimalOfDigits(|target.items|);
    assert f[1..][1..] == f[2..] && f[2..][1..] == f[3..];
    assert Get(f[2..], "total") == Some(f[2].value) && Get(f[1..], "total") == Some(f[2].value);
    assert Get(f[1..], "returned") == Some(f[1].value);
  }

  // The response holds as many items of the chosen array as its marker announces.
  ghost predicate HoldsPrefix(target: Target, r: seq<Field>) {
    exists keep: nat ::
      && keep < |target.items| && Get(r, "truncated").Some? && Announces(Get(r, "truncated").value, target, keep)
      && At(r, target.path) == Some(Arr(target.items[..keep]))
  }

  /** A response that was cut holds the prefix its marker announces if and only if the chosen array lies
      outside the key "truncated" and no key on its path is empty. */
  lemma CutHoldsPrefixExactly(fields: seq<Field>, target: Target, r: seq<Field>)
    requires Proofs.Targets(fields, target) && IsCut(fields, target, r)
    ensures HoldsPrefix(target, r) <==> Proofs.CutsCleanly(target.path)
  {
    var keep :| IsLongest(fields, target, keep) && r == Candidate(fields, target, keep);
    Proofs.CandidateDiffers(fields, target, keep, target.path);
    forall n: nat ensures Announces(Marker(target, keep), target, n) <==> n == keep {
      MarkerAnnounces(target, keep, n);
    }
  }

  ghost predicate HoldsPrefixExactly(fields: seq<Field>, r: seq<Field>) {
    var target := LargestArray(fields);
    target.Some? && target.value.path != [] && (HoldsPrefix(target.value, r) <==> Proofs.CutsCleanly(target.value.path))
  }

  method LimitMcpResponse(value: Json) returns (r: Json)
    requires IsJson(value)
    ensures Limits(value, r)
    ensures |Serialise(value)| > 50_000 && value.Obj? && CanCut(value.fields) ==>
      r.Obj? && HoldsPrefixExactly(value.fields, r.fields)
    ensures |Serialise(value)| > 50_000 && !(value.Obj? && CanCut(value.fields)) ==> Refuses(r, |Serialise(value)|)
    ensures |Serialise(value)| <= MAX_SAFE_INTEGER ==> |Serialise(r)| <= 50_000
  {
    SizeIsLength(value);
    if Size(value) <= MAX_BYTES { return value; }
    if value.Obj? {
      var truncated := TruncateLargestArray(value.fields);
      if truncated.Some? {
        Proofs.LargestArrayIsLargest(value.fields, [], []);
        CutHoldsPrefixExactly(value.fields, LargestArray(value.fields).value, truncated.value);
        return Obj(truncated.value);
      }
    }
    if Size(value) <= MAX_SAFE_INTEGER { RefusalFits(Size(value)); }
    RefusalRefuses(Size(value));
    return Refusal(Size(value));
  }

  function Pow10(k: nat): nat { if k == 0 then 1 else 10 * Pow10(k - 1) }

  lemma {:induction false} DigitsAreFew(n: nat, k: nat)
    requires 1 <= k && n < Pow10(k)
    ensures |Digits(n)| <= k
  {
    if n >= 10 {
      assert k > 1;
      DigitsAreFew(n / 10, k - 1);
    }
  }

  /** The fallback always fits, whatever its size field says. */
  lemma RefusalFits(actualBytes: nat)
    requires actualBytes <= MAX_SAFE_INTEGER
    ensures |Serialise(Refusal(actualBytes))| <= 50_000
  {
    RefusalSize(actualBytes);
    SizeIsLength(Refusal(actualBytes));
  }

  lemma SafeIntegersAreShort(n: nat)
    requires n <= MAX_SAFE_INTEGER
    ensures |Digits(n)| <= 16
  {
    assert Pow10(4) == 10_000 && Pow10(6) == 1_000_000 && Pow10(8) == 100_000_000;
    assert Pow10(10) == 10_000_000_000 && Pow10(12) == 1_000_000_000_000;
    assert Pow10(14) == 100_000_000_000_000 && Pow10(16) == 10_000_000_000_000_000;
    DigitsAreFew(n, 16);
  }

  lemma RefusalSize(actualBytes: nat)
    requires actualBytes <= MAX_SAFE_INTEGER
    ensures Size(Refusal(actualBytes)) <= 50_000
  {
    SafeIntegersAreShort(actualBytes);
    SafeIntegersAreShort(MAX_BYTES);
    assert |TOO_LARGE| < 200;
    var fields := Refusal(actualBytes).fields;
    var limits := fields[2].value.fields;
    TwoFields(limits[0], limits[1]);
    ThreeFields(fields[0], fields[1], fields[2]);
  }

  lemma TwoFields(a: Field, b: Field)
    ensures FieldsSize([a, b]) == StringBytes(a.key) + Size(a.value) + StringBytes(b.key) + Size(b.value) + 4
  {
    assert [a, b][1..] == [b] && [b][1..] == [];
    assert FieldsSize([b]) == StringBytes(b.key) + 1 + Size(b.value) + 1 + FieldsSize([]);
  }

  lemma ThreeFields(a: Field, b: Field, d: Field)
    ensures FieldsSize([a, b, d]) ==
      StringBytes(a.key) + Size(a.value) + StringBytes(b.key) + Size(b.value) + StringBytes(d.key) + Size(d.value) + 6
  {
    assert [a, b, d][1..] == [b, d];
    TwoFields(b, d);
  }
}
