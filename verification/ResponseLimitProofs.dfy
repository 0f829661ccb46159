/** The binary search of module ResponseLimit is justified, its target is a largest array, and nothing else is cut. */
module ResponseLimitProofs {
  import opened Wrappers
  import opened Texts
  import opened JsonTexts
  import opened ResponseLimit

  // ---------- Serialised size grows with the prefix ----------

  // The same keys in the same order, with values that are no larger.
  ghost predicate NoLarger(a: seq<Field>, b: seq<Field>) {
    |a| == |b| && forall k :: 0 <= k < |a| ==> a[k].key == b[k].key && Size(a[k].value) <= Size(b[k].value)
  }

  lemma {:induction false} NoLargerFields(a: seq<Field>, b: seq<Field>)
    requires NoLarger(a, b)
    ensures FieldsSize(a) <= FieldsSize(b) && Size(Obj(a)) <= Size(Obj(b))
  {
    if a != [] { NoLargerFields(a[1..], b[1..]); }
  }

  lemma NoLargerCons(f: Field, g: Field, a: seq<Field>, b: seq<Field>)
    requires f.key == g.key && Size(f.value) <= Size(g.value) && NoLarger(a, b)
    ensures NoLarger([f] + a, [g] + b)
  {
  }

  lemma {:induction false} PutIsMonotone(a: seq<Field>, b: seq<Field>, key: string, v: Json, w: Json)
    requires NoLarger(a, b) && Size(v) <= Size(w)
    ensures NoLarger(Put(a, key, v), Put(b, key, w))
  {
    if a == [] {
    } else if a[0].key == key {
      NoLargerCons(Field(key, v), Field(key, w), a[1..], b[1..]);
    } else {
      PutIsMonotone(a[1..], b[1..], key, v, w);
      NoLargerCons(a[0], b[0], Put(a[1..], key, v), Put(b[1..], key, w));
    }
  }

  lemma {:induction false} PrefixIsNoLarger(items: seq<Json>, m: nat, n: nat)
    requires m <= n <= |items|
    ensures ItemsSize(items[..m]) <= ItemsSize(items[..n])
  {
    if m > 0 {
      assert items[..m][1..] == items[1..][..m - 1] && items[..n][1..] == items[1..][..n - 1];
      PrefixIsNoLarger(items[1..], m - 1, n - 1);
    }
  }

  lemma SliceIsNoLarger(items: seq<Json>, m: nat, n: nat)
    requires m <= n <= |items|
    ensures Size(Arr(items[..m])) <= Size(Arr(items[..n]))
  {
    PrefixIsNoLarger(items, m, n);
    if m > 0 {
      assert items[..m] != [];
    } else if n > 0 {
      assert ItemsSize(items[..n]) == Size(items[..n][0]) + 1 + ItemsSize(items[..n][1..]);
    }
  }

  // The target array of a record.
  ghost predicate Targets(fields: seq<Field>, target: Target) {
    target.path != [] && At(fields, target.path) == Some(Arr(target.items))
  }

  lemma {:induction false} CutIsMonotone(fields: seq<Field>, path: seq<string>, items: seq<Json>, m: nat, n: nat)
    requires path != [] && At(fields, path) == Some(Arr(items)) && m <= n <= |items|
    ensures NoLarger(WithSlice(fields, path, m), WithSlice(fields, path, n))
    decreases |path|
  {
    assert NoLarger(fields, fields);
    if path[0] != "" {
      if |path| == 1 {
        SliceIsNoLarger(items, m, n);
        PutIsMonotone(fields, fields, path[0], Arr(items[..m]), Arr(items[..n]));
      } else {
        var inner := Get(fields, path[0]).value.fields;
        var a, b := WithSlice(inner, path[1..], m), WithSlice(inner, path[1..], n);
        CutIsMonotone(inner, path[1..], items, m, n);
        NoLargerFields(a, b);
        PutIsMonotone(fields, fields, path[0], Obj(a), Obj(b));
      }
    }
  }

  lemma {:induction false} DigitsGrow(m: nat, n: nat)
    requires m <= n
    ensures |Digits(m)| <= |Digits(n)|
  {
    if m >= 10 { DigitsGrow(m / 10, n / 10); }
  }

  lemma MarkerGrows(target: Target, m: nat, n: nat)
    requires m <= n
    ensures Size(Marker(target, m)) <= Size(Marker(target, n))
  {
    DigitsGrow(m, n);
    var a, b := Marker(target, m).fields, Marker(target, n).fields;
    assert Size(a[1].value) <= Size(b[1].value);
    NoLargerFields(a, b);
  }

  /** A longer prefix never serialises to fewer bytes, so fitting is monotone and binary search is sound. */
  lemma FittingIsMonotone(fields: seq<Field>, target: Target, m: nat, n: nat)
    requires Targets(fields, target) && m <= n <= |target.items| && Fits(fields, target, n)
    ensures Fits(fields, target, m)
  {
    CutIsMonotone(fields, target.path, target.items, m, n);
    MarkerGrows(target, m, n);
    var a, b := WithSlice(fields, target.path, m), WithSlice(fields, target.path, n);
    PutIsMonotone(a, b, "truncated", Marker(target, m), Marker(target, n));
    NoLargerFields(Candidate(fields, target, m), Candidate(fields, target, n));
  }

  // ---------- The target is a largest array ----------

  lemma {:induction false} GetOfField(fields: seq<Field>, k: nat)
    requires DistinctKeys(fields) && k < |fields|
    ensures Get(fields, fields[k].key) == Some(fields[k].value)
  {
    if k > 0 {
      assert fields[0].key != fields[k].key;
      GetOfField(fields[1..], k - 1);
    }
  }

  lemma {:induction false} FieldOfGet(fields: seq<Field>, key: string) returns (k: nat)
    requires Get(fields, key).Some?
    ensures k < |fields| && fields[k] == Field(key, Get(fields, key).value)
  {
    if fields[0].key == key {
      k := 0;
    } else {
      k := FieldOfGet(fields[1..], key);
      k := k + 1;
    }
  }

  lemma AtCons(fields: seq<Field>, k: nat, inner: seq<Field>, rest: seq<string>)
    requires DistinctKeys(fields) && k < |fields| && fields[k].value == Obj(inner) && rest != []
    ensures At(fields, [fields[k].key] + rest) == At(inner, rest)
  {
    GetOfField(fields, k);
    assert ([fields[k].key] + rest)[1..] == rest;
  }

  // t was found in `fields`, whose own path is `path`.
  ghost predicate FoundUnder(fields: seq<Field>, path: seq<string>, t: Target) {
    && path <= t.path && |path| < |t.path| && t.bytes == Size(Arr(t.items))
    && At(fields, t.path[|path|..]) == Some(Arr(t.items))
  }

  // The candidate of one entry of findLargestArray.
  function EntryBest(field: Field, path: seq<string>): Option<Target> {
    match field.value
    case Arr(items) => Some(Target(path + [field.key], items, Size(field.value)))
    case Obj(inner) => LargestFrom(inner, path + [field.key], None)
    case _ => None
  }

  lemma LargestStep(fields: seq<Field>, k: nat, path: seq<string>, best: Option<Target>)
    requires k < |fields|
    ensures var candidate := EntryBest(fields[k], path);
      LargestFrom(fields[k..], path, best) ==
      LargestFrom(fields[k + 1..], path, if Better(candidate, best) then candidate else best)
  {
    assert fields[k..][0] == fields[k] && fields[k..][1..] == fields[k + 1..];
  }

  lemma {:induction false} LargestIsFound(fields: seq<Field>, k: nat, path: seq<string>, best: Option<Target>)
    requires IsRecord(fields) && k <= |fields|
    ensures var r := LargestFrom(fields[k..], path, best);
      r == best || (r.Some? && FoundUnder(fields, path, r.value))
    decreases fields, |fields| - k
  {
    if k < |fields| {
      LargestStep(fields, k, path, best);
      var candidate := EntryBest(fields[k], path);
      LargestIsFound(fields, k + 1, path, if Better(candidate, best) then candidate else best);
      EntryIsFound(fields, k, path);
    }
  }

  lemma {:induction false} EntryIsFound(fields: seq<Field>, k: nat, path: seq<string>)
    requires IsRecord(fields) && k < |fields|
    ensures EntryBest(fields[k], path).Some? ==> FoundUnder(fields, path, EntryBest(fields[k], path).value)
    decreases fields, 0
  {
    var here := path + [fields[k].key];
    GetOfField(fields, k);
    match fields[k].value
    case Arr(items) => assert here[|path|..] == [fields[k].key];
    case Obj(inner) =>
      assert IsJson(fields[k].value);
      LargestIsFound(inner, 0, here, None);
      assert inner[0..] == inner;
      var r := LargestFrom(inner, here, None);
      if r.Some? {
        var rest := r.value.path[|here|..];
        AtCons(fields, k, inner, rest);
        assert r.value.path[|path|..] == [fields[k].key] + rest;
      }
    case _ =>
  }

  lemma {:induction false} BestOnlyGrows(fields: seq<Field>, path: seq<string>, best: Option<Target>)
    ensures var r := LargestFrom(fields, path, best); best.Some? ==> r.Some? && best.value.bytes <= r.value.bytes
    decreases |fields|
  {
    if fields != [] {
      assert fields[0..] == fields;
      LargestStep(fields, 0, path, best);
      var candidate := EntryBest(fields[0], path);
      BestOnlyGrows(fields[1..], path, if Better(candidate, best) then candidate else best);
    }
  }

  // Every array below an entry that is still to come is no larger than the result.
  lemma {:induction false} LargestCovers(fields: seq<Field>, k: nat, path: seq<string>, best: Option<Target>,
                                               j: nat, p: seq<string>, items: seq<Json>)
    requires IsRecord(fields) && k <= j < |fields| && p != [] && p[0] == fields[j].key
    requires At(fields, p) == Some(Arr(items))
    ensures var r := LargestFrom(fields[k..], path, best); r.Some? && Size(Arr(items)) <= r.value.bytes
    decreases fields, |fields| - k
  {
    LargestStep(fields, k, path, best);
    var candidate := EntryBest(fields[k], path);
    var next := if Better(candidate, best) then candidate else best;
    if k < j {
      LargestCovers(fields, k + 1, path, next, j, p, items);
    } else {
      EntryCovers(fields, k, path, p, items);
      BestOnlyGrows(fields[k + 1..], path, next);
    }
  }

  lemma {:induction false} EntryCovers(fields: seq<Field>, k: nat, path: seq<string>, p: seq<string>, items: seq<Json>)
    requires IsRecord(fields) && k < |fields| && p != [] && p[0] == fields[k].key && At(fields, p) == Some(Arr(items))
    ensures EntryBest(fields[k], path).Some? && Size(Arr(items)) <= EntryBest(fields[k], path).value.bytes
    decreases fields, 0
  {
    GetOfField(fields, k);
    if |p| > 1 {
      var inner := fields[k].value.fields;
      assert IsJson(fields[k].value);
      var j := FieldOfGet(inner, p[1]);
      LargestCovers(inner, 0, path + [fields[k].key], None, j, p[1..], items);
      assert inner[0..] == inner;
    }
  }

  /** The chosen array is reachable through records and no reachable array serialises to more bytes;
      none is chosen exactly when none is reachable. */
  lemma LargestArrayIsLargest(fields: seq<Field>, p: seq<string>, items: seq<Json>)
    requires IsRecord(fields)
    ensures LargestArray(fields).Some? ==> Targets(fields, LargestArray(fields).value)
    ensures p != [] && At(fields, p) == Some(Arr(items)) ==>
      LargestArray(fields).Some? && |Serialise(Arr(items))| <= |Serialise(Arr(LargestArray(fields).value.items))|
  {
    SizeIsLength(Arr(items));
    assert fields[0..] == fields;
    LargestIsFound(fields, 0, [], None);
    if LargestArray(fields).Some? {
      var t := LargestArray(fields).value;
      assert t.path[0..] == t.path;
      SizeIsLength(Arr(t.items));
    }
    if p != [] && At(fields, p) == Some(Arr(items)) {
      var j := FieldOfGet(fields, p[0]);
      LargestCovers(fields, 0, [], None, j, p, items);
    }
  }

  // ---------- The target is the first of the largest ----------

  // The k-th entry with this key.
  ghost predicate KeyAt(fields: seq<Field>, k: nat, key: string) { k < |fields| && fields[k].key == key }

  // p comes before q in the order of the fields.
  ghost predicate Earlier(fields: seq<Field>, p: seq<string>, q: seq<string>)
    decreases |p|
  {
    && p != [] && q != []
    && ((exists m: nat, n: nat :: m < n && KeyAt(fields, m, p[0]) && KeyAt(fields, n, q[0]))
        || (p[0] == q[0] && Get(fields, p[0]).Some? && Get(fields, p[0]).value.Obj?
            && Earlier(Get(fields, p[0]).value.fields, p[1..], q[1..])))
  }

  // r comes from the j-th entry, and beats the best of those before it.
  ghost predicate Beats(fields: seq<Field>, k: nat, path: seq<string>, best: Option<Target>, r: Option<Target>, j: nat)
  {
    && k <= j < |fields| && r.Some? && r == EntryBest(fields[j], path)
    && (best.Some? ==> best.value.bytes < r.value.bytes)
    && forall i :: k <= i < j ==>
         var e := EntryBest(fields[i], path); e.Some? ==> e.value.bytes < r.value.bytes
  }

  lemma {:induction false} LargestBeats(fields: seq<Field>, k: nat, path: seq<string>, best: Option<Target>)
    requires k <= |fields|
    ensures var r := LargestFrom(fields[k..], path, best);
      r == best || exists j: nat :: Beats(fields, k, path, best, r, j)
    decreases |fields| - k
  {
    if k < |fields| {
      LargestStep(fields, k, path, best);
      var candidate := EntryBest(fields[k], path);
      var next := if Better(candidate, best) then candidate else best;
      var after := k + 1;
      LargestBeats(fields, after, path, next);
      var r := LargestFrom(fields[k..], path, best);
      if j: nat :| Beats(fields, after, path, next, r, j) {
        assert Beats(fields, k, path, best, r, j);
      } else if r != best {
        assert Beats(fields, k, path, best, r, k);
      }
    }
  }

  lemma EarlierIndex(fields: seq<Field>, m: nat, n: nat, j: nat)
    requires DistinctKeys(fields) && m < n && n < |fields| && j < |fields| && fields[n].key == fields[j].key
    ensures m < j
  {}

  lemma {:induction false} FirstIsLarger(fields: seq<Field>, path: seq<string>, p: seq<string>, items: seq<Json>,
                                         t: Target)
    requires IsRecord(fields) && LargestFrom(fields, path, None) == Some(t) && FoundUnder(fields, path, t)
    requires At(fields, p) == Some(Arr(items)) && Earlier(fields, p, t.path[|path|..])
    ensures Size(Arr(items)) < t.bytes
    decreases |p|, 1
  {
    assert fields[0..] == fields;
    LargestBeats(fields, 0, path, None);
    var j: nat :| Beats(fields, 0, path, None, Some(t), j);
    EntryIsFound(fields, j, path);
    var q := t.path[|path|..];
    EntryPath(fields[j], path, t);
    assert q[0] == fields[j].key;
    if m: nat, n: nat :| m < n && KeyAt(fields, m, p[0]) && KeyAt(fields, n, q[0]) {
      EarlierIndex(fields, m, n, j);
      EntryCovers(fields, m, path, p, items);
    } else {
      GetOfField(fields, j);
      FirstBelow(fields, j, path, p, items, t);
    }
  }

  // The path of an entry's best array begins with the entry's key.
  lemma {:induction false} EntryPath(field: Field, path: seq<string>, t: Target)
    requires EntryBest(field, path) == Some(t) && (field.value.Obj? ==> IsRecord(field.value.fields))
    ensures path + [field.key] <= t.path
  {
    if field.value.Obj? {
      var inner := field.value.fields;
      LargestIsFound(inner, 0, path + [field.key], None);
      assert inner[0..] == inner;
    }
  }

  lemma {:induction false} FirstBelow(fields: seq<Field>, j: nat, path: seq<string>, p: seq<string>, items: seq<Json>,
                                      t: Target)
    requires IsRecord(fields) && j < |fields| && EntryBest(fields[j], path) == Some(t) && fields[j].value.Obj?
    requires |p| > 1 && p[0] == fields[j].key && At(fields, p) == Some(Arr(items))
    requires |path| < |t.path| && Earlier(fields[j].value.fields, p[1..], t.path[|path| + 1..])
    ensures Size(Arr(items)) < t.bytes
    decreases |p|, 0
  {
    var inner, here := fields[j].value.fields, path + [fields[j].key];
    GetOfField(fields, j);
    assert IsJson(fields[j].value);
    LargestIsFound(inner, 0, here, None);
    assert inner[0..] == inner;
    FirstIsLarger(inner, here, p[1..], items, t);
  }

  /** Of several largest arrays the first in the order of the fields is chosen. */
  lemma FirstLargest(fields: seq<Field>, p: seq<string>, items: seq<Json>, t: Target)
    requires IsRecord(fields) && LargestArray(fields) == Some(t)
    requires At(fields, p) == Some(Arr(items)) && Earlier(fields, p, t.path)
    ensures |Serialise(Arr(items))| < |Serialise(Arr(t.items))|
  {
    LargestIsFound(fields, 0, [], None);
    assert fields[0..] == fields && t.path[0..] == t.path;
    FirstIsLarger(fields, [], p, items, t);
    SizeIsLength(Arr(items));
    SizeIsLength(Arr(t.items));
  }

  // ---------- What is cut ----------

  lemma {:induction false} GetOfPut(fields: seq<Field>, key: string, v: Json, other: string)
    ensures Get(Put(fields, key, v), other) == if other == key then Some(v) else Get(fields, other)
  {
    if fields != [] && fields[0].key != key { GetOfPut(fields[1..], key, v, other); }
  }

  lemma AtOfPut(fields: seq<Field>, key: string, v: Json, p: seq<string>)
    requires p != []
    ensures At(Put(fields, key, v), p) ==
      if p[0] != key then At(fields, p) else if |p| == 1 then Some(v) else if v.Obj? then At(v.fields, p[1..]) else None
  {
    GetOfPut(fields, key, v, p[0]);
  }

  lemma WithSlicePuts(fields: seq<Field>, path: seq<string>, items: seq<Json>, keep: nat) returns (v: Json)
    requires path != [] && path[0] != "" && At(fields, path) == Some(Arr(items))
    ensures WithSlice(fields, path, keep) == Put(fields, path[0], v)
  {
    var child := Get(fields, path[0]).value;
    if |path| == 1 {
      v := if keep <= |items| then Arr(items[..keep]) else child;
    } else {
      v := Obj(WithSlice(child.fields, path[1..], keep));
    }
  }

  // One path leads through the place the other names.
  predicate Related(p: seq<string>, q: seq<string>) { p <= q || q <= p }

  /** Slicing changes nothing at any path that does not lead to, through or into the array. */
  lemma {:induction false} CutKeepsTheRest(fields: seq<Field>, path: seq<string>, items: seq<Json>, keep: nat,
                                           p: seq<string>)
    requires path != [] && At(fields, path) == Some(Arr(items)) && keep <= |items|
    requires p != [] && !Related(p, path)
    ensures At(WithSlice(fields, path, keep), p) == At(fields, p)
    decreases |path|, 1
  {
    if path[0] == "" {
    } else if p[0] == path[0] {
      assert p == [p[0]] + p[1..] && path == [path[0]] + path[1..];
      assert p[1..] != [] && path[1..] != [];
      CutBelow(fields, path, items, keep, p);
    } else {
      var v := WithSlicePuts(fields, path, items, keep);
      AtOfPut(fields, path[0], v, p);
    }
  }

  lemma {:induction false} CutBelow(fields: seq<Field>, path: seq<string>, items: seq<Json>, keep: nat, p: seq<string>)
    requires |path| > 1 && |p| > 1 && path[0] == p[0] != "" && At(fields, path) == Some(Arr(items)) && keep <= |items|
    requires !Related(p[1..], path[1..])
    ensures At(WithSlice(fields, path, keep), p) == At(fields, p)
    decreases |path|, 0
  {
    var inner := Get(fields, path[0]).value.fields;
    CutKeepsTheRest(inner, path[1..], items, keep, p[1..]);
    AtOfPut(fields, path[0], Obj(WithSlice(inner, path[1..], keep)), p);
  }

  /** The array is cut to the kept prefix exactly when no key on its path is empty; an empty key stops
      the descent and leaves the value whole. */
  lemma {:induction false} CutTakesPrefix(fields: seq<Field>, path: seq<string>, items: seq<Json>, keep: nat)
    requires path != [] && At(fields, path) == Some(Arr(items)) && keep < |items|
    ensures At(WithSlice(fields, path, keep), path) == Some(Arr(if "" in path then items else items[..keep]))
    decreases |path|
  {
    if path[0] != "" {
      assert path == [path[0]] + path[1..];
      if |path| == 1 {
        AtOfPut(fields, path[0], Arr(items[..keep]), path);
      } else {
        var inner := Get(fields, path[0]).value.fields;
        CutTakesPrefix(inner, path[1..], items, keep);
        AtOfPut(fields, path[0], Obj(WithSlice(inner, path[1..], keep)), path);
      }
    }
  }

  lemma {:induction false} PutSame(fields: seq<Field>, key: string)
    requires Get(fields, key).Some?
    ensures Put(fields, key, Get(fields, key).value) == fields
  {
    assert fields == [fields[0]] + fields[1..];
    if fields[0].key != key { PutSame(fields[1..], key); }
  }

  lemma {:induction false} EmptyKeyKeepsValue(fields: seq<Field>, path: seq<string>, items: seq<Json>, keep: nat)
    requires path != [] && At(fields, path) == Some(Arr(items)) && "" in path
    ensures WithSlice(fields, path, keep) == fields
    decreases |path|
  {
    if path[0] != "" {
      assert path == [path[0]] + path[1..];
      EmptyKeyKeepsValue(Get(fields, path[0]).value.fields, path[1..], items, keep);
      PutSame(fields, path[0]);
    }
  }

  lemma {:induction false} PutNewGrows(fields: seq<Field>, key: string, v: Json)
    requires Get(fields, key).None?
    ensures FieldsSize(fields) < FieldsSize(Put(fields, key, v))
  {
    if fields != [] {
      PutNewGrows(fields[1..], key, v);
      assert Put(fields, key, v)[1..] == Put(fields[1..], key, v);
    }
  }

  /** With an empty key on the path nothing is cut, so a response that is too large only fits when the
      marker replaces a field that was already there. */
  lemma EmptyKeyNeedsOldMarker(fields: seq<Field>, target: Target, keep: nat)
    requires Targets(fields, target) && "" in target.path && Size(Obj(fields)) > MAX_BYTES
    ensures Fits(fields, target, keep) ==> Get(fields, "truncated").Some?
  {
    EmptyKeyKeepsValue(fields, target.path, target.items, keep);
    if Get(fields, "truncated").None? { PutNewGrows(fields, "truncated", Marker(target, keep)); }
  }

  lemma GetOfMarker(target: Target, keep: nat, key: string)
    ensures var v := Get(Marker(target, keep).fields, key); v.Some? ==> v.value.Str? || v.value.Number?
  {
    if Get(Marker(target, keep).fields, key).Some? {
      var k := FieldOfGet(Marker(target, keep).fields, key);
    }
  }

  /** A truncated response keeps every path unrelated to the array and to the marker, and holds the
      announced prefix of the array exactly when the array does not lie under the key "truncated",
      which the marker overwrites, and no key on its path is empty, which would stop the slicing. */
  lemma CandidateDiffers(fields: seq<Field>, target: Target, keep: nat, p: seq<string>)
    requires Targets(fields, target) && keep < |target.items| && p != []
    ensures Get(Candidate(fields, target, keep), "truncated") == Some(Marker(target, keep))
    ensures At(Candidate(fields, target, keep), target.path) == Some(Arr(target.items[..keep])) <==>
      CutsCleanly(target.path)
    ensures p[0] != "truncated" && !Related(p, target.path) ==> At(Candidate(fields, target, keep), p) == At(fields, p)
  {
    var cut := WithSlice(fields, target.path, keep);
    GetOfPut(cut, "truncated", Marker(target, keep), "truncated");
    AtOfPut(cut, "truncated", Marker(target, keep), target.path);
    AtOfPut(cut, "truncated", Marker(target, keep), p);
    CutTakesPrefix(fields, target.path, target.items, keep);
    if |target.path| > 1 { GetOfMarker(target, keep, target.path[1]); }
    if !Related(p, target.path) { CutKeepsTheRest(fields, target.path, target.items, keep, p); }
  }

  /** The name of the array in the marker: the keys of its path, joined by dots. */
  lemma {:induction false} DotsJoin(p: seq<string>, q: seq<string>)
    requires p != [] && q != []
    ensures JoinDots([p[0]]) == p[0] && JoinDots(p + q) == JoinDots(p) + "." + JoinDots(q)
  {
    assert (p + q)[1..] == p[1..] + q;
    if |p| > 1 { DotsJoin(p[1..], q); } else { assert p[1..] + q == q; }
  }

  predicate CutsCleanly(path: seq<string>)
    requires path != []
  {
    path[0] != "truncated" && "" !in path
  }
}
