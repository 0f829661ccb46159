/**
 limitMcpResponse of apps/api/src/services/mcpGateway.ts: cutting the largest array of a JSON value
 to the longest prefix with which the serialised response fits.  Objects are field lists in
 property order.
 */
module ResponseLimit {
  import opened Wrappers
  import opened Texts

  const MAX_BYTES := 50_000

  datatype Json =
    | Null
    | Bool(b: bool)
    | Number(text: Bytes)
    | Str(s: string)
    | Arr(items: seq<Json>)
    | Obj(fields: seq<Field>)

  datatype Field = Field(key: string, value: Json)

  // ---------- Serialised size ----------

  // Bytes of one character inside a JSON string literal.
  function CharBytes(c: char): (n: nat)
    ensures 1 <= n <= 6
  {
    if c == '"' || c == '\\' || c in ['\U{8}', '\U{9}', '\U{A}', '\U{C}', '\U{D}'] then 2
    else if c < '\U{20}' then 6
    else if c < '\U{80}' then 1
    else if c < '\U{800}' then 2
    else if c < '\U{10000}' then 3
    else 4
  }

  function StringBytes(s: string): (n: nat)
    ensures 2 + |s| <= n <= 2 + 6 * |s|
  {
    if s == "" then 2 else CharBytes(s[0]) + StringBytes(s[1..])
  }

  // responseBytes
  function Size(v: Json): nat {
    match v
    case Null => 4
    case Bool(b) => if b then 4 else 5
    case Number(text) => |text|
    case Str(s) => StringBytes(s)
    case Arr(items) => if items == [] then 2 else 1 + ItemsSize(items)
    case Obj(fields) => if fields == [] then 2 else 1 + FieldsSize(fields)
  }

  // The items with a comma after each; the last one stands for the closing bracket.
  function ItemsSize(items: seq<Json>): nat {
    if items == [] then 0 else Size(items[0]) + 1 + ItemsSize(items[1..])
  }

  function FieldsSize(fields: seq<Field>): nat {
    if fields == [] then 0 else StringBytes(fields[0].key) + 1 + Size(fields[0].value) + 1 + FieldsSize(fields[1..])
  }

  // ---------- Records ----------

  ghost predicate DistinctKeys(fields: seq<Field>) {
    forall m, n :: 0 <= m < n < |fields| ==> fields[m].key != fields[n].key
  }

  // What number texts consist of: digits, a point, signs and the exponent mark.
  predicate IsNumeral(b: byte) { IsDigit(b) || b in {43, 45, 46, 69, 101} }

  ghost predicate IsJson(v: Json)
    decreases v, 1
  {
    match v
    case Number(text) => text != [] && forall k :: 0 <= k < |text| ==> IsNumeral(text[k])
    case Arr(items) => forall k :: 0 <= k < |items| ==> IsJson(items[k])
    case Obj(fields) => IsRecord(fields)
    case _ => true
  }

  ghost predicate IsRecord(fields: seq<Field>)
    decreases fields, 0
  {
    DistinctKeys(fields) && forall k :: 0 <= k < |fields| ==> IsJson(fields[k].value)
  }

  // value[key]
  function Get(fields: seq<Field>, key: string): Option<Json> {
    if fields == [] then None else if fields[0].key == key then Some(fields[0].value) else Get(fields[1..], key)
  }

  // { ...value, [key]: v }
  function Put(fields: seq<Field>, key: string, v: Json): seq<Field> {
    if fields == [] then [Field(key, v)]
    else if fields[0].key == key then [Field(key, v)] + fields[1..]
    else [fields[0]] + Put(fields[1..], key, v)
  }

  // The value at a path through records.
  function At(fields: seq<Field>, path: seq<string>): Option<Json>
    decreases |path|
  {
    if path == [] then Some(Obj(fields))
    else
      var child := Get(fields, path[0]);
      if child.None? || |path| == 1 then child
      else if child.value.Obj? then At(child.value.fields, path[1..])
      else None
  }

  // ---------- Truncation ----------

  datatype Target = Target(path: seq<string>, items: seq<Json>, bytes: nat)

  predicate Better(candidate: Option<Target>, best: Option<Target>) {
    candidate.Some? && (best.None? || candidate.value.bytes > best.value.bytes)
  }

  // findLargestArray, from the k-th entry on and with the best of the earlier ones.
  function LargestFrom(fields: seq<Field>, path: seq<string>, best: Option<Target>): Option<Target>
    decreases fields
  {
    if fields == [] then best
    else
      var here := path + [fields[0].key];
      var candidate := match fields[0].value
        case Arr(items) => Some(Target(here, items, Size(fields[0].value)))
        case Obj(inner) => LargestFrom(inner, here, None)
        case _ => None;
      LargestFrom(fields[1..], path, if Better(candidate, best) then candidate else best)
  }

  function LargestArray(fields: seq<Field>): Option<Target> { LargestFrom(fields, [], None) }

  // withArraySlice; an empty key ends the descent.
  function WithSlice(fields: seq<Field>, path: seq<string>, keep: nat): seq<Field>
    decreases |path|
  {
    if path == [] || path[0] == "" then fields
    else
      var child := Get(fields, path[0]);
      if |path| == 1 then
        if child.None? then fields
        else Put(fields, path[0],
                 if child.value.Arr? && keep <= |child.value.items| then Arr(child.value.items[..keep])
                 else child.value)
      else if child.Some? && child.value.Obj? then
        Put(fields, path[0], Obj(WithSlice(child.value.fields, path[1..], keep)))
      else fields
  }

  function JoinDots(path: seq<string>): string {
    if path == [] then "" else if |path| == 1 then path[0] else path[0] + "." + JoinDots(path[1..])
  }

  const HINT :=
    "Response exceeded the size limit; retry with a narrower query or a lower limit/max_rows for the full set."

  function Marker(target: Target, keep: nat): Json {
    Obj([Field("field", Str(JoinDots(target.path))), Field("returned", Number(Digits(keep))),
         Field("total", Number(Digits(|target.items|))), Field("message", Str(HINT))])
  }

  // markTruncated(withArraySlice(value, target.path, keep), target, keep)
  function Candidate(fields: seq<Field>, target: Target, keep: nat): seq<Field> {
    Put(WithSlice(fields, target.path, keep), "truncated", Marker(target, keep))
  }

  predicate Fits(fields: seq<Field>, target: Target, keep: nat) {
    Size(Obj(Candidate(fields, target, keep))) <= MAX_BYTES
  }

  const TOO_LARGE :=
    "MemoRepo generated more data than this MCP connection can return. " +
    "Retry with a narrower query, a lower limit/max_rows, or include_neighbors=false."

  function Refusal(actualBytes: nat): Json {
    Obj([Field("status", Str("response_too_large")), Field("message", Str(TOO_LARGE)),
         Field("limits",
               Obj([Field("responseMaxBytes", Number(Digits(MAX_BYTES))),
                    Field("actualBytes", Number(Digits(actualBytes)))]))])
  }
}
