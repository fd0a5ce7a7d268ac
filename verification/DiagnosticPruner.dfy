/** The byte clamp of feedback diagnostics: leaves are pruned from the tail while a counter
    tracks the size of the JSON text that would be stored. */
module DiagnosticPruner {
  import Utf8

  datatype Json =
    | Null
    | Bool(value: bool)
    | Number(sign: char, digits: string)
    | Str(text: string)
    | Arr(items: seq<Json>)
    | Obj(fields: seq<Field>)

  datatype Field = Field(key: string, value: Json)

  /** JSON text as UTF-8 bytes. */
  type Bytes = seq<nat>

  const BYTES_MAX := 256 * 1024

  const PRIORITY_KEYS: set<string> := {
    "schemaVersion", "generatedAt", "generatedAtMs", "sectionMetadata", "sections",
    "server", "diagnosticsTruncated", "truncated", "truncation"
  }

  // ---------------------------------------------------------------- serialisation

  function Hex(d: nat): nat
    requires d < 16
  {
    if d < 10 then '0' as int + d else 'a' as int + d - 10
  }

  /** One character of a string literal. */
  function Escaped(c: char): (r: Bytes)
    ensures |r| >= 1
  {
    var n := c as int;
    if c == '"' || c == '\\' then ['\\' as int, n]
    else if n == 8 then ['\\' as int, 'b' as int]
    else if n == 9 then ['\\' as int, 't' as int]
    else if n == 10 then ['\\' as int, 'n' as int]
    else if n == 12 then ['\\' as int, 'f' as int]
    else if n == 13 then ['\\' as int, 'r' as int]
    else if n < 32 then ['\\' as int, 'u' as int, '0' as int, '0' as int, Hex(n / 16), Hex(n % 16)]
    else Utf8.Encode(n)
  }

  function Characters(s: string): Bytes {
    if s == [] then [] else Characters(s[..|s| - 1]) + Escaped(s[|s| - 1])
  }

  function Quote(s: string): Bytes { ['"' as int] + Characters(s) + ['"' as int] }

  function Ascii(s: string): Bytes { seq(|s|, i requires 0 <= i < |s| => s[i] as int) }

  /** JSON.stringify. */
  function Serialize(v: Json): Bytes
    decreases v, 1
  {
    match v
    case Null => Ascii("null")
    case Bool(b) => Ascii(if b then "true" else "false")
    case Number(sign, digits) => Ascii([sign] + digits)
    case Str(text) => Quote(text)
    case Arr(items) => ['[' as int] + SerializeItems(items) + [']' as int]
    case Obj(fields) => ['{' as int] + SerializeFields(fields) + ['}' as int]
  }

  function Comma(first: bool): Bytes { if first then [] else [',' as int] }

  function SerializeItems(items: seq<Json>): Bytes
    decreases items, 0
  {
    if items == [] then [] else
      SerializeItems(items[..|items| - 1]) + Comma(|items| == 1) + Serialize(items[|items| - 1])
  }

  function SerializeFields(fields: seq<Field>): Bytes
    decreases fields, 0
  {
    if fields == [] then [] else
      var f := fields[|fields| - 1];
      SerializeFields(fields[..|fields| - 1]) + Comma(|fields| == 1) + Quote(f.key) + [':' as int] + Serialize(f.value)
  }

  function JsonBytes(v: Json): nat { |Serialize(v)| }

  // ---------------------------------------------------------------- pruning

  /** What is never pruned. */
  lemma {:induction false} PriorityAre(key: string)
    ensures key in PRIORITY_KEYS <==>
              || key == "schemaVersion" || key == "generatedAt" || key == "generatedAtMs" || key == "sectionMetadata" || key == "sections"
              || key == "server" || key == "diagnosticsTruncated" || key == "truncated" || key == "truncation"
  {
  }

  predicate Container(v: Json) { v.Arr? || v.Obj? }

  /** The last field whose key is not a priority key. */
  function LastOrdinary(fields: seq<Field>): (at: int)
    ensures -1 <= at < |fields|
    ensures at >= 0 ==> fields[at].key !in PRIORITY_KEYS
    ensures forall i | at < i < |fields| :: fields[i].key in PRIORITY_KEYS
  {
    if fields == [] then -1
    else if fields[|fields| - 1].key !in PRIORITY_KEYS then |fields| - 1
    else LastOrdinary(fields[..|fields| - 1])
  }

  /** pruneDiagnosticTail: the pruned value and the bytes it claims to have removed. */
  function Prune(v: Json): (Json, nat) {
    match v
    case Arr(items) =>
      if items == [] then (v, 0) else
        var n := |items| - 1;
        var deep := if Container(items[n]) then Prune(items[n]) else (items[n], 0);
        if deep.1 != 0 then (Arr(items[n := deep.0]), deep.1)
        else (Arr(items[..n]), JsonBytes(items[n]) + (if |items| > 1 then 1 else 0))
    case Obj(fields) =>
      var k := LastOrdinary(fields);
      if k < 0 then (v, 0) else
        var f := fields[k];
        var deep := if Container(f.value) then Prune(f.value) else (f.value, 0);
        if deep.1 != 0 then (Obj(fields[k := Field(f.key, deep.0)]), deep.1)
        else (Obj(fields[..k] + fields[k + 1..]),
              |Quote(f.key)| + 1 + JsonBytes(f.value) + (if |fields| > 1 then 1 else 0))
    case _ => (v, 0)
  }

  // ---------------------------------------------------------------- exact accounting

  function ItemBytes(items: seq<Json>): nat {
    if items == [] then 0 else ItemBytes(items[..|items| - 1]) + JsonBytes(items[|items| - 1])
  }

  function FieldSize(f: Field): nat { |Quote(f.key)| + 1 + JsonBytes(f.value) }

  function FieldBytes(fields: seq<Field>): nat {
    if fields == [] then 0 else FieldBytes(fields[..|fields| - 1]) + FieldSize(fields[|fields| - 1])
  }

  function Commas(n: nat): nat { if n == 0 then 0 else n - 1 }

  lemma {:induction false} ItemsSize(items: seq<Json>)
    ensures |SerializeItems(items)| == ItemBytes(items) + Commas(|items|)
  {
    if items != [] {
      ItemsSize(items[..|items| - 1]);
    }
  }

  lemma {:induction false} FieldsSize(fields: seq<Field>)
    ensures |SerializeFields(fields)| == FieldBytes(fields) + Commas(|fields|)
  {
    if fields != [] {
      FieldsSize(fields[..|fields| - 1]);
    }
  }

  lemma {:induction false} FieldReplaced(fields: seq<Field>, k: nat, f: Field)
    requires k < |fields|
    ensures FieldBytes(fields[k := f]) == FieldBytes(fields) - FieldSize(fields[k]) + FieldSize(f)
  {
    var n := |fields| - 1;
    if k == n {
      assert fields[k := f][..n] == fields[..n];
    } else {
      FieldReplaced(fields[..n], k, f);
      assert fields[k := f][..n] == fields[..n][k := f];
    }
  }

  lemma {:induction false} FieldBytesAppend(a: seq<Field>, b: seq<Field>)
    ensures FieldBytes(a + b) == FieldBytes(a) + FieldBytes(b)
  {
    if b == [] {
      assert a + b == a;
    } else {
      assert (a + b)[..|a + b| - 1] == a + b[..|b| - 1];
      FieldBytesAppend(a, b[..|b| - 1]);
    }
  }

  lemma {:induction false} FieldBytesOne(f: Field)
    ensures FieldBytes([f]) == FieldSize(f)
  {
    assert [f][..0] == [];
  }

  lemma {:induction false} FieldOut(fields: seq<Field>, a: seq<Field>, f: Field, b: seq<Field>)
    requires fields == a + ([f] + b)
    ensures FieldBytes(a + b) == FieldBytes(fields) - FieldSize(f)
  {
    FieldBytesAppend(a, [f] + b);
    FieldBytesAppend([f], b);
    FieldBytesAppend(a, b);
    FieldBytesOne(f);
  }

  lemma {:induction false} Around(fields: seq<Field>, k: nat)
    requires k < |fields|
    ensures fields == fields[..k] + ([fields[k]] + fields[k + 1..])
  {
  }

  lemma {:induction false} FieldRemoved(fields: seq<Field>, k: nat)
    requires k < |fields|
    ensures FieldBytes(fields[..k] + fields[k + 1..]) == FieldBytes(fields) - FieldSize(fields[k])
  {
    Around(fields, k);
    FieldOut(fields, fields[..k], fields[k], fields[k + 1..]);
  }

  /** Nothing can be pruned: a scalar, an empty array, or an object of priority fields. */
  predicate Bare(v: Json) {
    match v
    case Arr(items) => items == []
    case Obj(fields) => forall i | 0 <= i < |fields| :: fields[i].key in PRIORITY_KEYS
    case _ => true
  }

  /** One pruning removes exactly the bytes it claims, and none only from a bare value. */
  predicate ExactAt(v: Json) {
    var (after, saved) := Prune(v);
    JsonBytes(v) == JsonBytes(after) + saved && (saved == 0 <==> Bare(v)) && (saved == 0 <==> after == v)
  }

  lemma {:induction false} ArrayExact(items: seq<Json>)
    requires items != [] && ExactAt(items[|items| - 1])
    ensures ExactAt(Arr(items))
  {
    var n := |items| - 1;
    ItemsSize(items);
    ItemsSize(items[..n]);
    SerializedSome(items[n]);
    if Container(items[n]) && Prune(items[n]).1 != 0 {
      var after := items[n := Prune(items[n]).0];
      ItemsSize(after);
      assert after[..n] == items[..n];
    }
  }

  lemma {:induction false} ObjectReplaced(fields: seq<Field>, k: nat, g: Field)
    requires k < |fields| && g.key == fields[k].key
    ensures JsonBytes(Obj(fields[k := g])) == JsonBytes(Obj(fields)) - JsonBytes(fields[k].value) + JsonBytes(g.value)
  {
    FieldsSize(fields);
    FieldsSize(fields[k := g]);
    FieldReplaced(fields, k, g);
  }

  lemma {:induction false} ObjectShortened(fields: seq<Field>, k: nat)
    requires k < |fields|
    ensures JsonBytes(Obj(fields))
         == JsonBytes(Obj(fields[..k] + fields[k + 1..])) + FieldSize(fields[k]) + (if |fields| > 1 then 1 else 0)
  {
    FieldsSize(fields);
    FieldsSize(fields[..k] + fields[k + 1..]);
    FieldRemoved(fields, k);
  }

  lemma {:induction false} ObjectExact(fields: seq<Field>)
    requires LastOrdinary(fields) >= 0 && ExactAt(fields[LastOrdinary(fields)].value)
    ensures ExactAt(Obj(fields))
  {
    var k := LastOrdinary(fields);
    var f := fields[k];
    if Container(f.value) && Prune(f.value).1 != 0 {
      ObjectReplaced(fields, k, Field(f.key, Prune(f.value).0));
    } else {
      ObjectShortened(fields, k);
    }
  }

  /** The claimed saving is exactly the bytes the JSON text lost, and zero exactly when
      nothing changed because nothing could be pruned. */
  lemma {:induction false} PruneExact(v: Json)
    ensures var (after, saved) := Prune(v);
            JsonBytes(v) == JsonBytes(after) + saved && (saved == 0 <==> Bare(v)) && (saved == 0 <==> after == v)
  {
    if v.Arr? && v.items != [] {
      PruneExact(v.items[|v.items| - 1]);
      ArrayExact(v.items);
    } else if v.Obj? && LastOrdinary(v.fields) >= 0 {
      PruneExact(v.fields[LastOrdinary(v.fields)].value);
      ObjectExact(v.fields);
    }
  }

  lemma {:induction false} SerializedSome(v: Json)
    ensures JsonBytes(v) > 0
  {
  }

  // ---------------------------------------------------------------- one leaf, the last one

  /** A position in a tree: which child, which child of that, and so on. */
  type Path = seq<nat>

  /** A child outside the priority fields. */
  predicate HasChild(v: Json, i: nat) {
    match v
    case Arr(items) => i < |items|
    case Obj(fields) => i < |fields| && fields[i].key !in PRIORITY_KEYS
    case _ => false
  }

  function Child(v: Json, i: nat): Json
    requires HasChild(v, i)
  {
    if v.Arr? then v.items[i] else v.fields[i].value
  }

  /** A path through ordinary children to a value that has none. */
  predicate LeafAt(v: Json, path: Path)
    decreases |path|
  {
    if path == [] then forall i: nat | i < Width(v) :: !HasChild(v, i)
    else HasChild(v, path[0]) && LeafAt(Child(v, path[0]), path[1..])
  }

  function Width(v: Json): nat {
    match v case Arr(items) => |items| case Obj(fields) => |fields| case _ => 0
  }

  /** The tree without what stands at a path, everything else as it was. */
  function Without(v: Json, path: Path): Json
    requires path != [] && LeafAt(v, path)
    decreases |path|
  {
    var i := path[0];
    if |path| == 1 then
      if v.Arr? then Arr(v.items[..i] + v.items[i + 1..]) else Obj(v.fields[..i] + v.fields[i + 1..])
    else
      var below := Without(Child(v, i), path[1..]);
      if v.Arr? then Arr(v.items[i := below]) else Obj(v.fields[i := Field(v.fields[i].key, below)])
  }

  /** Document order of paths. */
  predicate Before(p: Path, q: Path)
    decreases |p|
  {
    p != [] && q != [] && (p[0] < q[0] || (p[0] == q[0] && Before(p[1..], q[1..])))
  }

  ghost predicate LastLeaf(v: Json, path: Path) { LeafAt(v, path) && forall q | LeafAt(v, q) :: q == path || Before(q, path) }

  /** Exactly the last leaf in document order is gone. */
  ghost predicate LastLeafGone(v: Json, after: Json) {
    exists path :: path != [] && LastLeaf(v, path) && after == Without(v, path)
  }

  lemma {:induction false} LeavesOfBare(v: Json, q: Path)
    requires Bare(v)
    ensures LeafAt(v, q) <==> q == []
  {
  }

  /** Leaves of the last ordinary child come after all others. */
  lemma {:induction false} LastOfChild(v: Json, k: nat, path: Path)
    requires HasChild(v, k) && forall i: nat | HasChild(v, i) :: i <= k
    requires LastLeaf(Child(v, k), path)
    ensures LastLeaf(v, [k] + path)
  {
    assert ([k] + path)[1..] == path && k < Width(v);
    forall q | LeafAt(v, q)
      ensures q == [k] + path || Before(q, [k] + path)
    {
      if q != [] && q[0] == k {
        assert q == [k] + q[1..];
        assert LeafAt(Child(v, k), q[1..]);
      }
    }
  }

  /** One pruning takes the last leaf out of the tree: a scalar, an empty array or an object of
      priority fields, and nothing else changes. */
  lemma {:induction false} PrunesLastLeaf(v: Json) returns (path: Path)
    requires !Bare(v)
    ensures path != [] && LastLeaf(v, path) && Prune(v).0 == Without(v, path)
    decreases v
  {
    var k: nat := if v.Arr? then |v.items| - 1 else LastOrdinaryExists(v.fields);
    var child := Child(v, k);
    PruneExact(child);
    if Bare(child) {
      forall q | LeafAt(child, q) ensures q == [] { LeavesOfBare(child, q); }
      LeavesOfBare(child, []);
      LastOfChild(v, k, []);
      path := [k];
      assert [k] + [] == [k] && path[1..] == [];
      assert v.Arr? ==> v.items[..k] + v.items[k + 1..] == v.items[..k];
    } else {
      var below := PrunesLastLeaf(child);
      LastOfChild(v, k, below);
      path := [k] + below;
      assert path[1..] == below;
    }
  }

  function LastOrdinaryExists(fields: seq<Field>): (k: nat)
    requires !Bare(Obj(fields))
    ensures k < |fields| && k == LastOrdinary(fields)
  {
    LastOrdinary(fields)
  }

  lemma {:induction false} PruneTakesLast(v: Json)
    requires !Bare(v)
    ensures LastLeafGone(v, Prune(v).0)
  {
    var path := PrunesLastLeaf(v);
  }

  /** There is only one last leaf. */
  lemma {:induction false} LastIsUnique(v: Json, after: Json, other: Json)
    requires LastLeafGone(v, after) && LastLeafGone(v, other)
    ensures after == other
  {
    var p :| p != [] && LastLeaf(v, p) && after == Without(v, p);
    var q :| q != [] && LastLeaf(v, q) && other == Without(v, q);
    if p != q {
      NotBoth(p, q);
    }
  }

  lemma {:induction false} NotBoth(p: Path, q: Path)
    ensures !(Before(p, q) && Before(q, p))
    decreases |p|
  {
    if p != [] && q != [] && p[0] == q[0] {
      NotBoth(p[1..], q[1..]);
    }
  }

  // ---------------------------------------------------------------- the clamp

  /** The priority fields of an object, in order. */
  function Priority(fields: seq<Field>): seq<Field> {
    if fields == [] then [] else
      var f := fields[|fields| - 1];
      Priority(fields[..|fields| - 1]) + (if f.key in PRIORITY_KEYS then [f] else [])
  }

  lemma {:induction false} PriorityKept(fields: seq<Field>, k: nat, f: Field)
    requires k < |fields| && fields[k].key !in PRIORITY_KEYS && f.key == fields[k].key
    ensures Priority(fields[k := f]) == Priority(fields)
    ensures Priority(fields[..k] + fields[k + 1..]) == Priority(fields)
  {
    var n := |fields| - 1;
    var rest := fields[..k] + fields[k + 1..];
    if k == n {
      assert fields[k := f][..n] == fields[..n] && rest == fields[..n];
    } else {
      PriorityKept(fields[..n], k, f);
      assert fields[k := f][..n] == fields[..n][k := f];
      assert rest[..n - 1] == fields[..n][..k] + fields[..n][k + 1..] && rest[n - 1] == fields[n];
    }
  }

  lemma {:induction false} PriorityAll(fields: seq<Field>)
    requires forall i | 0 <= i < |fields| :: fields[i].key in PRIORITY_KEYS
    ensures Priority(fields) == fields
  {
    if fields != [] {
      PriorityAll(fields[..|fields| - 1]);
    }
  }

  lemma {:induction false} PrioritySmaller(fields: seq<Field>)
    ensures |Priority(fields)| <= |fields| && FieldBytes(Priority(fields)) <= FieldBytes(fields)
  {
    if fields != [] {
      PrioritySmaller(fields[..|fields| - 1]);
      var f := fields[|fields| - 1];
      var front := Priority(fields[..|fields| - 1]);
      assert front + [] == front;
      assert (front + [f])[..|front|] == front;
    }
  }

  /** Pruning an object keeps its priority fields as they are. */
  lemma {:induction false} PruneKeepsPriority(fields: seq<Field>)
    ensures Prune(Obj(fields)).0.Obj? && Priority(Prune(Obj(fields)).0.fields) == Priority(fields)
  {
    var k := LastOrdinary(fields);
    if k >= 0 {
      var f := fields[k];
      var deep := if Container(f.value) then Prune(f.value) else (f.value, 0);
      PriorityKept(fields, k, Field(f.key, deep.0));
    }
  }

  /** No object is smaller than its priority fields alone. */
  lemma {:induction false} PriorityIsFloor(fields: seq<Field>)
    ensures JsonBytes(Obj(Priority(fields))) <= JsonBytes(Obj(fields))
  {
    FieldsSize(fields);
    FieldsSize(Priority(fields));
    PrioritySmaller(fields);
  }

  predicate Fits(v: Json) { JsonBytes(v) <= BYTES_MAX }

  /** The values of a clamp: each but the last is too big, and the next is without its last leaf. */
  ghost predicate Shrinks(chain: seq<Json>) {
    && chain != []
    && (forall i | 0 <= i < |chain| - 1 :: !Fits(chain[i]) && LastLeafGone(chain[i], chain[i + 1]))
  }

  /** clampDiagnosticJsonBytes: `cut` says whether the budget was marked truncated. The
      result fits. When the priority fields alone fit, it is what remains when last leaves are
      taken out one by one just until the rest fits, so that the last one put back would not;
      its priority fields are untouched. Otherwise it is empty. */
  method Clamp(fields: seq<Field>) returns (r: Json, cut: bool, ghost chain: seq<Json>)
    ensures r.Obj? && JsonBytes(r) <= 256 * 1024
    ensures (cut <==> !Fits(Obj(fields))) && (!cut ==> r == Obj(fields))
    ensures !Fits(Obj(Priority(fields))) ==> r == Obj([])
    ensures Fits(Obj(Priority(fields))) ==>
              Priority(r.fields) == Priority(fields) && Shrinks(chain) && chain[0] == Obj(fields) && chain[|chain| - 1] == r
  {
    var value := Obj(fields);
    var bytes := JsonBytes(value);
    chain := [value];
    cut := false;
    while bytes > BYTES_MAX
      invariant bytes == JsonBytes(value)
      invariant Chained(fields, value, chain)
      invariant cut <==> |chain| > 1
      decreases bytes
    {
      cut := true;
      PruneExact(value);
      var pruned := Prune(value);
      if pruned.1 == 0 {
        NothingToPrune(fields, value, chain);
        assert JsonBytes(Obj([])) == 2;
        return Obj([]), true, chain;
      }
      ChainGrows(fields, value, chain);
      value := pruned.0;
      bytes := bytes - pruned.1;
      chain := chain + [value];
    }
    PriorityIsFloor(value.fields);
    assert |chain| > 1 ==> !Fits(chain[0]);
    r := if JsonBytes(value) <= BYTES_MAX then value else Obj([]);
  }

  ghost predicate Chained(fields: seq<Field>, value: Json, chain: seq<Json>) {
    && value.Obj? && Priority(value.fields) == Priority(fields)
    && Shrinks(chain) && chain[0] == Obj(fields) && chain[|chain| - 1] == value
  }

  lemma {:induction false} ChainGrows(fields: seq<Field>, value: Json, chain: seq<Json>)
    requires Chained(fields, value, chain) && !Fits(value) && !Bare(value)
    ensures Chained(fields, Prune(value).0, chain + [Prune(value).0])
  {
    PruneKeepsPriority(value.fields);
    PruneTakesLast(value);
    ShrinksOn(chain, Prune(value).0);
  }

  lemma {:induction false} ShrinksOn(chain: seq<Json>, next: Json)
    requires Shrinks(chain) && !Fits(chain[|chain| - 1]) && LastLeafGone(chain[|chain| - 1], next)
    ensures Shrinks(chain + [next])
  {
    var longer := chain + [next];
    forall i | 0 <= i < |longer| - 1
      ensures !Fits(longer[i]) && LastLeafGone(longer[i], longer[i + 1])
    {
      if i < |chain| - 1 {
        assert longer[i] == chain[i] && longer[i + 1] == chain[i + 1];
      }
    }
  }

  /** A value that does not fit and cannot be pruned is all priority fields, so those do not fit. */
  lemma {:induction false} NothingToPrune(fields: seq<Field>, value: Json, chain: seq<Json>)
    requires Chained(fields, value, chain) && !Fits(value) && Bare(value)
    ensures !Fits(Obj(fields)) && !Fits(Obj(Priority(fields)))
  {
    PriorityAll(value.fields);
    assert |chain| > 1 ==> !Fits(chain[0]);
  }

  // ---------------------------------------------------------------- the truncation mark

  const FLAG := "diagnosticsTruncated"
  const DETAIL := "truncation"

  /** Assigning a property: in place when the key is there, else at the end. */
  function Assign(fields: seq<Field>, key: string, v: Json): seq<Field> {
    if fields == [] then [Field(key, v)]
    else if fields[0].key == key then [Field(key, v)] + fields[1..]
    else [fields[0]] + Assign(fields[1..], key, v)
  }

  predicate Flagged(fields: seq<Field>) { exists i :: 0 <= i < |fields| && fields[i] == Field(FLAG, Bool(true)) }

  function Mark(fields: seq<Field>, detail: Json): seq<Field> {
    Assign(Assign(fields, FLAG, Bool(true)), DETAIL, detail)
  }

  lemma {:induction false} AssignSets(fields: seq<Field>, key: string, v: Json)
    ensures exists i :: 0 <= i < |Assign(fields, key, v)| && Assign(fields, key, v)[i] == Field(key, v)
  {
    var r := Assign(fields, key, v);
    if fields == [] || fields[0].key == key {
      assert r[0] == Field(key, v);
    } else {
      AssignSets(fields[1..], key, v);
      var i :| 0 <= i < |Assign(fields[1..], key, v)| && Assign(fields[1..], key, v)[i] == Field(key, v);
      assert r[i + 1] == Field(key, v);
    }
  }

  lemma {:induction false} AssignKeeps(fields: seq<Field>, key: string, v: Json, f: Field)
    requires f in fields && f.key != key
    ensures f in Assign(fields, key, v)
  {
    if fields[0].key == key {
      assert f in fields[1..];
    } else if f != fields[0] {
      AssignKeeps(fields[1..], key, v, f);
    }
  }

  lemma {:induction false} MarkFlags(fields: seq<Field>, detail: Json)
    ensures Flagged(Mark(fields, detail))
  {
    AssignSets(fields, FLAG, Bool(true));
    var once := Assign(fields, FLAG, Bool(true));
    var i :| 0 <= i < |once| && once[i] == Field(FLAG, Bool(true));
    assert once[i] in once;
    AssignKeeps(once, DETAIL, detail, once[i]);
  }

  lemma {:induction false} PriorityMembers(fields: seq<Field>, f: Field)
    requires f.key in PRIORITY_KEYS
    ensures f in Priority(fields) <==> f in fields
  {
    if fields != [] {
      PriorityMembers(fields[..|fields| - 1], f);
      assert fields == fields[..|fields| - 1] + [fields[|fields| - 1]];
    }
  }

  lemma {:induction false} PriorityFirst(f: Field, rest: seq<Field>)
    ensures Priority([f] + rest) == (if f.key in PRIORITY_KEYS then [f] else []) + Priority(rest)
  {
    if rest == [] {
      assert [f] + rest == [f] && [f][..0] == [];
    } else {
      var front, last := rest[..|rest| - 1], rest[|rest| - 1];
      PriorityFirst(f, front);
      assert ([f] + rest)[..|rest|] == [f] + front;
    }
  }

  /** A priority property is assigned among the priority fields. */
  lemma {:induction false} AssignPriority(fields: seq<Field>, key: string, v: Json)
    requires key in PRIORITY_KEYS
    ensures Priority(Assign(fields, key, v)) == Assign(Priority(fields), key, v)
  {
    if fields == [] {
      PriorityFirst(Field(key, v), []);
      assert [Field(key, v)] + [] == [Field(key, v)];
    } else {
      var f, rest := fields[0], fields[1..];
      assert fields == [f] + rest;
      PriorityFirst(f, rest);
      if f.key == key {
        PriorityFirst(Field(key, v), rest);
        assert ([f] + Priority(rest))[1..] == Priority(rest);
      } else {
        AssignPriority(rest, key, v);
        PriorityFirst(f, Assign(rest, key, v));
        assert f.key in PRIORITY_KEYS ==> ([f] + Priority(rest))[1..] == Priority(rest);
        assert [] + Priority(rest) == Priority(rest) && [] + Priority(Assign(rest, key, v)) == Priority(Assign(rest, key, v));
      }
    }
  }

  lemma {:induction false} MarkPriority(fields: seq<Field>, detail: Json)
    ensures Priority(Mark(fields, detail)) == Mark(Priority(fields), detail)
  {
    AssignPriority(fields, FLAG, Bool(true));
    AssignPriority(Assign(fields, FLAG, Bool(true)), DETAIL, detail);
  }

  /** The priority fields of a truncated snapshot: its own, with the first mark if it was
      truncated before, and given up if they do not fit; marked unless they are. */
  function Survivors(fields: seq<Field>, truncated: bool, detail: Json, clampDetail: Json): seq<Field> {
    var own := if truncated then Mark(Priority(fields), detail) else Priority(fields);
    var base := if Fits(Obj(own)) then own else [];
    if Flagged(base) then base else Mark(base, clampDetail)
  }

  lemma {:induction false} SurvivorsFlagged(fields: seq<Field>, truncated: bool, detail: Json, clampDetail: Json)
    ensures Flagged(Survivors(fields, truncated, detail, clampDetail))
  {
    var own := if truncated then Mark(Priority(fields), detail) else Priority(fields);
    MarkFlags(if Fits(Obj(own)) then own else [], clampDetail);
  }

  lemma {:induction false} PriorityTwice(fields: seq<Field>)
    ensures Flagged(fields) <==> Flagged(Priority(fields))
  {
    var f := Field(FLAG, Bool(true));
    PriorityMembers(fields, f);
    assert Flagged(fields) <==> f in fields;
    assert Flagged(Priority(fields)) <==> f in Priority(fields);
  }

  /** The end of normalizeFeedbackDiagnostics: mark a truncated snapshot, clamp it, and when
      the clamp was the first to truncate, mark it and clamp again. A snapshot that nothing
      truncated is stored as it is. Any other says that it was truncated and keeps exactly the
      priority fields that survive, or is empty exactly when those do not fit. */
  method Finish(fields: seq<Field>, truncated: bool, detail: Json, clampDetail: Json) returns (r: Json)
    ensures r.Obj? && Fits(r)
    ensures !truncated && Fits(Obj(fields)) ==> r == Obj(fields)
    ensures truncated || !Fits(Obj(fields)) ==>
              var kept := Survivors(fields, truncated, detail, clampDetail);
              if Fits(Obj(kept)) then Priority(r.fields) == kept && Flagged(r.fields) else r == Obj([])
  {
    var out := if truncated then Mark(fields, detail) else fields;
    ghost var chain;
    var clamped, cut;
    clamped, cut, chain := Clamp(out);
    MarkPriority(fields, detail);
    MarkFlags(fields, detail);
    PriorityTwice(clamped.fields);
    SurvivorsFlagged(fields, truncated, detail, clampDetail);
    if (truncated || cut) && !Flagged(clamped.fields) {
      var marked := Mark(clamped.fields, clampDetail);
      MarkPriority(clamped.fields, clampDetail);
      r, cut, chain := Clamp(marked);
      PriorityTwice(r.fields);
    } else {
      r := clamped;
      if !cut {
        PriorityIsFloor(out);
      }
    }
  }
}
