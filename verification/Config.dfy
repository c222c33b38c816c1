/**
 * Layered configuration: merging trees, flattening them to leaf paths, and naming the layer a value came
 * from. Paths are lists of segments.
 */
module Config {
  import opened Prelude

  datatype Value = Null | Undefined | Bool(b: bool) | Num(n: real) | Str(s: string)

  datatype Val = Scalar(value: Value) | Arr(elements: seq<Val>) | Obj(fields: map<string, Val>)

  datatype Seg = Key(name: string) | Index(i: nat)

  type Path = seq<Seg>

  /** What a row of the flattened form holds: a scalar, an empty array, or the mark of a cycle. */
  datatype Leaf = LeafScalar(value: Value) | EmptyArray | Circular

  // ----- merging -----

  /** `deepMerge`. */
  function Merge(base: Val, override: Val): Val
    decreases override
  {
    if !base.Obj? || !override.Obj? then override
    else
      Obj(map k | k in base.fields.Keys + override.fields.Keys ::
        if k !in override.fields then base.fields[k]
        else if k in base.fields then Merge(base.fields[k], override.fields[k])
        else override.fields[k])
  }

  method DeepMerge(base: Val, override: Val) returns (merged: Val)
    ensures merged == Merge(base, override)
    decreases override
  {
    if !base.Obj? || !override.Obj? { return override; }
    var result := base.fields;
    var pending := override.fields.Keys;
    while pending != {}
      invariant pending <= override.fields.Keys
      invariant result.Keys == base.fields.Keys + (override.fields.Keys - pending)
      invariant forall k :: k in pending && k in base.fields ==> result[k] == base.fields[k]
      invariant forall k :: k in result && k !in pending ==> result[k] == Merge(base, override).fields[k]
      decreases pending
    {
      var key :| key in pending;
      pending := pending - {key};
      if key in result && result[key].Obj? && override.fields[key].Obj? {
        var inner := DeepMerge(result[key], override.fields[key]);
        result := result[key := inner];
      } else {
        result := result[key := override.fields[key]];
      }
    }
    assert result == Merge(base, override).fields;
    merged := Obj(result);
  }

  /** `x ?? {}`. */
  function OrEmpty(v: Val): Val { if v == Scalar(Null) || v == Scalar(Undefined) then Obj(map[]) else v }

  /** `mergeWithTestConfig`. */
  function MergeLayers(global: Val, test: Val, flags: Val): Val {
    Merge(Merge(OrEmpty(global), OrEmpty(test)), flags)
  }

  // ----- flattening -----

  /** The leaf at a path, if there is one. */
  function LeafAt(v: Val, p: Path): Option<Leaf>
    decreases p
  {
    match v
    case Scalar(x) => if p == [] then Some(LeafScalar(x)) else None
    case Arr(elements) =>
      if p == [] then (if elements == [] then Some(EmptyArray) else None)
      else if p[0].Index? && p[0].i < |elements| then LeafAt(elements[p[0].i], p[1..])
      else None
    case Obj(fields) =>
      if p != [] && p[0].Key? && p[0].name in fields then LeafAt(fields[p[0].name], p[1..]) else None
  }

  /** The rows of a flattened value: leaves at a path with at least one segment. */
  function Row(v: Val, p: Path): Option<Leaf> { if p == [] then None else LeafAt(v, p) }

  /** Where a path leads: element by element and key by key. */
  function Walk(v: Val, p: Path): Option<Val>
    decreases p
  {
    if p == [] then Some(v)
    else
      match Child(v, p[0])
      case None => None
      case Some(child) => Walk(child, p[1..])
  }

  /** The leaves are the scalars and the empty arrays, wherever a path leads to one. */
  lemma {:induction false} LeafIff(v: Val, p: Path, leaf: Leaf)
    ensures LeafAt(v, p) == Some(leaf) <==>
            || (exists x :: Walk(v, p) == Some(Scalar(x)) && leaf == LeafScalar(x))
            || (Walk(v, p) == Some(Arr([])) && leaf == EmptyArray)
    decreases p
  {
    if p != [] && Child(v, p[0]).Some? { LeafIff(Child(v, p[0]).value, p[1..], leaf); }
  }

  predicate Below(prefix: Path, p: Path) { |prefix| <= |p| && p[..|prefix|] == prefix }

  /** The rows of `v` written under `prefix`, and nothing else. */
  ghost predicate RowsUnder(v: Val, prefix: Path, rows: map<Path, Leaf>) {
    forall p :: (p in rows <==> p != [] && Below(prefix, p) && LeafAt(v, p[|prefix|..]).Some?)
                && (p in rows ==> LeafAt(v, p[|prefix|..]) == Some(rows[p]))
  }

  /** Rows of the children listed so far. */
  ghost predicate ChildRows(v: Val, prefix: Path, done: set<Seg>, rows: map<Path, Leaf>) {
    forall p :: (p in rows <==> Below(prefix, p) && |p| > |prefix| && p[|prefix|] in done && LeafAt(v, p[|prefix|..]).Some?)
                && (p in rows ==> LeafAt(v, p[|prefix|..]) == Some(rows[p]))
  }

  /** The value one segment down. */
  function Child(v: Val, s: Seg): Option<Val> {
    match v
    case Scalar(_) => None
    case Arr(elements) => if s.Index? && s.i < |elements| then Some(elements[s.i]) else None
    case Obj(fields) => if s.Key? && s.name in fields then Some(fields[s.name]) else None
  }

  lemma LeafBelow(v: Val, prefix: Path, s: Seg, p: Path)
    requires Child(v, s).Some? && Below(prefix + [s], p)
    ensures Below(prefix, p) && |p| > |prefix| && p[|prefix|] == s
    ensures LeafAt(v, p[|prefix|..]) == LeafAt(Child(v, s).value, p[|prefix| + 1..])
  {
    assert p[..|prefix| + 1][..|prefix|] == p[..|prefix|];
    assert (prefix + [s])[..|prefix|] == prefix && (prefix + [s])[|prefix|] == s;
    assert p[..|prefix| + 1][|prefix|] == p[|prefix|];
    assert p[|prefix|..][1..] == p[|prefix| + 1..];
  }

  lemma BelowChild(prefix: Path, s: Seg, p: Path)
    ensures Below(prefix + [s], p) <==> Below(prefix, p) && |p| > |prefix| && p[|prefix|] == s
  {
    if Below(prefix, p) && |p| > |prefix| && p[|prefix|] == s {
      assert p[..|prefix| + 1] == prefix + [s];
    }
    if Below(prefix + [s], p) {
      assert p[..|prefix|] == (prefix + [s])[..|prefix|] == prefix;
      assert p[|prefix|] == (prefix + [s])[|prefix|];
    }
  }

  /** Adding one child's rows. */
  lemma ChildAdded(v: Val, prefix: Path, done: set<Seg>, s: Seg, rows: map<Path, Leaf>, more: map<Path, Leaf>)
    requires ChildRows(v, prefix, done, rows) && s !in done && Child(v, s).Some?
    requires RowsUnder(Child(v, s).value, prefix + [s], more)
    ensures ChildRows(v, prefix, done + {s}, rows + more)
  {
    hide LeafAt, Child;
    forall p
      ensures p in rows + more <==>
                Below(prefix, p) && |p| > |prefix| && p[|prefix|] in done + {s} && LeafAt(v, p[|prefix|..]).Some?
      ensures p in rows + more ==> LeafAt(v, p[|prefix|..]) == Some((rows + more)[p])
    {
      BelowChild(prefix, s, p);
      if Below(prefix + [s], p) { LeafBelow(v, prefix, s, p); }
    }
  }

  lemma AllChildren(v: Val, prefix: Path, done: set<Seg>, rows: map<Path, Leaf>)
    requires ChildRows(v, prefix, done, rows)
    requires !v.Scalar? && (v.Arr? ==> v.elements != [])
    requires forall s :: Child(v, s).Some? ==> s in done
    ensures RowsUnder(v, prefix, rows)
  {
    forall p
      ensures p in rows <==> p != [] && Below(prefix, p) && LeafAt(v, p[|prefix|..]).Some?
    {
      if Below(prefix, p) && LeafAt(v, p[|prefix|..]).Some? {
        assert p[|prefix|..] != [];
        assert p[|prefix|..][0] == p[|prefix|];
        assert Child(v, p[|prefix|]).Some?;
      }
    }
  }

  method FlattenObject(v: Val, prefix: Path) returns (rows: map<Path, Leaf>)
    ensures RowsUnder(v, prefix, rows)
    decreases v
  {
    if v.Scalar? {
      rows := if prefix != [] then map[prefix := LeafScalar(v.value)] else map[];
      OneRow(v, prefix, LeafScalar(v.value));
    } else if v == Arr([]) {
      rows := if prefix != [] then map[prefix := EmptyArray] else map[];
      OneRow(v, prefix, EmptyArray);
    } else if v.Arr? {
      rows := FlattenElements(v, prefix);
    } else {
      rows := FlattenFields(v, prefix);
    }
  }

  lemma OneRow(v: Val, prefix: Path, leaf: Leaf)
    requires LeafAt(v, []) == Some(leaf) && (v.Scalar? || v == Arr([]))
    ensures RowsUnder(v, prefix, if prefix != [] then map[prefix := leaf] else map[])
  {
    assert prefix[|prefix|..] == [] && prefix[..|prefix|] == prefix;
    forall p | Below(prefix, p) && LeafAt(v, p[|prefix|..]).Some? ensures p == prefix {
      assert p[|prefix|..] == [];
      assert p == p[..|prefix|];
    }
  }

  method FlattenElements(v: Val, prefix: Path) returns (rows: map<Path, Leaf>)
    requires v.Arr? && v.elements != []
    ensures RowsUnder(v, prefix, rows)
    decreases v, 0
  {
    rows := map[];
    ghost var done: set<Seg> := {};
    for i := 0 to |v.elements|
      invariant ChildRows(v, prefix, done, rows)
      invariant forall s :: s in done <==> s.Index? && s.i < i
    {
      hide LeafAt, ChildRows, RowsUnder;
      var more := FlattenObject(v.elements[i], prefix + [Index(i)]);
      ChildAdded(v, prefix, done, Index(i), rows, more);
      rows := rows + more;
      done := done + {Index(i)};
    }
    AllChildren(v, prefix, done, rows);
  }

  method FlattenFields(v: Val, prefix: Path) returns (rows: map<Path, Leaf>)
    requires v.Obj?
    ensures RowsUnder(v, prefix, rows)
    decreases v, 0
  {
    rows := map[];
    var pending := v.fields.Keys;
    ghost var done: set<Seg> := {};
    while pending != {}
      invariant pending <= v.fields.Keys
      invariant ChildRows(v, prefix, done, rows)
      invariant forall s :: s in done <==> s.Key? && s.name in v.fields && s.name !in pending
      decreases pending
    {
      hide LeafAt, ChildRows, RowsUnder;
      var key :| key in pending;
      pending := pending - {key};
      var more := FlattenObject(v.fields[key], prefix + [Key(key)]);
      ChildAdded(v, prefix, done, Key(key), rows, more);
      rows := rows + more;
      done := done + {Key(key)};
    }
    AllChildren(v, prefix, done, rows);
  }

  // ----- provenance -----

  /** A leaf of a merge is the override's wherever the override has one, and the base's otherwise. */
  lemma {:induction false} MergeLeaf(base: Val, override: Val, p: Path)
    requires LeafAt(Merge(base, override), p).Some?
    ensures LeafAt(Merge(base, override), p) ==
            if LeafAt(override, p).Some? then LeafAt(override, p) else LeafAt(base, p)
    decreases p
  {
    if base.Obj? && override.Obj? && p != [] {
      var k := p[0].name;
      if k in override.fields && k in base.fields { MergeLeaf(base.fields[k], override.fields[k], p[1..]); }
    }
  }

  /** And every leaf of the override is a leaf of the merge. */
  lemma {:induction false} OverrideWins(base: Val, override: Val, p: Path)
    requires LeafAt(override, p).Some?
    ensures LeafAt(Merge(base, override), p) == LeafAt(override, p)
    decreases p
  {
    if base.Obj? && override.Obj? {
      var k := p[0].name;
      if k in base.fields { OverrideWins(base.fields[k], override.fields[k], p[1..]); }
    }
  }

  /** Along this path both trees are objects until the override has nothing more to say. */
  predicate LeftAlone(base: Val, override: Val, p: Path)
    decreases p
  {
    && base.Obj? && override.Obj? && p != [] && p[0].Key? && p[0].name in base.fields
    && (p[0].name in override.fields ==> LeftAlone(base.fields[p[0].name], override.fields[p[0].name], p[1..]))
  }

  /** A leaf of a merge is one of the override, or one of the base that the override leaves alone. */
  lemma {:induction false} MergeLeafIff(base: Val, override: Val, p: Path, leaf: Leaf)
    ensures LeafAt(Merge(base, override), p) == Some(leaf) <==>
            LeafAt(override, p) == Some(leaf) || (LeftAlone(base, override, p) && LeafAt(base, p) == Some(leaf))
    ensures LeftAlone(base, override, p) ==> LeafAt(override, p) == None
    decreases p
  {
    if base.Obj? && override.Obj? && p != [] && p[0].Key? && p[0].name in base.fields && p[0].name in override.fields {
      MergeLeafIff(base.fields[p[0].name], override.fields[p[0].name], p[1..], leaf);
    }
  }

  /** A layer that is not there, `null` or `undefined`, adds nothing and takes nothing away. */
  lemma AbsentLayer(layer: Val, absent: Val)
    requires layer.Obj? && absent in {Scalar(Null), Scalar(Undefined)}
    ensures MergeLayers(layer, absent, Obj(map[])) == layer && MergeLayers(absent, layer, Obj(map[])) == layer
    ensures MergeLayers(absent, absent, layer) == layer
  {
    assert layer.fields.Keys + {} == layer.fields.Keys && {} + layer.fields.Keys == layer.fields.Keys;
    EmptyMerge(layer);
    EmptyMerge(Obj(map[]));
  }

  lemma EmptyMerge(layer: Val)
    requires layer.Obj?
    ensures Merge(layer, Obj(map[])) == layer && Merge(Obj(map[]), layer) == layer
  {
    assert Merge(layer, Obj(map[])).fields == layer.fields;
    assert Merge(Obj(map[]), layer).fields == layer.fields;
  }

  datatype Source = GlobalConfig | TestYaml | CliFlag

  /** The last layer that has a row at this path. */
  function LastLayer(global: Val, test: Val, flags: Val, p: Path): Source {
    if Row(flags, p).Some? then CliFlag else if Row(test, p).Some? then TestYaml else GlobalConfig
  }

  function Layer(global: Val, test: Val, flags: Val, s: Source): Val {
    match s
    case GlobalConfig => global
    case TestYaml => test
    case CliFlag => flags
  }

  lemma OrEmptyRows(v: Val, p: Path)
    ensures Row(OrEmpty(v), p) == Row(v, p)
  {
  }

  /** Every row of the merged configuration is exactly the row of the last layer that has one there. */
  lemma LayerProvenance(global: Val, test: Val, flags: Val, p: Path)
    requires Row(MergeLayers(global, test, flags), p).Some?
    ensures Row(MergeLayers(global, test, flags), p)
            == Row(Layer(global, test, flags, LastLayer(global, test, flags, p)), p)
  {
    var inner := Merge(OrEmpty(global), OrEmpty(test));
    MergeLeaf(inner, flags, p);
    if LeafAt(flags, p) == None {
      MergeLeaf(OrEmpty(global), OrEmpty(test), p);
    }
    OrEmptyRows(global, p);
    OrEmptyRows(test, p);
  }

  // ----- the printed source -----

  /** The printed key of a one-segment path is the bare name; only such a key can be an inherited property. */
  function BareName(p: Path): Option<string> { if |p| == 1 && p[0].Key? then Some(p[0].name) else None }

  /** `key in layer.flat`: an own row, or a name every object inherits. */
  predicate InFlat(inherited: set<string>, layer: Val, p: Path) {
    Row(layer, p).Some? || (BareName(p).Some? && BareName(p).value in inherited)
  }

  method AttributeSource(inherited: set<string>, global: Val, test: Val, flags: Val, p: Path) returns (source: Source)
    ensures source == NamedSource(inherited, global, test, flags, p)
  {
    source := GlobalConfig;
    var layers := [(global, GlobalConfig), (test, TestYaml), (flags, CliFlag)];
    for i := 0 to |layers|
      invariant i <= 1 ==> source == GlobalConfig
      invariant i == 2 ==> source == if InFlat(inherited, test, p) then TestYaml else GlobalConfig
      invariant i == 3 ==> source == NamedSource(inherited, global, test, flags, p)
    {
      if InFlat(inherited, layers[i].0, p) { source := layers[i].1; }
    }
  }

  /** The source the debug table names. */
  function NamedSource(inherited: set<string>, global: Val, test: Val, flags: Val, p: Path): Source {
    if InFlat(inherited, flags, p) then CliFlag else if InFlat(inherited, test, p) then TestYaml else GlobalConfig
  }

  /**
   * The named source is the layer the value came from, except for top-level keys that are names every
   * object inherits: those are always attributed to the flags, rightly only when the flags set them.
   */
  lemma SourceNamedIff(inherited: set<string>, global: Val, test: Val, flags: Val, p: Path)
    requires Row(MergeLayers(global, test, flags), p).Some?
    ensures NamedSource(inherited, global, test, flags, p) == LastLayer(global, test, flags, p) <==>
            (BareName(p).Some? && BareName(p).value in inherited ==> Row(flags, p).Some?)
  {
  }

  /** A global setting called `constructor` is reported as a command-line flag. */
  lemma InheritedNameMisattributed(value: Value)
    ensures
      var global := Obj(map["constructor" := Scalar(value)]);
      var p := [Key("constructor")];
      && Row(MergeLayers(global, Obj(map[]), Obj(map[])), p) == Some(LeafScalar(value))
      && LastLayer(global, Obj(map[]), Obj(map[]), p) == GlobalConfig
      && NamedSource({"constructor"}, global, Obj(map[]), Obj(map[]), p) == CliFlag
  {
    var global := Obj(map["constructor" := Scalar(value)]);
    var p := [Key("constructor")];
    assert p[1..] == [];
    assert Row(global, p) == Some(LeafScalar(value));
    var once := Merge(global, Obj(map[]));
    assert once.fields == global.fields;
    assert Merge(once, Obj(map[])).fields == global.fields;
  }

  // ----- cyclic object graphs -----

  type Ref = nat

  /** A JavaScript value in a heap of objects: a scalar, or a reference. */
  datatype GVal = GScalar(value: Value) | GRef(ref: Ref)

  datatype GNode = GArr(elements: seq<GVal>) | GObj(fields: map<string, GVal>)

  type Heap = map<Ref, GNode>

  predicate WellFormed(h: Heap) {
    && (forall r, i :: r in h && h[r].GArr? && 0 <= i < |h[r].elements| && h[r].elements[i].GRef? ==> h[r].elements[i].ref in h)
    && (forall r, k :: r in h && h[r].GObj? && k in h[r].fields && h[r].fields[k].GRef? ==> h[r].fields[k].ref in h)
  }

  predicate Points(h: Heap, v: GVal) { v.GRef? ==> v.ref in h }

  function GChild(h: Heap, n: GNode, s: Seg): Option<GVal> {
    match n
    case GArr(elements) => if s.Index? && s.i < |elements| then Some(elements[s.i]) else None
    case GObj(fields) => if s.Key? && s.name in fields then Some(fields[s.name]) else None
  }

  /** The leaf at a path of a graph, with the objects on the way down; meeting one of them again ends the walk. */
  function GLeafAt(h: Heap, v: GVal, ancestors: set<Ref>, p: Path): Option<Leaf>
    decreases p
  {
    if v.GScalar? then (if p == [] then Some(LeafScalar(v.value)) else None)
    else if v.ref in ancestors then (if p == [] then Some(Circular) else None)
    else if v.ref !in h then None
    else if p == [] then (if h[v.ref] == GArr([]) then Some(EmptyArray) else None)
    else
      match GChild(h, h[v.ref], p[0])
      case None => None
      case Some(child) => GLeafAt(h, child, ancestors + {v.ref}, p[1..])
  }

  ghost predicate GRowsUnder(h: Heap, v: GVal, ancestors: set<Ref>, prefix: Path, rows: map<Path, Leaf>) {
    forall p :: (p in rows <==> p != [] && Below(prefix, p) && GLeafAt(h, v, ancestors, p[|prefix|..]).Some?)
                && (p in rows ==> GLeafAt(h, v, ancestors, p[|prefix|..]) == Some(rows[p]))
  }

  ghost predicate GChildRows(h: Heap, v: GVal, ancestors: set<Ref>, prefix: Path, done: set<Seg>, rows: map<Path, Leaf>) {
    forall p :: (p in rows <==>
                   Below(prefix, p) && |p| > |prefix| && p[|prefix|] in done
                   && GLeafAt(h, v, ancestors, p[|prefix|..]).Some?)
                && (p in rows ==> GLeafAt(h, v, ancestors, p[|prefix|..]) == Some(rows[p]))
  }

  lemma GLeafBelow(h: Heap, v: GVal, ancestors: set<Ref>, prefix: Path, s: Seg, p: Path)
    requires v.GRef? && v.ref in h && v.ref !in ancestors && GChild(h, h[v.ref], s).Some? && Below(prefix + [s], p)
    ensures Below(prefix, p) && |p| > |prefix| && p[|prefix|] == s
    ensures GLeafAt(h, v, ancestors, p[|prefix|..])
            == GLeafAt(h, GChild(h, h[v.ref], s).value, ancestors + {v.ref}, p[|prefix| + 1..])
  {
    BelowChild(prefix, s, p);
    assert p[|prefix|..][1..] == p[|prefix| + 1..] && p[|prefix|..][0] == s;
  }

  lemma GChildAdded(h: Heap, v: GVal, ancestors: set<Ref>, prefix: Path, done: set<Seg>, s: Seg,
                    rows: map<Path, Leaf>, more: map<Path, Leaf>)
    requires v.GRef? && v.ref in h && v.ref !in ancestors
    requires GChildRows(h, v, ancestors, prefix, done, rows) && s !in done && GChild(h, h[v.ref], s).Some?
    requires GRowsUnder(h, GChild(h, h[v.ref], s).value, ancestors + {v.ref}, prefix + [s], more)
    ensures GChildRows(h, v, ancestors, prefix, done + {s}, rows + more)
  {
    hide GLeafAt, GChild;
    forall p
      ensures p in rows + more <==>
                Below(prefix, p) && |p| > |prefix| && p[|prefix|] in done + {s}
                && GLeafAt(h, v, ancestors, p[|prefix|..]).Some?
      ensures p in rows + more ==> GLeafAt(h, v, ancestors, p[|prefix|..]) == Some((rows + more)[p])
    {
      BelowChild(prefix, s, p);
      if Below(prefix + [s], p) { GLeafBelow(h, v, ancestors, prefix, s, p); }
    }
  }

  lemma GAllChildren(h: Heap, v: GVal, ancestors: set<Ref>, prefix: Path, done: set<Seg>, rows: map<Path, Leaf>)
    requires v.GRef? && v.ref in h && v.ref !in ancestors && h[v.ref] != GArr([])
    requires GChildRows(h, v, ancestors, prefix, done, rows)
    requires forall s :: GChild(h, h[v.ref], s).Some? ==> s in done
    ensures GRowsUnder(h, v, ancestors, prefix, rows)
  {
    forall p
      ensures p in rows <==> p != [] && Below(prefix, p) && GLeafAt(h, v, ancestors, p[|prefix|..]).Some?
    {
      if Below(prefix, p) && GLeafAt(h, v, ancestors, p[|prefix|..]).Some? {
        assert p[|prefix|..] != [];
        assert p[|prefix|..][0] == p[|prefix|];
        assert GChild(h, h[v.ref], p[|prefix|]).Some?;
      }
    }
  }

  lemma GOneRow(h: Heap, v: GVal, ancestors: set<Ref>, prefix: Path, leaf: Leaf)
    requires GLeafAt(h, v, ancestors, []) == Some(leaf)
    ensures GRowsUnder(h, v, ancestors, prefix, if prefix != [] then map[prefix := leaf] else map[])
  {
    assert prefix[|prefix|..] == [] && prefix[..|prefix|] == prefix;
    forall p | Below(prefix, p) && GLeafAt(h, v, ancestors, p[|prefix|..]).Some? ensures p == prefix {
      GOnlyHere(h, v, ancestors, p[|prefix|..]);
      assert p == p[..|prefix|];
    }
  }

  lemma GOnlyHere(h: Heap, v: GVal, ancestors: set<Ref>, p: Path)
    requires GLeafAt(h, v, ancestors, []).Some? && GLeafAt(h, v, ancestors, p).Some?
    ensures p == []
  {
  }

  /**
   * `flattenObject` on any finite heap, cycles included. It halts because every nested call has one more
   * object on its ancestor path: the measure is how many objects are not on it yet.
   */
  method FlattenGraph(h: Heap, v: GVal, prefix: Path, ancestors: set<Ref>) returns (rows: map<Path, Leaf>)
    requires WellFormed(h) && Points(h, v)
    ensures GRowsUnder(h, v, ancestors, prefix, rows)
    decreases h.Keys - ancestors, 1
  {
    if v.GScalar? {
      rows := if prefix != [] then map[prefix := LeafScalar(v.value)] else map[];
      GOneRow(h, v, ancestors, prefix, LeafScalar(v.value));
    } else if v.ref in ancestors {
      rows := if prefix != [] then map[prefix := Circular] else map[];
      GOneRow(h, v, ancestors, prefix, Circular);
    } else if h[v.ref] == GArr([]) {
      rows := if prefix != [] then map[prefix := EmptyArray] else map[];
      GOneRow(h, v, ancestors, prefix, EmptyArray);
    } else if h[v.ref].GArr? {
      rows := FlattenGraphElements(h, v, prefix, ancestors);
    } else {
      rows := FlattenGraphFields(h, v, prefix, ancestors);
    }
  }

  method FlattenGraphElements(h: Heap, v: GVal, prefix: Path, ancestors: set<Ref>) returns (rows: map<Path, Leaf>)
    requires WellFormed(h) && v.GRef? && v.ref in h && v.ref !in ancestors && h[v.ref].GArr? && h[v.ref] != GArr([])
    ensures GRowsUnder(h, v, ancestors, prefix, rows)
    decreases h.Keys - ancestors, 0
  {
    var elements := h[v.ref].elements;
    rows := map[];
    ghost var done: set<Seg> := {};
    for i := 0 to |elements|
      invariant GChildRows(h, v, ancestors, prefix, done, rows)
      invariant forall s :: s in done <==> s.Index? && s.i < i
    {
      hide GLeafAt, GChildRows, GRowsUnder;
      assert v.ref in h.Keys - ancestors && v.ref !in h.Keys - (ancestors + {v.ref});
      var more := FlattenGraph(h, elements[i], prefix + [Index(i)], ancestors + {v.ref});
      GChildAdded(h, v, ancestors, prefix, done, Index(i), rows, more);
      rows := rows + more;
      done := done + {Index(i)};
    }
    GAllChildren(h, v, ancestors, prefix, done, rows);
  }

  method FlattenGraphFields(h: Heap, v: GVal, prefix: Path, ancestors: set<Ref>) returns (rows: map<Path, Leaf>)
    requires WellFormed(h) && v.GRef? && v.ref in h && v.ref !in ancestors && h[v.ref].GObj?
    ensures GRowsUnder(h, v, ancestors, prefix, rows)
    decreases h.Keys - ancestors, 0
  {
    var fields := h[v.ref].fields;
    rows := map[];
    var pending := fields.Keys;
    ghost var done: set<Seg> := {};
    while pending != {}
      invariant pending <= fields.Keys
      invariant GChildRows(h, v, ancestors, prefix, done, rows)
      invariant forall s :: s in done <==> s.Key? && s.name in fields && s.name !in pending
      decreases pending
    {
      hide GLeafAt, GChildRows, GRowsUnder;
      var key :| key in pending;
      pending := pending - {key};
      assert v.ref in h.Keys - ancestors && v.ref !in h.Keys - (ancestors + {v.ref});
      var more := FlattenGraph(h, fields[key], prefix + [Key(key)], ancestors + {v.ref});
      GChildAdded(h, v, ancestors, prefix, done, Key(key), rows, more);
      rows := rows + more;
      done := done + {Key(key)};
    }
    GAllChildren(h, v, ancestors, prefix, done, rows);
  }

  /** No row is longer than the number of objects: a walk never enters an object twice. */
  lemma {:induction false} RowsAreShort(h: Heap, v: GVal, ancestors: set<Ref>, p: Path)
    requires GLeafAt(h, v, ancestors, p).Some? && ancestors <= h.Keys
    ensures |p| + |ancestors| <= |h.Keys|
    decreases p
  {
    if p == [] {
      SubsetSize(ancestors, h.Keys);
    } else {
      RowsAreShort(h, GChild(h, h[v.ref], p[0]).value, ancestors + {v.ref}, p[1..]);
    }
  }

  lemma {:induction false} SubsetSize<T>(a: set<T>, b: set<T>)
    requires a <= b
    ensures |a| <= |b|
  {
    assert b == a + (b - a);
    assert a * (b - a) == {};
  }

  // ----- graphs without cycles are trees -----

  /** Every reference leads to an object of lower rank. */
  ghost predicate Ranked(h: Heap, rank: Ref -> nat) {
    forall r, s :: r in h && GChild(h, h[r], s).Some? && GChild(h, h[r], s).value.GRef? ==>
      rank(GChild(h, h[r], s).value.ref) < rank(r)
  }

  /** The tree is what the graph unfolds to at every path. */
  ghost predicate UnfoldsTo(h: Heap, v: GVal, t: Val)
    decreases t
  {
    match t
    case Scalar(x) => v == GScalar(x)
    case Arr(elements) =>
      && v.GRef? && v.ref in h && h[v.ref].GArr? && |h[v.ref].elements| == |elements|
      && forall i :: 0 <= i < |elements| ==> UnfoldsTo(h, h[v.ref].elements[i], elements[i])
    case Obj(fields) =>
      && v.GRef? && v.ref in h && h[v.ref].GObj? && h[v.ref].fields.Keys == fields.Keys
      && forall k :: k in fields ==> UnfoldsTo(h, h[v.ref].fields[k], fields[k])
  }

  /** Without a cycle the guard never fires: the rows of the graph are the rows of the tree it unfolds to. */
  lemma {:induction false} GraphIsTree(h: Heap, rank: Ref -> nat, v: GVal, t: Val, ancestors: set<Ref>, p: Path)
    requires Ranked(h, rank) && UnfoldsTo(h, v, t)
    requires forall a :: a in ancestors && v.GRef? ==> rank(v.ref) < rank(a)
    ensures GLeafAt(h, v, ancestors, p) == LeafAt(t, p)
    decreases p
  {
    if v.GRef? && p != [] {
      var child := GChild(h, h[v.ref], p[0]);
      if child.Some? {
        var below := Child(t, p[0]).value;
        forall a | a in ancestors + {v.ref} && child.value.GRef? ensures rank(child.value.ref) < rank(a) {}
        GraphIsTree(h, rank, child.value, below, ancestors + {v.ref}, p[1..]);
      }
    }
  }

  /** An object that contains itself is shown once, with a mark where it recurs. */
  lemma SelfReferenceMarked(k: string, x: string, value: Value)
    requires k != x
    ensures
      var h: Heap := map[0 := GObj(map[k := GRef(0), x := GScalar(value)])];
      && GLeafAt(h, GRef(0), {}, [Key(k)]) == Some(Circular)
      && GLeafAt(h, GRef(0), {}, [Key(x)]) == Some(LeafScalar(value))
      && forall s :: GLeafAt(h, GRef(0), {}, [Key(k), s]) == None
  {
    assert [Key(k)][1..] == [] && [Key(x)][1..] == [];
    forall s: Seg ensures [Key(k), s][1..] == [s] {}
  }
}
