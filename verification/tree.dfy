/** Structured bodies as trees with string leaves: the recursive walks of
    internal/alert/template.go, over whatever is done at a leaf. */
module Trees {
  import opened Domain

  type Tree = map<string, Value>

  /** What a string leaf becomes; None is an error. */
  type Leaf = string -> Option<Value>

  predicate AllLeaves(v: Value, ok: string -> bool)
    decreases v
  {
    match v
    case Text(s) => ok(s)
    case List(items) => forall i :: 0 <= i < |items| ==> AllLeaves(items[i], ok)
    case Map(entries) => forall k :: k in entries ==> AllLeaves(entries[k], ok)
    case _ => true
  }

  // ----- what stands where ----------------------------------------------------------------

  /** One step into a structure: a map entry or a list item. */
  datatype Step = Field(key: string) | Item(index: nat)

  /** What stands at the end of a path, if it leads anywhere. */
  function At(v: Value, path: seq<Step>): Option<Value>
    decreases |path|
  {
    if path == [] then Some(v)
    else
      match path[0]
      case Field(k) => if v.Map? && k in v.entries then At(v.entries[k], path[1..]) else None
      case Item(i) => if v.List? && i < |v.items| then At(v.items[i], path[1..]) else None
  }

  /** A structure is its leaves: the check holds of all exactly when it holds of every string
      that some path leads to. */
  lemma {:induction false} LeavesByPath(v: Value, ok: string -> bool)
    ensures AllLeaves(v, ok)
       <==> forall path :: At(v, path).Some? && At(v, path).value.Text? ==> ok(At(v, path).value.text)
    decreases v
  {
    forall path | AllLeaves(v, ok) && At(v, path).Some? && At(v, path).value.Text?
      ensures ok(At(v, path).value.text)
    {
      LeafOnPath(v, ok, path);
    }
    if !AllLeaves(v, ok) {
      var path := BadLeaf(v, ok);
      assert At(v, path).value.Text?;
    }
  }

  lemma {:induction false} LeafOnPath(v: Value, ok: string -> bool, path: seq<Step>)
    requires AllLeaves(v, ok) && At(v, path).Some? && At(v, path).value.Text?
    ensures ok(At(v, path).value.text)
    decreases |path|
  {
    if path != [] {
      match path[0]
      case Field(k) => LeafOnPath(v.entries[k], ok, path[1..]);
      case Item(i) => LeafOnPath(v.items[i], ok, path[1..]);
    }
  }

  lemma {:induction false} BadLeaf(v: Value, ok: string -> bool) returns (path: seq<Step>)
    requires !AllLeaves(v, ok)
    ensures At(v, path).Some? && At(v, path).value.Text? && !ok(At(v, path).value.text)
    decreases v
  {
    match v
    case Text(s) =>
      path := [];
    case List(items) =>
      var i: nat :| i < |items| && !AllLeaves(items[i], ok);
      var rest := BadLeaf(items[i], ok);
      path := [Item(i)] + rest;
      assert path[1..] == rest;
    case Map(entries) =>
      var k :| k in entries && !AllLeaves(entries[k], ok);
      var rest := BadLeaf(entries[k], ok);
      path := [Field(k)] + rest;
      assert path[1..] == rest;
  }

  function Succeeds(leaf: Leaf): string -> bool { (s: string) => leaf(s).Some? }

  predicate Renders(v: Value, leaf: Leaf) { AllLeaves(v, Succeeds(leaf)) }

  /** The same structure with every string leaf rendered. */
  function Rendered(v: Value, leaf: Leaf): Value
    requires Renders(v, leaf)
    decreases v
  {
    match v
    case Text(s) => leaf(s).value
    case List(items) => List(seq(|items|, i requires 0 <= i < |items| => Rendered(items[i], leaf)))
    case Map(entries) => Map(map k | k in entries :: Rendered(entries[k], leaf))
    case _ => v
  }

  /** The rendered value stands where the raw one stood: a string is what its leaf became, maps
      keep their keys, lists their length, and everything else is as it was. */
  lemma {:induction false} RenderedAt(v: Value, leaf: Leaf, path: seq<Step>)
    requires Renders(v, leaf) && At(v, path).Some?
    ensures var raw, out := At(v, path).value, At(Rendered(v, leaf), path);
            && out.Some?
            && (raw.Text? ==> leaf(raw.text) == out)
            && (raw.Map? ==> out.value.Map? && out.value.entries.Keys == raw.entries.Keys)
            && (raw.List? ==> out.value.List? && |out.value.items| == |raw.items|)
            && (!raw.Text? && !raw.Map? && !raw.List? ==> out.value == raw)
    decreases |path|
  {
    if path != [] {
      match path[0]
      case Field(k) => RenderedAt(v.entries[k], leaf, path[1..]);
      case Item(i) => RenderedAt(v.items[i], leaf, path[1..]);
    }
  }

  /** renderValue: None is the first error met, in whatever order a map is walked. */
  method RenderValue(v: Value, leaf: Leaf) returns (out: Option<Value>)
    ensures out == if Renders(v, leaf) then Some(Rendered(v, leaf)) else None
    decreases v
  {
    match v
    case Text(s) =>
      out := leaf(s);
    case Map(entries) =>
      var left, built := entries.Keys, map[];
      while left != {}
        invariant left <= entries.Keys && built.Keys == entries.Keys - left
        invariant forall k :: k in built ==> Renders(entries[k], leaf) && built[k] == Rendered(entries[k], leaf)
      {
        var k :| k in left;
        var value := RenderValue(entries[k], leaf);
        if value.None? {
          return None;
        }
        built, left := built[k := value.value], left - {k};
      }
      assert Renders(v, leaf);
      assert built == map k | k in entries :: Rendered(entries[k], leaf);
      out := Some(Map(built));
    case List(items) =>
      var built: seq<Value> := [];
      for i := 0 to |items|
        invariant |built| == i
        invariant forall j :: 0 <= j < i ==> Renders(items[j], leaf) && built[j] == Rendered(items[j], leaf)
      {
        var value := RenderValue(items[i], leaf);
        if value.None? {
          return None;
        }
        built := built + [value.value];
      }
      assert Renders(v, leaf);
      assert built == Rendered(v, leaf).items;
      out := Some(List(built));
    case _ =>
      out := Some(v);
  }

  /** The walk of validateRefs. */
  method Validate(v: Value, ok: string -> bool) returns (valid: bool)
    ensures valid == AllLeaves(v, ok)
    decreases v
  {
    match v
    case Text(s) =>
      return ok(s);
    case Map(entries) =>
      var left := entries.Keys;
      while left != {}
        invariant left <= entries.Keys
        invariant forall k :: k in entries && k !in left ==> AllLeaves(entries[k], ok)
      {
        var k :| k in left;
        var here := Validate(entries[k], ok);
        if !here {
          return false;
        }
        left := left - {k};
      }
      return true;
    case List(items) =>
      for i := 0 to |items|
        invariant forall j :: 0 <= j < i ==> AllLeaves(items[j], ok)
      {
        var here := Validate(items[i], ok);
        if !here {
          return false;
        }
      }
      return true;
    case _ =>
      return true;
  }

  // ----- the overlay of a recovery body ---------------------------------------------------

  /** deepMerge: maps merge key by key, anything else in over replaces. */
  function Merge(base: Tree, over: Tree): Tree
    decreases Map(over)
  {
    map k | k in base.Keys + over.Keys :: MergeAt(base, over, k)
  }

  function MergeAt(base: Tree, over: Tree, k: string): Value
    requires k in base.Keys + over.Keys
    decreases Map(over), 0
  {
    if k !in over then base[k]
    else if k in base && base[k].Map? && over[k].Map? then Map(Merge(base[k].entries, over[k].entries))
    else over[k]
  }

  method DeepMerge(base: Tree, over: Tree) returns (out: Tree)
    ensures out == Merge(base, over)
    decreases Map(over)
  {
    out := base;
    var left := over.Keys;
    while left != {}
      invariant left <= over.Keys
      invariant out.Keys == base.Keys + (over.Keys - left)
      invariant forall k :: k in out ==> out[k] == if k in left then base[k] else MergeAt(base, over, k)
    {
      var k :| k in left;
      if k in out && out[k].Map? && over[k].Map? {
        var nested := DeepMerge(out[k].entries, over[k].entries);
        out := out[k := Map(nested)];
      } else {
        out := out[k := over[k]];
      }
      left := left - {k};
    }
  }

  predicate ThroughMaps(path: seq<Step>) { forall i :: 0 <= i < |path| ==> path[i].Field? }

  /** The path ends at, or runs into, something that is not a map. */
  predicate EndsMaps(v: Value, path: seq<Step>)
    decreases |path|
  {
    !v.Map? || (path != [] && path[0].Field? && path[0].key in v.entries
                && EndsMaps(v.entries[path[0].key], path[1..]))
  }

  /** Along every path: where the overlay has something other than a map, on the path or at its
      end, it alone decides; where it has a map there is a map; where it has nothing stands what
      stands in the base. */
  lemma {:induction false} MergedAt(base: Tree, over: Tree, path: seq<Step>)
    requires ThroughMaps(path)
    ensures var merged, own := At(Map(Merge(base, over)), path), At(Map(over), path);
            if EndsMaps(Map(over), path) then merged == own
            else if own.Some? then merged.Some? && merged.value.Map?
            else merged == At(Map(base), path)
    decreases |path|
  {
    if path != [] {
      var k, rest := path[0].key, path[1..];
      assert ThroughMaps(rest);
      if k in over && k in base && over[k].Map? && base[k].Map? {
        MergedAt(base[k].entries, over[k].entries, rest);
      } else if k in over && over[k].Map? {
        if k in base {
          NothingBelow(base[k], rest);
        }
        OwnMap(over[k], rest);
      } else if k in over {
        assert EndsMaps(over[k], rest);
      }
    }
  }

  lemma NothingBelow(v: Value, path: seq<Step>)
    requires !v.Map? && ThroughMaps(path)
    ensures path != [] ==> At(v, path).None?
  {
  }

  lemma {:induction false} OwnMap(v: Value, path: seq<Step>)
    requires ThroughMaps(path)
    ensures !EndsMaps(v, path) && At(v, path).Some? ==> At(v, path).value.Map?
    decreases |path|
  {
    if path != [] && v.Map? && path[0].key in v.entries {
      OwnMap(v.entries[path[0].key], path[1..]);
    }
  }

  /** The same overlay twice is the overlay once. */
  lemma {:induction false} MergeIdempotent(base: Tree, over: Tree)
    ensures Merge(Merge(base, over), over) == Merge(base, over)
    decreases Map(over)
  {
    var once := Merge(base, over);
    forall k | k in base.Keys + over.Keys
      ensures MergeAt(once, over, k) == once[k]
    {
      if k in over && over[k].Map? {
        if k in base && base[k].Map? {
          MergeIdempotent(base[k].entries, over[k].entries);
        } else {
          MergeSelf(over[k].entries);
        }
      }
    }
  }

  lemma {:induction false} MergeSelf(tree: Tree)
    ensures Merge(tree, tree) == tree
    decreases Map(tree)
  {
    forall k | k in tree
      ensures MergeAt(tree, tree, k) == tree[k]
    {
      if tree[k].Map? {
        MergeSelf(tree[k].entries);
      }
    }
  }

  /** Every leaf of the overlay comes from one of the two sides. */
  lemma {:induction false} MergeKeepsLeaves(base: Tree, over: Tree, ok: string -> bool)
    requires AllLeaves(Map(base), ok) && AllLeaves(Map(over), ok)
    ensures AllLeaves(Map(Merge(base, over)), ok)
    decreases Map(over)
  {
    forall k | k in base.Keys + over.Keys
      ensures AllLeaves(MergeAt(base, over, k), ok)
    {
      if k in over && k in base && base[k].Map? && over[k].Map? {
        MergeKeepsLeaves(base[k].entries, over[k].entries, ok);
      }
    }
  }

  function RenderedTree(tree: Tree, leaf: Leaf): Tree
    requires Renders(Map(tree), leaf)
  {
    map k | k in tree :: Rendered(tree[k], leaf)
  }

  /** A leaf never turns into a map. */
  ghost predicate Flat(leaf: Leaf) { forall s :: leaf(s).Some? ==> !leaf(s).value.Map? }

  /** Rendering commutes with the overlay: a leaf never turns into a map, so rendering
      cannot change what merges with what. */
  lemma {:induction false} RenderingCommutesWithMerge(base: Tree, over: Tree, leaf: Leaf)
    requires Flat(leaf) && Renders(Map(base), leaf) && Renders(Map(over), leaf)
    ensures Renders(Map(Merge(base, over)), leaf)
    ensures RenderedTree(Merge(base, over), leaf) == Merge(RenderedTree(base, leaf), RenderedTree(over, leaf))
    decreases Map(over)
  {
    MergeKeepsLeaves(base, over, Succeeds(leaf));
    forall k | k in base.Keys + over.Keys
      ensures Renders(MergeAt(base, over, k), leaf)
      ensures Rendered(MergeAt(base, over, k), leaf) == MergeAt(RenderedTree(base, leaf), RenderedTree(over, leaf), k)
    {
      RenderingCommutesAt(base, over, leaf, k);
    }
  }

  lemma {:induction false} RenderingCommutesAt(base: Tree, over: Tree, leaf: Leaf, k: string)
    requires Flat(leaf) && Renders(Map(base), leaf) && Renders(Map(over), leaf) && k in base.Keys + over.Keys
    ensures Renders(MergeAt(base, over, k), leaf)
    ensures Rendered(MergeAt(base, over, k), leaf) == MergeAt(RenderedTree(base, leaf), RenderedTree(over, leaf), k)
    decreases Map(over), 0
  {
    if k in base {
      MapsAlone(base[k], leaf);
    }
    if k in over {
      MapsAlone(over[k], leaf);
    }
    if k in over && k in base && base[k].Map? && over[k].Map? {
      var x, y := base[k].entries, over[k].entries;
      RenderingCommutesWithMerge(x, y, leaf);
      assert Rendered(base[k], leaf) == Map(RenderedTree(x, leaf));
      assert Rendered(over[k], leaf) == Map(RenderedTree(y, leaf));
      assert Rendered(Map(Merge(x, y)), leaf) == Map(RenderedTree(Merge(x, y), leaf));
    }
  }

  lemma MapsAlone(v: Value, leaf: Leaf)
    requires Flat(leaf) && Renders(v, leaf)
    ensures Rendered(v, leaf).Map? <==> v.Map?
  {
  }

  // ----- encoding -------------------------------------------------------------------------

  /** json.Marshal succeeds. */
  predicate Marshals(v: Value)
    decreases v
  {
    match v
    case Other(encodes) => encodes
    case List(items) => forall i :: 0 <= i < |items| ==> Marshals(items[i])
    case Map(entries) => forall k :: k in entries ==> Marshals(entries[k])
    case _ => true
  }

  /** It fails exactly on a value, wherever it stands, that has no JSON form. */
  lemma {:induction false} MarshalsByPath(v: Value, path: seq<Step>)
    requires At(v, path) == Some(Other(false))
    ensures !Marshals(v)
    decreases |path|
  {
    if path != [] {
      match path[0]
      case Field(k) => MarshalsByPath(v.entries[k], path[1..]);
      case Item(i) => MarshalsByPath(v.items[i], path[1..]);
    }
  }

  lemma {:induction false} UnmarshalledAt(v: Value) returns (path: seq<Step>)
    requires !Marshals(v)
    ensures At(v, path) == Some(Other(false))
    decreases v
  {
    match v
    case Other(_) =>
      path := [];
    case List(items) =>
      var i: nat :| i < |items| && !Marshals(items[i]);
      var rest := UnmarshalledAt(items[i]);
      path := [Item(i)] + rest;
      assert path[1..] == rest;
    case Map(entries) =>
      var k :| k in entries && !Marshals(entries[k]);
      var rest := UnmarshalledAt(entries[k]);
      path := [Field(k)] + rest;
      assert path[1..] == rest;
  }

  ghost predicate Encodable(leaf: Leaf) { forall s :: leaf(s).Some? ==> Marshals(leaf(s).value) }

  /** Whether a rendered structure encodes is decided by the structure alone. */
  lemma {:induction false} EncodingIsInTheBody(v: Value, leaf: Leaf)
    requires Encodable(leaf) && Renders(v, leaf)
    ensures Marshals(Rendered(v, leaf)) <==> Marshals(v)
    decreases v
  {
    match v
    case List(items) =>
      var out := Rendered(v, leaf).items;
      forall i | 0 <= i < |items|
        ensures Marshals(out[i]) <==> Marshals(items[i])
      {
        EncodingIsInTheBody(items[i], leaf);
      }
    case Map(entries) =>
      var out := Rendered(v, leaf).entries;
      forall k | k in entries
        ensures Marshals(out[k]) <==> Marshals(entries[k])
      {
        EncodingIsInTheBody(entries[k], leaf);
      }
    case _ =>
  }

  // ----- one leaf function against another ------------------------------------------------

  /** g answers wherever f does. */
  ghost predicate Covers<T(!new)>(f: string -> Option<T>, g: string -> Option<T>) {
    forall s :: f(s).Some? ==> g(s).Some?
  }

  lemma {:induction false} RenderingCarriesOver(v: Value, f: Leaf, g: Leaf)
    requires Covers(f, g) && Renders(v, f)
    ensures Renders(v, g)
    decreases v
  {
    match v
    case List(items) =>
      forall i | 0 <= i < |items|
        ensures AllLeaves(items[i], Succeeds(g))
      {
        RenderingCarriesOver(items[i], f, g);
      }
    case Map(entries) =>
      forall k | k in entries
        ensures AllLeaves(entries[k], Succeeds(g))
      {
        RenderingCarriesOver(entries[k], f, g);
      }
    case _ =>
  }
}
