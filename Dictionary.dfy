/**
 * The hestia Dictionary: a tree whose nodes are a scalar string, a sequence
 * of child dictionaries or a string-keyed map of child dictionaries.
 *
 * `Dict` is the value of one node together with its subtree (the C++ object
 * owns its children through unique_ptr and copies them deeply, so a value is
 * an exact picture of it); `Dictionary` is the object whose members the
 * operations update in place.
 */
module Dictionary {
  import opened Wrappers
  import opened Decimal

  /** Dictionary::Type. */
  datatype Kind = Scalar | Sequence | Map

  /** The (prefix, tag) pair m_tag. */
  datatype Tag = Tag(prefix: string, name: string)

  /**
   * One node. Every node has all three parts; its kind says which one is in
   * use, as m_type does for m_scalar, m_sequence and m_map.
   */
  datatype Dict = Dict(kind: Kind, scalar: string, tag: Tag, sequence: seq<Dict>, items: map<string, Dict>)

  /** A freshly created node of the given kind. */
  function EmptyOf(kind: Kind): Dict
  {
    Dict(kind, "", Tag("", ""), [], map[])
  }

  /** The node `set_map` creates for one value: a scalar holding it. */
  function ScalarDict(value: string): Dict
  {
    EmptyOf(Scalar).(scalar := value)
  }

  /** is_empty: the part selected by the kind has nothing in it. */
  predicate IsEmpty(d: Dict)
  {
    match d.kind
    case Map => d.items == map[]
    case Sequence => d.sequence == []
    case Scalar => d.scalar == []
  }

  // ---------------------------------------------------------------------
  // copy_from and merge, as functions of the values involved
  // ---------------------------------------------------------------------

  /**
   * The receiver after copy_from(other): kind, tag, scalar and sequence are
   * taken from `other`; map entries of `other` are added with emplace, which
   * leaves a key the receiver already has untouched.
   */
  function CopyOf(recv: Dict, other: Dict): Dict
  {
    Dict(other.kind, other.scalar, other.tag, other.sequence, other.items + recv.items)
  }

  /** Copying into a node with no map entries yields an exact copy. */
  lemma CopyIntoFresh(recv: Dict, other: Dict)
    requires recv.items == map[]
    ensures CopyOf(recv, other) == other
  {
    assert other.items + recv.items == other.items;
  }

  /** copy_from keeps every key the receiver had, with its old value, and adds the others. */
  lemma CopyKeepsReceiverEntries(recv: Dict, other: Dict)
    ensures CopyOf(recv, other).items.Keys == recv.items.Keys + other.items.Keys
    ensures forall k :: k in recv.items ==> CopyOf(recv, other).items[k] == recv.items[k]
    ensures forall k :: k in other.items && k !in recv.items ==> CopyOf(recv, other).items[k] == other.items[k]
  {
  }

  /**
   * Assigning {"x": "2"} to a map that holds {"x": "1"} leaves "1" in place:
   * operator= goes through copy_from, whose emplace never replaces a key.
   */
  lemma AssignKeepsStaleEntry(old1: string, new2: string)
    requires old1 != new2
    ensures var recv := EmptyOf(Map).(items := map["x" := ScalarDict(old1)]);
            var other := EmptyOf(Map).(items := map["x" := ScalarDict(new2)]);
            CopyOf(recv, other) != other && CopyOf(recv, other).items["x"] == ScalarDict(old1)
  {
    var recv := EmptyOf(Map).(items := map["x" := ScalarDict(old1)]);
    var other := EmptyOf(Map).(items := map["x" := ScalarDict(new2)]);
    assert CopyOf(recv, other).items["x"] == ScalarDict(old1);
    assert other.items["x"] == ScalarDict(new2);
  }

  /** What operator= evidently means: the receiver becomes a copy of `other`, stale keys dropped. */
  function AssignIntended(recv: Dict, other: Dict): (r: Dict)
    ensures r == other
  {
    CopyOf(recv.(items := map[]), other)
  }

  datatype MergeError = IncompatibleTypes

  /**
   * The receiver after merge(arg): an empty argument changes nothing; an
   * empty receiver first becomes a copy of the argument; then a scalar
   * replaces a scalar, a sequence is appended to a sequence and map entries
   * overwrite or join the receiver's; any other pairing of kinds is an error.
   */
  function Merged(recv: Dict, arg: Dict): Result<Dict, MergeError>
  {
    if IsEmpty(arg) then Success(recv)
    else
      var base := if IsEmpty(recv) then CopyOf(recv, arg) else recv;
      if arg.kind != base.kind then Failure(IncompatibleTypes)
      else
        match arg.kind
        case Scalar => Success(base.(scalar := arg.scalar))
        case Sequence => Success(base.(sequence := base.sequence + arg.sequence))
        case Map => Success(base.(items := base.items + arg.items))
  }

  lemma MergeEmptyArgument(recv: Dict, arg: Dict)
    requires IsEmpty(arg)
    ensures Merged(recv, arg) == Success(recv)
  {
  }

  /**
   * A scalar merged into a scalar takes its value; an empty receiver of any
   * kind first becomes a copy of the scalar.
   */
  lemma MergeScalars(recv: Dict, arg: Dict)
    requires arg.kind == Scalar && !IsEmpty(arg)
    requires recv.kind == Scalar || IsEmpty(recv)
    ensures Merged(recv, arg).Success?
    ensures Merged(recv, arg).value.kind == Scalar && Merged(recv, arg).value.scalar == arg.scalar
    ensures !IsEmpty(recv) ==> Merged(recv, arg).value == recv.(scalar := arg.scalar)
    ensures IsEmpty(recv) ==> Merged(recv, arg).value == CopyOf(recv, arg)
  {
  }

  /**
   * Map entries overwrite or join the receiver's; an empty receiver of any
   * kind first becomes a map through copy_from, keeping the entries it held.
   */
  lemma MergeMaps(recv: Dict, arg: Dict)
    requires arg.kind == Map && !IsEmpty(arg)
    requires recv.kind == Map || IsEmpty(recv)
    ensures Merged(recv, arg).Success?
    ensures Merged(recv, arg).value.kind == Map
    ensures Merged(recv, arg).value.items.Keys == recv.items.Keys + arg.items.Keys
    ensures forall k :: k in arg.items ==> Merged(recv, arg).value.items[k] == arg.items[k]
    ensures forall k :: k in recv.items && k !in arg.items ==> Merged(recv, arg).value.items[k] == recv.items[k]
  {
  }

  lemma MergeSequences(recv: Dict, arg: Dict)
    requires arg.kind == Sequence && !IsEmpty(arg)
    requires recv.kind == Sequence || IsEmpty(recv)
    ensures Merged(recv, arg).Success?
    ensures !IsEmpty(recv) ==> Merged(recv, arg).value.sequence == recv.sequence + arg.sequence
    ensures IsEmpty(recv) ==> Merged(recv, arg).value.sequence == arg.sequence + arg.sequence
  {
  }

  lemma MergeIncompatible(recv: Dict, arg: Dict)
    requires !IsEmpty(recv) && !IsEmpty(arg)
    ensures Merged(recv, arg).Failure? <==> recv.kind != arg.kind
    ensures Merged(recv, arg).Failure? ==> Merged(recv, arg).error == IncompatibleTypes
  {
  }

  // ---------------------------------------------------------------------
  // flatten
  // ---------------------------------------------------------------------

  /** One step down the tree: a map key or a sequence position. */
  datatype Step = Key(key: string) | Index(index: nat)

  /** The text a step adds to a flattened key: the map key itself, or "seq_" and the position. */
  function Segment(s: Step): string
  {
    match s
    case Key(k) => k
    case Index(i) => "seq_" + NatToString(i)
  }

  /** The prefix for a child: the delimiter goes between parts, never in front of the first. */
  function Extend(prefix: string, delim: string, s: Step): string
  {
    prefix + (if prefix == [] then [] else delim) + Segment(s)
  }

  /** The scalar at the end of `path`, when every step exists and the last node is a scalar. */
  ghost function Leaf(d: Dict, path: seq<Step>): Option<string>
    decreases |path|
  {
    if path == [] then
      if d.kind == Scalar then Some(d.scalar) else None
    else
      match path[0]
      case Key(k) => if d.kind == Map && k in d.items then Leaf(d.items[k], path[1..]) else None
      case Index(i) => if d.kind == Sequence && i < |d.sequence| then Leaf(d.sequence[i], path[1..]) else None
  }

  /** The prefix reached after following `path` from `prefix`. */
  function Render(prefix: string, delim: string, path: seq<Step>): string
    decreases |path|
  {
    if path == [] then prefix else Render(Extend(prefix, delim, path[0]), delim, path[1..])
  }

  /** The flattened key of the leaf at `path`: its rendered path, or "value" when that is empty. */
  function FlatKey(prefix: string, delim: string, path: seq<Step>): string
  {
    var r := Render(prefix, delim, path);
    if r == [] then "value" else r
  }

  /** A set's element chosen once for every use, so that walks over map keys agree. */
  ghost function Pick(keys: set<string>): (k: string)
    requires keys != {}
    ensures k in keys
  {
    var k :| k in keys; k
  }

  /**
   * flatten_layer: the (key, value) pairs it writes, as a multiset, since the
   * map's iteration order is unspecified.
   */
  ghost function FlattenLayer(d: Dict, prefix: string, delim: string): multiset<(string, string)>
    decreases d, 2
  {
    match d.kind
    case Scalar => multiset{(if prefix == [] then "value" else prefix, d.scalar)}
    case Sequence => FlattenItems(d, prefix, delim, 0)
    case Map => FlattenEntries(d, prefix, delim, d.items.Keys)
  }

  ghost function FlattenItems(d: Dict, prefix: string, delim: string, i: nat): multiset<(string, string)>
    requires i <= |d.sequence|
    decreases d, 1, |d.sequence| - i
  {
    if i == |d.sequence| then multiset{}
    else FlattenLayer(d.sequence[i], Extend(prefix, delim, Index(i)), delim) + FlattenItems(d, prefix, delim, i + 1)
  }

  ghost function FlattenEntries(d: Dict, prefix: string, delim: string, keys: set<string>): multiset<(string, string)>
    requires keys <= d.items.Keys
    decreases d, 1, keys
  {
    if keys == {} then multiset{}
    else
      var k := Pick(keys);
      FlattenLayer(d.items[k], Extend(prefix, delim, Key(k)), delim) + FlattenEntries(d, prefix, delim, keys - {k})
  }

  /** flatten: nothing for an empty dictionary, otherwise the layers from an empty prefix. */
  ghost function Flatten(d: Dict, delim: string): multiset<(string, string)>
  {
    if IsEmpty(d) then multiset{} else FlattenLayer(d, "", delim)
  }

  /** `e` is the entry for the scalar at `path`. */
  ghost predicate ListsLeaf(d: Dict, prefix: string, delim: string, path: seq<Step>, e: (string, string))
  {
    Leaf(d, path) == Some(e.1) && FlatKey(prefix, delim, path) == e.0
  }

  lemma {:induction false} ItemsMember(d: Dict, prefix: string, delim: string, i: nat, e: (string, string))
    requires i <= |d.sequence|
    ensures e in FlattenItems(d, prefix, delim, i) <==>
            exists j :: i <= j < |d.sequence| && e in FlattenLayer(d.sequence[j], Extend(prefix, delim, Index(j)), delim)
    decreases |d.sequence| - i
  {
    if i < |d.sequence| {
      ItemsMember(d, prefix, delim, i + 1, e);
      var here := FlattenLayer(d.sequence[i], Extend(prefix, delim, Index(i)), delim);
      assert FlattenItems(d, prefix, delim, i) == here + FlattenItems(d, prefix, delim, i + 1);
      if exists j :: i <= j < |d.sequence| && e in FlattenLayer(d.sequence[j], Extend(prefix, delim, Index(j)), delim) {
        var j :| i <= j < |d.sequence| && e in FlattenLayer(d.sequence[j], Extend(prefix, delim, Index(j)), delim);
        if j != i {
          assert i + 1 <= j;
        }
      }
    }
  }

  lemma {:induction false} EntriesMember(d: Dict, prefix: string, delim: string, keys: set<string>, e: (string, string))
    requires keys <= d.items.Keys
    ensures e in FlattenEntries(d, prefix, delim, keys) <==>
            exists k :: k in keys && e in FlattenLayer(d.items[k], Extend(prefix, delim, Key(k)), delim)
    decreases keys
  {
    if keys != {} {
      EntriesMember(d, prefix, delim, keys - {Pick(keys)}, e);
    }
  }

  lemma RenderStep(prefix: string, delim: string, s: Step, rest: seq<Step>)
    ensures Render(prefix, delim, [s] + rest) == Render(Extend(prefix, delim, s), delim, rest)
  {
    assert ([s] + rest)[1..] == rest;
  }

  lemma LeafStep(d: Dict, s: Step, rest: seq<Step>)
    ensures Leaf(d, [s] + rest) ==
            match s
            case Key(k) => if d.kind == Map && k in d.items then Leaf(d.items[k], rest) else None
            case Index(i) => if d.kind == Sequence && i < |d.sequence| then Leaf(d.sequence[i], rest) else None
  {
    assert ([s] + rest)[1..] == rest;
  }

  /** A leaf listed under a child is listed under its parent, one step further down. */
  lemma ListsLeafUp(d: Dict, prefix: string, delim: string, s: Step, child: Dict, rest: seq<Step>, e: (string, string))
    requires s.Key? ==> d.kind == Map && s.key in d.items && child == d.items[s.key]
    requires s.Index? ==> d.kind == Sequence && s.index < |d.sequence| && child == d.sequence[s.index]
    requires ListsLeaf(child, Extend(prefix, delim, s), delim, rest, e)
    ensures ListsLeaf(d, prefix, delim, [s] + rest, e)
  {
    RenderStep(prefix, delim, s, rest);
    LeafStep(d, s, rest);
  }

  /** Every entry flatten_layer writes is the entry of some scalar leaf. */
  lemma {:induction false} FlattenLayerSound(d: Dict, prefix: string, delim: string, e: (string, string))
    requires e in FlattenLayer(d, prefix, delim)
    ensures exists path :: ListsLeaf(d, prefix, delim, path, e)
    decreases d, 2
  {
    match d.kind
    case Scalar =>
      assert ListsLeaf(d, prefix, delim, [], e);
    case Sequence =>
      ItemsSound(d, prefix, delim, e);
    case Map =>
      EntriesSound(d, prefix, delim, e);
  }

  /** The sequence case of FlattenLayerSound: the entry comes from some item's leaf. */
  lemma {:induction false} ItemsSound(d: Dict, prefix: string, delim: string, e: (string, string))
    requires d.kind == Sequence && e in FlattenItems(d, prefix, delim, 0)
    ensures exists path :: ListsLeaf(d, prefix, delim, path, e)
    decreases d, 1
  {
    ItemsMember(d, prefix, delim, 0, e);
    var j :| 0 <= j < |d.sequence| && e in FlattenLayer(d.sequence[j], Extend(prefix, delim, Index(j)), delim);
    ItemSound(d, prefix, delim, j, e);
  }

  /** One item of ItemsSound: an entry of item j's layer is the entry of a leaf below item j. */
  lemma {:induction false} ItemSound(d: Dict, prefix: string, delim: string, j: nat, e: (string, string))
    requires d.kind == Sequence && j < |d.sequence|
    requires e in FlattenLayer(d.sequence[j], Extend(prefix, delim, Index(j)), delim)
    ensures exists path :: ListsLeaf(d, prefix, delim, path, e)
    decreases d, 0
  {
    var child, p := d.sequence[j], Extend(prefix, delim, Index(j));
    FlattenLayerSound(child, p, delim, e);
    var rest :| ListsLeaf(child, p, delim, rest, e);
    ListsLeafUp(d, prefix, delim, Index(j), child, rest, e);
  }

  /** The map case of FlattenLayerSound: the entry comes from some entry's leaf. */
  lemma {:induction false} EntriesSound(d: Dict, prefix: string, delim: string, e: (string, string))
    requires d.kind == Map && e in FlattenEntries(d, prefix, delim, d.items.Keys)
    ensures exists path :: ListsLeaf(d, prefix, delim, path, e)
    decreases d, 0
  {
    EntriesMember(d, prefix, delim, d.items.Keys, e);
    var k :| k in d.items && e in FlattenLayer(d.items[k], Extend(prefix, delim, Key(k)), delim);
    FlattenLayerSound(d.items[k], Extend(prefix, delim, Key(k)), delim, e);
    var rest :| ListsLeaf(d.items[k], Extend(prefix, delim, Key(k)), delim, rest, e);
    ListsLeafUp(d, prefix, delim, Key(k), d.items[k], rest, e);
  }

  /** Every scalar leaf has its entry among those flatten_layer writes. */
  lemma {:induction false} FlattenLayerComplete(d: Dict, prefix: string, delim: string, path: seq<Step>, e: (string, string))
    requires ListsLeaf(d, prefix, delim, path, e)
    ensures e in FlattenLayer(d, prefix, delim)
    decreases |path|
  {
    if path == [] {
      assert e == (if prefix == [] then "value" else prefix, d.scalar);
    } else {
      var s, rest := path[0], path[1..];
      assert path == [s] + rest;
      RenderStep(prefix, delim, s, rest);
      LeafStep(d, s, rest);
      match s
      case Key(k) =>
        FlattenLayerComplete(d.items[k], Extend(prefix, delim, s), delim, rest, e);
        EntriesMember(d, prefix, delim, d.items.Keys, e);
      case Index(i) =>
        FlattenLayerComplete(d.sequence[i], Extend(prefix, delim, s), delim, rest, e);
        ItemsMember(d, prefix, delim, 0, e);
    }
  }

  /**
   * flatten lists exactly the scalar leaves of a non-empty dictionary, each
   * under its path: map keys and "seq_<i>" segments joined by the delimiter,
   * or "value" for a scalar root.
   */
  lemma FlattenIsLeaves(d: Dict, delim: string, e: (string, string))
    ensures e in Flatten(d, delim) <==> !IsEmpty(d) && exists path :: ListsLeaf(d, "", delim, path, e)
  {
    if e in Flatten(d, delim) {
      FlattenLayerSound(d, "", delim, e);
    }
    if !IsEmpty(d) && exists path :: ListsLeaf(d, "", delim, path, e) {
      var path :| ListsLeaf(d, "", delim, path, e);
      FlattenLayerComplete(d, "", delim, path, e);
    }
  }

  /** A non-empty scalar root flattens to the single entry ("value", scalar). */
  lemma FlattenScalarRoot(d: Dict, delim: string)
    requires d.kind == Scalar && d.scalar != []
    ensures Flatten(d, delim) == multiset{("value", d.scalar)}
  {
  }

  /** The number of scalar leaves below a node. */
  ghost function LeafCount(d: Dict): nat
    decreases d, 2
  {
    match d.kind
    case Scalar => 1
    case Sequence => ItemLeaves(d, 0)
    case Map => EntryLeaves(d, d.items.Keys)
  }

  ghost function ItemLeaves(d: Dict, i: nat): nat
    requires i <= |d.sequence|
    decreases d, 1, |d.sequence| - i
  {
    if i == |d.sequence| then 0 else LeafCount(d.sequence[i]) + ItemLeaves(d, i + 1)
  }

  ghost function EntryLeaves(d: Dict, keys: set<string>): nat
    requires keys <= d.items.Keys
    decreases d, 1, keys
  {
    if keys == {} then 0
    else var k := Pick(keys); LeafCount(d.items[k]) + EntryLeaves(d, keys - {k})
  }

  /** flatten_layer writes one entry per scalar leaf, whatever the prefix. */
  lemma {:induction false} FlattenLayerCount(d: Dict, prefix: string, delim: string)
    ensures |FlattenLayer(d, prefix, delim)| == LeafCount(d)
    decreases d, 2
  {
    match d.kind
    case Scalar =>
    case Sequence => FlattenItemsCount(d, prefix, delim, 0);
    case Map => FlattenEntriesCount(d, prefix, delim, d.items.Keys);
  }

  lemma {:induction false} FlattenItemsCount(d: Dict, prefix: string, delim: string, i: nat)
    requires i <= |d.sequence|
    ensures |FlattenItems(d, prefix, delim, i)| == ItemLeaves(d, i)
    decreases d, 1, |d.sequence| - i
  {
    if i < |d.sequence| {
      FlattenLayerCount(d.sequence[i], Extend(prefix, delim, Index(i)), delim);
      FlattenItemsCount(d, prefix, delim, i + 1);
    }
  }

  lemma {:induction false} FlattenEntriesCount(d: Dict, prefix: string, delim: string, keys: set<string>)
    requires keys <= d.items.Keys
    ensures |FlattenEntries(d, prefix, delim, keys)| == EntryLeaves(d, keys)
    decreases d, 1, keys
  {
    if keys != {} {
      var k := Pick(keys);
      FlattenLayerCount(d.items[k], Extend(prefix, delim, Key(k)), delim);
      FlattenEntriesCount(d, prefix, delim, keys - {k});
    }
  }

  /** flatten of a non-empty dictionary makes one set_item call per scalar leaf; of an empty one, none. */
  lemma FlattenCount(d: Dict, delim: string)
    ensures |Flatten(d, delim)| == if IsEmpty(d) then 0 else LeafCount(d)
  {
    if !IsEmpty(d) {
      FlattenLayerCount(d, "", delim);
    }
  }

  /**
   * A Map the set_item calls `writes` may leave behind, in whatever order they
   * come: the caller's map is not cleared first, every written key is bound to
   * one of the values written under it, and a key nobody wrote keeps its value.
   */
  ghost predicate SetItemsInto(sink: map<string, string>, writes: multiset<(string, string)>, r: map<string, string>)
  {
    (forall k :: k in r <==> k in sink || exists v :: (k, v) in writes) &&
    (forall k :: k in r ==> (k, r[k]) in writes || (k in sink && r[k] == sink[k] && forall v :: (k, v) !in writes))
  }

  /**
   * What flatten leaves in the caller's Map: every scalar leaf's key is
   * bound, each key it wrote holds the value of some leaf rendering to it, and
   * the caller's other entries are kept; an empty dictionary changes nothing.
   */
  lemma FlattenInto(d: Dict, delim: string, sink: map<string, string>, r: map<string, string>)
    requires SetItemsInto(sink, Flatten(d, delim), r)
    ensures IsEmpty(d) ==> r == sink
    ensures !IsEmpty(d) ==> forall path :: Leaf(d, path).Some? ==> FlatKey("", delim, path) in r
    ensures forall k :: k in r ==> (k in sink && r[k] == sink[k]) || exists path :: ListsLeaf(d, "", delim, path, (k, r[k]))
  {
    if !IsEmpty(d) {
      forall path | Leaf(d, path).Some?
        ensures FlatKey("", delim, path) in r
      {
        var e := (FlatKey("", delim, path), Leaf(d, path).value);
        assert ListsLeaf(d, "", delim, path, e);
        FlattenIsLeaves(d, delim, e);
        assert (e.0, e.1) in Flatten(d, delim);
      }
    }
    forall k | k in r && (k, r[k]) in Flatten(d, delim)
      ensures exists path :: ListsLeaf(d, "", delim, path, (k, r[k]))
    {
      FlattenIsLeaves(d, delim, (k, r[k]));
    }
  }

  /**
   * Keys can collide: under delimiter "." the map {"a": {"b": "1"}, "a.b": "2"}
   * writes "a.b" twice, so the caller's Map keeps only one of the two values.
   */
  lemma FlattenKeysCollide()
    ensures var inner := EmptyOf(Map).(items := map["b" := ScalarDict("1")]);
            var d := EmptyOf(Map).(items := map["a" := inner, "a.b" := ScalarDict("2")]);
            ("a.b", "1") in Flatten(d, ".") && ("a.b", "2") in Flatten(d, ".")
  {
    var inner := EmptyOf(Map).(items := map["b" := ScalarDict("1")]);
    var d := EmptyOf(Map).(items := map["a" := inner, "a.b" := ScalarDict("2")]);
    assert "a" != "a.b";
    assert Leaf(d, [Key("a"), Key("b")]) == Some("1") by {
      assert [Key("a"), Key("b")][1..] == [Key("b")];
      assert [Key("b")][1..] == [];
    }
    assert FlatKey("", ".", [Key("a"), Key("b")]) == "a.b" by {
      assert [Key("a"), Key("b")][1..] == [Key("b")];
      assert [Key("b")][1..] == [];
    }
    assert Leaf(d, [Key("a.b")]) == Some("2") by {
      assert [Key("a.b")][1..] == [];
    }
    assert FlatKey("", ".", [Key("a.b")]) == "a.b" by {
      assert [Key("a.b")][1..] == [];
    }
    assert ListsLeaf(d, "", ".", [Key("a"), Key("b")], ("a.b", "1"));
    assert ListsLeaf(d, "", ".", [Key("a.b")], ("a.b", "2"));
    FlattenIsLeaves(d, ".", ("a.b", "1"));
    FlattenIsLeaves(d, ".", ("a.b", "2"));
  }

  // ---------------------------------------------------------------------
  // get_scalar over already split keys
  // ---------------------------------------------------------------------

  /** The node reached by following `keys` through map nodes, each step needing a map with that key. */
  function Reach(d: Dict, keys: seq<string>): Option<Dict>
    decreases |keys|
  {
    if keys == [] then Some(d)
    else if d.kind == Map && keys[0] in d.items then Reach(d.items[keys[0]], keys[1..])
    else None
  }

  /**
   * get_scalar(key, delim) once the key is split: the scalar of the node the
   * keys lead to through maps, when there is at least one key and that node
   * is a scalar or a map; otherwise "".
   */
  function ScalarAt(d: Dict, keys: seq<string>): string
  {
    if keys != [] && Reach(d, keys).Some? && Reach(d, keys).value.kind in {Scalar, Map}
    then Reach(d, keys).value.scalar
    else ""
  }

  lemma {:induction false} ReachExtend(d: Dict, keys: seq<string>, i: nat)
    requires i < |keys|
    ensures Reach(d, keys[..i + 1]) ==
            match Reach(d, keys[..i])
            case None => None
            case Some(n) => if n.kind == Map && keys[i] in n.items then Some(n.items[keys[i]]) else None
    decreases i
  {
    if i > 0 {
      ReachExtend(if d.kind == Map && keys[0] in d.items then d.items[keys[0]] else d, keys[1..], i - 1);
      assert keys[..i + 1][1..] == keys[1..][..i];
      assert keys[..i][1..] == keys[1..][..i - 1];
    }
  }

  /** A scalar leaf reached by map keys only is what get_scalar returns for those keys. */
  lemma {:induction false} ScalarAtFindsLeaf(d: Dict, keys: seq<string>, v: string)
    requires keys != [] && Leaf(d, seq(|keys|, i requires 0 <= i < |keys| => Key(keys[i]))) == Some(v)
    ensures ScalarAt(d, keys) == v
  {
    LeafAlongKeys(d, keys, v);
  }

  lemma {:induction false} LeafAlongKeys(d: Dict, keys: seq<string>, v: string)
    requires Leaf(d, seq(|keys|, i requires 0 <= i < |keys| => Key(keys[i]))) == Some(v)
    ensures Reach(d, keys).Some? && Reach(d, keys).value.kind == Scalar && Reach(d, keys).value.scalar == v
    decreases |keys|
  {
    var path := seq(|keys|, i requires 0 <= i < |keys| => Key(keys[i]));
    if keys != [] {
      var rest := seq(|keys| - 1, i requires 0 <= i < |keys| - 1 => Key(keys[1..][i]));
      assert path == [Key(keys[0])] + rest;
      LeafStep(d, Key(keys[0]), rest);
      LeafAlongKeys(d.items[keys[0]], keys[1..], v);
    }
  }

  // ---------------------------------------------------------------------
  // get_scalars
  // ---------------------------------------------------------------------

  /**
   * get_scalars(key, values): what it appends to `values`. A scalar gives
   * its value; a map gives the value under `key` when that entry is a
   * scalar; a sequence gives what each item gives, in order.
   */
  function GetScalars(d: Dict, key: string): seq<string>
    decreases d, 2
  {
    match d.kind
    case Scalar => [d.scalar]
    case Map => if key in d.items && d.items[key].kind == Scalar then [d.items[key].scalar] else []
    case Sequence => ScalarsOfItems(d, key, 0)
  }

  function ScalarsOfItems(d: Dict, key: string, i: nat): seq<string>
    requires i <= |d.sequence|
    decreases d, 1, |d.sequence| - i
  {
    if i == |d.sequence| then [] else GetScalars(d.sequence[i], key) + ScalarsOfItems(d, key, i + 1)
  }

  /** The node at a path of sequence positions. */
  function NodeAt(d: Dict, path: seq<nat>): Option<Dict>
    decreases |path|
  {
    if path == [] then Some(d)
    else if d.kind == Sequence && path[0] < |d.sequence| then NodeAt(d.sequence[path[0]], path[1..])
    else None
  }

  /** What a non-sequence node contributes by itself: its scalar, or its scalar entry under `key`. */
  function OwnScalar(n: Dict, key: string): Option<string>
  {
    match n.kind
    case Scalar => Some(n.scalar)
    case Map => if key in n.items && n.items[key].kind == Scalar then Some(n.items[key].scalar) else None
    case Sequence => None
  }

  ghost predicate FoundAt(d: Dict, key: string, path: seq<nat>, v: string)
  {
    NodeAt(d, path).Some? && OwnScalar(NodeAt(d, path).value, key) == Some(v)
  }

  lemma {:induction false} ScalarsOfItemsMember(d: Dict, key: string, i: nat, v: string)
    requires i <= |d.sequence|
    ensures v in ScalarsOfItems(d, key, i) <==> exists j :: i <= j < |d.sequence| && v in GetScalars(d.sequence[j], key)
    decreases |d.sequence| - i
  {
    if i < |d.sequence| {
      ScalarsOfItemsMember(d, key, i + 1, v);
    }
  }

  lemma NodeAtStep(d: Dict, j: nat, rest: seq<nat>)
    ensures NodeAt(d, [j] + rest) == if d.kind == Sequence && j < |d.sequence| then NodeAt(d.sequence[j], rest) else None
  {
    assert ([j] + rest)[1..] == rest;
  }

  /**
   * get_scalars collects exactly the values found by descending through
   * sequences only: scalars themselves, and scalar entries under `key` of maps.
   */
  lemma {:induction false} GetScalarsFinds(d: Dict, key: string, v: string)
    ensures v in GetScalars(d, key) <==> exists path :: FoundAt(d, key, path, v)
    decreases d
  {
    if d.kind == Sequence {
      ScalarsOfItemsMember(d, key, 0, v);
      if v in GetScalars(d, key) {
        var j :| 0 <= j < |d.sequence| && v in GetScalars(d.sequence[j], key);
        GetScalarsFinds(d.sequence[j], key, v);
        var rest :| FoundAt(d.sequence[j], key, rest, v);
        NodeAtStep(d, j, rest);
        assert FoundAt(d, key, [j] + rest, v);
      }
      if exists path :: FoundAt(d, key, path, v) {
        var path :| FoundAt(d, key, path, v);
        assert path != [];
        NodeAtStep(d, path[0], path[1..]);
        assert path == [path[0]] + path[1..];
        assert path[0] < |d.sequence| && FoundAt(d.sequence[path[0]], key, path[1..], v);
        GetScalarsFinds(d.sequence[path[0]], key, v);
        assert v in GetScalars(d.sequence[path[0]], key);
      }
    } else {
      if exists path :: FoundAt(d, key, path, v) {
        var path :| FoundAt(d, key, path, v);
        assert path == [];
      }
      assert FoundAt(d, key, [], v) <==> v in GetScalars(d, key);
    }
  }

  // ---------------------------------------------------------------------
  // The object
  // ---------------------------------------------------------------------

  /** Resizing the sequence: truncated, or padded with placeholder nodes that copy_from overwrites. */
  function Resized(s: seq<Dict>, n: nat): (r: seq<Dict>)
    ensures |r| == n
    ensures forall i :: 0 <= i < n && i < |s| ==> r[i] == s[i]
  {
    if n <= |s| then s[..n] else s + seq(n - |s|, _ => EmptyOf(Map))
  }

  class Dictionary {
    var kind: Kind
    var scalar: string
    var tag: Tag
    var sequence: seq<Dict>
    var items: map<string, Dict>

    /** The node this object holds, with its subtree. */
    function Value(): Dict
      reads this
    {
      Dict(kind, scalar, tag, sequence, items)
    }

    /** Dictionary(type): a node of that kind with nothing in it. */
    constructor (kind: Kind)
      ensures Value() == EmptyOf(kind)
      ensures IsEmpty(Value())
    {
      this.kind := kind;
      scalar := "";
      tag := Tag("", "");
      sequence := [];
      items := map[];
    }

    /** The copy constructor: copy_from into a fresh node, which yields an exact copy. */
    constructor Copy(other: Dict)
      ensures Value() == other
    {
      kind := Map;
      scalar := "";
      tag := Tag("", "");
      sequence := [];
      items := map[];
      new;
      CopyFrom(other);
      CopyIntoFresh(EmptyOf(Map), other);
    }

    method AddSequenceItem(item: Dict)
      modifies this
      ensures Value() == old(Value()).(sequence := old(sequence) + [item])
    {
      sequence := sequence + [item];
    }

    method SetMapItem(key: string, item: Dict)
      modifies this
      ensures Value() == old(Value()).(items := old(items)[key := item])
      ensures key in items && items[key] == item
    {
      items := items[key := item];
    }

    /** set_map: one scalar node per entry, replacing any node already under that key. */
    method SetMap(entries: map<string, string>)
      modifies this
      ensures Value() == old(Value()).(items := items)
      ensures items.Keys == old(items).Keys + entries.Keys
      ensures forall k :: k in entries ==> items[k] == ScalarDict(entries[k])
      ensures forall k :: k in old(items) && k !in entries ==> items[k] == old(items)[k]
    {
      var pending := entries.Keys;
      while pending != {}
        invariant pending <= entries.Keys
        invariant Value() == old(Value()).(items := items)
        invariant items.Keys == old(items).Keys + (entries.Keys - pending)
        invariant forall k :: k in entries && k !in pending ==> items[k] == ScalarDict(entries[k])
        invariant forall k :: k in old(items) && k !in entries ==> items[k] == old(items)[k]
        invariant forall k :: k in old(items) && k in pending ==> items[k] == old(items)[k]
        decreases pending
      {
        var key :| key in pending;
        SetMapItem(key, ScalarDict(entries[key]));
        pending := pending - {key};
      }
    }

    /**
     * copy_from: kind, tag and scalar are taken from `other`, the sequence
     * is resized and every item copied, and map entries are added with
     * emplace, so a key already present keeps its value.
     */
    method CopyFrom(other: Dict)
      modifies this
      ensures Value() == CopyOf(old(Value()), other)
    {
      kind := other.kind;
      tag := other.tag;
      scalar := other.scalar;
      sequence := Resized(sequence, |other.sequence|);
      var idx := 0;
      while idx < |sequence|
        invariant |sequence| == |other.sequence| && 0 <= idx <= |sequence|
        invariant sequence[..idx] == other.sequence[..idx]
        invariant kind == other.kind && tag == other.tag && scalar == other.scalar && items == old(items)
      {
        sequence := sequence[idx := other.sequence[idx]];
        idx := idx + 1;
      }
      assert sequence == sequence[..idx];
      EmplaceEntries(other.items);
    }

    /** The emplace loop of copy_from: absent keys are added, present keys keep their value. */
    method EmplaceEntries(entries: map<string, Dict>)
      modifies this
      ensures Value() == old(Value()).(items := entries + old(items))
    {
      var pending := entries.Keys;
      while pending != {}
        invariant pending <= entries.Keys
        invariant Value() == old(Value()).(items := items)
        invariant items.Keys == old(items).Keys + (entries.Keys - pending)
        invariant forall k :: k in old(items) ==> items[k] == old(items)[k]
        invariant forall k :: k in items && k !in old(items) ==> items[k] == entries[k]
        decreases pending
      {
        var key :| key in pending;
        if key !in items {
          items := items[key := entries[key]];
        }
        pending := pending - {key};
      }
      assert items == entries + old(items);
    }

    /**
     * operator= as evidently intended: nothing happens on self-assignment,
     * otherwise the receiver's map is cleared before copy_from, so the
     * receiver ends up equal to `other`. The code as written does not clear
     * the map; AssignKeepsStaleEntry shows what that keeps.
     */
    method Assign(other: Dictionary)
      modifies this
      ensures Value() == AssignIntended(old(Value()), old(other.Value()))
      ensures Value() == old(other.Value())
    {
      if other == this {
        return;
      }
      var source := other.Value();
      items := map[];
      CopyFrom(source);
      CopyIntoFresh(old(Value()).(items := map[]), source);
    }

    /**
     * merge: the new state is the one Merged describes; on incompatible
     * kinds the error is reported and the state is unchanged.
     */
    method Merge(arg: Dict) returns (r: Result<(), MergeError>)
      modifies this
      ensures Merged(old(Value()), arg).Success? ==> r.Success? && Value() == Merged(old(Value()), arg).value
      ensures Merged(old(Value()), arg).Failure? ==>
                r == Failure(Merged(old(Value()), arg).error) && Value() == old(Value())
    {
      if IsEmpty(arg) {
        return Success(());
      }
      if IsEmpty(Value()) {
        CopyFrom(arg);
      }
      if arg.kind == Scalar && kind == Scalar {
        scalar := arg.scalar;
      } else if arg.kind == Sequence && kind == Sequence {
        AppendItems(arg.sequence);
      } else if arg.kind == Map && kind == Map {
        ReplaceEntries(arg.items);
      } else {
        return Failure(IncompatibleTypes);
      }
      return Success(());
    }

    /** The sequence loop of merge: each item is pushed at the back, in order. */
    method AppendItems(s: seq<Dict>)
      modifies this
      ensures Value() == old(Value()).(sequence := old(sequence) + s)
    {
      for i := 0 to |s|
        invariant Value() == old(Value()).(sequence := old(sequence) + s[..i])
      {
        AddSequenceItem(s[i]);
        assert s[..i + 1] == s[..i] + [s[i]];
      }
      assert s[..|s|] == s;
    }

    /** The map loop of merge: each entry is added, replacing any value under its key. */
    method ReplaceEntries(entries: map<string, Dict>)
      modifies this
      ensures Value() == old(Value()).(items := old(items) + entries)
    {
      var pending := entries.Keys;
      while pending != {}
        invariant pending <= entries.Keys
        invariant Value() == old(Value()).(items := items)
        invariant items.Keys == old(items).Keys + (entries.Keys - pending)
        invariant forall k :: k in entries && k !in pending ==> items[k] == entries[k]
        invariant forall k :: k in old(items) && (k !in entries || k in pending) ==> items[k] == old(items)[k]
        decreases pending
      {
        var key :| key in pending;
        SetMapItem(key, entries[key]);
        pending := pending - {key};
      }
      assert items == old(items) + entries;
    }

    /**
     * get_scalar over the split key: walks map nodes with a loop and
     * answers what ScalarAt describes.
     */
    method GetScalar(nestedKeys: seq<string>) returns (r: string)
      ensures r == ScalarAt(Value(), nestedKeys)
    {
      if kind != Map {
        return "";
      }
      var working: Option<Dict> := None;
      var depth := 0;
      while depth < |nestedKeys|
        invariant 0 <= depth <= |nestedKeys|
        invariant depth == 0 <==> working.None?
        invariant depth > 0 ==> working == Reach(Value(), nestedKeys[..depth]) && working.value.kind == Map
      {
        var key := nestedKeys[depth];
        var node := if working.None? then Value() else working.value;
        ReachExtend(Value(), nestedKeys, depth);
        assert nestedKeys[..0] == [];
        working := if key in node.items then Some(node.items[key]) else None;
        if working.None? {
          ReachStops(Value(), nestedKeys, depth + 1);
          return "";
        }
        if working.value.kind == Scalar {
          if depth == |nestedKeys| - 1 {
            assert nestedKeys[..depth + 1] == nestedKeys;
            return working.value.scalar;
          } else {
            ScalarAtPastScalar(Value(), nestedKeys, depth);
            return "";
          }
        } else if working.value.kind != Map {
          ScalarAtPastSequence(Value(), nestedKeys, depth);
          return "";
        }
        depth := depth + 1;
      }
      if working.Some? {
        assert nestedKeys[..depth] == nestedKeys;
        return working.value.scalar;
      }
      return "";
    }

    /** has_key_and_value: whether get_scalar of the key equals the value. */
    method HasKeyAndValue(nestedKeys: seq<string>, value: string) returns (b: bool)
      ensures b <==> ScalarAt(Value(), nestedKeys) == value
    {
      var s := GetScalar(nestedKeys);
      b := s == value;
    }

    /**
     * get_map_items: a map node adds each scalar entry whose key is not
     * excluded to `sink`, replacing the sink's value under that key.
     */
    method GetMapItems(sink: map<string, string>, exclude: seq<string>) returns (r: map<string, string>)
      ensures forall k :: k in r <==> k in sink || (kind == Map && k in items && items[k].kind == Scalar && k !in exclude)
      ensures forall k :: k in r ==>
                r[k] == if kind == Map && k in items && items[k].kind == Scalar && k !in exclude then items[k].scalar else sink[k]
    {
      r := sink;
      if kind != Map {
        return;
      }
      var pending := items.Keys;
      while pending != {}
        invariant pending <= items.Keys
        invariant forall k :: k in r <==> k in sink || (k in items && k !in pending && items[k].kind == Scalar && k !in exclude)
        invariant forall k :: k in r ==>
                    r[k] == if k in items && k !in pending && items[k].kind == Scalar && k !in exclude then items[k].scalar else sink[k]
        decreases pending
      {
        var key :| key in pending;
        if items[key].kind == Scalar && key !in exclude {
          r := r[key := items[key].scalar];
        }
        pending := pending - {key};
      }
    }
  }

  /** A walk that meets a scalar before its last key yields "". */
  lemma {:induction false} ScalarAtPastScalar(d: Dict, keys: seq<string>, i: nat)
    requires i < |keys| - 1
    requires Reach(d, keys[..i + 1]).Some? && Reach(d, keys[..i + 1]).value.kind == Scalar
    ensures ScalarAt(d, keys) == ""
  {
    ReachStops(d, keys, i + 1);
  }

  /** A walk that meets a sequence yields "". */
  lemma {:induction false} ScalarAtPastSequence(d: Dict, keys: seq<string>, i: nat)
    requires i < |keys|
    requires Reach(d, keys[..i + 1]).Some? && Reach(d, keys[..i + 1]).value.kind == Sequence
    ensures ScalarAt(d, keys) == ""
  {
    if i + 1 < |keys| {
      ReachStops(d, keys, i + 1);
    } else {
      assert keys[..i + 1] == keys;
    }
  }

  /** Once a prefix of the keys reaches nothing, or a node that is not a map, so do the keys. */
  lemma {:induction false} ReachStops(d: Dict, keys: seq<string>, n: nat)
    requires n <= |keys|
    requires Reach(d, keys[..n]).None? || (n < |keys| && Reach(d, keys[..n]).value.kind != Map)
    ensures Reach(d, keys) == None
    decreases n
  {
    if n == 0 {
      assert keys[..0] == [];
    } else if d.kind == Map && keys[0] in d.items {
      assert keys[..n][1..] == keys[1..][..n - 1];
      ReachStops(d.items[keys[0]], keys[1..], n - 1);
    }
  }
}
