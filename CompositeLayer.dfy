/**
 * A composite layer of the HSM service: the read and write extents one
 * storage layer holds for an object, its identity and its priority in the
 * stack of layers.
 *
 * Only the declarations of the extent operations are part of this model, so
 * those methods are given at interface level: they state which members they
 * may change. The contracts that go further (the selected list is the only
 * one touched, marking only sets flags, the sweep removes exactly the marked
 * entries, the has_* queries test for entries) are inferred from the
 * operations' names and parameters, not from their bodies.
 */
module CompositeLayer {

  /** uint32_t. */
  newtype U32 = x: int | 0 <= x < 0x1_0000_0000

  /** std::size_t. */
  newtype Size = x: int | 0 <= x < 0x1_0000_0000_0000_0000

  /** A byte range of an object: (offset, length). */
  datatype Extent = Extent(offset: Size, length: Size)

  /** Extent(): the empty range at offset 0. */
  const EmptyExtent := Extent(0, 0)

  /** A 128-bit identifier; nil is all zeros. */
  datatype Uuid = Uuid(hi: bv64, lo: bv64)

  const NilUuid := Uuid(0, 0)

  datatype ExtentMatchCode = EmError | EmNone | EmPartial | EmFull

  datatype ExtentMatchType = EmtIntersect | EmtMerge

  /** An extent with a flag that defers its removal to the next sweep. */
  datatype MarkableExtent = MarkableExtent(offset: Size, length: Size, markedForDelete: bool)

  /** MarkableExtent(). */
  function NewMarkable(): (m: MarkableExtent)
    ensures !m.markedForDelete
    ensures AsExtent(m) == EmptyExtent
  {
    MarkableExtent(0, 0, false)
  }

  /** MarkableExtent(offset, length). */
  function MarkableOf(offset: Size, length: Size): (m: MarkableExtent)
    ensures !m.markedForDelete
    ensures AsExtent(m) == Extent(offset, length)
  {
    MarkableExtent(offset, length, false)
  }

  /** MarkableExtent(const Extent&). */
  function FromExtent(e: Extent): (m: MarkableExtent)
    ensures !m.markedForDelete
    ensures m.offset == e.offset && m.length == e.length
  {
    MarkableExtent(e.offset, e.length, false)
  }

  /** The Extent base of a MarkableExtent. */
  function AsExtent(m: MarkableExtent): Extent
  {
    Extent(m.offset, m.length)
  }

  /** Converting an extent to a markable one and back loses nothing. */
  lemma ExtentRoundTrip(e: Extent)
    ensures AsExtent(FromExtent(e)) == e
  {
  }

  /** Two unmarked markable extents are equal exactly when their extents are. */
  lemma MarkableDeterminedByExtent(m: MarkableExtent, n: MarkableExtent)
    requires !m.markedForDelete && !n.markedForDelete
    ensures m == n <==> AsExtent(m) == AsExtent(n)
  {
  }

  /**
   * ExtentList, a std::map from start offset: at most one entry per offset,
   * which a Dafny map gives by construction.
   */
  type ExtentList = map<Size, MarkableExtent>

  /** The smallest of a non-empty set of offsets. */
  ghost function MinOffset(keys: set<Size>): (m: Size)
    requires keys != {}
    ensures m in keys && forall k :: k in keys ==> m <= k
  {
    var k :| k in keys;
    if keys == {k} then k
    else
      var rest := MinOffset(keys - {k});
      assert forall j :: j in keys ==> j == k || j in keys - {k};
      if k < rest then k else rest
  }

  /** The offsets of a list in the order a std::map iterates them. */
  ghost function Ascending(keys: set<Size>): (s: seq<Size>)
    decreases keys
  {
    if keys == {} then [] else [MinOffset(keys)] + Ascending(keys - {MinOffset(keys)})
  }

  /** Iteration visits every offset of the list exactly once. */
  lemma {:induction false} AscendingMembers(keys: set<Size>)
    ensures |Ascending(keys)| == |keys|
    ensures forall k :: k in keys <==> k in Ascending(keys)
    decreases keys
  {
    if keys != {} {
      var m := MinOffset(keys);
      AscendingMembers(keys - {m});
      assert Ascending(keys) == [m] + Ascending(keys - {m});
    }
  }

  /** Iteration visits the offsets in strictly ascending order. */
  lemma {:induction false} AscendingSorted(keys: set<Size>)
    ensures forall i, j :: 0 <= i < j < |Ascending(keys)| ==> Ascending(keys)[i] < Ascending(keys)[j]
    decreases keys
  {
    if keys != {} {
      var m := MinOffset(keys);
      AscendingSorted(keys - {m});
      AscendingTailAbove(keys);
      var s, t := Ascending(keys), Ascending(keys - {m});
      assert s == [m] + t;
      forall i, j | 0 <= i < j < |s|
        ensures s[i] < s[j]
      {
        assert s[j] == t[j - 1];
        if i > 0 {
          assert s[i] == t[i - 1];
        } else {
          assert t[j - 1] in t;
        }
      }
    }
  }

  /** After the smallest offset, iteration visits only larger ones. */
  lemma AscendingTailAbove(keys: set<Size>)
    requires keys != {}
    ensures forall x :: x in Ascending(keys - {MinOffset(keys)}) ==> MinOffset(keys) < x
  {
    AscendingMembers(keys - {MinOffset(keys)});
  }

  /** The entries that are not marked for deletion. */
  function Unmarked(l: ExtentList): ExtentList
  {
    map k | k in l && !l[k].markedForDelete :: l[k]
  }

  class CompositeLayer {
    var id: Uuid
    var parentId: Uuid
    var priority: U32
    var readExtents: ExtentList
    var writeExtents: ExtentList

    /** A default layer: nil ids, priority 0, both lists empty. */
    constructor ()
      ensures id == NilUuid && parentId == NilUuid
      ensures priority == 0
      ensures readExtents == map[] && writeExtents == map[]
      ensures !HasReadExtents() && !HasWriteExtents()
    {
      id := NilUuid;
      parentId := NilUuid;
      priority := 0;
      readExtents := map[];
      writeExtents := map[];
    }

    /** operator<: layers compare by priority only. */
    predicate Less(other: CompositeLayer)
      reads this, other
    {
      priority < other.priority
    }

    /** The list get_extents(is_write) points at: the write list or the read list. */
    function Extents(isWrite: bool): ExtentList
      reads this
    {
      if isWrite then writeExtents else readExtents
    }

    /** has_read_extents: entries marked but not yet swept still count. */
    predicate HasReadExtents()
      reads this
    {
      readExtents != map[]
    }

    predicate HasWriteExtents()
      reads this
    {
      writeExtents != map[]
    }

    /**
     * A write through the list that get_extents(is_write) hands out: it replaces
     * the selected list and leaves the other list and the identity alone.
     */
    method SetExtents(isWrite: bool, l: ExtentList)
      modifies this
      ensures Extents(isWrite) == l
      ensures Extents(!isWrite) == old(Extents(!isWrite))
      ensures id == old(id) && parentId == old(parentId) && priority == old(priority)
    {
      if isWrite {
        writeExtents := l;
      } else {
        readExtents := l;
      }
    }

    /** add_extent: only the selected list may change. */
    method AddExtent(extent: Extent, isWrite: bool, overwrite: bool) returns (status: int)
      modifies this
      ensures Extents(!isWrite) == old(Extents(!isWrite))
      ensures id == old(id) && parentId == old(parentId) && priority == old(priority)
    {
      var l: ExtentList :| true;
      SetExtents(isWrite, l);
      status :| true;
    }

    /** add_merge_read_extent: only the read list may change. */
    method AddMergeReadExtent(extent: Extent) returns (status: int)
      modifies this
      ensures writeExtents == old(writeExtents)
      ensures id == old(id) && parentId == old(parentId) && priority == old(priority)
    {
      status := AddExtent(extent, false, true);
    }

    /**
     * extent_substract: only the selected list may change; `layerEmpty` is
     * what the bool* out-parameter receives.
     */
    method ExtentSubtract(extent: Extent, isWrite: bool) returns (status: int, layerEmpty: bool)
      modifies this
      ensures Extents(!isWrite) == old(Extents(!isWrite))
      ensures id == old(id) && parentId == old(parentId) && priority == old(priority)
    {
      var l: ExtentList :| true;
      SetExtents(isWrite, l);
      status :| true;
      layerEmpty :| true;
    }

    /**
     * mark_for_deletion: the selected list keeps its offsets and extents;
     * only delete marks may be set.
     */
    method MarkForDeletion(extent: Extent, isWrite: bool) returns (status: int)
      modifies this
      ensures Extents(isWrite).Keys == old(Extents(isWrite)).Keys
      ensures forall k :: k in Extents(isWrite) ==>
                AsExtent(Extents(isWrite)[k]) == AsExtent(old(Extents(isWrite))[k]) &&
                (old(Extents(isWrite))[k].markedForDelete ==> Extents(isWrite)[k].markedForDelete)
      ensures Extents(!isWrite) == old(Extents(!isWrite))
      ensures id == old(id) && parentId == old(parentId) && priority == old(priority)
    {
      var l := Extents(isWrite);
      var marks: set<Size> :| true;
      var marked := map k | k in l :: l[k].(markedForDelete := l[k].markedForDelete || k in marks);
      SetExtents(isWrite, marked);
      status :| true;
    }

    /** delete_marked_extents: the selected list loses exactly its marked entries. */
    method DeleteMarkedExtents(isWrite: bool)
      modifies this
      ensures Extents(isWrite) == Unmarked(old(Extents(isWrite)))
      ensures Extents(!isWrite) == old(Extents(!isWrite))
      ensures id == old(id) && parentId == old(parentId) && priority == old(priority)
    {
      var l := Extents(isWrite);
      var pending := l.Keys;
      var kept := l;
      while pending != {}
        invariant pending <= l.Keys && kept.Keys <= l.Keys
        invariant forall k :: k in kept ==> kept[k] == l[k]
        invariant forall k :: k in l ==> (k in kept <==> k in pending || !l[k].markedForDelete)
        decreases pending
      {
        var k :| k in pending;
        if l[k].markedForDelete {
          kept := kept - {k};
        }
        pending := pending - {k};
      }
      assert kept == Unmarked(l);
      SetExtents(isWrite, kept);
    }

    /**
     * match_extent: `code` and `matched` are the result and what the
     * Extent* out-parameter receives; with delete_previous the selected list
     * may be marked, so only it may change.
     */
    method MatchExtent(extent: Extent, mode: ExtentMatchType, isWrite: bool, deletePrevious: bool)
      returns (code: ExtentMatchCode, matched: Extent)
      modifies this
      ensures !deletePrevious ==> Extents(isWrite) == old(Extents(isWrite))
      ensures Extents(!isWrite) == old(Extents(!isWrite))
      ensures id == old(id) && parentId == old(parentId) && priority == old(priority)
    {
      code :| true;
      matched :| true;
      if deletePrevious {
        var status := MarkForDeletion(extent, isWrite);
      }
    }
  }

  /** No layer comes before itself. */
  lemma LessIrreflexive(a: CompositeLayer)
    ensures !a.Less(a)
  {
  }

  lemma LessTransitive(a: CompositeLayer, b: CompositeLayer, c: CompositeLayer)
    requires a.Less(b) && b.Less(c)
    ensures a.Less(c)
  {
  }

  /** Layers compare as their priorities do: equal priorities are mutually incomparable, others are ordered one way. */
  lemma LessIsPriorityOrder(a: CompositeLayer, b: CompositeLayer)
    ensures a.priority == b.priority <==> !a.Less(b) && !b.Less(a)
    ensures a.Less(b) ==> !b.Less(a)
  {
  }

  /** Ids and extents take no part in the ordering: a layer with the same priority compares the same way. */
  lemma LessIgnoresIdsAndExtents(a: CompositeLayer, b: CompositeLayer, c: CompositeLayer)
    requires a.priority == c.priority
    ensures a.Less(b) <==> c.Less(b)
    ensures b.Less(a) <==> b.Less(c)
  {
  }

  /** The sweep leaves no marked entry behind, and a second sweep changes nothing. */
  lemma SweepIdempotent(l: ExtentList)
    ensures forall k :: k in Unmarked(l) ==> !Unmarked(l)[k].markedForDelete
    ensures Unmarked(Unmarked(l)) == Unmarked(l)
    ensures Unmarked(l).Keys <= l.Keys
  {
  }

  /** With nothing marked, the sweep is a no-op. */
  lemma SweepNothingMarked(l: ExtentList)
    requires forall k :: k in l ==> !l[k].markedForDelete
    ensures Unmarked(l) == l
  {
  }
}
