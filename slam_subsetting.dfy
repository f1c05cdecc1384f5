/**
 * The subsetting policies of Slam's ordered sets: whether a set is a
 * subset of a parent set, which parent it has, and whether its elements
 * (the child range) all belong to that parent.
 */
module SlamSubsetting {
  import opened Wrappers

  /** Every element of the child range is an element of the parent. */
  predicate Within(child: seq<int>, parent: seq<int>)
  {
    forall i :: 0 <= i < |child| ==> child[i] in parent
  }

  /**
   * The body shared by the parent-set policies once the set is known to be
   * a subset: an empty child range is valid; otherwise the parent's
   * elements are gathered into a lookup set, and the child range is
   * scanned, stopping at the first element the parent lacks.
   */
  method ChildWithinParent(child: seq<int>, parent: seq<int>) returns (valid: bool)
    ensures valid <==> Within(child, parent)
  {
    if |child| == 0 {
      return true;
    }
    var pSet: set<int> := {};
    var pos := 0;
    while pos < |parent|
      invariant 0 <= pos <= |parent|
      invariant pSet == set j | 0 <= j < pos :: parent[j]
    {
      pSet := pSet + {parent[pos]};
      pos := pos + 1;
    }
    assert forall x :: x in pSet <==> x in parent by {
      forall x ensures x in pSet <==> x in parent {
        if x in parent {
          var j :| 0 <= j < |parent| && parent[j] == x;
        }
      }
    }
    var beg := 0;
    while beg < |child|
      invariant 0 <= beg <= |child|
      invariant forall i :: 0 <= i < beg ==> child[i] in parent
    {
      if child[beg] !in pSet {
        return false;
      }
      beg := beg + 1;
    }
    return true;
  }

  /** Since the child has at least one element, an empty parent cannot contain it. */
  lemma EmptyParentRejects(child: seq<int>)
    requires |child| > 0
    ensures !Within(child, [])
  {
    assert child[0] !in [];
  }

  // ---------------------------------------------------------------------
  // NoSubset: the set is never a subset.
  // ---------------------------------------------------------------------

  /** The policy of a set that is not a subset: it has no parent and any child range is valid. */
  datatype NoSubset = NoSubset
  {
    predicate IsSubset()
    {
      false
    }

    function ParentSet(): Option<seq<int>>
    {
      None
    }

    method IsValid(child: seq<int>) returns (valid: bool)
      ensures valid && !IsSubset() && ParentSet().None?
    {
      return true;
    }
  }

  // ---------------------------------------------------------------------
  // ConcreteParentSubset: the parent is a pointer, null when not a subset.
  // ---------------------------------------------------------------------

  /** The policy of a set whose parent is a set of a fixed type, or null. */
  datatype ConcreteParentSubset = ConcreteParentSubset(parentSet: Option<seq<int>>)
  {
    /** A subset exactly when the parent pointer is not null. */
    predicate IsSubset()
    {
      parentSet.Some?
    }

    /**
     * `isValid`: true when the set is not a subset, and otherwise exactly
     * when every element of the child range belongs to the parent.
     */
    method IsValid(child: seq<int>) returns (valid: bool)
      ensures valid <==> !IsSubset() || Within(child, parentSet.value)
    {
      if !IsSubset() {
        return true;
      }
      valid := ChildWithinParent(child, parentSet.value);
    }
  }

  /** The default parent of a concrete-parent subset is null, so the set is not a subset. */
  function DefaultConcreteParentSubset(): (p: ConcreteParentSubset)
    ensures !p.IsSubset() && p.parentSet.None?
  {
    ConcreteParentSubset(None)
  }

  // ---------------------------------------------------------------------
  // VirtualParentSubset: the parent is any set, by default the null set.
  // ---------------------------------------------------------------------

  /**
   * A pointer to a parent set: null, the shared null set, or any other set,
   * with its elements in order.
   */
  datatype ParentRef = NullPointer | TheNullSet | ParentOf(elements: seq<int>)

  /** The policy of a set whose parent is any set, the null set meaning "not a subset". */
  datatype VirtualParentSubset = VirtualParentSubset(parentSet: ParentRef)
  {
    /**
     * `isSubset` compares the parent it points to with the null set, so it
     * needs a parent pointer that is not null. Sets compare equal when they
     * hold the same elements, so a parent with no elements, like the null
     * set itself, makes the set not a subset.
     */
    predicate IsSubset()
      requires !parentSet.NullPointer?
    {
      parentSet.ParentOf? && |parentSet.elements| > 0
    }

    /**
     * `isSubset` as the code evaluates it for any pointer: dereferencing a
     * null parent pointer is an error.
     */
    function IsSubsetAsWritten(): (r: Result<bool, string>)
      ensures r.Err? <==> parentSet.NullPointer?
      ensures r.Ok? ==> r.value == IsSubset()
    {
      match parentSet
      case NullPointer => Err("null parent set dereferenced")
      case TheNullSet => Ok(false)
      case ParentOf(elements) => Ok(|elements| > 0)
    }

    /**
     * `isValid` as written: the set's subset status is asked for before the
     * parent pointer is compared with null, so a null parent fails at that
     * first step instead of being accepted; otherwise it is true when the
     * set is not a subset, and otherwise exactly when every element of the
     * child range belongs to the parent.
     */
    method IsValidAsWritten(child: seq<int>) returns (r: Result<bool, string>)
      ensures r.Err? <==> parentSet.NullPointer?
      ensures r.Ok? ==> (r.value <==> !IsSubset() || Within(child, parentSet.elements))
    {
      var subset := IsSubsetAsWritten();
      if subset.Err? {
        return Err(subset.error);
      }
      if !subset.value || parentSet.NullPointer? {
        return Ok(true);
      }
      var valid := ChildWithinParent(child, parentSet.elements);
      return Ok(valid);
    }

    /**
     * `isValid` with the null check first, as the comment on it intends: a
     * null parent or a parent that is the null set gives true; otherwise it
     * is true exactly when every element of the child range belongs to the
     * parent.
     */
    method IsValid(child: seq<int>) returns (valid: bool)
      ensures valid <==> parentSet.NullPointer? || !IsSubset() || Within(child, parentSet.elements)
    {
      if parentSet.NullPointer? || !IsSubset() {
        return true;
      }
      valid := ChildWithinParent(child, parentSet.elements);
    }
  }

  /** The default parent of a virtual-parent subset is the null set, so the set is not a subset. */
  function DefaultVirtualParentSubset(): (p: VirtualParentSubset)
    ensures !p.parentSet.NullPointer? && !p.IsSubset()
  {
    VirtualParentSubset(TheNullSet)
  }

  /**
   * Whenever the code as written reaches its null check, the subset test
   * has already dereferenced the parent, so the pointer is not null and the
   * check never holds.
   */
  lemma NullCheckUnreachable(p: VirtualParentSubset)
    ensures p.IsSubsetAsWritten().Ok? ==> !p.parentSet.NullPointer?
    ensures p.parentSet.NullPointer? ==> p.IsSubsetAsWritten().Err?
  {
  }
}
