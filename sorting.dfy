/** Sorting the working list by price (`handleSort`). */
module Sorting {
  import opened Items

  /** The `sortOrder` state: `"asc"` or `"desc"`. */
  datatype SortOrder = Asc | Desc

  /** The order the next sort uses, after a sort in order `o`. */
  function Flip(o: SortOrder): (r: SortOrder)
    ensures r != o
  {
    if o == Asc then Desc else Asc
  }

  /**
   * The comparator passed to `Array.prototype.sort`: `a.price - b.price`
   * when ascending, `b.price - a.price` when descending. A positive value
   * puts `b` before `a`.
   */
  function Compare(a: Item, b: Item, o: SortOrder): int
  {
    if o == Asc then a.price - b.price else b.price - a.price
  }

  /** No pair of the list is out of order for the comparator. */
  predicate Sorted(s: seq<Item>, o: SortOrder)
  {
    forall i, j :: 0 <= i < j < |s| ==> Compare(s[i], s[j], o) <= 0
  }

  /**
   * Inserts `x` into `t` behind every element that does not compare greater
   * than it.
   */
  function Insert(t: seq<Item>, x: Item, o: SortOrder): seq<Item>
  {
    if t == [] || Compare(t[|t| - 1], x, o) <= 0 then t + [x]
    else Insert(t[..|t| - 1], x, o) + [t[|t| - 1]]
  }

  /**
   * Insertion sort by the comparator: each element is inserted behind the
   * earlier elements that do not compare greater than it.
   */
  function InsertionSort(s: seq<Item>, o: SortOrder): seq<Item>
  {
    if s == [] then [] else Insert(InsertionSort(s[..|s| - 1], o), s[|s| - 1], o)
  }

  /** Appending an element no smaller than every element keeps a list sorted. */
  lemma SortedSnoc(u: seq<Item>, y: Item, o: SortOrder)
    requires Sorted(u, o)
    requires forall k :: 0 <= k < |u| ==> Compare(u[k], y, o) <= 0
    ensures Sorted(u + [y], o)
  {
    var v := u + [y];
    forall i, j | 0 <= i < j < |v| ensures Compare(v[i], v[j], o) <= 0 {
      assert v[i] == u[i];
      if j < |u| { assert v[j] == u[j]; }
    }
  }

  /** Inserting adds exactly one occurrence of `x`. */
  lemma {:induction false} InsertPermutes(t: seq<Item>, x: Item, o: SortOrder)
    ensures multiset(Insert(t, x, o)) == multiset(t) + multiset{x}
  {
    if t != [] && Compare(t[|t| - 1], x, o) > 0 {
      var init := t[..|t| - 1];
      assert t == init + [t[|t| - 1]];
      InsertPermutes(init, x, o);
    }
  }

  /** Every element of `Insert(t, x, o)` comes from `t` or is `x`. */
  lemma InsertMembers(t: seq<Item>, x: Item, o: SortOrder, y: Item)
    requires y in Insert(t, x, o)
    ensures y == x || y in t
  {
    InsertPermutes(t, x, o);
    assert y in multiset(Insert(t, x, o));
  }

  /** Inserting into a sorted list keeps it sorted. */
  lemma {:induction false} InsertSorted(t: seq<Item>, x: Item, o: SortOrder)
    requires Sorted(t, o)
    ensures Sorted(Insert(t, x, o), o)
  {
    if t == [] {
      assert Insert(t, x, o) == [x];
    } else if Compare(t[|t| - 1], x, o) <= 0 {
      forall k | 0 <= k < |t| ensures Compare(t[k], x, o) <= 0 {
        if k < |t| - 1 { assert Compare(t[k], t[|t| - 1], o) <= 0; }
      }
      SortedSnoc(t, x, o);
    } else {
      var init := t[..|t| - 1];
      var last := t[|t| - 1];
      assert Sorted(init, o) by {
        forall i, j | 0 <= i < j < |init| ensures Compare(init[i], init[j], o) <= 0 {
          assert init[i] == t[i] && init[j] == t[j];
        }
      }
      InsertSorted(init, x, o);
      var u := Insert(init, x, o);
      forall k | 0 <= k < |u| ensures Compare(u[k], last, o) <= 0 {
        InsertMembers(init, x, o, u[k]);
        if u[k] != x {
          var m :| 0 <= m < |init| && init[m] == u[k];
          assert t[m] == init[m];
        }
      }
      SortedSnoc(u, last, o);
    }
  }

  /** The sorted list is a permutation of the input, ordered by the comparator. */
  lemma {:induction false} InsertionSortCorrect(s: seq<Item>, o: SortOrder)
    ensures multiset(InsertionSort(s, o)) == multiset(s)
    ensures Sorted(InsertionSort(s, o), o)
  {
    if s != [] {
      var init := s[..|s| - 1];
      InsertionSortCorrect(init, o);
      InsertPermutes(InsertionSort(init, o), s[|s| - 1], o);
      InsertSorted(InsertionSort(init, o), s[|s| - 1], o);
      assert s == init + [s[|s| - 1]];
    }
  }

  /**
   * `Insert` puts `x` at position `j` when `j` is where the elements that
   * compare greater than `x` begin.
   */
  lemma {:induction false} InsertAt(t: seq<Item>, x: Item, o: SortOrder, j: nat)
    requires j <= |t|
    requires forall k :: j <= k < |t| ==> Compare(t[k], x, o) > 0
    requires j == 0 || Compare(t[j - 1], x, o) <= 0
    ensures Insert(t, x, o) == t[..j] + [x] + t[j..]
    decreases |t|
  {
    if j == |t| {
      assert t[..j] == t && t[j..] == [];
    } else {
      var init := t[..|t| - 1];
      InsertAt(init, x, o, j);
      assert init[..j] == t[..j];
      assert init[j..] + [t[|t| - 1]] == t[j..];
    }
  }

  /**
   * One pass of the in-place insertion sort: `a[i]` moves left past the
   * elements at the end of the prefix `a[..i]` that compare greater than it,
   * and lands at position `j`; those elements move one place right.
   */
  method InsertInPlace(a: array<Item>, i: nat, o: SortOrder) returns (j: nat)
    requires i < a.Length
    modifies a
    ensures j <= i
    ensures forall k :: j <= k < i ==> Compare(old(a[k]), old(a[i]), o) > 0
    ensures j == 0 || Compare(old(a[j - 1]), old(a[i]), o) <= 0
    ensures forall k :: 0 <= k < j ==> a[k] == old(a[k])
    ensures a[j] == old(a[i])
    ensures forall k :: j < k <= i ==> a[k] == old(a[k - 1])
    ensures forall k :: i < k < a.Length ==> a[k] == old(a[k])
  {
    var x := a[i];
    j := i;
    while j > 0 && Compare(a[j - 1], x, o) > 0
      invariant 0 <= j <= i
      invariant forall k :: 0 <= k < j ==> a[k] == old(a[k])
      invariant forall k :: j < k <= i ==> a[k] == old(a[k - 1])
      invariant forall k :: j <= k < i ==> Compare(old(a[k]), x, o) > 0
      invariant forall k :: i < k < a.Length ==> a[k] == old(a[k])
    {
      a[j] := a[j - 1];
      j := j - 1;
    }
    a[j] := x;
  }

  /**
   * One pass of `InsertInPlace` turns the sorted prefix of length `i` into the
   * sorted prefix of length `i + 1`.
   */
  lemma SortStep(products: seq<Item>, b: seq<Item>, c: seq<Item>, i: nat, j: nat, o: SortOrder)
    requires j <= i < |products| == |b| == |c|
    requires b[..i] == InsertionSort(products[..i], o)
    requires forall k :: i <= k < |b| ==> b[k] == products[k]
    requires forall k :: j <= k < i ==> Compare(b[k], b[i], o) > 0
    requires j == 0 || Compare(b[j - 1], b[i], o) <= 0
    requires forall k :: 0 <= k < j ==> c[k] == b[k]
    requires c[j] == b[i]
    requires forall k :: j < k <= i ==> c[k] == b[k - 1]
    requires forall k :: i < k < |c| ==> c[k] == b[k]
    ensures c[..i + 1] == InsertionSort(products[..i + 1], o)
    ensures forall k :: i + 1 <= k < |c| ==> c[k] == products[k]
  {
    var t := b[..i];
    var x := b[i];
    assert forall k :: 0 <= k < i ==> t[k] == b[k];
    InsertAt(t, x, o, j);
    Splice(b, c, i, j);
    InsertionSortSnoc(products, i, o);
    assert c[..i + 1] == Insert(t, x, o);
  }

  /** Sorting one more element of the input inserts it into the sorted prefix. */
  lemma InsertionSortSnoc(products: seq<Item>, i: nat, o: SortOrder)
    requires i < |products|
    ensures InsertionSort(products[..i + 1], o) == Insert(InsertionSort(products[..i], o), products[i], o)
  {
    var p := products[..i + 1];
    assert p[..|p| - 1] == products[..i];
  }

  /** The effect of `InsertInPlace` on the prefix, as a sequence. */
  lemma Splice(b: seq<Item>, c: seq<Item>, i: nat, j: nat)
    requires j <= i < |b| == |c|
    requires forall k :: 0 <= k < j ==> c[k] == b[k]
    requires c[j] == b[i]
    requires forall k :: j < k <= i ==> c[k] == b[k - 1]
    ensures c[..i + 1] == b[..i][..j] + [b[i]] + b[..i][j..]
  {
    var t := b[..i];
    var w := t[..j] + [b[i]] + t[j..];
    assert |w| == i + 1;
    forall k | 0 <= k <= i ensures c[k] == w[k] {
      if k < j {
        assert w[k] == t[k] == b[k];
      } else if k > j {
        assert w[k] == t[k - 1] == b[k - 1];
      }
    }
  }

  /**
   * `handleSort`'s `[...products].sort(cmp)`: copies the list into an array
   * and sorts the copy in place by insertion.
   */
  method SortedCopy(products: seq<Item>, o: SortOrder) returns (r: seq<Item>)
    ensures r == InsertionSort(products, o)
  {
    var a := new Item[|products|](k requires 0 <= k < |products| => products[k]);
    assert a[..] == products;
    var i := 0;
    while i < a.Length
      invariant 0 <= i <= a.Length
      invariant a[..i] == InsertionSort(products[..i], o)
      invariant forall k :: i <= k < a.Length ==> a[k] == products[k]
    {
      ghost var b := a[..];
      var j := InsertInPlace(a, i, o);
      SortStep(products, b, a[..], i, j, o);
      i := i + 1;
    }
    assert products[..a.Length] == products;
    r := a[..];
  }
}
