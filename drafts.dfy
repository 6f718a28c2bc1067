/** The draft overlay (`editPrice`): pending prices keyed by item id. */
module Drafts {
  import opened Items

  type Overlay = map<Id, int>

  /**
   * The overlay built by a `forEach` that assigns `m[item.id] = item.price`
   * for every item in order: a later item with the same id overwrites an
   * earlier one.
   */
  function PriceIndex(items: seq<Item>): Overlay
  {
    if items == [] then map[]
    else
      var last := items[|items| - 1];
      PriceIndex(items[..|items| - 1])[last.id := last.price]
  }

  /** The JavaScript test `!m[id]`: the key is missing or its price is 0. */
  predicate Falsy(m: Overlay, id: Id)
  {
    id !in m || m[id] == 0
  }

  /**
   * The overlay built by the fetch branch, whose `forEach` assigns only when
   * `!m[item.id]` holds.
   */
  function GuardedPriceIndex(items: seq<Item>): Overlay
  {
    if items == [] then map[]
    else
      var last := items[|items| - 1];
      var m := GuardedPriceIndex(items[..|items| - 1]);
      if Falsy(m, last.id) then m[last.id := last.price] else m
  }

  /** Every item's id is a key of the overlay. */
  predicate Covers(items: seq<Item>, m: Overlay)
  {
    forall i :: 0 <= i < |items| ==> items[i].id in m
  }

  /** The overlay maps every item's id to that item's price. */
  predicate Mirrors(items: seq<Item>, m: Overlay)
  {
    forall i :: 0 <= i < |items| ==> items[i].id in m && m[items[i].id] == items[i].price
  }

  /** The unguarded overlay has exactly the ids of the items as keys. */
  lemma {:induction false} PriceIndexKeys(items: seq<Item>)
    ensures PriceIndex(items).Keys == IdSet(items)
  {
    if items != [] {
      var init := items[..|items| - 1];
      PriceIndexKeys(init);
      assert IdSet(items) == IdSet(init) + {items[|items| - 1].id} by {
        forall x | x in IdSet(items) ensures x in IdSet(init) + {items[|items| - 1].id} {
          var k :| 0 <= k < |items| && items[k].id == x;
          if k < |items| - 1 { assert init[k] == items[k]; }
        }
        forall x | x in IdSet(init) ensures x in IdSet(items) {
          var k :| 0 <= k < |init| && init[k].id == x;
          assert items[k] == init[k];
        }
      }
    }
  }

  /** The guarded overlay also has exactly the ids of the items as keys. */
  lemma {:induction false} GuardedPriceIndexKeys(items: seq<Item>)
    ensures GuardedPriceIndex(items).Keys == IdSet(items)
  {
    if items != [] {
      var init := items[..|items| - 1];
      GuardedPriceIndexKeys(init);
      PriceIndexKeys(items);
      PriceIndexKeys(init);
    }
  }

  /** With distinct ids, the unguarded overlay maps each id to its item's price. */
  lemma {:induction false} PriceIndexMirrors(items: seq<Item>)
    requires DistinctIds(items)
    ensures Mirrors(items, PriceIndex(items))
  {
    if items != [] {
      var init := items[..|items| - 1];
      assert DistinctIds(init);
      PriceIndexMirrors(init);
      forall i | 0 <= i < |items|
        ensures items[i].id in PriceIndex(items) && PriceIndex(items)[items[i].id] == items[i].price
      {
        if i < |items| - 1 {
          assert items[i] == init[i];
        }
      }
    }
  }

  /**
   * With distinct ids the fetch branch's guard never skips an item, so both
   * load branches build the same overlay.
   */
  lemma {:induction false} GuardedAgrees(items: seq<Item>)
    requires DistinctIds(items)
    ensures GuardedPriceIndex(items) == PriceIndex(items)
  {
    if items != [] {
      var init := items[..|items| - 1];
      var last := items[|items| - 1];
      assert DistinctIds(init);
      GuardedAgrees(init);
      PriceIndexKeys(init);
      assert forall k :: 0 <= k < |init| ==> init[k].id != last.id by {
        forall k | 0 <= k < |init| ensures init[k].id != last.id {
          assert init[k] == items[k];
        }
      }
    }
  }

  /** The restore branch's and the reset handler's loop over the items. */
  method BuildEditPrice(items: seq<Item>) returns (m: Overlay)
    ensures m == PriceIndex(items)
  {
    m := map[];
    var i := 0;
    while i < |items|
      invariant 0 <= i <= |items|
      invariant m == PriceIndex(items[..i])
    {
      assert items[..i + 1][..i] == items[..i];
      m := m[items[i].id := items[i].price];
      i := i + 1;
    }
    assert items[..|items|] == items;
  }

  /** The fetch branch's loop, which assigns only where `!m[item.id]`. */
  method BuildEditPriceGuarded(items: seq<Item>) returns (m: Overlay)
    ensures m == GuardedPriceIndex(items)
  {
    m := map[];
    var i := 0;
    while i < |items|
      invariant 0 <= i <= |items|
      invariant m == GuardedPriceIndex(items[..i])
    {
      assert items[..i + 1][..i] == items[..i];
      if items[i].id !in m || m[items[i].id] == 0 {
        m := m[items[i].id := items[i].price];
      }
      i := i + 1;
    }
    assert items[..|items|] == items;
  }

  /**
   * Committing the overlay (`prev.map(p => ({...p, price: editPrice[p.id]}))`):
   * same length and order, every field but the price kept, and the price read
   * from the overlay, so that the overlay afterwards mirrors the list.
   */
  function ApplyDrafts(products: seq<Item>, m: Overlay): (r: seq<Item>)
    requires Covers(products, m)
    ensures |r| == |products|
    ensures forall i :: 0 <= i < |r| ==> SameButPrice(products[i], r[i])
    ensures forall i :: 0 <= i < |r| ==> r[i].price == m[products[i].id]
    ensures IdSet(r) == IdSet(products)
    ensures Mirrors(r, m)
  {
    var r := seq(|products|, i requires 0 <= i < |products| => products[i].(price := m[products[i].id]));
    assert IdSet(r) == IdSet(products) by {
      forall x | x in IdSet(products) ensures x in IdSet(r) {
        var k :| 0 <= k < |products| && products[k].id == x;
        assert r[k].id == x;
      }
    }
    r
  }

  /** Committing twice with the same overlay is the same as committing once. */
  lemma ApplyDraftsIdempotent(products: seq<Item>, m: Overlay)
    requires Covers(products, m)
    ensures Covers(ApplyDrafts(products, m), m)
    ensures ApplyDrafts(ApplyDrafts(products, m), m) == ApplyDrafts(products, m)
  {
  }
}
