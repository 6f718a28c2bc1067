/**
 * The catalog component's state and its handlers as transitions. This is the
 * specification the `CatalogStore` class is proved against.
 */
module Session {
  import opened Items
  import opened Drafts
  import opened Categories
  import opened Sorting

  /** The session-storage slot holding the origin snapshot. */
  const OriginalSlot: string := "originalProducts"
  /** The session-storage slot holding the working snapshot. */
  const CurrentSlot: string := "currentProducts"

  /** Session storage: slot name to the list its JSON text encodes. */
  type Storage = map<string, seq<Item>>

  /** The outcome of the product request made on mount. */
  datatype FetchResult = Fetched(products: seq<Item>) | FetchFailed

  /** Everything the component holds, plus the session storage it writes. */
  datatype State = State(
    products: seq<Item>,     // working snapshot
    editPrice: Overlay,      // draft overlay
    categories: seq<Flag>,   // category index
    sortOrder: SortOrder,    // direction of the next sort
    origin: seq<Item>,       // `originalProducts.current`
    storage: Storage)        // `sessionStorage`

  /** Every product has a draft, and the category object has distinct keys. */
  predicate Valid(s: State)
  {
    Covers(s.products, s.editPrice) && DistinctKeys(s.categories)
  }

  /** The state on mount, before the load effect has run. */
  function Mounted(storage: Storage): (s: State)
    ensures Valid(s) && s.storage == storage && s.sortOrder == Asc
    ensures s.products == [] && s.origin == [] && s.editPrice == map[] && s.categories == []
  {
    State([], map[], [], Asc, [], storage)
  }

  /** Both slots are present, so the load effect restores instead of fetching. */
  predicate Restorable(storage: Storage)
  {
    CurrentSlot in storage && OriginalSlot in storage
  }

  /** The load effect either takes a list from storage or from the fetch. */
  predicate Loads(storage: Storage, fetched: FetchResult)
  {
    Restorable(storage) || fetched.Fetched?
  }

  /**
   * The mount effect. A successful load derives the overlay, keyed by exactly
   * the product ids, and the category index, the distinct categories in
   * first-seen order, all collapsed.
   */
  function Load(s: State, fetched: FetchResult): (r: State)
    ensures Valid(s) ==> Valid(r)
    ensures Loads(s.storage, fetched) ==>
      && r.editPrice.Keys == IdSet(r.products)
      && Keys(r.categories) == FirstSeen(CategoryNames(r.products))
      && (forall d :: !Lookup(r.categories, d))
  {
    if Restorable(s.storage) then
      var p := s.storage[CurrentSlot];
      PriceIndexKeys(p);
      CategoryIndexOfFacts(p);
      s.(products := p, origin := s.storage[OriginalSlot],
         editPrice := PriceIndex(p), categories := CategoryIndexOf(p))
    else if fetched.Fetched? then
      var p := fetched.products;
      GuardedPriceIndexKeys(p);
      CategoryIndexOfFacts(p);
      s.(products := p, origin := p,
         storage := s.storage[OriginalSlot := p][CurrentSlot := p],
         editPrice := GuardedPriceIndex(p), categories := CategoryIndexOf(p))
    else s
  }

  /**
   * What each branch of the mount effect leaves behind: the restore branch
   * takes both snapshots from storage, the fetch branch makes the fetched list
   * both snapshots and writes both slots, a failed fetch changes nothing. A
   * successful load derives the overlay (keyed by exactly the product ids, and
   * mapping each to its price when ids are distinct) and the category index
   * (the distinct categories in first-seen order, all collapsed).
   */
  lemma LoadOutcome(s: State, fetched: FetchResult)
    ensures var r := Load(s, fetched);
      && (Restorable(s.storage) ==>
            r.products == s.storage[CurrentSlot] && r.origin == s.storage[OriginalSlot]
            && r.storage == s.storage)
      && (!Restorable(s.storage) && fetched.Fetched? ==>
            r.products == fetched.products && r.origin == fetched.products
            && r.storage == s.storage[OriginalSlot := fetched.products][CurrentSlot := fetched.products])
      && (!Loads(s.storage, fetched) ==> r == s)
      && r.sortOrder == s.sortOrder
      && (Loads(s.storage, fetched) ==>
            && r.editPrice.Keys == IdSet(r.products)
            && (DistinctIds(r.products) ==> Mirrors(r.products, r.editPrice))
            && Keys(r.categories) == FirstSeen(CategoryNames(r.products))
            && (forall d :: !Lookup(r.categories, d))
            && Valid(r))
  {
    var r := Load(s, fetched);
    if Loads(s.storage, fetched) {
      var p := r.products;
      PriceIndexKeys(p);
      GuardedPriceIndexKeys(p);
      CategoryIndexOfFacts(p);
      if DistinctIds(p) {
        PriceIndexMirrors(p);
        GuardedAgrees(p);
      }
    }
  }

  /** `handleExpand(c)`: flips one category flag; an absent key comes in as expanded. */
  function Expand(s: State, c: string): (r: State)
    ensures Lookup(r.categories, c) == !Lookup(s.categories, c)
    ensures forall d :: d != c ==> Lookup(r.categories, d) == Lookup(s.categories, d)
    ensures Keys(r.categories) == if c in Keys(s.categories) then Keys(s.categories)
                                  else Keys(s.categories) + [c]
    ensures r.(categories := s.categories) == s
    ensures Valid(s) ==> Valid(r)
  {
    s.(categories := Toggle(s.categories, c))
  }

  /** `handleChange(id, v)`: sets one draft, adding the key when it is new. */
  function Change(s: State, id: Id, v: int): (r: State)
    ensures id in r.editPrice && r.editPrice[id] == v
    ensures r.editPrice.Keys == s.editPrice.Keys + {id}
    ensures forall k :: k in s.editPrice && k != id ==> r.editPrice[k] == s.editPrice[k]
    ensures r.(editPrice := s.editPrice) == s
    ensures Valid(s) ==> Valid(r)
  {
    s.(editPrice := s.editPrice[id := v])
  }

  /**
   * `handleSave`: every product takes its draft price, order and other fields
   * kept; the result goes to the current slot, so the overlay now mirrors the
   * working snapshot. Origin, overlay and index are untouched.
   */
  function Save(s: State): (r: State)
    requires Valid(s)
    ensures |r.products| == |s.products|
    ensures forall i :: 0 <= i < |r.products| ==>
              SameButPrice(s.products[i], r.products[i])
              && r.products[i].price == s.editPrice[s.products[i].id]
    ensures r.storage == s.storage[CurrentSlot := r.products]
    ensures Mirrors(r.products, r.editPrice)
    ensures r.(products := s.products, storage := s.storage) == s
    ensures Valid(r)
  {
    var p := ApplyDrafts(s.products, s.editPrice);
    s.(products := p, storage := s.storage[CurrentSlot := p])
  }

  /**
   * `handleReset`: back to the origin snapshot, written to the current slot,
   * with the overlay rebuilt from it. Index, order and origin are untouched.
   */
  function Reset(s: State): (r: State)
    ensures r.products == s.origin
    ensures r.storage == s.storage[CurrentSlot := s.origin]
    ensures r.editPrice.Keys == IdSet(s.origin)
    ensures DistinctIds(s.origin) ==> Mirrors(r.products, r.editPrice)
    ensures r.categories == s.categories && r.sortOrder == s.sortOrder && r.origin == s.origin
    ensures DistinctKeys(s.categories) ==> Valid(r)
  {
    PriceIndexKeys(s.origin);
    var r := s.(products := s.origin, editPrice := PriceIndex(s.origin),
                storage := s.storage[CurrentSlot := s.origin]);
    if DistinctIds(s.origin) then PriceIndexMirrors(s.origin); r else r
  }

  /**
   * `handleSort`: the products reordered by price in the current direction
   * (a permutation, sorted for the comparator), then the direction flips.
   * Nothing is written to storage.
   */
  function Sort(s: State): (r: State)
    ensures multiset(r.products) == multiset(s.products)
    ensures Sorted(r.products, s.sortOrder)
    ensures r.sortOrder == Flip(s.sortOrder)
    ensures r.(products := s.products, sortOrder := s.sortOrder) == s
    ensures Valid(s) ==> Valid(r)
  {
    InsertionSortCorrect(s.products, s.sortOrder);
    var r := s.(products := InsertionSort(s.products, s.sortOrder), sortOrder := Flip(s.sortOrder));
    assert Covers(s.products, s.editPrice) ==> Covers(r.products, r.editPrice) by {
      if Covers(s.products, s.editPrice) {
        forall i | 0 <= i < |r.products| ensures r.products[i].id in r.editPrice {
          assert r.products[i] in multiset(s.products);
        }
      }
    }
    r
  }

  /** Two sorts in a row restore the direction; the list is then ordered the other way. */
  lemma SortTwice(s: State)
    ensures Sort(Sort(s)).sortOrder == s.sortOrder
    ensures multiset(Sort(Sort(s)).products) == multiset(s.products)
    ensures Sorted(Sort(Sort(s)).products, Flip(s.sortOrder))
  {
  }

  /** Saving right after editing one draft puts that value on the product with that id. */
  lemma ChangeThenSave(s: State, id: Id, v: int)
    requires Valid(s)
    ensures var r := Save(Change(s, id, v));
      forall i :: 0 <= i < |r.products| ==>
        r.products[i].price == (if s.products[i].id == id then v else s.editPrice[s.products[i].id])
  {
  }

  /** A user action the presentation forwards to the store. */
  datatype Action =
    | ExpandCategory(category: string)
    | ChangePrice(id: Id, value: int)
    | SaveDrafts
    | ResetToOrigin
    | SortByPrice

  function Step(s: State, a: Action): (r: State)
    requires Valid(s)
    ensures Valid(r)
  {
    match a
    case ExpandCategory(c) => Expand(s, c)
    case ChangePrice(id, v) => Change(s, id, v)
    case SaveDrafts => Save(s)
    case ResetToOrigin => Reset(s)
    case SortByPrice => Sort(s)
  }

  /** The state after a sequence of actions. */
  function Run(s: State, acts: seq<Action>): (r: State)
    requires Valid(s)
    ensures Valid(r)
    decreases |acts|
  {
    if acts == [] then s else Run(Step(s, acts[0]), acts[1..])
  }

  /** No action changes the origin snapshot or any storage slot but the current one. */
  lemma {:induction false} RunKeepsOrigin(s: State, acts: seq<Action>)
    requires Valid(s)
    ensures Run(s, acts).origin == s.origin
    ensures Run(s, acts).storage - {CurrentSlot} == s.storage - {CurrentSlot}
    decreases |acts|
  {
    if acts != [] {
      RunKeepsOrigin(Step(s, acts[0]), acts[1..]);
    }
  }

  /**
   * The category keys are frozen at load: no action changes them, except
   * expanding a category that is not a key yet.
   */
  lemma {:induction false} RunKeepsCategoryKeys(s: State, acts: seq<Action>)
    requires Valid(s)
    requires forall k :: 0 <= k < |acts| && acts[k].ExpandCategory? ==>
               acts[k].category in Keys(s.categories)
    ensures Keys(Run(s, acts).categories) == Keys(s.categories)
    decreases |acts|
  {
    if acts != [] {
      var t := Step(s, acts[0]);
      assert Keys(t.categories) == Keys(s.categories);
      forall k | 0 <= k < |acts[1..]| && acts[1..][k].ExpandCategory?
        ensures acts[1..][k].category in Keys(t.categories)
      {
        assert acts[1..][k] == acts[k + 1];
      }
      RunKeepsCategoryKeys(t, acts[1..]);
    }
  }

  /**
   * After a load that fetched a list with distinct ids, any sequence of
   * actions followed by a reset returns the working snapshot, the overlay and
   * the current slot to what the load left.
   */
  lemma ResetAfterFetchedLoad(s: State, items: seq<Item>, acts: seq<Action>)
    requires Valid(s) && !Restorable(s.storage) && DistinctIds(items)
    ensures var loaded := Load(s, Fetched(items));
      && Valid(loaded)
      && var r := Reset(Run(loaded, acts));
      && r.products == loaded.products
      && r.editPrice == loaded.editPrice
      && r.storage == loaded.storage
  {
    var loaded := Load(s, Fetched(items));
    assert loaded.products == items && loaded.origin == items;
    assert loaded.editPrice == PriceIndex(items) by {
      GuardedAgrees(items);
    }
    assert Valid(loaded) by {
      PriceIndexKeys(items);
      CategoryIndexOfFacts(items);
    }
    RunKeepsOrigin(loaded, acts);
    var e := Run(loaded, acts);
    var r := Reset(e);
    assert r.storage == loaded.storage by {
      forall k | k in r.storage ensures k in loaded.storage && r.storage[k] == loaded.storage[k] {
        if k != CurrentSlot {
          assert k in e.storage - {CurrentSlot};
        }
      }
      forall k | k in loaded.storage ensures k in r.storage {
        if k != CurrentSlot {
          assert k in loaded.storage - {CurrentSlot};
        }
      }
    }
  }

  /**
   * After a load restored from storage, a later reset goes to the origin
   * slot's list, which need not be the list the load restored as working
   * snapshot.
   */
  lemma ResetAfterRestoredLoad(s: State, acts: seq<Action>)
    requires Valid(s) && Restorable(s.storage)
    ensures var loaded := Load(s, FetchFailed);
      && Valid(loaded)
      && Reset(Run(loaded, acts)).products == s.storage[OriginalSlot]
  {
    var loaded := Load(s, FetchFailed);
    LoadOutcome(s, FetchFailed);
    RunKeepsOrigin(loaded, acts);
  }

  /*
   * The origin reference as written: `useRef({})` starts it as a plain object,
   * and only a load that restores or fetches puts a list there. The rest of
   * the model starts the origin as the empty list instead.
   */

  /** What `originalProducts.current` holds. */
  datatype OriginRef = PlainObject | ItemList(items: seq<Item>)

  /** The store together with the origin reference as the source keeps it. */
  datatype WrittenState = WrittenState(state: State, ref: OriginRef)

  /** The reference holds the origin snapshot, or is the plain object while the origin is empty. */
  predicate RefAgrees(w: WrittenState)
  {
    match w.ref
    case PlainObject => w.state.origin == []
    case ItemList(items) => items == w.state.origin
  }

  /** Mounting as written: the reference starts as a plain object. */
  function MountedAsWritten(storage: Storage): (w: WrittenState)
    ensures w.state == Mounted(storage) && w.ref.PlainObject? && RefAgrees(w)
  {
    WrittenState(Mounted(storage), PlainObject)
  }

  /**
   * The mount effect as written: a restore or a successful fetch stores the
   * loaded origin in the reference; a failed fetch leaves it as it was.
   */
  function LoadAsWritten(w: WrittenState, fetched: FetchResult): (r: WrittenState)
    ensures r.state == Load(w.state, fetched)
    ensures Loads(w.state.storage, fetched) ==> r.ref == ItemList(r.state.origin)
    ensures !Loads(w.state.storage, fetched) ==> r.ref == w.ref
    ensures RefAgrees(w) ==> RefAgrees(r)
  {
    var s := Load(w.state, fetched);
    if Loads(w.state.storage, fetched) then WrittenState(s, ItemList(s.origin))
    else WrittenState(s, w.ref)
  }

  /**
   * The outcome of `handleReset` as written. A throw happens after the
   * products update with the reference's value is queued and after the
   * current slot is written with its JSON text; the other slots are kept.
   */
  datatype ResetOutcome =
    | Completed(after: WrittenState)
    | ThrowsTypeError(queuedProducts: OriginRef, currentSlotText: string, otherSlots: Storage)

  /**
   * `handleReset` as written: `forEach` on a plain object throws a TypeError,
   * once `setProducts({})` is queued and `"{}"` is in the current slot; on a
   * list that agrees with the origin it behaves as `Reset`.
   */
  function ResetAsWritten(w: WrittenState): (r: ResetOutcome)
    ensures r.ThrowsTypeError? <==> w.ref.PlainObject?
    ensures r.ThrowsTypeError? ==>
      r.queuedProducts == PlainObject && r.currentSlotText == "{}"
      && r.otherSlots == w.state.storage - {CurrentSlot}
    ensures RefAgrees(w) && w.ref.ItemList? ==>
      r.Completed? && r.after.state == Reset(w.state) && RefAgrees(r.after)
  {
    match w.ref
    case PlainObject => ThrowsTypeError(PlainObject, "{}", w.state.storage - {CurrentSlot})
    case ItemList(items) => Completed(WrittenState(Reset(w.state.(origin := items)), w.ref))
  }

  /** A reset pressed before the mount effect has stored a list throws. */
  lemma ResetBeforeLoadThrows(storage: Storage)
    ensures ResetAsWritten(MountedAsWritten(storage)).ThrowsTypeError?
  {
  }

  /**
   * If storage holds no snapshot pair and the request fails, the reference
   * stays a plain object, and a reset writes `"{}"` to the current slot and
   * then throws.
   */
  lemma ResetAfterFailedFetchThrows(storage: Storage)
    requires !Restorable(storage)
    ensures var w := LoadAsWritten(MountedAsWritten(storage), FetchFailed);
      && w.ref == PlainObject && w.state == Mounted(storage)
      && ResetAsWritten(w) == ThrowsTypeError(PlainObject, "{}", storage - {CurrentSlot})
  {
  }

  /**
   * After a load that restored or fetched, the reset as written completes
   * and agrees with `Reset`: the throw is confined to the unloaded store.
   */
  lemma ResetAfterLoadCompletes(storage: Storage, fetched: FetchResult)
    requires Loads(storage, fetched)
    ensures var w := LoadAsWritten(MountedAsWritten(storage), fetched);
      && ResetAsWritten(w).Completed?
      && ResetAsWritten(w).after.state == Reset(w.state)
  {
  }

  /**
   * With the origin starting as the empty list, a reset after a failed fetch
   * leaves the store empty and writes the empty list to the current slot.
   */
  lemma ResetAfterFailedFetch(storage: Storage)
    requires !Restorable(storage)
    ensures var r := Reset(Load(Mounted(storage), FetchFailed));
      r.products == [] && r.editPrice == map[] && r.categories == []
      && r.storage == storage[CurrentSlot := []]
  {
  }

  /** The load step of the worked run below. */
  lemma WorkedLoad(a: Item, b: Item)
    requires a == Item(1, "a", "", "A", "", 10, "") && b == Item(2, "b", "", "B", "", 5, "")
    ensures Load(Mounted(map[]), Fetched([a, b]))
         == State([a, b], map[1 := 10, 2 := 5], [Flag("A", false), Flag("B", false)], Asc,
                  [a, b], map[OriginalSlot := [a, b], CurrentSlot := [a, b]])
    ensures Valid(Load(Mounted(map[]), Fetched([a, b])))
  {
    WorkedPrices(a, b);
    WorkedCategories(a, b);
  }

  /** The overlay the worked run's load builds. */
  lemma WorkedPrices(a: Item, b: Item)
    requires a.id == 1 && a.price == 10 && b.id == 2 && b.price == 5
    ensures GuardedPriceIndex([a, b]) == map[1 := 10, 2 := 5]
  {
    assert [a, b][..1] == [a] && [a][..0] == [];
    assert GuardedPriceIndex([a]) == map[1 := 10];
  }

  /** The category index the worked run's load builds. */
  lemma WorkedCategories(a: Item, b: Item)
    requires a.category == "A" && b.category == "B"
    ensures CategoryIndexOf([a, b]) == [Flag("A", false), Flag("B", false)]
    ensures DistinctKeys(CategoryIndexOf([a, b]))
  {
    assert [a, b][..1] == [a] && [a][..0] == [];
    assert CategoryIndexOf([a]) == [Flag("A", false)];
    assert "A" != "B" by { assert "A"[0] != "B"[0]; }
    assert [Flag("A", false)][1..] == [];
    assert Assign([Flag("A", false)], "B", false) == [Flag("A", false), Flag("B", false)];
  }

  /** The edit and save steps of the worked run below. */
  lemma WorkedEditSave(s: State, a: Item, b: Item)
    requires a.id == 1 && a.price == 10 && b.id == 2 && b.price == 5
    requires Valid(s) && s.products == [a, b] && s.editPrice == map[1 := 10, 2 := 5]
    ensures Valid(Change(s, 1, 12))
    ensures Change(s, 1, 12).editPrice == map[1 := 12, 2 := 5]
    ensures Change(s, 1, 12).products == [a, b]
    ensures Save(Change(s, 1, 12)).products == [a.(price := 12), b]
    ensures Save(Change(s, 1, 12)).(products := s.products, editPrice := s.editPrice, storage := s.storage) == s
  {
    var e := Change(s, 1, 12);
    assert e.editPrice == map[1 := 12, 2 := 5];
    assert ApplyDrafts([a, b], e.editPrice) == [a.(price := 12), b];
  }

  /** The sort and reset steps of the worked run below. */
  lemma WorkedSortReset(s: State, a: Item, b: Item)
    requires a.id == 1 && a.price == 10 && b.id == 2 && b.price == 5
    requires s.products == [a.(price := 12), b] && s.sortOrder == Asc && s.origin == [a, b]
    ensures Sort(s).products == [b, a.(price := 12)] && Sort(s).sortOrder == Desc
    ensures Reset(Sort(s)).products == [a, b]
    ensures Reset(Sort(s)).editPrice == map[1 := 10, 2 := 5]
  {
    WorkedSort(a.(price := 12), b);
    WorkedResetPrices(a, b);
  }

  /** The sort step of the worked run. */
  lemma WorkedSort(x: Item, y: Item)
    requires x.price == 12 && y.price == 5
    ensures InsertionSort([x, y], Asc) == [y, x]
  {
    assert [x, y][..1] == [x] && [x][..0] == [];
    assert InsertionSort([x], Asc) == [x];
    assert Insert([x], y, Asc) == [y, x];
  }

  /** The overlay the worked run's reset rebuilds. */
  lemma WorkedResetPrices(a: Item, b: Item)
    requires a.id == 1 && a.price == 10 && b.id == 2 && b.price == 5
    ensures PriceIndex([a, b]) == map[1 := 10, 2 := 5]
  {
    assert [a, b][..1] == [a] && [a][..0] == [];
    assert PriceIndex([a]) == map[1 := 10];
  }

  /**
   * A worked run: load two items, draft 12 for item 1, save, sort ascending,
   * reset.
   */
  lemma WorkedExample(a: Item, b: Item)
    requires a == Item(1, "a", "", "A", "", 10, "") && b == Item(2, "b", "", "B", "", 5, "")
    ensures Valid(Change(Load(Mounted(map[]), Fetched([a, b])), 1, 12))
    ensures var loaded := Load(Mounted(map[]), Fetched([a, b]));
      var saved := Save(Change(loaded, 1, 12));
      && loaded.editPrice == map[1 := 10, 2 := 5]
      && loaded.categories == [Flag("A", false), Flag("B", false)]
      && Change(loaded, 1, 12).products == [a, b]
      && Change(loaded, 1, 12).editPrice == map[1 := 12, 2 := 5]
      && saved.products == [a.(price := 12), b]
      && Sort(saved).products == [b, a.(price := 12)] && Sort(saved).sortOrder == Desc
      && Reset(Sort(saved)).products == [a, b]
      && Reset(Sort(saved)).editPrice == map[1 := 10, 2 := 5]
  {
    WorkedLoad(a, b);
    var loaded := Load(Mounted(map[]), Fetched([a, b]));
    WorkedEditSave(loaded, a, b);
    WorkedSortReset(Save(Change(loaded, 1, 12)), a, b);
  }
}
