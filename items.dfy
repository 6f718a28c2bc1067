/** The catalog entries the store works on. */
module Items {

  /** Item identifiers. The source uses them as keys of plain objects. */
  type Id = int

  /** One catalog entry. Only `price` is ever replaced after loading. */
  datatype Item = Item(
    id: Id,
    name: string,
    image: string,
    category: string,
    labelText: string,  // the source's `label` field (`label` is a Dafny keyword)
    price: int,
    description: string)

  /** The set of identifiers that occur in a list of items. */
  function IdSet(items: seq<Item>): set<Id>
  {
    set k | 0 <= k < |items| :: items[k].id
  }

  /** No two items of the list share an identifier. */
  predicate DistinctIds(items: seq<Item>)
  {
    forall i, j :: 0 <= i < j < |items| ==> items[i].id != items[j].id
  }

  /** `b` is `a` with every field except possibly the price kept. */
  predicate SameButPrice(a: Item, b: Item)
  {
    a.(price := b.price) == b
  }
}
