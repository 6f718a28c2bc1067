/**
 * The catalog component as an object: its state hooks and the origin ref are
 * fields, and each handler updates them in place.
 */
module Store {
  import opened Items
  import opened Drafts
  import opened Categories
  import opened Sorting
  import opened Session

  class CatalogStore {
    var products: seq<Item>           // `products`
    var editPrice: Overlay            // `editPrice`
    var categories: seq<Flag>         // `categories`
    var sortOrder: SortOrder          // `sortOrder`
    var originalProducts: seq<Item>   // `originalProducts.current`
    var storage: Storage              // `sessionStorage`

    /** The fields as one value of the specification's state. */
    ghost function Model(): State
      reads this
    {
      State(products, editPrice, categories, sortOrder, originalProducts, storage)
    }

    /** The object invariant every handler keeps. */
    ghost predicate Valid()
      reads this
    {
      Session.Valid(Model())
    }

    /** Mounting: empty state over the session's existing storage. */
    constructor (storage: Storage)
      ensures Valid() && Model() == Mounted(storage)
    {
      products := [];
      editPrice := map[];
      categories := [];
      sortOrder := Asc;
      originalProducts := [];
      this.storage := storage;
    }

    /** The mount effect, with the request's outcome as a parameter. */
    method Load(fetched: FetchResult)
      requires Valid()
      modifies this
      ensures Valid() && Model() == Session.Load(old(Model()), fetched)
    {
      if CurrentSlot in storage && OriginalSlot in storage {
        var parsed := storage[CurrentSlot];
        originalProducts := storage[OriginalSlot];
        products := parsed;
        editPrice := BuildEditPrice(parsed);
        categories := BuildCategories(parsed);
      } else if fetched.Fetched? {
        var data := fetched.products;
        products := data;
        originalProducts := data;
        storage := storage[OriginalSlot := data];
        storage := storage[CurrentSlot := data];
        editPrice := BuildEditPriceGuarded(data);
        categories := BuildCategories(data);
      }
      assert Model() == Session.Load(old(Model()), fetched);
    }

    /** `handleExpand`. */
    method HandleExpand(category: string)
      requires Valid()
      modifies this
      ensures Valid() && Model() == Expand(old(Model()), category)
    {
      categories := Toggle(categories, category);
    }

    /** `handleChange`. */
    method HandleChange(id: Id, value: int)
      requires Valid()
      modifies this
      ensures Valid() && Model() == Change(old(Model()), id, value)
    {
      editPrice := editPrice[id := value];
    }

    /** `handleSave`. */
    method HandleSave()
      requires Valid()
      modifies this
      ensures Valid() && Model() == Save(old(Model()))
    {
      var saved := ApplyDrafts(products, editPrice);
      products := saved;
      storage := storage[CurrentSlot := saved];
    }

    /** `handleReset`. */
    method HandleReset()
      requires Valid()
      modifies this
      ensures Valid() && Model() == Reset(old(Model()))
    {
      products := originalProducts;
      storage := storage[CurrentSlot := originalProducts];
      editPrice := BuildEditPrice(originalProducts);
      assert Model() == Reset(old(Model()));
    }

    /** `handleSort`. */
    method HandleSort()
      requires Valid()
      modifies this
      ensures Valid() && Model() == Sort(old(Model()))
    {
      var sorted := SortedCopy(products, sortOrder);
      sortOrder := Flip(sortOrder);
      products := sorted;
      assert Model() == Sort(old(Model()));
    }
  }
}
