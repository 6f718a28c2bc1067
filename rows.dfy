/** The table body the component renders from `categories` and `products`. */
module Rows {
  import opened Items
  import opened Categories

  /** A rendered row: a category header, or one product under it. */
  datatype Row = Header(category: string, expanded: bool) | ProductRow(item: Item)

  /**
   * `products.filter(p => p.category === c)`: the items of one category, in
   * list order, each as often as it occurs in the list.
   */
  function InCategory(products: seq<Item>, c: string): (r: seq<Item>)
    ensures |r| <= |products|
    ensures forall x :: x in r <==> x in products && x.category == c
    ensures forall x :: multiset(r)[x] == if x.category == c then multiset(products)[x] else 0
  {
    if products == [] then []
    else
      assert products == [products[0]] + products[1..];
      if products[0].category == c then [products[0]] + InCategory(products[1..], c)
      else InCategory(products[1..], c)
  }

  /** The filter of a single item keeps it exactly when it is of the category. */
  lemma InCategoryOne(x: Item, c: string)
    ensures InCategory([x], c) == if x.category == c then [x] else []
  {
    assert [x][1..] == [];
  }

  /** Filtering a concatenation filters each part and keeps their order. */
  lemma {:induction false} InCategoryAppend(a: seq<Item>, b: seq<Item>, c: string)
    ensures InCategory(a + b, c) == InCategory(a, c) + InCategory(b, c)
  {
    if a == [] {
      assert a + b == b;
    } else {
      assert (a + b)[0] == a[0];
      assert (a + b)[1..] == a[1..] + b;
      InCategoryAppend(a[1..], b, c);
    }
  }

  /** One product row per item, in order. */
  function ProductRows(items: seq<Item>): (r: seq<Row>)
    ensures |r| == |items|
    ensures forall k :: 0 <= k < |items| ==> r[k] == ProductRow(items[k])
  {
    seq(|items|, k requires 0 <= k < |items| => ProductRow(items[k]))
  }

  /**
   * For each key of the index in order, its header and, only when its flag is
   * set, the products of that category in list order.
   */
  function VisibleRows(cats: seq<Flag>, products: seq<Item>): (r: seq<Row>)
    ensures |r| >= |cats|
    ensures forall x :: ProductRow(x) in r ==> x in products && Flag(x.category, true) in cats
  {
    if cats == [] then []
    else
      var rest := VisibleRows(cats[1..], products);
      assert forall x :: ProductRow(x) in KeyRows(cats[0], products) ==>
               x in products && cats[0] == Flag(x.category, true) by {
        var body := KeyRows(cats[0], products)[1..];
        forall x | ProductRow(x) in KeyRows(cats[0], products)
          ensures x in products && cats[0] == Flag(x.category, true)
        {
          assert ProductRow(x) in body;
          var k :| 0 <= k < |body| && body[k] == ProductRow(x);
        }
      }
      assert forall x :: ProductRow(x) in rest ==> Flag(x.category, true) in cats by {
        forall x | ProductRow(x) in rest ensures Flag(x.category, true) in cats {
          assert Flag(x.category, true) in cats[1..];
        }
      }
      KeyRows(cats[0], products) + rest
  }

  /** The rows one key contributes: its header, then its products when expanded. */
  function KeyRows(f: Flag, products: seq<Item>): seq<Row>
  {
    [Header(f.category, f.expanded)]
      + (if f.expanded then ProductRows(InCategory(products, f.category)) else [])
  }

  /** The rows of a concatenated index are the rows of its parts, in order. */
  lemma {:induction false} VisibleRowsAppend(a: seq<Flag>, b: seq<Flag>, products: seq<Item>)
    ensures VisibleRows(a + b, products) == VisibleRows(a, products) + VisibleRows(b, products)
  {
    if a == [] {
      assert a + b == b;
    } else {
      assert (a + b)[0] == a[0];
      assert (a + b)[1..] == a[1..] + b;
      VisibleRowsAppend(a[1..], b, products);
    }
  }

  /**
   * The rows of one key: its header, then, when expanded, one row per product
   * of that category in the order of `products`.
   */
  lemma {:induction false} VisibleRowsOne(f: Flag, products: seq<Item>)
    ensures VisibleRows([f], products) == [Header(f.category, f.expanded)]
              + (if f.expanded then ProductRows(InCategory(products, f.category)) else [])
  {
    assert [f][1..] == [];
  }

  /** The header rows of a list of rows, in order. */
  function HeaderRows(rows: seq<Row>): seq<Row>
  {
    if rows == [] then []
    else (if rows[0].Header? then [rows[0]] else []) + HeaderRows(rows[1..])
  }

  /** One header per entry of the index. */
  function HeadersOf(cats: seq<Flag>): (r: seq<Row>)
    ensures |r| == |cats|
    ensures forall k :: 0 <= k < |cats| ==> r[k] == Header(cats[k].category, cats[k].expanded)
  {
    seq(|cats|, k requires 0 <= k < |cats| => Header(cats[k].category, cats[k].expanded))
  }

  lemma {:induction false} HeaderRowsAppend(a: seq<Row>, b: seq<Row>)
    ensures HeaderRows(a + b) == HeaderRows(a) + HeaderRows(b)
  {
    if a != [] {
      assert (a + b)[1..] == a[1..] + b;
      HeaderRowsAppend(a[1..], b);
    } else {
      assert a + b == b;
    }
  }

  lemma {:induction false} NoHeadersAmongProducts(items: seq<Item>)
    ensures HeaderRows(ProductRows(items)) == []
  {
    if items != [] {
      NoHeadersAmongProducts(items[1..]);
      assert ProductRows(items)[1..] == ProductRows(items[1..]);
    }
  }

  /** The rows of one key hold exactly one header, that key's. */
  lemma KeyRowsHeaders(f: Flag, products: seq<Item>)
    ensures HeaderRows(KeyRows(f, products)) == [Header(f.category, f.expanded)]
  {
    var body := if f.expanded then ProductRows(InCategory(products, f.category)) else [];
    HeaderRowsAppend([Header(f.category, f.expanded)], body);
    NoHeadersAmongProducts(InCategory(products, f.category));
    assert [Header(f.category, f.expanded)][1..] == [];
  }

  /** The headers appear once per category key, in key order, with the key's flag. */
  lemma {:induction false} HeadersInKeyOrder(cats: seq<Flag>, products: seq<Item>)
    ensures HeaderRows(VisibleRows(cats, products)) == HeadersOf(cats)
  {
    if cats != [] {
      HeaderRowsAppend(KeyRows(cats[0], products), VisibleRows(cats[1..], products));
      KeyRowsHeaders(cats[0], products);
      HeadersInKeyOrder(cats[1..], products);
      assert HeadersOf(cats) == HeadersOf(cats[..1]) + HeadersOf(cats[1..]);
    }
  }

  /**
   * A product is shown exactly when it is in the list and its category's
   * flag is set.
   */
  lemma {:induction false} ShownIffExpanded(cats: seq<Flag>, products: seq<Item>, x: Item)
    requires DistinctKeys(cats)
    ensures ProductRow(x) in VisibleRows(cats, products) <==> x in products && Lookup(cats, x.category)
  {
    if cats != [] {
      var f := cats[0];
      var body := if f.expanded then ProductRows(InCategory(products, f.category)) else [];
      assert DistinctKeys(cats[1..]);
      ShownIffExpanded(cats[1..], products, x);
      assert ProductRow(x) in body <==> f.expanded && x in InCategory(products, f.category) by {
        if ProductRow(x) in body {
          var k :| 0 <= k < |body| && body[k] == ProductRow(x);
        }
        if f.expanded && x in InCategory(products, f.category) {
          var k :| 0 <= k < |InCategory(products, f.category)| && InCategory(products, f.category)[k] == x;
          assert body[k] == ProductRow(x);
        }
      }
      if x.category == f.category {
        KeysMember(cats);
        assert x.category !in Keys(cats[1..]) by {
          KeysMember(cats[1..]);
          forall k | 0 <= k < |cats[1..]| ensures Keys(cats[1..])[k] != x.category {
            assert cats[1..][k] == cats[k + 1];
          }
        }
      }
    }
  }
}
