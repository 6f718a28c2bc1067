/**
 * The category index (`categories`): a plain object from category name to
 * an "expanded" flag. Its keys keep the order in which they were first
 * assigned, so it is modelled as a list of entries with distinct names.
 */
module Categories {
  import opened Items

  /** One property of the category object. */
  datatype Flag = Flag(category: string, expanded: bool)

  /** The keys of the object, in their order (`Object.keys`). */
  function Keys(cats: seq<Flag>): seq<string>
  {
    if cats == [] then [] else [cats[0].category] + Keys(cats[1..])
  }

  /** A plain object never holds the same key twice. */
  predicate DistinctKeys(cats: seq<Flag>)
  {
    forall i, j :: 0 <= i < j < |cats| ==> cats[i].category != cats[j].category
  }

  /** Reading `categories[c]`, where a missing key reads as a falsy `undefined`. */
  function Lookup(cats: seq<Flag>, c: string): (v: bool)
    ensures v ==> c in Keys(cats)
  {
    if cats == [] then false
    else if cats[0].category == c then cats[0].expanded
    else Lookup(cats[1..], c)
  }

  /**
   * Assigning `categories[c] = v`: an existing key keeps its place and takes
   * the new value, a new key is added at the end.
   */
  function Assign(cats: seq<Flag>, c: string, v: bool): (r: seq<Flag>)
    ensures Keys(r) == if c in Keys(cats) then Keys(cats) else Keys(cats) + [c]
    ensures forall d :: Lookup(r, d) == if d == c then v else Lookup(cats, d)
  {
    if cats == [] then [Flag(c, v)]
    else if cats[0].category == c then
      assert ([Flag(c, v)] + cats[1..])[1..] == cats[1..];
      [Flag(c, v)] + cats[1..]
    else
      var rest := Assign(cats[1..], c, v);
      var r := [cats[0]] + rest;
      assert r[1..] == rest;
      r
  }

  /** Assigning keeps the keys of the object distinct. */
  lemma AssignKeepsDistinct(cats: seq<Flag>, c: string, v: bool)
    ensures DistinctKeys(cats) ==> DistinctKeys(Assign(cats, c, v))
  {
    if !DistinctKeys(cats) {
      return;
    }
    var r := Assign(cats, c, v);
    KeysMember(cats);
    KeysMember(r);
    forall i, j | 0 <= i < j < |r| ensures r[i].category != r[j].category {
      assert r[i].category == Keys(r)[i] && r[j].category == Keys(r)[j];
      if j < |cats| {
        assert Keys(cats)[i] == cats[i].category && Keys(cats)[j] == cats[j].category;
      }
    }
  }

  /** Membership in the key list is membership of an entry's name. */
  lemma {:induction false} KeysMember(cats: seq<Flag>)
    ensures |Keys(cats)| == |cats|
    ensures forall k :: 0 <= k < |cats| ==> Keys(cats)[k] == cats[k].category
  {
    if cats != [] {
      KeysMember(cats[1..]);
    }
  }

  /** `handleExpand(c)`: `categories[c] = !categories[c]`. */
  function Toggle(cats: seq<Flag>, c: string): (r: seq<Flag>)
    ensures DistinctKeys(cats) ==> DistinctKeys(r)
    ensures Lookup(r, c) == !Lookup(cats, c)
    ensures forall d :: d != c ==> Lookup(r, d) == Lookup(cats, d)
    ensures c in Keys(cats) ==> Keys(r) == Keys(cats)
    ensures c !in Keys(cats) ==> Keys(r) == Keys(cats) + [c] && Lookup(r, c)
  {
    AssignKeepsDistinct(cats, c, !Lookup(cats, c));
    Assign(cats, c, !Lookup(cats, c))
  }

  /** The first index at which `x` occurs in `names`. */
  function FirstIndex(names: seq<string>, x: string): (k: nat)
    requires x in names
    ensures k < |names| && names[k] == x && x !in names[..k]
  {
    var init := names[..|names| - 1];
    if x in init then
      var k := FirstIndex(init, x);
      assert names[..k] == init[..k];
      k
    else |names| - 1
  }

  /** The names with later repetitions dropped, in first-seen order. */
  function FirstSeen(names: seq<string>): seq<string>
  {
    if names == [] then []
    else
      var prev := FirstSeen(names[..|names| - 1]);
      var last := names[|names| - 1];
      if last in prev then prev else prev + [last]
  }

  /** `FirstSeen` holds each name once, exactly the names given, in the order of their first occurrence. */
  lemma {:induction false} FirstSeenFacts(names: seq<string>)
    ensures forall x :: x in FirstSeen(names) <==> x in names
    ensures forall i, j :: 0 <= i < j < |FirstSeen(names)| ==> FirstSeen(names)[i] != FirstSeen(names)[j]
    ensures forall i, j :: 0 <= i < j < |FirstSeen(names)| ==>
              FirstIndex(names, FirstSeen(names)[i]) < FirstIndex(names, FirstSeen(names)[j])
  {
    if names != [] {
      var init := names[..|names| - 1];
      var last := names[|names| - 1];
      FirstSeenFacts(init);
      assert names == init + [last];
      var r := FirstSeen(names);
      forall x | x in init ensures FirstIndex(names, x) == FirstIndex(init, x) {
      }
      forall i, j | 0 <= i < j < |r| ensures FirstIndex(names, r[i]) < FirstIndex(names, r[j]) {
        if j == |FirstSeen(init)| {
          assert r[i] in init;
        }
      }
    }
  }

  /** The category names of the items, in list order. */
  function CategoryNames(items: seq<Item>): (names: seq<string>)
    ensures |names| == |items|
    ensures forall k :: 0 <= k < |items| ==> names[k] == items[k].category
  {
    seq(|items|, k requires 0 <= k < |items| => items[k].category)
  }

  /**
   * The index both load branches build: for each item in order,
   * `if (!categories[item.category]) categories[item.category] = false`.
   */
  function CategoryIndexOf(items: seq<Item>): seq<Flag>
  {
    if items == [] then []
    else
      var prev := CategoryIndexOf(items[..|items| - 1]);
      var c := items[|items| - 1].category;
      if !Lookup(prev, c) then Assign(prev, c, false) else prev
  }

  /**
   * The loaded index has one key per distinct category, in first-seen order,
   * every flag false.
   */
  lemma {:induction false} CategoryIndexOfFacts(items: seq<Item>)
    ensures Keys(CategoryIndexOf(items)) == FirstSeen(CategoryNames(items))
    ensures DistinctKeys(CategoryIndexOf(items))
    ensures forall d :: !Lookup(CategoryIndexOf(items), d)
  {
    if items != [] {
      var init := items[..|items| - 1];
      CategoryIndexOfFacts(init);
      AssignKeepsDistinct(CategoryIndexOf(init), items[|items| - 1].category, false);
      assert CategoryNames(items)[..|items| - 1] == CategoryNames(init);
    }
  }

  /** The loop both load branches run over the items. */
  method BuildCategories(items: seq<Item>) returns (cats: seq<Flag>)
    ensures cats == CategoryIndexOf(items)
  {
    cats := [];
    var i := 0;
    while i < |items|
      invariant 0 <= i <= |items|
      invariant cats == CategoryIndexOf(items[..i])
    {
      assert items[..i + 1][..i] == items[..i];
      if !Lookup(cats, items[i].category) {
        cats := Assign(cats, items[i].category, false);
      }
      i := i + 1;
    }
    assert items[..|items|] == items;
  }
}
