/**
 * `parse_products` and `get_products` of realt.by.py: the per-page listing
 * filter and the pagination driver. Fetching is replaced by two oracles: the
 * listing containers of index page `p`, and the parsed detail page at a URL.
 */
module Crawl {
  import opened Wrappers
  import opened Listing
  import opened Extract

  /**
   * A `listing-item` container of an index page: one whose `desc` anchor
   * lookup raised, or the anchor's href (None when the anchor has no href).
   */
  datatype ListingItem = Unlinked | Linked(href: Option<string>)

  /** The container yields a Product: it has a link and `get_product` on it does not raise. */
  predicate Yields(item: ListingItem, site: string -> Option<DetailPage>) {
    item.Linked? && item.href.Some? && Scrape(item.href.value, site(item.href.value)).Success?
  }

  /** The Product a yielding container gives. */
  function YieldOf(item: ListingItem, site: string -> Option<DetailPage>): Product
    requires Yields(item, site)
  {
    Scrape(item.href.value, site(item.href.value)).value
  }

  /** What one container contributes to the page's list. */
  function Kept(item: ListingItem, site: string -> Option<DetailPage>): seq<Product> {
    if Yields(item, site) then [YieldOf(item, site)] else []
  }

  /** `Kept` with the site fixed, as a function of the container. */
  function KeptOn(site: string -> Option<DetailPage>): ListingItem -> seq<Product> {
    item => Kept(item, site)
  }

  /** The lists `f` gives for the elements of `xs`, concatenated in order. */
  function Flatten<T, U>(xs: seq<T>, f: T -> seq<U>): seq<U>
    decreases |xs|
  {
    if xs == [] then [] else Flatten(xs[..|xs| - 1], f) + f(xs[|xs| - 1])
  }

  /** The Products of a page's containers, in document order. */
  function Survivors(items: seq<ListingItem>, site: string -> Option<DetailPage>): seq<Product> {
    Flatten(items, KeptOn(site))
  }

  /**
   * `parse_products`: a container whose anchor lookup raises is skipped, a
   * container whose `get_product` raises is dropped, the rest are appended in
   * document order.
   */
  method ParseProducts(items: seq<ListingItem>, site: string -> Option<DetailPage>) returns (products: seq<Product>)
    ensures products == Survivors(items, site)
  {
    products := [];
    for i := 0 to |items|
      invariant products == Survivors(items[..i], site)
    {
      assert items[..i + 1][..i] == items[..i];
      match items[i] {
        case Unlinked =>
        case Linked(href) =>
          // With no href the URL handed to `get_product` is None, and fetching it raises.
          if href.Some? {
            var product := GetProduct(href.value, site);
            if product.Success? {
              products := products + [product.value];
            }
          }
      }
    }
    assert items[..|items|] == items;
  }

  lemma {:induction false} FlattenAppend<T, U>(a: seq<T>, b: seq<T>, f: T -> seq<U>)
    ensures Flatten(a + b, f) == Flatten(a, f) + Flatten(b, f)
    decreases |b|
  {
    if b == [] {
      assert a + b == a;
    } else {
      var b' := b[..|b| - 1];
      assert (a + b)[..|a + b| - 1] == a + b';
      assert (a + b)[|a + b| - 1] == b[|b| - 1];
      FlattenAppend(a, b', f);
    }
  }

  /** A single element contributes exactly its own list. */
  lemma FlattenSingle<T, U>(x: T, f: T -> seq<U>)
    ensures Flatten([x], f) == f(x)
  {
    assert [x][..0] == [];
  }

  /** The filter works container by container: two runs of containers give their lists concatenated. */
  lemma SurvivorsAppend(a: seq<ListingItem>, b: seq<ListingItem>, site: string -> Option<DetailPage>)
    ensures Survivors(a + b, site) == Survivors(a, site) + Survivors(b, site)
  {
    FlattenAppend(a, b, KeptOn(site));
  }

  /** A container that yields nothing is silently omitted, wherever it stands. */
  lemma SurvivorsOmit(a: seq<ListingItem>, item: ListingItem, b: seq<ListingItem>, site: string -> Option<DetailPage>)
    requires !Yields(item, site)
    ensures Survivors(a + [item] + b, site) == Survivors(a + b, site)
  {
    var f := KeptOn(site);
    assert f(item) == [];
    FlattenAppend(a + [item], b, f);
    FlattenAppend(a, [item], f);
    FlattenAppend(a, b, f);
    FlattenSingle(item, f);
  }

  /** A container that yields a Product contributes exactly it, between its neighbours' Products. */
  lemma SurvivorsKeep(a: seq<ListingItem>, item: ListingItem, b: seq<ListingItem>, site: string -> Option<DetailPage>)
    requires Yields(item, site)
    ensures Survivors(a + [item] + b, site) == Survivors(a, site) + [YieldOf(item, site)] + Survivors(b, site)
  {
    var f := KeptOn(site);
    assert f(item) == [YieldOf(item, site)];
    FlattenAppend(a + [item], b, f);
    FlattenAppend(a, [item], f);
    FlattenSingle(item, f);
  }

  /** Each container contributes at most one Product. */
  lemma {:induction false} SurvivorsAtMost(items: seq<ListingItem>, site: string -> Option<DetailPage>)
    ensures |Survivors(items, site)| <= |items|
    decreases |items|
  {
    if items != [] {
      SurvivorsAtMost(items[..|items| - 1], site);
      assert |KeptOn(site)(items[|items| - 1])| <= 1;
    }
  }

  lemma {:induction false} FlattenSingletons<T, U>(xs: seq<T>, f: T -> seq<U>)
    requires forall i :: 0 <= i < |xs| ==> |f(xs[i])| == 1
    ensures |Flatten(xs, f)| == |xs|
    ensures forall i :: 0 <= i < |xs| ==> Flatten(xs, f)[i] == f(xs[i])[0]
    decreases |xs|
  {
    if xs != [] {
      FlattenSingletons(xs[..|xs| - 1], f);
    }
  }

  /** When every container yields, there is one Product per container, in container order. */
  lemma SurvivorsAllYield(items: seq<ListingItem>, site: string -> Option<DetailPage>)
    requires forall i :: 0 <= i < |items| ==> Yields(items[i], site)
    ensures |Survivors(items, site)| == |items|
    ensures forall i :: 0 <= i < |items| ==> Survivors(items, site)[i] == YieldOf(items[i], site)
  {
    var f := KeptOn(site);
    forall i | 0 <= i < |items|
      ensures f(items[i]) == [YieldOf(items[i], site)]
    {
      assert Yields(items[i], site);
    }
    FlattenSingletons(items, f);
  }

  // ---------------------------------------------------------------------------
  // Pagination
  // ---------------------------------------------------------------------------

  /** The lists concatenated in order, duplicates kept. */
  function Join<T>(lists: seq<seq<T>>): seq<T>
    decreases |lists|
  {
    if lists == [] then [] else Join(lists[..|lists| - 1]) + lists[|lists| - 1]
  }

  /**
   * Page `i` (counting from 0) ends the crawl: it is empty, or with it the
   * list has reached `count`.
   */
  predicate Halts<T>(lists: seq<seq<T>>, i: int, count: int)
    requires 0 <= i < |lists|
  {
    lists[i] == [] || |Join(lists[..i + 1])| >= count
  }

  /** The joined list of earlier pages is a prefix of the joined list of all of them. */
  lemma {:induction false} JoinPrefix<T>(lists: seq<seq<T>>, n: int)
    requires 0 <= n <= |lists|
    ensures Join(lists[..n]) <= Join(lists)
    decreases |lists| - n
  {
    if n < |lists| {
      var init := lists[..|lists| - 1];
      assert lists[..n] == init[..n];
      JoinPrefix(init, n);
    } else {
      assert lists[..n] == lists;
    }
  }

  /** Every page appears whole in the joined list, right after the pages before it. */
  lemma JoinPageAt<T>(lists: seq<seq<T>>, i: int)
    requires 0 <= i < |lists|
    ensures |Join(lists[..i + 1])| == |Join(lists[..i])| + |lists[i]| <= |Join(lists)|
    ensures Join(lists)[|Join(lists[..i])|..|Join(lists[..i + 1])|] == lists[i]
  {
    JoinPrefix(lists, i + 1);
    var before := Join(lists[..i]);
    assert lists[..i + 1][..i] == lists[..i];
    assert Join(lists[..i + 1]) == before + lists[i];
    assert Join(lists)[|before|..|before| + |lists[i]|] == Join(lists[..i + 1])[|before|..];
  }

  /** `lists[i]` is what `parse_products` gives for index page `i + 1`, for every `i`. */
  predicate ParsedPages(lists: seq<seq<Product>>, index: int -> seq<ListingItem>, site: string -> Option<DetailPage>)
    decreases |lists|
  {
    lists == [] ||
    (ParsedPages(lists[..|lists| - 1], index, site) && lists[|lists| - 1] == Survivors(index(|lists|), site))
  }

  /** Reading `ParsedPages` at one page. */
  lemma {:induction false} ParsedPagesAt(lists: seq<seq<Product>>, index: int -> seq<ListingItem>, site: string -> Option<DetailPage>, i: int)
    requires ParsedPages(lists, index, site) && 0 <= i < |lists|
    ensures lists[i] == Survivors(index(i + 1), site)
    decreases |lists|
  {
    if i < |lists| - 1 {
      ParsedPagesAt(lists[..|lists| - 1], index, site, i);
    }
  }

  /**
   * `get_products`: walk index pages 1 to `lastPage` in order, stop at the
   * first page that yields nothing or as soon as the list reaches `count`, and
   * return the pages' Products concatenated. `requested` is the sequence of
   * page numbers fetched and `lists` what `parse_products` gave for each.
   */
  method GetProducts(index: int -> seq<ListingItem>, site: string -> Option<DetailPage>, lastPage: int, count: int)
    returns (products: seq<Product>, ghost requested: seq<int>, ghost lists: seq<seq<Product>>)
    ensures |lists| == |requested|
    ensures forall i :: 0 <= i < |requested| ==> requested[i] == i + 1
    ensures ParsedPages(lists, index, site)
    ensures |requested| <= if lastPage < 0 then 0 else lastPage
    ensures lastPage >= 1 ==> |requested| >= 1
    ensures products == Join(lists)
    ensures forall i :: 0 <= i < |lists| - 1 ==> !Halts(lists, i, count)
    ensures 1 <= |lists| < lastPage ==> Halts(lists, |lists| - 1, count)
  {
    // The loop only passes each page's list along; what a page's list is
    // comes from ParseProducts' contract and is never unfolded here.
    hide Survivors;
    products, requested, lists := [], [], [];
    var page := 1;
    while page <= lastPage
      invariant 1 <= page && (page == 1 || page <= lastPage + 1)
      invariant |requested| == |lists| == page - 1
      invariant forall i :: 0 <= i < |requested| ==> requested[i] == i + 1
      invariant ParsedPages(lists, index, site)
      invariant products == Join(lists)
      invariant forall i :: 0 <= i < |lists| ==> !Halts(lists, i, count)
      decreases lastPage - page
    {
      var newProducts := ParseProducts(index(page), site);
      JoinAppend(lists, newProducts);
      HaltsExtend(lists, newProducts, count);
      assert (lists + [newProducts])[..|lists|] == lists;
      requested, lists := requested + [page], lists + [newProducts];
      if newProducts == [] {
        break;
      }
      products := products + newProducts;
      if |products| >= count {
        break;
      }
      page := page + 1;
    }
  }

  /** Joining one more page appends that page's list after everything collected so far. */
  lemma JoinAppend<T>(lists: seq<seq<T>>, page: seq<T>)
    ensures Join(lists + [page]) == Join(lists) + page
  {
    assert (lists + [page])[..|lists|] == lists;
  }

  /**
   * Adding a page to the crawl keeps the earlier pages' verdicts, and the new
   * page ends the crawl exactly when it is empty or brings the list to `count`.
   */
  lemma HaltsExtend<T>(lists: seq<seq<T>>, page: seq<T>, count: int)
    ensures forall i :: 0 <= i < |lists| ==> (Halts(lists + [page], i, count) <==> Halts(lists, i, count))
    ensures Halts(lists + [page], |lists|, count) <==> page == [] || |Join(lists) + page| >= count
  {
    var next := lists + [page];
    forall i | 0 <= i < |lists|
      ensures Halts(next, i, count) <==> Halts(lists, i, count)
    {
      assert next[..i + 1] == lists[..i + 1];
    }
    assert next[..|lists| + 1] == next;
    JoinAppend(lists, page);
  }

  /**
   * The overshoot bound: when the crawl went past page 1, the list before its
   * last page was still short of `count`, so only that last page can carry it
   * past `count`.
   */
  lemma Overshoot<T>(lists: seq<seq<T>>, count: int)
    requires |lists| >= 2
    requires forall i :: 0 <= i < |lists| - 1 ==> !Halts(lists, i, count)
    ensures |Join(lists)| - |lists[|lists| - 1]| < count
  {
    var n := |lists|;
    assert !Halts(lists, n - 2, count);
    assert lists[..n - 1] == lists[..n - 2 + 1];
  }
}
