/** The storefront screen's pure logic: the catalog query pipeline (category
    filter, search, sort), the trending strip, the sort and category chips, and
    the grid's ADD button. The catalog is a parameter: the static product table
    is data, not logic. */
module HomeScreen {
  import opened Types
  import Seqs
  import Text
  import CartStore

  /** The three orders of the `sortBy` state. */
  datatype SortBy = Popular | PriceAsc | PriceDesc

  /** `isSale`: an original price is given and it is above the current price.
      A product without an original price, or with one equal to its price, is
      never on sale, and a sale saves at least 1 rupiah. */
  predicate IsSale(p: Product)
    ensures p.originalPrice.None? ==> !IsSale(p)
    ensures p.originalPrice == Some(p.price) ==> !IsSale(p)
    ensures IsSale(p) ==> p.originalPrice.value - p.price >= 1
  {
    p.originalPrice.Some? && p.originalPrice.value > p.price
  }

  // ---------------------------------------------------------------------------
  // Category stage

  /** The category stage runs when the selection is a truthy label other than
      'All' (`null` and the empty string are falsy). */
  predicate CategoryActive(selected: Option<string>)
  {
    selected.Some? && selected.value != "" && selected.value != "All"
  }

  /** A product passes the category stage. */
  predicate PassesCategory(selected: Option<string>, p: Product)
  {
    if !CategoryActive(selected) then true
    else if selected.value == "Sale" then IsSale(p)
    else p.category == selected.value
  }

  function CategoryStage(list: seq<Product>, selected: Option<string>): (r: seq<Product>)
    ensures !CategoryActive(selected) ==> r == list
    ensures CategoryActive(selected) && selected.value == "Sale" ==>
              forall p :: p in r <==> p in list && IsSale(p)
    ensures CategoryActive(selected) && selected.value != "Sale" ==>
              forall p :: p in r <==> p in list && p.category == selected.value
    ensures multiset(r) <= multiset(list)
    ensures |r| <= |list|
    ensures CategoryActive(selected) && selected.value != "Sale"
            && (forall i :: 0 <= i < |list| ==> list[i].category != selected.value)
            ==> r == []
  {
    if !CategoryActive(selected) then list
    else if selected.value == "Sale" then Seqs.Filter(list, IsSale)
    else Seqs.Filter(list, (p: Product) => p.category == selected.value)
  }

  /** The category stage keeps catalog order: it distributes over concatenation. */
  lemma CategoryStageAppend(a: seq<Product>, b: seq<Product>, selected: Option<string>)
    ensures CategoryStage(a + b, selected) == CategoryStage(a, selected) + CategoryStage(b, selected)
  {
    if CategoryActive(selected) {
      if selected.value == "Sale" {
        Seqs.FilterAppend(a, b, IsSale);
      } else {
        Seqs.FilterAppend(a, b, (p: Product) => p.category == selected.value);
      }
    }
  }

  // ---------------------------------------------------------------------------
  // Search stage

  /** The search stage runs when the query is not blank after trimming. */
  predicate SearchActive(query: string)
  {
    Text.Trim(query) != []
  }

  /** The lowercased brand, or the empty string when there is none. */
  function LowerBrand(p: Product): string
  {
    match p.brand
    case Some(b) => Text.Lower(b)
    case None => ""
  }

  /** `needle` (already lowercased) occurs in the lowercased name, brand or category. */
  predicate MatchesQuery(p: Product, needle: string)
  {
    || Text.Includes(Text.Lower(p.name), needle)
    || Text.Includes(LowerBrand(p), needle)
    || Text.Includes(Text.Lower(p.category), needle)
  }

  /** A product passes the search stage; note that the needle is the whole
      lowercased query, not the trimmed one. */
  predicate PassesSearch(query: string, p: Product)
  {
    !SearchActive(query) || MatchesQuery(p, Text.Lower(query))
  }

  function SearchStage(list: seq<Product>, query: string): (r: seq<Product>)
    ensures !SearchActive(query) ==> r == list
    ensures SearchActive(query) ==> forall p :: p in r <==> p in list && MatchesQuery(p, Text.Lower(query))
    ensures multiset(r) <= multiset(list)
    ensures |r| <= |list|
  {
    if !SearchActive(query) then list
    else
      var needle := Text.Lower(query);
      Seqs.Filter(list, (p: Product) => MatchesQuery(p, needle))
  }

  /** The search stage keeps catalog order: it distributes over concatenation. */
  lemma SearchStageAppend(a: seq<Product>, b: seq<Product>, query: string)
    ensures SearchStage(a + b, query) == SearchStage(a, query) + SearchStage(b, query)
  {
    if SearchActive(query) {
      var needle := Text.Lower(query);
      Seqs.FilterAppend(a, b, (p: Product) => MatchesQuery(p, needle));
    }
  }

  /** The search is case-insensitive in the query: lowercasing the query first
      changes neither whether the stage runs nor what it keeps. */
  lemma SearchIgnoresQueryCase(list: seq<Product>, query: string)
    ensures SearchStage(list, Text.Lower(query)) == SearchStage(list, query)
  {
    Text.LowerKeepsSpace(query);
    Text.TrimEmptyIff(query);
    Text.TrimEmptyIff(Text.Lower(query));
    Text.LowerIdempotent(query);
  }

  /** A blank query (empty or only white space) disables the search stage. */
  lemma BlankQueryKeepsAll(list: seq<Product>, query: string)
    requires forall j :: 0 <= j < |query| ==> Text.IsSpace(query[j])
    ensures SearchStage(list, query) == list
  {
    Text.TrimEmptyIff(query);
  }

  // ---------------------------------------------------------------------------
  // Sort stage

  /** The ascending sort key each comparator orders by: `a.price - b.price`,
      `b.price - a.price` and `b.rating - a.rating`. */
  function Key(order: SortBy, p: Product): int
  {
    match order
    case PriceAsc => p.price
    case PriceDesc => -p.price
    case Popular => -p.rating
  }

  predicate SortedBy(order: SortBy, s: seq<Product>)
  {
    forall i, j :: 0 <= i < j < |s| ==> Key(order, s[i]) <= Key(order, s[j])
  }

  /** Inserts `x` in front of the first element whose key is not smaller, so
      equal keys keep their original order. */
  function Insert(order: SortBy, x: Product, s: seq<Product>): (r: seq<Product>)
    requires SortedBy(order, s)
    ensures SortedBy(order, r)
    ensures multiset(r) == multiset(s) + multiset{x}
    ensures |r| == |s| + 1
  {
    if s == [] then [x]
    else if Key(order, x) <= Key(order, s[0]) then
      SortedCons(order, x, s);
      [x] + s
    else
      SortedTail(order, s);
      var tail := Insert(order, x, s[1..]);
      assert s == [s[0]] + s[1..];
      TailAboveHead(order, x, s, tail);
      SortedCons(order, s[0], tail);
      [s[0]] + tail
  }

  /** The tail of a sorted sequence is sorted. */
  lemma SortedTail(order: SortBy, s: seq<Product>)
    requires SortedBy(order, s) && s != []
    ensures SortedBy(order, s[1..])
  {
    forall i, j | 0 <= i < j < |s[1..]| ensures Key(order, s[1..][i]) <= Key(order, s[1..][j]) {
      assert s[1..][i] == s[i + 1] && s[1..][j] == s[j + 1];
    }
  }

  /** A head no larger than a sorted tail's first element gives a sorted sequence. */
  lemma SortedCons(order: SortBy, h: Product, t: seq<Product>)
    requires SortedBy(order, t)
    requires forall k :: 0 <= k < |t| ==> Key(order, h) <= Key(order, t[k])
    ensures SortedBy(order, [h] + t)
  {
    var r := [h] + t;
    forall i, j | 0 <= i < j < |r| ensures Key(order, r[i]) <= Key(order, r[j]) {
      assert r[j] == t[j - 1];
      if i > 0 {
        assert r[i] == t[i - 1];
      }
    }
  }

  /** Every element of `s[1..]` with `x` added lies above `s[0]` when `x` does. */
  lemma TailAboveHead(order: SortBy, x: Product, s: seq<Product>, tail: seq<Product>)
    requires SortedBy(order, s) && s != []
    requires Key(order, s[0]) < Key(order, x)
    requires multiset(tail) == multiset(s[1..]) + multiset{x}
    ensures forall k :: 0 <= k < |tail| ==> Key(order, s[0]) <= Key(order, tail[k])
  {
    forall k | 0 <= k < |tail| ensures Key(order, s[0]) <= Key(order, tail[k]) {
      assert tail[k] in multiset(tail);
      if tail[k] != x {
        assert tail[k] in multiset(s[1..]);
        var m :| 0 <= m < |s[1..]| && s[1..][m] == tail[k];
        assert s[1..][m] == s[m + 1];
      }
    }
  }

  /** A stable sort of `s` by `Key(order, _)` (insertion sort). */
  function Sort(order: SortBy, s: seq<Product>): (r: seq<Product>)
    ensures SortedBy(order, r)
    ensures multiset(r) == multiset(s)
    ensures |r| == |s|
  {
    if s == [] then []
    else
      assert s == [s[0]] + s[1..];
      Insert(order, s[0], Sort(order, s[1..]))
  }

  /** The elements of `s` whose sort key is `v`, in their order in `s`. */
  function WithKey(order: SortBy, v: int, s: seq<Product>): seq<Product>
  {
    if s == [] then []
    else (if Key(order, s[0]) == v then [s[0]] else []) + WithKey(order, v, s[1..])
  }

  /** Inserting `x` puts it in front of every element with the same key. */
  lemma {:induction false} InsertStable(order: SortBy, x: Product, s: seq<Product>, v: int)
    requires SortedBy(order, s)
    ensures WithKey(order, v, Insert(order, x, s))
            == (if Key(order, x) == v then [x] else []) + WithKey(order, v, s)
    decreases |s|, 1
  {
    if s == [] {
      assert WithKey(order, v, [x]) == (if Key(order, x) == v then [x] else []) + WithKey(order, v, []);
    } else if Key(order, x) <= Key(order, s[0]) {
      var r := [x] + s;
      assert Insert(order, x, s) == r;
      assert r[0] == x && r[1..] == s;
    } else {
      InsertStablePast(order, x, s, v);
    }
  }

  /** The case where `x` goes past the first element, whose key is smaller. */
  lemma {:induction false} InsertStablePast(order: SortBy, x: Product, s: seq<Product>, v: int)
    requires SortedBy(order, s)
    requires s != [] && Key(order, s[0]) < Key(order, x)
    ensures WithKey(order, v, Insert(order, x, s))
            == (if Key(order, x) == v then [x] else []) + WithKey(order, v, s)
    decreases |s|, 0
  {
    var t := s[1..];
    SortedTail(order, s);
    var tail := Insert(order, x, t);
    var r := [s[0]] + tail;
    assert Insert(order, x, s) == r;
    assert r[0] == s[0] && r[1..] == tail;
    InsertStable(order, x, t, v);
    var head := if Key(order, s[0]) == v then [s[0]] else [];
    var mine := if Key(order, x) == v then [x] else [];
    assert WithKey(order, v, r) == head + WithKey(order, v, tail);
    assert WithKey(order, v, s) == head + WithKey(order, v, t);
    if Key(order, x) == v {
      assert head == [];
      assert WithKey(order, v, r) == mine + WithKey(order, v, t);
    } else {
      assert mine == [];
      assert WithKey(order, v, tail) == WithKey(order, v, t);
    }
  }

  /** The sort is stable, as `Array.prototype.sort` is: the products sharing any
      one key keep their relative order. */
  lemma {:induction false} SortStable(order: SortBy, s: seq<Product>, v: int)
    ensures WithKey(order, v, Sort(order, s)) == WithKey(order, v, s)
  {
    if s != [] {
      SortStable(order, s[1..], v);
      InsertStable(order, s[0], Sort(order, s[1..]), v);
    }
  }

  /** What each order means for the result. */
  lemma SortedMeaning(order: SortBy, s: seq<Product>)
    requires SortedBy(order, s)
    ensures order == PriceAsc ==> forall i, j :: 0 <= i < j < |s| ==> s[i].price <= s[j].price
    ensures order == PriceDesc ==> forall i, j :: 0 <= i < j < |s| ==> s[i].price >= s[j].price
    ensures order == Popular ==> forall i, j :: 0 <= i < j < |s| ==> s[i].rating >= s[j].rating
  {
    forall i, j | 0 <= i < j < |s| ensures Key(order, s[i]) <= Key(order, s[j]) { }
  }

  // ---------------------------------------------------------------------------
  // The whole pipeline

  /** `filteredProducts`: category stage, then search stage, then sort. */
  function FilteredProducts(catalog: seq<Product>, selected: Option<string>, query: string, order: SortBy): (r: seq<Product>)
    ensures forall p :: p in r <==> p in catalog && PassesCategory(selected, p) && PassesSearch(query, p)
    ensures multiset(r) <= multiset(catalog)
    ensures |r| <= |catalog|
    ensures order == PriceAsc ==> forall i, j :: 0 <= i < j < |r| ==> r[i].price <= r[j].price
    ensures order == PriceDesc ==> forall i, j :: 0 <= i < j < |r| ==> r[i].price >= r[j].price
    ensures order == Popular ==> forall i, j :: 0 <= i < j < |r| ==> r[i].rating >= r[j].rating
  {
    var afterCategory := CategoryStage(catalog, selected);
    var afterSearch := SearchStage(afterCategory, query);
    var r := Sort(order, afterSearch);
    SameMembers(r, afterSearch);
    StagesMembers(catalog, selected, query);
    SortedMeaning(order, r);
    r
  }

  /** The two filter stages together keep exactly the products passing both. */
  lemma StagesMembers(catalog: seq<Product>, selected: Option<string>, query: string)
    ensures forall p :: p in SearchStage(CategoryStage(catalog, selected), query)
                        <==> p in catalog && PassesCategory(selected, p) && PassesSearch(query, p)
  {
    var afterCategory := CategoryStage(catalog, selected);
    assert forall p :: p in afterCategory <==> p in catalog && PassesCategory(selected, p);
  }

  /** Two sequences with the same multiset have the same members. */
  lemma SameMembers(a: seq<Product>, b: seq<Product>)
    requires multiset(a) == multiset(b)
    ensures forall p :: p in a <==> p in b
  {
    forall p ensures p in a <==> p in b {
      assert p in a <==> p in multiset(a);
      assert p in b <==> p in multiset(b);
    }
  }

  /** The sorted result is a permutation of what the two filter stages keep. */
  lemma FilteredIsPermutationOfStages(catalog: seq<Product>, selected: Option<string>, query: string, order: SortBy)
    ensures multiset(FilteredProducts(catalog, selected, query, order))
            == multiset(SearchStage(CategoryStage(catalog, selected), query))
  {
  }

  /** Products with equal sort keys appear in the order the two filter stages
      left them. */
  lemma FilteredTiesKeepOrder(catalog: seq<Product>, selected: Option<string>, query: string, order: SortBy, v: int)
    ensures WithKey(order, v, FilteredProducts(catalog, selected, query, order))
            == WithKey(order, v, SearchStage(CategoryStage(catalog, selected), query))
  {
    SortStable(order, SearchStage(CategoryStage(catalog, selected), query), v);
  }

  // ---------------------------------------------------------------------------
  // Trending strip

  predicate IsTrending(p: Product)
  {
    p.badge == Some("Flash Sale") || p.badge == Some("Best Seller")
  }

  /** `trendingProducts`: the catalog products badged 'Flash Sale' or 'Best Seller'. */
  function TrendingProducts(catalog: seq<Product>): (r: seq<Product>)
    ensures forall p :: p in r <==> p in catalog && IsTrending(p)
    ensures multiset(r) <= multiset(catalog)
  {
    Seqs.Filter(catalog, IsTrending)
  }

  /** The trending strip keeps catalog order: it distributes over concatenation. */
  lemma TrendingKeepsCatalogOrder(a: seq<Product>, b: seq<Product>)
    ensures TrendingProducts(a + b) == TrendingProducts(a) + TrendingProducts(b)
  {
    Seqs.FilterAppend(a, b, IsTrending);
  }

  // ---------------------------------------------------------------------------
  // Chips and buttons

  datatype SortChip = PopularChip | PriceChip

  /** Pressing a sort chip: 'Populer' always selects the rating order; the price
      chip turns ascending into descending and anything else into ascending. */
  function PressSortChip(current: SortBy, chip: SortChip): (r: SortBy)
    ensures chip == PopularChip ==> r == Popular
    ensures chip == PriceChip ==> r != Popular && (r == PriceDesc <==> current == PriceAsc)
  {
    match chip
    case PopularChip => Popular
    case PriceChip => if current == PriceAsc then PriceDesc else PriceAsc
  }

  /** Two presses of the price chip from a price order return to it. */
  lemma PriceChipToggles(current: SortBy)
    requires current != Popular
    ensures PressSortChip(PressSortChip(current, PriceChip), PriceChip) == current
  {
  }

  /** Pressing a category chip: 'All' clears the selection, any other label selects itself. */
  function PressCategoryChip(category: string): (r: Option<string>)
    ensures r.None? <==> category == "All"
    ensures r.Some? ==> r.value == category
  {
    if category == "All" then None else Some(category)
  }

  /** The 'All' chip lets every product through the category stage. */
  lemma AllChipKeepsEverything(list: seq<Product>)
    ensures CategoryStage(list, PressCategoryChip("All")) == list
  {
  }

  /** The hero 'Flash Sale' button selects the label 'Flash Sale'. */
  function PressFlashSaleHero(): (r: Option<string>)
    ensures CategoryActive(r) && r.value != "Sale"
  {
    Some("Flash Sale")
  }

  /** The hero label is compared with `category`, not `badge`: over products whose
      categories are the four shipped ones, nothing passes, not even the
      products badged 'Flash Sale'. */
  lemma FlashSaleHeroShowsNothing(list: seq<Product>)
    requires forall p :: p in list ==> p.category in ["Gamis", "Khimar", "Abaya", "Accessories"]
    ensures CategoryStage(list, PressFlashSaleHero()) == []
  {
    forall i | 0 <= i < |list| ensures list[i].category != "Flash Sale" {
      assert list[i] in list;
    }
  }

  /** The grid's ADD button: `addToCart(product, 1)`. A line already holding
      the product gains exactly one, other lines are untouched, and an absent
      product is appended as a one-item line. */
  function HandleAddToCart(c: CartStore.Cart, p: Product): (r: CartStore.Cart)
    ensures |r| == if CartStore.HasId(c, p.id) then |c| else |c| + 1
    ensures forall i :: 0 <= i < |c| && c[i].product.id == p.id ==> r[i].quantity == c[i].quantity + 1
    ensures forall i :: 0 <= i < |c| && c[i].product.id != p.id ==> r[i] == c[i]
    ensures !CartStore.HasId(c, p.id) ==> r == c + [CartItem(p, 1)]
  {
    CartStore.AddToCart(c, p, 1)
  }

  /** ADD adds exactly one item and keeps the cart valid. */
  lemma HandleAddToCartAddsOne(c: CartStore.Cart, p: Product)
    requires CartStore.Valid(c)
    ensures CartStore.Valid(HandleAddToCart(c, p))
    ensures CartStore.TotalItems(HandleAddToCart(c, p)) == CartStore.TotalItems(c) + 1
    ensures CartStore.QuantityOf(HandleAddToCart(c, p), p.id) == CartStore.QuantityOf(c, p.id) + 1
  {
    CartStore.AddToCartKeepsValid(c, p, 1);
    CartStore.AddToCartTotals(c, p, 1);
    if CartStore.Find(c, p.id).Some? {
      CartStore.AddToCartAccumulatesPresent(c, p, 1, CartStore.Find(c, p.id).value);
    } else {
      CartStore.AddToCartAccumulatesAbsent(c, p, 1);
    }
  }
}
