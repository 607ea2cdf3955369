/** The API service: the fixed request for each operation, the aggregation done
    for the dashboard's statistics, and the per-category tally behind the
    category chart. The network itself is not modelled; each aggregation takes
    the parsed response bodies as parameters. */
module Api {
  import opened Entities
  import opened Text
  import opened Seqs

  // ---------------------------------------------------------------------------
  // Requests
  // ---------------------------------------------------------------------------

  const BaseUrl: string := "https://dummyjson.com"

  datatype Verb = Get | Delete

  datatype Request = Request(verb: Verb, url: string)

  /** A list endpoint: base URL, path, then `?limit=` and the decimal limit. */
  function ListUrl(path: string, limit: int): string {
    BaseUrl + path + "?limit=" + IntToString(limit)
  }

  function UsersRequest(limit: int := 30): Request {
    Request(Get, ListUrl("/users", limit))
  }

  function UserRequest(id: int): Request {
    Request(Get, BaseUrl + "/users/" + IntToString(id))
  }

  function ProductsRequest(limit: int := 30): Request {
    Request(Get, ListUrl("/products", limit))
  }

  function ProductRequest(id: int): Request {
    Request(Get, BaseUrl + "/products/" + IntToString(id))
  }

  function CategoriesRequest(): Request {
    Request(Get, BaseUrl + "/products/categories")
  }

  function CartsRequest(limit: int := 0): Request {
    Request(Get, ListUrl("/carts", limit))
  }

  function DeleteUserRequest(id: int): Request {
    Request(Delete, BaseUrl + "/users/" + IntToString(id))
  }

  function DeleteProductRequest(id: int): Request {
    Request(Delete, BaseUrl + "/products/" + IntToString(id))
  }

  /** The query is interpolated as it is, without URL encoding. */
  function SearchUsersRequest(query: string): Request {
    Request(Get, BaseUrl + "/users/search?q=" + query)
  }

  function SearchProductsRequest(query: string): Request {
    Request(Get, BaseUrl + "/products/search?q=" + query)
  }

  function RecentOrdersRequest(limit: int := 5): Request {
    Request(Get, ListUrl("/carts", limit))
  }

  /** The three requests the dashboard statistics are built from. */
  function DashboardStatsRequests(): seq<Request> {
    [Request(Get, ListUrl("/users", 0)), Request(Get, ListUrl("/products", 0)), Request(Get, ListUrl("/carts", 0))]
  }

  function ChartDataRequest(): Request {
    Request(Get, ListUrl("/products", 100))
  }

  lemma SmallNumbers()
    ensures NatToString(0) == "0" && NatToString(5) == "5" && NatToString(30) == "30"
  {
    assert NatToString(3) == "3";
  }

  /** The defaults, spelled out in full: 30 users, 30 products, carts with
      limit 0 (every cart), 5 recent orders. */
  lemma DefaultUsersUrl()
    ensures UsersRequest() == Request(Get, "https://dummyjson.com/users?limit=30")
  {
    SmallNumbers();
  }

  lemma DefaultProductsUrl()
    ensures ProductsRequest() == Request(Get, "https://dummyjson.com/products?limit=30")
  {
    SmallNumbers();
  }

  lemma DefaultCartsUrl()
    ensures CartsRequest() == Request(Get, "https://dummyjson.com/carts?limit=0")
  {
    SmallNumbers();
  }

  lemma DefaultRecentOrdersUrl()
    ensures RecentOrdersRequest() == Request(Get, "https://dummyjson.com/carts?limit=5")
  {
    SmallNumbers();
  }

  /** The limit can be read back from a list URL: everything after the fixed
      prefix is the decimal limit. */
  lemma ListUrlLimit(path: string, limit: nat)
    ensures var prefix := BaseUrl + path + "?limit=";
      && prefix <= ListUrl(path, limit)
      && var digits := ListUrl(path, limit)[|prefix|..];
         AllDigits(digits) && DigitsValue(digits) == limit
  {
    var prefix := BaseUrl + path + "?limit=";
    assert ListUrl(path, limit) == prefix + NatToString(limit);
    assert ListUrl(path, limit)[|prefix|..] == NatToString(limit);
    NatToStringRoundTrip(limit);
  }

  /** Both deletes use the DELETE verb, and a user and a product with the same
      id are deleted at different URLs. */
  lemma DeleteTargetsDiffer(id: int)
    ensures DeleteUserRequest(id).verb == Delete && DeleteProductRequest(id).verb == Delete
    ensures DeleteUserRequest(id).url != DeleteProductRequest(id).url
  {
    var u, p := DeleteUserRequest(id).url, DeleteProductRequest(id).url;
    assert u[|BaseUrl| + 1] == 'u' && p[|BaseUrl| + 1] == 'p';
  }
  /** Each user id has its own delete URL: equal URLs mean equal ids. */
  lemma DeleteUserUrlsDistinct(a: int, b: int)
    ensures DeleteUserRequest(a).url == DeleteUserRequest(b).url ==> a == b
  {
    var prefix := BaseUrl + "/users/";
    if DeleteUserRequest(a).url == DeleteUserRequest(b).url {
      assert DeleteUserRequest(a).url[|prefix|..] == IntToString(a);
      assert DeleteUserRequest(b).url[|prefix|..] == IntToString(b);
      IntToStringInjective(a, b);
    }
  }


  // ---------------------------------------------------------------------------
  // Dashboard statistics (getDashboardStats)
  // ---------------------------------------------------------------------------

  datatype DashboardStats = DashboardStats(
    totalUsers: int,
    totalProducts: int,
    totalOrders: int,
    totalRevenue: real,
    recentCarts: seq<Cart>)

  function CartTotal(c: Cart): real {
    c.total
  }

  /** The statistics from the three response bodies: the reported totals as
      they are, revenue as the sum of the service's own cart totals, and the
      first five carts. */
  function DashboardStatsOf(usersTotal: int, productsTotal: int, cartsTotal: int, carts: seq<Cart>): (d: DashboardStats)
    ensures d.totalUsers == usersTotal && d.totalProducts == productsTotal && d.totalOrders == cartsTotal
    ensures |d.recentCarts| == if |carts| < 5 then |carts| else 5
    ensures d.recentCarts <= carts
  {
    var n := if |carts| < 5 then |carts| else 5;
    DashboardStats(usersTotal, productsTotal, cartsTotal, SumOf(carts, CartTotal), carts[..n])
  }

  /** Revenue adds up cart by cart. */
  lemma DashboardRevenueConcat(a: seq<Cart>, b: seq<Cart>, nu: int, np: int, nc: int)
    ensures DashboardStatsOf(nu, np, nc, a + b).totalRevenue
         == DashboardStatsOf(nu, np, nc, a).totalRevenue + DashboardStatsOf(nu, np, nc, b).totalRevenue
  {
    SumOfConcat(a, b, CartTotal);
  }

  /** The dashboard's revenue uses the service's `total` of each cart: one cart
      counts its own total, whatever its lines add up to, and no cart counts
      nothing. With DashboardRevenueConcat this fixes the revenue of every
      list of carts. */
  lemma DashboardRevenueUsesServiceTotal(c: Cart, nu: int, np: int, nc: int)
    ensures DashboardStatsOf(nu, np, nc, []).totalRevenue == 0.0
    ensures DashboardStatsOf(nu, np, nc, [c]).totalRevenue == c.total
  {
    assert [c][..0] == [];
  }

  /** Only the carts' totals matter: lists whose carts carry the same totals,
      position by position, give the same revenue whatever their lines. */
  lemma {:induction false} DashboardRevenueIgnoresLines(a: seq<Cart>, b: seq<Cart>, nu: int, np: int, nc: int)
    requires |a| == |b|
    requires forall i :: 0 <= i < |a| ==> a[i].total == b[i].total
    ensures DashboardStatsOf(nu, np, nc, a).totalRevenue == DashboardStatsOf(nu, np, nc, b).totalRevenue
  {
    if a != [] {
      var n := |a| - 1;
      DashboardRevenueIgnoresLines(a[..n], b[..n], nu, np, nc);
    }
  }

  // ---------------------------------------------------------------------------
  // Category tally (getChartData)
  // ---------------------------------------------------------------------------

  function Categories(products: seq<Product>): (cs: seq<string>)
    ensures |cs| == |products|
    ensures forall i :: 0 <= i < |products| ==> cs[i] == products[i].category
  {
    seq(|products|, i requires 0 <= i < |products| => products[i].category)
  }

  /** How many products carry category c. */
  function Occurrences(products: seq<Product>, c: string): nat {
    if products == [] then 0
    else Occurrences(products[..|products| - 1], c) + (if products[|products| - 1].category == c then 1 else 0)
  }

  /** A key ECMAScript treats as an array index: the canonical decimal form of
      an integer from 0 to 2^32 - 2. */
  predicate IsArrayIndex(k: string) {
    && |k| >= 1
    && AllDigits(k)
    && (k[0] != '0' || k == "0")
    && DigitsValue(k) <= 0xFFFF_FFFE
  }

  function NumericValue(k: string): nat {
    if AllDigits(k) then DigitsValue(k) else 0
  }

  predicate SortedByValue(keys: seq<string>) {
    forall i, j :: 0 <= i < j < |keys| ==> NumericValue(keys[i]) <= NumericValue(keys[j])
  }

  predicate Distinct(keys: seq<string>) {
    forall i, j :: 0 <= i < j < |keys| ==> keys[i] != keys[j]
  }

  /** The own keys of an ordinary object in enumeration order (section
      10.1.11.1 of ECMA-262, OrdinaryOwnPropertyKeys): array-index keys by
      ascending value, then the other string keys in creation order. */
  datatype KeyOrder = KeyOrder(indexKeys: seq<string>, otherKeys: seq<string>) {
    function Keys(): seq<string> {
      indexKeys + otherKeys
    }
  }

  /** Where a new array-index key goes among the sorted ones: after every key
      of smaller or equal value. */
  function InsertPos(sorted: seq<string>, k: string): (pos: nat)
    ensures pos <= |sorted|
    ensures forall i :: 0 <= i < pos ==> NumericValue(sorted[i]) <= NumericValue(k)
    ensures pos < |sorted| ==> NumericValue(k) < NumericValue(sorted[pos])
  {
    if sorted == [] || NumericValue(k) < NumericValue(sorted[0]) then 0
    else 1 + InsertPos(sorted[1..], k)
  }

  /** The sorted keys with k inserted at InsertPos: the keys before it stay in
      place, the keys after it move up by one. */
  function InsertByValue(sorted: seq<string>, k: string): (r: seq<string>)
    ensures |r| == |sorted| + 1
    ensures r[InsertPos(sorted, k)] == k
    ensures forall i :: 0 <= i < InsertPos(sorted, k) ==> r[i] == sorted[i]
    ensures forall i :: InsertPos(sorted, k) < i < |r| ==> r[i] == sorted[i - 1]
  {
    var pos := InsertPos(sorted, k);
    sorted[..pos] + [k] + sorted[pos..]
  }

  lemma InsertByValueSorted(sorted: seq<string>, k: string)
    requires SortedByValue(sorted)
    ensures SortedByValue(InsertByValue(sorted, k))
  {
    var pos := InsertPos(sorted, k);
    var r := InsertByValue(sorted, k);
    forall i, j | 0 <= i < j < |r| ensures NumericValue(r[i]) <= NumericValue(r[j]) {
      if i == pos {
        assert NumericValue(sorted[pos]) <= NumericValue(sorted[j - 1]);
      }
    }
  }

  /** Assigning to a key the object does not have yet adds it to the order. */
  function AddKey(order: KeyOrder, k: string): KeyOrder {
    if IsArrayIndex(k) then order.(indexKeys := InsertByValue(order.indexKeys, k))
    else order.(otherKeys := order.otherKeys + [k])
  }

  /** The key order of an object that was assigned the keys `cats` one after
      another. */
  function Enumerate(cats: seq<string>): KeyOrder {
    if cats == [] then KeyOrder([], [])
    else
      var order := Enumerate(cats[..|cats| - 1]);
      var c := cats[|cats| - 1];
      if c in order.Keys() then order else AddKey(order, c)
  }

  /** Every assigned key is listed, and nothing else. */
  lemma {:induction false} EnumerateCovers(cats: seq<string>)
    ensures forall x :: x in Enumerate(cats).Keys() <==> x in cats
  {
    if cats != [] {
      var init, c := cats[..|cats| - 1], cats[|cats| - 1];
      EnumerateCovers(init);
      assert cats == init + [c];
      var o := Enumerate(init);
      if c !in o.Keys() {
        var pos := InsertPos(o.indexKeys, c);
        assert o.indexKeys == o.indexKeys[..pos] + o.indexKeys[pos..];
      }
    }
  }

  /** Array-index keys come first, in ascending value, and the rest after. */
  lemma {:induction false} EnumerateParts(cats: seq<string>)
    ensures var o := Enumerate(cats);
      && (forall i :: 0 <= i < |o.indexKeys| ==> IsArrayIndex(o.indexKeys[i]))
      && (forall i :: 0 <= i < |o.otherKeys| ==> !IsArrayIndex(o.otherKeys[i]))
      && SortedByValue(o.indexKeys)
  {
    if cats != [] {
      var init, c := cats[..|cats| - 1], cats[|cats| - 1];
      EnumerateParts(init);
      var o := Enumerate(init);
      if c !in o.Keys() && IsArrayIndex(c) {
        InsertByValueSorted(o.indexKeys, c);
        var pos := InsertPos(o.indexKeys, c);
        var n := InsertByValue(o.indexKeys, c);
        forall i | 0 <= i < |n| ensures IsArrayIndex(n[i]) {
          if i < pos {
            assert n[i] == o.indexKeys[i];
          } else if i > pos {
            assert n[i] == o.indexKeys[i - 1];
          }
        }
      }
    }
  }

  /** No key is listed twice. */
  lemma {:induction false} EnumerateDistinct(cats: seq<string>)
    ensures Distinct(Enumerate(cats).Keys())
  {
    if cats != [] {
      var init, c := cats[..|cats| - 1], cats[|cats| - 1];
      EnumerateDistinct(init);
      var o := Enumerate(init);
      if c !in o.Keys() {
        if IsArrayIndex(c) {
          var pos := InsertPos(o.indexKeys, c);
          assert Enumerate(cats).Keys() == o.indexKeys[..pos] + [c] + o.indexKeys[pos..] + o.otherKeys;
          forall i, k | 0 <= i < k < |Enumerate(cats).Keys()|
            ensures Enumerate(cats).Keys()[i] != Enumerate(cats).Keys()[k]
          {
            DistinctInsert(o.indexKeys, o.otherKeys, pos, c, i, k);
          }
        } else {
          assert Enumerate(cats).Keys() == o.Keys() + [c];
        }
      }
    }
  }

  /** The keys listed in the order of their first occurrence in cats. */
  predicate InCreationOrder(keys: seq<string>, cats: seq<string>) {
    && (forall i :: 0 <= i < |keys| ==> keys[i] in cats)
    && forall i, j :: 0 <= i < j < |keys| ==> IndexOf(cats, keys[i]) < IndexOf(cats, keys[j])
  }

  /** The keys that are not array indices follow the order in which they were
      first assigned. */
  lemma {:induction false} EnumerateCreationOrder(cats: seq<string>)
    ensures InCreationOrder(Enumerate(cats).otherKeys, cats)
  {
    if cats != [] {
      var init, c := cats[..|cats| - 1], cats[|cats| - 1];
      assert cats == init + [c];
      EnumerateCreationOrder(init);
      EnumerateCovers(init);
      var o, n := Enumerate(init), Enumerate(cats);
      forall i | 0 <= i < |o.otherKeys|
        ensures o.otherKeys[i] in init && o.otherKeys[i] in cats
        ensures IndexOf(cats, o.otherKeys[i]) == IndexOf(init, o.otherKeys[i]) < |init|
      {
        assert o.otherKeys[i] in o.Keys();
        IndexOfAppend(init, [c], o.otherKeys[i]);
      }
      if c !in o.Keys() && !IsArrayIndex(c) {
        assert n.otherKeys == o.otherKeys + [c];
        assert IndexOf(cats, c) == |init| by {
          assert c !in init;
          assert cats[|init|] == c;
        }
        forall i, j | 0 <= i < j < |n.otherKeys|
          ensures IndexOf(cats, n.otherKeys[i]) < IndexOf(cats, n.otherKeys[j])
        {
          assert n.otherKeys[i] == o.otherKeys[i];
          if j < |o.otherKeys| {
            assert n.otherKeys[j] == o.otherKeys[j];
          }
        }
      } else {
        assert n.otherKeys == o.otherKeys;
      }
    }
  }

  /** Inserting a fresh key at position j of the index part keeps the keys
      distinct. */
  lemma DistinctInsert(idx: seq<string>, other: seq<string>, j: nat, c: string, i: nat, k: nat)
    requires j <= |idx| && Distinct(idx + other) && c !in idx + other
    requires i < k < |idx[..j] + [c] + idx[j..] + other|
    ensures (idx[..j] + [c] + idx[j..] + other)[i] != (idx[..j] + [c] + idx[j..] + other)[k]
  {
    var s, t := idx[..j] + [c] + idx[j..] + other, idx + other;
    if i == j {
      assert s[k] == t[k - 1];
    } else if k == j {
      assert s[i] == t[i];
    } else {
      var i', k' := if i < j then i else i - 1, if k < j then k else k - 1;
      assert s[i] == t[i'] && s[k] == t[k'];
    }
  }

  /** The sum of the tallies of the given keys. */
  function Tally(keys: seq<string>, counts: map<string, nat>): int {
    if keys == [] then 0
    else Tally(keys[..|keys| - 1], counts) + (if keys[|keys| - 1] in counts then counts[keys[|keys| - 1]] else 0)
  }

  lemma {:induction false} TallyConcat(a: seq<string>, b: seq<string>, counts: map<string, nat>)
    ensures Tally(a + b, counts) == Tally(a, counts) + Tally(b, counts)
    decreases |b|
  {
    if b == [] {
      assert a + b == a;
    } else {
      assert (a + b)[..|a + b| - 1] == a + b[..|b| - 1];
      TallyConcat(a, b[..|b| - 1], counts);
    }
  }

  /** Changing the tally of a key outside the list changes nothing. */
  lemma {:induction false} TallyOtherKey(keys: seq<string>, counts: map<string, nat>, c: string, v: nat)
    requires c !in keys
    ensures Tally(keys, counts[c := v]) == Tally(keys, counts)
  {
    if keys != [] {
      TallyOtherKey(keys[..|keys| - 1], counts, c, v);
    }
  }

  /** Adding one to the tally of a key listed once adds one to the sum. */
  lemma {:induction false} TallyBump(keys: seq<string>, counts: map<string, nat>, c: string)
    requires Distinct(keys) && c in keys && c in counts
    ensures Tally(keys, counts[c := counts[c] + 1]) == Tally(keys, counts) + 1
  {
    var init, last := keys[..|keys| - 1], keys[|keys| - 1];
    if last == c {
      assert c !in init;
      TallyOtherKey(init, counts, c, counts[c] + 1);
    } else {
      assert c in init;
      TallyBump(init, counts, c);
    }
  }

  /** A key added with tally 1 adds one to the sum. */
  lemma TallyAddKey(order: KeyOrder, counts: map<string, nat>, c: string)
    requires c !in order.Keys()
    ensures Tally(AddKey(order, c).Keys(), counts[c := 1]) == Tally(order.Keys(), counts) + 1
  {
    if IsArrayIndex(c) {
      TallyInsertSorted(order.indexKeys, order.otherKeys, counts, c);
    } else {
      assert AddKey(order, c).Keys() == order.Keys() + [c] + [];
      assert order.Keys() + [] == order.Keys();
      TallyInsert(order.Keys(), [], counts, c);
    }
  }

  /** A new array-index key, inserted by value, adds one to the sum. */
  lemma TallyInsertSorted(idx: seq<string>, other: seq<string>, counts: map<string, nat>, c: string)
    requires c !in idx + other
    ensures Tally(InsertByValue(idx, c) + other, counts[c := 1]) == Tally(idx + other, counts) + 1
  {
    var pos := InsertPos(idx, c);
    var a, b := idx[..pos], idx[pos..] + other;
    assert InsertByValue(idx, c) == a + [c] + idx[pos..];
    assert InsertByValue(idx, c) + other == a + [c] + b;
    assert idx + other == a + b by {
      assert idx == a + idx[pos..];
    }
    TallyInsert(a, b, counts, c);
  }

  /** A new key with tally 1, placed anywhere among keys that lack it, adds
      one to the sum. */
  lemma TallyInsert(a: seq<string>, b: seq<string>, counts: map<string, nat>, c: string)
    requires c !in a && c !in b
    ensures Tally(a + [c] + b, counts[c := 1]) == Tally(a + b, counts) + 1
  {
    var m := counts[c := 1];
    TallyConcat(a + [c], b, m);
    TallyConcat(a, [c], m);
    TallyConcat(a, b, m);
    TallyConcat(a, b, counts);
    TallyOtherKey(a, counts, c, 1);
    TallyOtherKey(b, counts, c, 1);
    assert Tally([c], m) == 1 by {
      assert [c][..0] == [];
    }
  }


  /** The tally `categoryCount` of getChartData, built one product at a time,
      with its keys in enumeration order. The counts add up to the number of
      products. */
  method CountCategories(products: seq<Product>) returns (keys: seq<string>, counts: map<string, nat>)
    ensures keys == Enumerate(Categories(products)).Keys()
    ensures forall c :: c in counts <==> c in Categories(products)
    ensures forall c :: c in counts ==> counts[c] == Occurrences(products, c)
    ensures Tally(keys, counts) == |products|
  {
    var order := KeyOrder([], []);
    counts := map[];
    for i := 0 to |products|
      invariant Counted(products[..i], order, counts)
    {
      order, counts := TallyProduct(products, i, order, counts);
    }
    assert products[..|products|] == products;
    CountedAll(products, order, counts);
    keys := order.Keys();
  }

  /** One iteration of the counting loop: `categoryCount[c] = (categoryCount[c] || 0) + 1`,
      where a category seen for the first time becomes the next key. */
  method TallyProduct(products: seq<Product>, i: nat, order: KeyOrder, counts: map<string, nat>)
    returns (order': KeyOrder, counts': map<string, nat>)
    requires i < |products| && Counted(products[..i], order, counts)
    ensures Counted(products[..i + 1], order', counts')
  {
    var c := products[i].category;
    assert products[..i + 1] == products[..i] + [products[i]];
    if c in counts {
      BumpStep(products[..i], products[i], order, counts);
      order', counts' := order, counts[c := counts[c] + 1];
    } else {
      AddStep(products[..i], products[i], order, counts);
      order', counts' := AddKey(order, c), counts[c := 1];
    }
  }

  /** The loop's invariant over every product is the method's promise. */
  lemma CountedAll(products: seq<Product>, order: KeyOrder, counts: map<string, nat>)
    requires Counted(products, order, counts)
    ensures order.Keys() == Enumerate(Categories(products)).Keys()
    ensures forall c :: c in counts <==> c in Categories(products)
    ensures forall c :: c in counts ==> counts[c] == Occurrences(products, c)
    ensures Tally(order.Keys(), counts) == |products|
  {
  }

  /** The loop state of CountCategories after the products `done`. */
  ghost predicate Counted(done: seq<Product>, order: KeyOrder, counts: map<string, nat>) {
    && order == Enumerate(Categories(done))
    && (forall c :: c in counts <==> c in Categories(done))
    && (forall c :: c in counts ==> counts[c] == Occurrences(done, c))
    && Tally(order.Keys(), counts) == |done|
  }

  /** The four parts of the loop state make up the invariant. */
  lemma CountedIntro(done: seq<Product>, order: KeyOrder, counts: map<string, nat>)
    requires order == Enumerate(Categories(done))
    requires forall c :: c in counts <==> c in Categories(done)
    requires forall c :: c in counts ==> counts[c] == Occurrences(done, c)
    requires Tally(order.Keys(), counts) == |done|
    ensures Counted(done, order, counts)
  {
  }

  /** One more product: its category is appended to the assigned keys and its
      count goes up by one. */
  lemma CountStep(done: seq<Product>, p: Product)
    ensures Categories(done + [p]) == Categories(done) + [p.category]
    ensures forall c :: (Occurrences(done + [p], c)
      == Occurrences(done, c) + (if p.category == c then 1 else 0))
  {
    assert (done + [p])[..|done|] == done;
  }

  /** A product whose category is already a key bumps its count. */
  lemma BumpStep(done: seq<Product>, p: Product, order: KeyOrder, counts: map<string, nat>)
    requires Counted(done, order, counts)
    requires p.category in counts
    ensures Counted(done + [p], order, counts[p.category := counts[p.category] + 1])
  {
    assert p.category in Categories(done);
    OrderAfterBump(done, p, order);
    BumpCounts(done, p, counts);
    TallyAfterBump(done, p, order, counts);
    CountedIntro(done + [p], order, counts[p.category := counts[p.category] + 1]);
  }

  lemma OrderAfterBump(done: seq<Product>, p: Product, order: KeyOrder)
    requires order == Enumerate(Categories(done)) && p.category in Categories(done)
    ensures order == Enumerate(Categories(done + [p]))
  {
    CountStep(done, p);
    KeysAfterSeen(Categories(done), p.category);
  }

  lemma BumpCounts(done: seq<Product>, p: Product, counts: map<string, nat>)
    requires forall c :: c in counts <==> c in Categories(done)
    requires forall c :: c in counts ==> counts[c] == Occurrences(done, c)
    requires p.category in counts
    ensures var m := counts[p.category := counts[p.category] + 1];
      && (forall c :: c in m <==> c in Categories(done + [p]))
      && (forall c :: c in m ==> m[c] == Occurrences(done + [p], c))
  {
    CountStep(done, p);
  }

  lemma TallyAfterBump(done: seq<Product>, p: Product, order: KeyOrder, counts: map<string, nat>)
    requires order == Enumerate(Categories(done)) && Tally(order.Keys(), counts) == |done|
    requires p.category in Categories(done) && p.category in counts
    ensures Tally(order.Keys(), counts[p.category := counts[p.category] + 1]) == |done + [p]|
  {
    TallyAfterSeen(Categories(done), counts, p.category);
  }

  /** A product with a new category adds the key with count one. */
  lemma AddStep(done: seq<Product>, p: Product, order: KeyOrder, counts: map<string, nat>)
    requires Counted(done, order, counts)
    requires p.category !in counts
    ensures Counted(done + [p], AddKey(order, p.category), counts[p.category := 1])
  {
    assert p.category !in Categories(done);
    OrderAfterAdd(done, p, order);
    AddCounts(done, p, counts);
    TallyAfterAdd(done, p, order, counts);
    CountedIntro(done + [p], AddKey(order, p.category), counts[p.category := 1]);
  }

  lemma OrderAfterAdd(done: seq<Product>, p: Product, order: KeyOrder)
    requires order == Enumerate(Categories(done)) && p.category !in Categories(done)
    ensures AddKey(order, p.category) == Enumerate(Categories(done + [p]))
  {
    CountStep(done, p);
    KeysAfterNew(Categories(done), p.category);
  }

  lemma AddCounts(done: seq<Product>, p: Product, counts: map<string, nat>)
    requires forall c :: c in counts <==> c in Categories(done)
    requires forall c :: c in counts ==> counts[c] == Occurrences(done, c)
    requires p.category !in counts
    ensures var m := counts[p.category := 1];
      && (forall c :: c in m <==> c in Categories(done + [p]))
      && (forall c :: c in m ==> m[c] == Occurrences(done + [p], c))
  {
    CountStep(done, p);
    OccursOnceIff(done, p.category);
  }

  lemma TallyAfterAdd(done: seq<Product>, p: Product, order: KeyOrder, counts: map<string, nat>)
    requires order == Enumerate(Categories(done)) && Tally(order.Keys(), counts) == |done|
    requires p.category !in Categories(done)
    ensures Tally(AddKey(order, p.category).Keys(), counts[p.category := 1]) == |done + [p]|
  {
    TallyAfterNew(Categories(done), counts, p.category);
  }

  /** A category seen before adds no key. */
  lemma KeysAfterSeen(cats: seq<string>, c: string)
    requires c in cats
    ensures Enumerate(cats + [c]) == Enumerate(cats)
  {
    EnumerateCovers(cats);
    EnumerateAppend(cats, c);
  }

  /** A category not seen before becomes the next key. */
  lemma KeysAfterNew(cats: seq<string>, c: string)
    requires c !in cats
    ensures Enumerate(cats + [c]) == AddKey(Enumerate(cats), c)
  {
    EnumerateCovers(cats);
    EnumerateAppend(cats, c);
  }

  /** Bumping the count of an existing key raises the total by one. */
  lemma TallyAfterSeen(cats: seq<string>, counts: map<string, nat>, c: string)
    requires c in cats && c in counts
    ensures Tally(Enumerate(cats).Keys(), counts[c := counts[c] + 1]) == Tally(Enumerate(cats).Keys(), counts) + 1
  {
    EnumerateCovers(cats);
    EnumerateDistinct(cats);
    TallyBump(Enumerate(cats).Keys(), counts, c);
  }

  /** Adding a new key with count one raises the total by one. */
  lemma TallyAfterNew(cats: seq<string>, counts: map<string, nat>, c: string)
    requires c !in cats
    ensures Tally(AddKey(Enumerate(cats), c).Keys(), counts[c := 1]) == Tally(Enumerate(cats).Keys(), counts) + 1
  {
    EnumerateCovers(cats);
    TallyAddKey(Enumerate(cats), counts, c);
  }

  lemma EnumerateAppend(cats: seq<string>, c: string)
    ensures Enumerate(cats + [c])
      == if c in Enumerate(cats).Keys() then Enumerate(cats) else AddKey(Enumerate(cats), c)
  {
    assert (cats + [c])[..|cats|] == cats;
  }

  /** An entry of the category chart. `value` is the category's share of the
      products as a whole percentage. */
  datatype CategoryEntry = CategoryEntry(name: string, count: nat, value: int, fill: string)

  const Colors: seq<string> := ["#3b82f6", "#f97316", "#eab308", "#ec4899", "#10b981"]

  const FallbackColor: string := "#6b7280"

  /** Math.round on a non-negative number: halves round up. */
  function Round(x: real): (r: int)
    requires x >= 0.0
    ensures r as real - 0.5 <= x < r as real + 0.5
  {
    (x + 0.5).Floor
  }

  /** `Math.round((count / totalProducts) * 100)`, in exact arithmetic. */
  function Percentage(count: nat, total: nat): (p: int)
    requires total > 0
  {
    Round((count as real / total as real) * 100.0)
  }

  /** A part of the whole is between 0 and 100 percent, and the whole is 100. */
  lemma PercentageBounds(count: nat, total: nat)
    requires 0 < total && count <= total
    ensures 0 <= Percentage(count, total) <= 100
    ensures count == total ==> Percentage(count, total) == 100
    ensures count == 0 ==> Percentage(count, total) == 0
  {
    var x := (count as real / total as real) * 100.0;
    assert count as real / total as real <= 1.0;
    assert 0.0 <= x <= 100.0;
    var r := Round(x);
    assert (r as real) - 0.5 <= 100.0;
    if count == total {
      DivSelf(total as real);
    }
  }

  lemma DivSelf(t: real)
    requires t != 0.0
    ensures t / t == 1.0
  {
  }

  /** A larger count never gets a smaller percentage. */
  lemma PercentageMonotone(c1: nat, c2: nat, total: nat)
    requires 0 < total && c1 <= c2
    ensures Percentage(c1, total) <= Percentage(c2, total)
  {
    var x, y := (c1 as real / total as real) * 100.0, (c2 as real / total as real) * 100.0;
    assert c1 as real / total as real <= c2 as real / total as real;
    assert x <= y;
    var r1, r2 := Round(x), Round(y);
    assert (r1 as real) < (r2 as real) + 1.0;
  }

  /** `categoryData`: the first five keys, capitalised, with their counts, their
      share of the products and the colour at their position. */
  function CategoryData(keys: seq<string>, counts: map<string, nat>, total: nat): (data: seq<CategoryEntry>)
    requires total > 0
    ensures |data| <= 5 && |data| <= |keys|
    ensures |data| == |keys| || |data| == 5
    ensures forall i :: 0 <= i < |data| ==>
      && data[i].name == Capitalize(keys[i])
      && data[i].count == (if keys[i] in counts then counts[keys[i]] else 0)
      && data[i].value == Percentage(data[i].count, total)
      && data[i].fill == Colors[i]
  {
    var n := if |keys| < 5 then |keys| else 5;
    seq(n, i requires 0 <= i < n =>
      var count := if keys[i] in counts then counts[keys[i]] else 0;
      CategoryEntry(Capitalize(keys[i]), count, Percentage(count, total),
                    if i < |Colors| then Colors[i] else FallbackColor))
  }

  /** The category chart: one entry for each of the first five categories in
      enumeration order, named by the capitalised category and carrying the
      number of products in it and its percentage of all products. */
  method ChartCategories(products: seq<Product>) returns (data: seq<CategoryEntry>)
    ensures var keys := Enumerate(Categories(products)).Keys();
      && |data| == (if |keys| < 5 then |keys| else 5)
      && forall i :: 0 <= i < |data| ==>
           && data[i].name == Capitalize(keys[i])
           && data[i].count == Occurrences(products, keys[i])
           && 1 <= data[i].count <= |products|
           && data[i].value == Percentage(data[i].count, |products|)
           && 0 <= data[i].value <= 100
           && data[i].fill == Colors[i]
  {
    var keys, counts := CountCategories(products);
    EnumerateCovers(Categories(products));
    if products == [] {
      return [];
    }
    forall c | c in Categories(products)
      ensures 1 <= Occurrences(products, c) <= |products|
      ensures 0 <= Percentage(Occurrences(products, c), |products|) <= 100
    {
      OccursOnce(products, c);
      OccurrencesBound(products, c);
      PercentageBounds(Occurrences(products, c), |products|);
    }
    data := CategoryData(keys, counts, |products|);
  }

  lemma {:induction false} OccurrencesBound(products: seq<Product>, c: string)
    ensures Occurrences(products, c) <= |products|
  {
    if products != [] {
      OccurrencesBound(products[..|products| - 1], c);
    }
  }

  /** A category counts at least once exactly when some product carries it. */
  lemma OccursOnceIff(products: seq<Product>, c: string)
    ensures Occurrences(products, c) >= 1 <==> c in Categories(products)
  {
    if c in Categories(products) {
      OccursOnce(products, c);
    } else {
      NeverOccurs(products, c);
    }
  }

  lemma {:induction false} NeverOccurs(products: seq<Product>, c: string)
    requires c !in Categories(products)
    ensures Occurrences(products, c) == 0
  {
    if products != [] {
      var init := products[..|products| - 1];
      assert Categories(products)[|products| - 1] == products[|products| - 1].category;
      forall i | 0 <= i < |init| ensures Categories(init)[i] != c {
        assert Categories(init)[i] == Categories(products)[i];
      }
      NeverOccurs(init, c);
    }
  }

  lemma {:induction false} OccursOnce(products: seq<Product>, c: string)
    requires c in Categories(products)
    ensures Occurrences(products, c) >= 1
  {
    var init := products[..|products| - 1];
    if products[|products| - 1].category != c {
      var i :| 0 <= i < |products| && Categories(products)[i] == c;
      assert Categories(init)[i] == c;
      OccursOnce(init, c);
    }
  }

  // ---------------------------------------------------------------------------
  // Monthly series (salesData)
  // ---------------------------------------------------------------------------

  const MonthNames: seq<string> := ["Sep", "Oct", "Nov", "Dec", "Jan", "Feb", "Mar", "Apr", "May", "Jun", "Jul", "Aug"]

  const CalendarMonths: seq<string> := ["Jan", "Feb", "Mar", "Apr", "May", "Jun", "Jul", "Aug", "Sep", "Oct", "Nov", "Dec"]

  /** The sales series has twelve points, one per month, starting in September
      and wrapping round the calendar year. */
  function SalesMonths(): (names: seq<string>)
    ensures |names| == 12
    ensures forall i :: 0 <= i < 12 ==> names[i] == CalendarMonths[(i + 8) % 12]
  {
    MonthNames
  }
}
