/** The orders page: carts become orders with a computed total, item count and
    a synthetic status, and a search box and a status menu select which of
    them are listed. */
module Orders {
  import opened Entities
  import opened Text
  import opened Seqs

  // ---------------------------------------------------------------------------
  // Status classification (getStatusInfo)
  // ---------------------------------------------------------------------------

  datatype Status = Pending | Processing | Shipped | Delivered

  /** Position in the progression Pending < Processing < Shipped < Delivered. */
  function Rank(s: Status): nat {
    match s
    case Pending => 0
    case Processing => 1
    case Shipped => 2
    case Delivered => 3
  }

  /** The label the page shows for a status. */
  function StatusName(s: Status): string {
    match s
    case Pending => "Pending"
    case Processing => "Processing"
    case Shipped => "Shipped"
    case Delivered => "Delivered"
  }

  /** The status of an order worth `total`, by strict thresholds 2000, 1000 and
      500: each bracket is half-open, closed at its upper end. */
  function StatusOf(total: real): (s: Status)
    ensures s == Delivered <==> 2000.0 < total
    ensures s == Shipped <==> 1000.0 < total <= 2000.0
    ensures s == Processing <==> 500.0 < total <= 1000.0
    ensures s == Pending <==> total <= 500.0
  {
    if total > 2000.0 then Delivered
    else if total > 1000.0 then Shipped
    else if total > 500.0 then Processing
    else Pending
  }

  /** The exact threshold values fall into the lower bracket. */
  lemma ThresholdsBelongBelow()
    ensures StatusOf(2000.0) == Shipped
    ensures StatusOf(1000.0) == Processing
    ensures StatusOf(500.0) == Pending
  {
  }

  /** A larger total never gives an earlier status. */
  lemma StatusMonotone(a: real, b: real)
    requires a <= b
    ensures Rank(StatusOf(a)) <= Rank(StatusOf(b))
  {
  }

  /** Distinct statuses have labels that differ even after lower-casing, so the
      case-insensitive status menu never confuses two of them. */
  lemma StatusNamesDistinct(s: Status, t: Status)
    requires Lower(StatusName(s)) == Lower(StatusName(t))
    ensures s == t
  {
    LowerStatusName(s);
    LowerStatusName(t);
  }

  /** The lower-cased labels are the values of the status menu's options. */
  lemma LowerStatusName(s: Status)
    ensures Lower(StatusName(s)) == match s
      case Pending => "pending"
      case Processing => "processing"
      case Shipped => "shipped"
      case Delivered => "delivered"
  {
    var n := StatusName(s);
    assert Lower(n)[0] == LowerChar(n[0]);
  }

  // ---------------------------------------------------------------------------
  // Enrichment (the carts.map that builds enrichedOrders)
  // ---------------------------------------------------------------------------

  /** A cart as the page shows it: the owning user if one is loaded, the total
      and item count recomputed from the lines, and the derived status. */
  datatype Order = Order(cart: Cart, user: Option<User>, total: real, itemCount: int, status: Status)

  /** Where `users.find(u => u.id === id)` stops: the first user with the id,
      or |users| when there is none. */
  function FirstUserIndex(users: seq<User>, id: int): (k: nat)
    ensures k <= |users|
    ensures forall j :: 0 <= j < k ==> users[j].id != id
    ensures k < |users| ==> users[k].id == id
  {
    if users == [] then 0
    else if users[0].id == id then 0
    else 1 + FirstUserIndex(users[1..], id)
  }

  /** `users.find(u => u.id === id)`. */
  function FindUser(users: seq<User>, id: int): (r: Option<User>)
    ensures r.None? <==> forall j :: 0 <= j < |users| ==> users[j].id != id
    ensures r.Some? ==> r.value.id == id && r.value in users
  {
    var k := FirstUserIndex(users, id);
    if k < |users| then Some(users[k]) else None
  }

  /** The first user with the id wins when several share it. */
  lemma FindUserFirst(users: seq<User>, id: int, i: nat)
    requires i < |users| && users[i].id == id
    requires forall j :: 0 <= j < i ==> users[j].id != id
    ensures FindUser(users, id) == Some(users[i])
  {
  }

  function LineTotal(item: CartItem): real {
    item.price * (item.quantity as real)
  }

  /** `products.reduce((sum, item) => sum + item.price * item.quantity, 0)`. */
  function ItemsTotal(items: seq<CartItem>): real {
    SumOf(items, LineTotal)
  }

  /** `products.reduce((sum, item) => sum + item.quantity, 0)`. */
  function ItemCount(items: seq<CartItem>): int {
    CountOf(items, Quantity)
  }

  function Quantity(item: CartItem): int {
    item.quantity
  }

  function Enrich(cart: Cart, users: seq<User>): Order {
    var total := ItemsTotal(cart.products);
    Order(cart, FindUser(users, cart.userId), total, ItemCount(cart.products), StatusOf(total))
  }

  /** `enrichedOrders`: one order per cart, in cart order. */
  function EnrichOrders(carts: seq<Cart>, users: seq<User>): (orders: seq<Order>)
    ensures |orders| == |carts|
    ensures forall i :: 0 <= i < |carts| ==> orders[i].cart == carts[i]
    ensures forall i :: 0 <= i < |carts| ==>
      && orders[i].total == ItemsTotal(carts[i].products)
      && orders[i].itemCount == ItemCount(carts[i].products)
      && orders[i].status == StatusOf(orders[i].total)
      && orders[i].user == FindUser(users, carts[i].userId)
  {
    seq(|carts|, i requires 0 <= i < |carts| => Enrich(carts[i], users))
  }

  /** An empty cart is worth nothing and is Pending. */
  lemma EmptyCart(cart: Cart, users: seq<User>)
    requires cart.products == []
    ensures Enrich(cart, users).total == 0.0 && Enrich(cart, users).itemCount == 0
    ensures Enrich(cart, users).status == Pending
  {
    assert ItemsTotal(cart.products) == 0.0;
    assert ItemCount(cart.products) == 0;
  }

  /** The service's own `total` plays no part in the order's total or status. */
  lemma ServiceTotalIgnored(cart: Cart, users: seq<User>, other: real)
    ensures Enrich(cart.(total := other), users).total == Enrich(cart, users).total
    ensures Enrich(cart.(total := other), users).status == Enrich(cart, users).status
  {
  }

  /** The order total is the sum over the lines of price times quantity,
      whichever way the lines are grouped. */
  lemma ItemsTotalConcat(a: seq<CartItem>, b: seq<CartItem>)
    ensures ItemsTotal(a + b) == ItemsTotal(a) + ItemsTotal(b)
  {
    SumOfConcat(a, b, LineTotal);
  }

  lemma ItemCountConcat(a: seq<CartItem>, b: seq<CartItem>)
    ensures ItemCount(a + b) == ItemCount(a) + ItemCount(b)
  {
    CountOfConcat(a, b, Quantity);
  }

  /** With no negative prices or quantities the total is never negative. */
  lemma ItemsTotalNonNegative(items: seq<CartItem>)
    requires forall i :: 0 <= i < |items| ==> items[i].price >= 0.0 && items[i].quantity >= 0
    ensures ItemsTotal(items) >= 0.0
  {
    SumOfNonNegative(items, LineTotal);
  }

  /** Lines {price 10, quantity 2} and {price 5, quantity 1} make an order worth
      25 with 3 items. */
  lemma TwoLineCart()
    ensures ItemsTotal([CartItem(1, 10.0, 2), CartItem(2, 5.0, 1)]) == 25.0
    ensures ItemCount([CartItem(1, 10.0, 2), CartItem(2, 5.0, 1)]) == 3
  {
    var items := [CartItem(1, 10.0, 2), CartItem(2, 5.0, 1)];
    assert items[..1] == [CartItem(1, 10.0, 2)];
    assert items[..1][..0] == [];
    assert LineTotal(items[0]) == 20.0 && LineTotal(items[1]) == 5.0;
    assert SumOf(items[..1], LineTotal) == SumOf([], LineTotal) + LineTotal(items[0]);
    assert SumOf(items, LineTotal) == SumOf(items[..1], LineTotal) + LineTotal(items[1]);
    assert CountOf(items[..1], Quantity) == CountOf([], Quantity) + Quantity(items[0]);
    assert CountOf(items, Quantity) == CountOf(items[..1], Quantity) + Quantity(items[1]);
  }

  // ---------------------------------------------------------------------------
  // Search and status filter (filteredOrders)
  // ---------------------------------------------------------------------------

  /** The search box: a case-sensitive substring of the decimal order id or
      user id, or a case-insensitive substring of the user's first name, last
      name or e-mail (only when the user is loaded). */
  predicate MatchesSearch(o: Order, query: string) {
    || Contains(IntToString(o.cart.id), query)
    || Contains(IntToString(o.cart.userId), query)
    || (o.user.Some? &&
        (|| Contains(Lower(o.user.value.firstName), Lower(query))
         || Contains(Lower(o.user.value.lastName), Lower(query))
         || Contains(Lower(o.user.value.email), Lower(query))))
  }

  /** The status menu: the literal "all", or the status label compared
      case-insensitively. */
  predicate MatchesStatus(o: Order, statusFilter: string) {
    statusFilter == "all" || Lower(StatusName(o.status)) == Lower(statusFilter)
  }

  predicate Shown(o: Order, query: string, statusFilter: string) {
    MatchesSearch(o, query) && MatchesStatus(o, statusFilter)
  }

  function FilterOrders(orders: seq<Order>, query: string, statusFilter: string): seq<Order> {
    Filter(orders, o => Shown(o, query, statusFilter))
  }

  /** The listed orders are exactly the matching ones, in their original
      relative order: the i-th listed order is the order at the i-th matching
      position. */
  lemma FilterOrdersExactly(orders: seq<Order>, query: string, statusFilter: string)
    ensures var r, idx := FilterOrders(orders, query, statusFilter), KeptIndices(orders, o => Shown(o, query, statusFilter));
      && |r| == |idx|
      && (forall k :: 0 <= k < |r| ==> r[k] == orders[idx[k]])
      && (forall k, l :: 0 <= k < l < |idx| ==> idx[k] < idx[l])
      && (forall i :: i in idx <==> 0 <= i < |orders| && Shown(orders[i], query, statusFilter))
  {
    FilterIsSubsequence(orders, o => Shown(o, query, statusFilter));
  }

  /** An empty query with status "all" lists every order: the empty string is
      contained in every id. */
  lemma DefaultFilterShowsAll(orders: seq<Order>)
    ensures FilterOrders(orders, "", "all") == orders
  {
    forall i | 0 <= i < |orders| ensures Shown(orders[i], "", "all") {
      ContainsEmpty(IntToString(orders[i].cart.id));
    }
    FilterKeepsAll(orders, o => Shown(o, "", "all"));
  }

  /** Choosing a status in the menu, in any letter case, selects exactly the
      orders with that status. */
  lemma StatusFilterSelects(o: Order, s: Status, choice: string)
    requires Lower(choice) == Lower(StatusName(s))
    ensures MatchesStatus(o, choice) <==> o.status == s
  {
    if MatchesStatus(o, choice) {
      StatusNamesDistinct(o.status, s);
    }
  }

  /** Only the exact lower-case "all" disables the status filter: "ALL" is
      compared against the labels like any other choice and matches none. */
  lemma UpperCaseAllShowsNothing(orders: seq<Order>, query: string)
    ensures FilterOrders(orders, query, "ALL") == []
  {
    forall i | 0 <= i < |orders| ensures !Shown(orders[i], query, "ALL") {
      var name := Lower(StatusName(orders[i].status));
      assert Lower("ALL") == "all";
      assert |name| != 3;
    }
    FilterDropsAll(orders, o => Shown(o, query, "ALL"));
  }

  predicate NoLetters(s: string) {
    forall i :: 0 <= i < |s| ==> !('A' <= s[i] <= 'Z') && !('a' <= s[i] <= 'z')
  }

  lemma {:induction false} ContainsNoLetters(s: string, sub: string)
    requires NoLetters(s) && Contains(s, sub)
    ensures NoLetters(sub)
    decreases |s|
  {
    if !(sub <= s) {
      ContainsNoLetters(s[1..], sub);
    } else {
      forall i | 0 <= i < |sub| ensures !('A' <= sub[i] <= 'Z') && !('a' <= sub[i] <= 'z') {
        assert sub[i] == s[i];
      }
    }
  }

  lemma IdHasNoLetters(n: int)
    ensures NoLetters(IntToString(n))
  {
    var d := NatToString(if n < 0 then -n else n);
    assert NoLetters(d);
    if n < 0 {
      assert IntToString(n) == "-" + d;
    }
  }

  lemma LowerNoLetters(q: string)
    ensures NoLetters(Lower(q)) <==> NoLetters(q)
    ensures NoLetters(q) ==> Lower(q) == q
  {
    if NoLetters(Lower(q)) {
      forall i | 0 <= i < |q| ensures !('A' <= q[i] <= 'Z') && !('a' <= q[i] <= 'z') {
        assert Lower(q)[i] == LowerChar(q[i]);
      }
    }
  }

  lemma IdMatchCaseBlind(n: int, q: string)
    ensures Contains(IntToString(n), q) <==> Contains(IntToString(n), Lower(q))
  {
    IdHasNoLetters(n);
    LowerNoLetters(q);
    if Contains(IntToString(n), q) {
      ContainsNoLetters(IntToString(n), q);
    }
    if Contains(IntToString(n), Lower(q)) {
      ContainsNoLetters(IntToString(n), Lower(q));
    }
  }

  /** Although the id comparison does not lower-case the query, ids are digits,
      so the whole search is insensitive to the case of the query. */
  lemma SearchCaseInsensitive(o: Order, query: string)
    ensures MatchesSearch(o, query) <==> MatchesSearch(o, Lower(query))
  {
    IdMatchCaseBlind(o.cart.id, query);
    IdMatchCaseBlind(o.cart.userId, query);
    LowerIdempotent(query);
  }

  // ---------------------------------------------------------------------------
  // Summary cards
  // ---------------------------------------------------------------------------

  function CountStatus(orders: seq<Order>, s: Status): nat {
    |Filter(orders, (o: Order) => o.status == s)|
  }

  lemma CountStatusStep(orders: seq<Order>, s: Status)
    requires orders != []
    ensures CountStatus(orders, s)
         == (if orders[0].status == s then 1 else 0) + CountStatus(orders[1..], s)
  {
  }

  /** The statuses of the orders, in order. */
  function Statuses(orders: seq<Order>): (ss: seq<Status>)
    ensures |ss| == |orders|
    ensures forall i :: 0 <= i < |orders| ==> ss[i] == orders[i].status
  {
    seq(|orders|, i requires 0 <= i < |orders| => orders[i].status)
  }

  /** A status count is the multiplicity of that status among the orders. */
  lemma {:induction false} CountStatusIsMultiplicity(orders: seq<Order>, s: Status)
    ensures CountStatus(orders, s) == multiset(Statuses(orders))[s]
  {
    if orders != [] {
      var ss, rest := Statuses(orders), Statuses(orders[1..]);
      CountStatusIsMultiplicity(orders[1..], s);
      CountStatusStep(orders, s);
      assert ss == [orders[0].status] + rest;
      assert multiset(ss) == multiset{orders[0].status} + multiset(rest);
    }
  }

  /** Every order has exactly one of the four statuses. */
  lemma {:induction false} StatusCountsPartition(orders: seq<Order>)
    ensures CountStatus(orders, Pending) + CountStatus(orders, Processing)
          + CountStatus(orders, Shipped) + CountStatus(orders, Delivered) == |orders|
  {
    if orders != [] {
      StatusCountsPartition(orders[1..]);
      CountStatusStep(orders, Pending);
      CountStatusStep(orders, Processing);
      CountStatusStep(orders, Shipped);
      CountStatusStep(orders, Delivered);
    }
  }

  datatype OrderStats = OrderStats(totalOrders: nat, totalRevenue: real, processing: nat, delivered: nat)

  /** The four cards above the list: number of orders, revenue (the sum of the
      recomputed totals), and the Processing and Delivered counts. */
  function Stats(orders: seq<Order>): (st: OrderStats)
    ensures st.totalOrders == |orders|
    ensures st.processing == CountStatus(orders, Processing)
    ensures st.delivered == CountStatus(orders, Delivered)
    ensures st.totalRevenue == SumOf(orders, (o: Order) => o.total)
    ensures st.processing + st.delivered <= st.totalOrders
  {
    StatusCountsPartition(orders);
    OrderStats(|orders|, SumOf(orders, (o: Order) => o.total),
               CountStatus(orders, Processing), CountStatus(orders, Delivered))
  }

  /** The revenue card adds up the recomputed totals, not the service's. */
  lemma {:induction false} RevenueFromLines(carts: seq<Cart>, users: seq<User>)
    ensures Stats(EnrichOrders(carts, users)).totalRevenue
         == SumOf(carts, (c: Cart) => ItemsTotal(c.products))
  {
    if carts != [] {
      var init := carts[..|carts| - 1];
      RevenueFromLines(init, users);
      assert EnrichOrders(carts, users)[..|carts| - 1] == EnrichOrders(init, users);
    }
  }
}
