/** The application store: the lists the pages share, their loading flags, the
    fetch and delete actions, and the analytics derived from the lists.

    The three fetches that raise a loading flag (users, stores, products) are
    split at their `await`: a Begin step that runs before the remote call
    (raising the flag and issuing the request) and a Finish step that runs
    when the reply arrives. The other fetches and the deletions touch the
    state only after the reply, so each is a single method. In every case the
    reply itself is a parameter. */
module StoreState {
  import opened Entities
  import opened Seqs
  import opened Api

  // ---------------------------------------------------------------------------
  // Removal by id (`list.filter(x => x.id !== id)`)
  // ---------------------------------------------------------------------------

  /** The test `x.id !== id`, for a given key function. */
  function Other<T>(key: T -> int, id: int): T -> bool {
    x => key(x) != id
  }

  /** Its complement, `x.id === id`. */
  function Has<T>(key: T -> int, id: int): T -> bool {
    x => key(x) == id
  }

  /** The elements whose key differs from id, in their original order. */
  function WithoutKey<T>(s: seq<T>, key: T -> int, id: int): (r: seq<T>)
    ensures forall i :: 0 <= i < |r| ==> key(r[i]) != id
  {
    Filter(s, Other(key, id))
  }

  /** Exactly the elements with another key survive. */
  lemma WithoutKeyKeepsOthers<T>(s: seq<T>, key: T -> int, id: int)
    ensures forall i :: 0 <= i < |s| && key(s[i]) != id ==> s[i] in WithoutKey(s, key, id)
    ensures forall x :: x in WithoutKey(s, key, id) ==> x in s && key(x) != id
  {
    var r := WithoutKey(s, key, id);
    FilterMembers(s, Other(key, id));
    forall x | x in r ensures x in s && key(x) != id {
      var i :| 0 <= i < |r| && r[i] == x;
    }
  }

  /** The survivors keep their original order: the k-th survivor is the
      element at the k-th of a strictly increasing list of positions, which
      are exactly the positions whose key differs from id. */
  lemma WithoutKeyKeepsOrder<T>(s: seq<T>, key: T -> int, id: int)
    ensures |WithoutKey(s, key, id)| == |KeptIndices(s, Other(key, id))|
    ensures forall k :: 0 <= k < |WithoutKey(s, key, id)| ==>
              WithoutKey(s, key, id)[k] == s[KeptIndices(s, Other(key, id))[k]]
    ensures forall k, l :: 0 <= k < l < |KeptIndices(s, Other(key, id))| ==>
              KeptIndices(s, Other(key, id))[k] < KeptIndices(s, Other(key, id))[l]
    ensures forall i :: i in KeptIndices(s, Other(key, id)) <==> 0 <= i < |s| && key(s[i]) != id
  {
    FilterIsSubsequence(s, Other(key, id));
  }

  /** Removing an id nobody carries changes nothing, and only then. */
  lemma WithoutKeyAbsent<T>(s: seq<T>, key: T -> int, id: int)
    ensures WithoutKey(s, key, id) == s <==> forall i :: 0 <= i < |s| ==> key(s[i]) != id
  {
    FilterKeepsAll(s, Other(key, id));
  }

  /** Removing the same id twice is removing it once. */
  lemma WithoutKeyIdempotent<T>(s: seq<T>, key: T -> int, id: int)
    ensures WithoutKey(WithoutKey(s, key, id), key, id) == WithoutKey(s, key, id)
  {
    WithoutKeyAbsent(WithoutKey(s, key, id), key, id);
  }

  /** The order of two removals does not matter. */
  lemma WithoutKeyCommutes<T>(s: seq<T>, key: T -> int, a: int, b: int)
    ensures WithoutKey(WithoutKey(s, key, a), key, b) == WithoutKey(WithoutKey(s, key, b), key, a)
  {
    FilterCommutes(s, Other(key, a), Other(key, b));
  }

  /** Each element either survives or carries the id: the list shrinks by
      exactly the number of elements with that id. */
  lemma WithoutKeyCount<T>(s: seq<T>, key: T -> int, id: int)
    ensures |WithoutKey(s, key, id)| + |Filter(s, Has(key, id))| == |s|
  {
    FilterSplit(s, Other(key, id), Has(key, id));
  }

  function UserId(u: User): int { u.id }

  function ProductId(p: Product): int { p.id }

  function Price(p: Product): real { p.price }

  // ---------------------------------------------------------------------------
  // Analytics (getAnalytics)
  // ---------------------------------------------------------------------------

  datatype Analytics = Analytics(
    totalUsers: nat,
    totalProducts: nat,
    totalOrders: nat,
    totalRevenue: real,
    activeStores: nat)

  /** What getAnalytics reports for the given lists: their lengths, revenue as
      the sum of the catalogue's prices (not of any sale), and a mock figure of
      active stores, the number of users capped at 15. */
  function AnalyticsOf(users: seq<User>, products: seq<Product>, carts: seq<Cart>): (a: Analytics)
    ensures a.totalUsers == |users| && a.totalProducts == |products| && a.totalOrders == |carts|
    ensures a.totalRevenue == SumOf(products, Price)
    ensures a.activeStores <= 15 && a.activeStores <= |users|
    ensures a.activeStores == 15 || a.activeStores == |users|
  {
    Analytics(|users|, |products|, |carts|, SumOf(products, Price), if |users| < 15 then |users| else 15)
  }

  /** Revenue from the product catalogue splits over a removal: what remains
      plus the prices of the removed products. */
  lemma RevenueAfterRemoval(products: seq<Product>, id: int)
    ensures SumOf(products, Price)
         == SumOf(WithoutKey(products, ProductId, id), Price) + SumOf(Filter(products, Has(ProductId, id)), Price)
  {
    SumOfSplit(products, Price, Other(ProductId, id), Has(ProductId, id));
  }

  // ---------------------------------------------------------------------------
  // The store
  // ---------------------------------------------------------------------------

  class AppStore {
    var users: seq<User>
    /** The same user records, loaded separately and shown as stores. */
    var stores: seq<User>
    var products: seq<Product>
    var carts: seq<Cart>
    var categories: seq<string>

    /** Declared and initialised, but no action ever sets it. */
    var isLoading: bool
    var usersLoading: bool
    var storesLoading: bool
    var productsLoading: bool

    /** Every list starts empty and no load is under way. */
    constructor()
      ensures users == [] && stores == [] && products == [] && carts == [] && categories == []
      ensures !isLoading && !usersLoading && !storesLoading && !productsLoading
    {
      users, stores, products, carts, categories := [], [], [], [], [];
      isLoading, usersLoading, storesLoading, productsLoading := false, false, false, false;
    }

    // -- fetchUsers ----------------------------------------------------------

    method BeginFetchUsers() returns (req: Request)
      modifies this`usersLoading
      ensures usersLoading && req == UsersRequest()
    {
      usersLoading := true;
      req := UsersRequest();
    }

    /** A reply replaces the users; a failure keeps the old ones. The flag
        drops either way. */
    method FinishFetchUsers(reply: Reply<seq<User>>)
      modifies this`users, this`usersLoading
      ensures !usersLoading
      ensures users == if reply.Success? then reply.value else old(users)
    {
      if reply.Success? {
        users := reply.value;
      }
      usersLoading := false;
    }

    // -- fetchStores ---------------------------------------------------------

    /** Stores are fetched from the users endpoint. */
    method BeginFetchStores() returns (req: Request)
      modifies this`storesLoading
      ensures storesLoading && req == UsersRequest()
    {
      storesLoading := true;
      req := UsersRequest();
    }

    method FinishFetchStores(reply: Reply<seq<User>>)
      modifies this`stores, this`storesLoading
      ensures !storesLoading
      ensures stores == if reply.Success? then reply.value else old(stores)
    {
      if reply.Success? {
        stores := reply.value;
      }
      storesLoading := false;
    }

    // -- fetchProducts -------------------------------------------------------

    method BeginFetchProducts() returns (req: Request)
      modifies this`productsLoading
      ensures productsLoading && req == ProductsRequest()
    {
      productsLoading := true;
      req := ProductsRequest();
    }

    method FinishFetchProducts(reply: Reply<seq<Product>>)
      modifies this`products, this`productsLoading
      ensures !productsLoading
      ensures products == if reply.Success? then reply.value else old(products)
    {
      if reply.Success? {
        products := reply.value;
      }
      productsLoading := false;
    }

    // -- fetchCarts, fetchCategories (no loading flag) -----------------------

    method FetchCarts(reply: Reply<seq<Cart>>) returns (req: Request)
      modifies this`carts
      ensures req == CartsRequest()
      ensures carts == if reply.Success? then reply.value else old(carts)
    {
      req := CartsRequest();
      if reply.Success? {
        carts := reply.value;
      }
    }

    method FetchCategories(reply: Reply<seq<string>>) returns (req: Request)
      modifies this`categories
      ensures req == CategoriesRequest()
      ensures categories == if reply.Success? then reply.value else old(categories)
    {
      req := CategoriesRequest();
      if reply.Success? {
        categories := reply.value;
      }
    }

    // -- deletions -----------------------------------------------------------

    /** After the service confirms, the user is removed locally; a failed call
        leaves the list as it was. */
    method DeleteUser(id: int, reply: Reply<User>) returns (req: Request)
      modifies this`users
      ensures req == DeleteUserRequest(id)
      ensures users == if reply.Success? then WithoutKey(old(users), UserId, id) else old(users)
    {
      req := DeleteUserRequest(id);
      if reply.Success? {
        users := WithoutKey(users, UserId, id);
      }
    }

    /** Deleting a store calls the user endpoint and removes the record from
        the stores only; the users list keeps it. */
    method DeleteStore(id: int, reply: Reply<User>) returns (req: Request)
      modifies this`stores
      ensures req == DeleteUserRequest(id)
      ensures stores == if reply.Success? then WithoutKey(old(stores), UserId, id) else old(stores)
    {
      req := DeleteUserRequest(id);
      if reply.Success? {
        stores := WithoutKey(stores, UserId, id);
      }
    }

    method DeleteProduct(id: int, reply: Reply<Product>) returns (req: Request)
      modifies this`products
      ensures req == DeleteProductRequest(id)
      ensures products == if reply.Success? then WithoutKey(old(products), ProductId, id) else old(products)
    {
      req := DeleteProductRequest(id);
      if reply.Success? {
        products := WithoutKey(products, ProductId, id);
      }
    }

    // -- getAnalytics --------------------------------------------------------

    /** The analytics of the lists currently loaded. */
    function GetAnalytics(): (a: Analytics)
      reads this`users, this`products, this`carts
      ensures a == AnalyticsOf(users, products, carts)
      ensures a.totalUsers == |users| && a.totalProducts == |products| && a.totalOrders == |carts|
      ensures a.totalRevenue == SumOf(products, Price)
      ensures a.activeStores == if |users| < 15 then |users| else 15
    {
      AnalyticsOf(users, products, carts)
    }
  }

  /** A full fetch of the users, from request to reply: only the users and
      their loading flag change, and the flag is down once the reply is in. */
  method FetchUsers(store: AppStore, reply: Reply<seq<User>>) returns (req: Request)
    modifies store`users, store`usersLoading
    ensures req == UsersRequest()
    ensures !store.usersLoading
    ensures store.users == if reply.Success? then reply.value else old(store.users)
  {
    req := store.BeginFetchUsers();
    assert store.usersLoading;
    store.FinishFetchUsers(reply);
  }

  /** The analytics after a confirmed user deletion (the users list becomes
      `WithoutKey(users, UserId, id)`): the user count drops by the number of
      records that carried the id, the active-store figure never grows, and
      the product, order and revenue figures stay as they were. */
  lemma DeleteUserAnalytics(users: seq<User>, products: seq<Product>, carts: seq<Cart>, id: int)
    ensures var before, after := AnalyticsOf(users, products, carts), AnalyticsOf(WithoutKey(users, UserId, id), products, carts);
      && after.totalUsers == before.totalUsers - |Filter(users, Has(UserId, id))|
      && after.activeStores <= before.activeStores
      && after.totalProducts == before.totalProducts
      && after.totalOrders == before.totalOrders
      && after.totalRevenue == before.totalRevenue
  {
    WithoutKeyCount(users, UserId, id);
  }
}
