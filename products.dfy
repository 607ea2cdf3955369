/** The products page: a case-insensitive title search over the loaded
    products, and the prompt shown before anything is loaded. */
module Products {
  import opened Entities
  import opened Text
  import opened Seqs

  /** The lower-cased title contains the lower-cased query. The query is not
      trimmed. */
  predicate TitleMatches(p: Product, query: string) {
    Contains(Lower(p.title), Lower(query))
  }

  /** `filteredProducts`. */
  function FilterProducts(products: seq<Product>, query: string): seq<Product> {
    Filter(products, p => TitleMatches(p, query))
  }

  /** The listed products are exactly those whose title matches, in their
      original relative order. */
  lemma FilterProductsExactly(products: seq<Product>, query: string)
    ensures var r, idx := FilterProducts(products, query), KeptIndices(products, p => TitleMatches(p, query));
      && |r| == |idx|
      && (forall k :: 0 <= k < |r| ==> r[k] == products[idx[k]])
      && (forall k, l :: 0 <= k < l < |idx| ==> idx[k] < idx[l])
      && (forall i :: i in idx <==> 0 <= i < |products| && TitleMatches(products[i], query))
  {
    FilterIsSubsequence(products, p => TitleMatches(p, query));
  }

  /** An empty query lists every product. */
  lemma EmptyQueryKeepsAll(products: seq<Product>)
    ensures FilterProducts(products, "") == products
  {
    forall i | 0 <= i < |products| ensures TitleMatches(products[i], "") {
      ContainsEmpty(Lower(products[i].title));
    }
    FilterKeepsAll(products, p => TitleMatches(p, ""));
  }

  /** A product whose title contains the query verbatim is always listed, and a
      listed product's title is at least as long as the query. */
  lemma VerbatimMatchKept(products: seq<Product>, query: string, i: nat)
    requires i < |products| && Contains(products[i].title, query)
    ensures products[i] in FilterProducts(products, query)
  {
    ContainsLower(products[i].title, query);
    FilterMembers(products, p => TitleMatches(p, query));
  }

  lemma KeptTitleLongEnough(products: seq<Product>, query: string, i: nat)
    requires i < |FilterProducts(products, query)|
    ensures |query| <= |FilterProducts(products, query)[i].title|
  {
    var p := FilterProducts(products, query)[i];
    ContainsLength(Lower(p.title), Lower(query));
  }

  /** The letter case of the query does not matter. */
  lemma QueryCaseIrrelevant(products: seq<Product>, query: string)
    ensures FilterProducts(products, query) == FilterProducts(products, Lower(query))
  {
    LowerIdempotent(query);
    FilterAgree(products, p => TitleMatches(p, query), p => TitleMatches(p, Lower(query)));
  }

  /** Surrounding spaces do matter: " lip" finds nothing in "Lipstick" while
      "lip" finds it. */
  lemma QueryNotTrimmed()
    ensures FilterProducts([Product(1, "Lipstick", "beauty", 12.0)], "lip") == [Product(1, "Lipstick", "beauty", 12.0)]
    ensures FilterProducts([Product(1, "Lipstick", "beauty", 12.0)], " lip") == []
  {
    var p := Product(1, "Lipstick", "beauty", 12.0);
    var t := Lower(p.title);
    assert t == "lipstick";
    assert Lower("lip") == "lip" && Lower(" lip") == " lip";
    assert "lip" <= t;
    assert !Contains(t, " lip") by {
      ContainsAt(t, " lip");
      forall i | 0 <= i <= |t| ensures !(" lip" <= t[i..]) {
        if i < |t| {
          assert t[i..][0] != ' ';
        }
      }
    }
  }

  /** The page shows its load prompt exactly when no product is loaded and no
      load is under way. */
  predicate ShowsLoadPrompt(products: seq<Product>, loading: bool) {
    products == [] && !loading
  }

  /** The number in the header, "(n products)", counts the listed products. */
  function ShownCount(products: seq<Product>, query: string): (n: nat)
    ensures n == |FilterProducts(products, query)|
    ensures n <= |products|
    ensures query == "" ==> n == |products|
  {
    EmptyQueryKeepsAll(products);
    |FilterProducts(products, query)|
  }
}
