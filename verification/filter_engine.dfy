/**
 * The catalog's filter engine: which products are visible for a selected
 * category and a search term, and the properties of that selection.
 */
module FilterEngine {
  import opened AsciiText

  /** One catalog entry; `kind` is the record's `type` field. `price` and `image` are only displayed, never filtered on. */
  datatype Product = Product(name: string, kind: string, price: real, image: string)

  /** The selector's default option, which turns the category test off. */
  const AllCategories: string := "All"

  /** The category test: "All", or the stored type equals the lower-cased selection. */
  predicate MatchesCategory(p: Product, category: string)
    ensures category == AllCategories ==> MatchesCategory(p, category)
    ensures MatchesCategory(p, category) && category != AllCategories ==> IsLowerCase(p.kind)
  {
    category == AllCategories || p.kind == ToLower(category)
  }

  /** The search test: the lower-cased name contains the lower-cased search term. */
  predicate MatchesSearchTerm(p: Product, searchTerm: string)
    ensures searchTerm == [] ==> MatchesSearchTerm(p, searchTerm)
    ensures MatchesSearchTerm(p, searchTerm) ==> |searchTerm| <= |p.name|
  {
    Includes(ToLower(p.name), ToLower(searchTerm))
  }

  /** A product is visible when it passes both tests. */
  predicate Matches(p: Product, category: string, searchTerm: string)
    ensures category == AllCategories && searchTerm == [] ==> Matches(p, category, searchTerm)
    ensures Matches(p, category, searchTerm) ==> |searchTerm| <= |p.name|
    ensures Matches(p, category, searchTerm) && category != AllCategories ==> IsLowerCase(p.kind)
  {
    MatchesCategory(p, category) && MatchesSearchTerm(p, searchTerm)
  }

  /** `products.filter(...)`: the visible products, in catalog order. */
  function Filter(products: seq<Product>, category: string, searchTerm: string): (r: seq<Product>)
    ensures |r| <= |products|
    ensures forall p :: p in r ==> p in products && Matches(p, category, searchTerm)
  {
    if products == [] then []
    else if Matches(products[0], category, searchTerm)
    then [products[0]] + Filter(products[1..], category, searchTerm)
    else Filter(products[1..], category, searchTerm)
  }

  /** `xs` is `ys` with some elements left out and the rest kept in order. */
  predicate IsSubsequence(xs: seq<Product>, ys: seq<Product>)
    decreases |ys|
  {
    if xs == [] then true
    else if ys == [] then false
    else if xs[0] == ys[0] then IsSubsequence(xs[1..], ys[1..])
    else IsSubsequence(xs, ys[1..])
  }

  /** Every visible product passes the category test. */
  lemma FilterMatchesCategory(products: seq<Product>, category: string, searchTerm: string, p: Product)
    requires p in Filter(products, category, searchTerm)
    ensures category == AllCategories || p.kind == ToLower(category)
  {
  }

  /** Every visible product passes the search test. */
  lemma FilterMatchesSearchTerm(products: seq<Product>, category: string, searchTerm: string, p: Product)
    requires p in Filter(products, category, searchTerm)
    ensures Includes(ToLower(p.name), ToLower(searchTerm))
  {
  }

  /** Nothing that passes both tests is dropped. */
  lemma {:induction false} FilterComplete(products: seq<Product>, category: string, searchTerm: string, p: Product)
    requires p in products
    ensures p in Filter(products, category, searchTerm) <==> Matches(p, category, searchTerm)
  {
    if products[0] != p {
      FilterComplete(products[1..], category, searchTerm, p);
    }
  }

  /**
   * Multiplicity: each matching product is kept as often as it occurs in the
   * catalog, each other product not at all.
   */
  lemma {:induction false} FilterMultiplicity(products: seq<Product>, category: string, searchTerm: string, p: Product)
    ensures multiset(Filter(products, category, searchTerm))[p]
            == if Matches(p, category, searchTerm) then multiset(products)[p] else 0
  {
    if products != [] {
      FilterMultiplicity(products[1..], category, searchTerm, p);
      assert products == [products[0]] + products[1..];
    }
  }

  /** The visible list keeps the catalog's order. */
  lemma {:induction false} FilterIsSubsequence(products: seq<Product>, category: string, searchTerm: string)
    ensures IsSubsequence(Filter(products, category, searchTerm), products)
  {
    if products != [] {
      var r := Filter(products, category, searchTerm);
      FilterIsSubsequence(products[1..], category, searchTerm);
      if Matches(products[0], category, searchTerm) {
        assert r[0] == products[0] && r[1..] == Filter(products[1..], category, searchTerm);
      } else if r != [] {
        SubsequenceSkip(r, products);
      }
    }
  }

  /** Skipping a first element of `ys` that `xs` does not start with. */
  lemma {:induction false} SubsequenceSkip(xs: seq<Product>, ys: seq<Product>)
    requires xs != [] && ys != [] && IsSubsequence(xs, ys[1..])
    ensures IsSubsequence(xs, ys)
    decreases |ys|, |xs|
  {
    if xs[0] == ys[0] {
      SubsequenceDropFirst(xs, ys[1..]);
    }
  }

  /** Leaving out the first element of a subsequence keeps it a subsequence. */
  lemma {:induction false} SubsequenceDropFirst(xs: seq<Product>, ys: seq<Product>)
    requires xs != [] && IsSubsequence(xs, ys)
    ensures IsSubsequence(xs[1..], ys)
    decreases |ys|, |xs|
  {
    if xs[0] == ys[0] {
      if xs[1..] != [] {
        SubsequenceSkip(xs[1..], ys);
      }
    } else {
      SubsequenceDropFirst(xs, ys[1..]);
      if xs[1..] != [] {
        SubsequenceSkip(xs[1..], ys);
      }
    }
  }

  /** A subsequence holds each element at most as often as the sequence it is taken from. */
  lemma {:induction false} SubsequenceMultiset(xs: seq<Product>, ys: seq<Product>)
    requires IsSubsequence(xs, ys)
    ensures multiset(xs) <= multiset(ys)
    decreases |ys|
  {
    if xs != [] {
      assert ys == [ys[0]] + ys[1..];
      if xs[0] == ys[0] {
        SubsequenceMultiset(xs[1..], ys[1..]);
        assert xs == [xs[0]] + xs[1..];
      } else {
        SubsequenceMultiset(xs, ys[1..]);
      }
    }
  }

  /**
   * The visible list is the only subsequence of the catalog that holds every
   * matching product as often as the catalog does and no other product:
   * `Filter` is determined by its order and multiplicity properties.
   */
  lemma {:induction false} FilterUnique(products: seq<Product>, category: string, searchTerm: string, xs: seq<Product>)
    requires IsSubsequence(xs, products)
    requires forall p :: multiset(xs)[p] == if Matches(p, category, searchTerm) then multiset(products)[p] else 0
    ensures xs == Filter(products, category, searchTerm)
    decreases |products|
  {
    if products == [] {
      assert xs == [];
    } else {
      var q, rest := products[0], products[1..];
      assert products == [q] + rest;
      if Matches(q, category, searchTerm) {
        assert multiset(xs)[q] >= 1;
        assert xs != [];
        if xs[0] != q {
          SubsequenceMultiset(xs, rest);
          assert false;
        }
        assert xs == [q] + xs[1..];
        forall p ensures multiset(xs[1..])[p] == if Matches(p, category, searchTerm) then multiset(rest)[p] else 0 {
          assert multiset(xs)[p] == multiset([q])[p] + multiset(xs[1..])[p];
        }
        FilterUnique(rest, category, searchTerm, xs[1..]);
      } else {
        if xs != [] {
          assert xs[0] in multiset(xs);
          assert xs[0] != q;
        }
        assert IsSubsequence(xs, rest);
        forall p ensures multiset(xs)[p] == if Matches(p, category, searchTerm) then multiset(rest)[p] else 0 {
          assert multiset(products)[p] == multiset([q])[p] + multiset(rest)[p];
        }
        FilterUnique(rest, category, searchTerm, xs);
      }
    }
  }

  /** Filtering the visible list again with the same selection changes nothing. */
  lemma {:induction false} FilterIdempotent(products: seq<Product>, category: string, searchTerm: string)
    ensures Filter(Filter(products, category, searchTerm), category, searchTerm)
            == Filter(products, category, searchTerm)
  {
    if products != [] {
      FilterIdempotent(products[1..], category, searchTerm);
    }
  }

  /** The empty search term is contained in every name. */
  lemma EmptySearchMatchesAll(p: Product)
    ensures MatchesSearchTerm(p, "")
  {
  }

  /** With the default selection ("All", empty search) every product is visible. */
  lemma {:induction false} FilterDefaultIsIdentity(products: seq<Product>)
    ensures Filter(products, AllCategories, "") == products
  {
    if products != [] {
      EmptySearchMatchesAll(products[0]);
      FilterDefaultIsIdentity(products[1..]);
    }
  }

  /**
   * Case folding applies to the selection only: a product whose stored type
   * is not lower-case (such as "Soup") passes the category test only for "All".
   */
  lemma UnfoldedTypeOnlyMatchesAll(p: Product, category: string)
    requires !IsLowerCase(p.kind)
    ensures MatchesCategory(p, category) <==> category == AllCategories
  {
  }

  /** Such a product is never visible under a category other than "All". */
  lemma FilterDropsUnfoldedType(products: seq<Product>, category: string, searchTerm: string, p: Product)
    requires !IsLowerCase(p.kind) && category != AllCategories
    ensures p !in Filter(products, category, searchTerm)
  {
  }

  /** The search ignores letter case in the search term. */
  lemma {:induction false} FilterSearchCaseInsensitive(products: seq<Product>, category: string, searchTerm: string)
    ensures Filter(products, category, ToLower(searchTerm)) == Filter(products, category, searchTerm)
  {
    ToLowerIdempotent(searchTerm);
    if products != [] {
      FilterSearchCaseInsensitive(products[1..], category, searchTerm);
    }
  }

  /** Two selections other than "All" that differ only in letter case select the same products. */
  lemma {:induction false} FilterCategoryCaseInsensitive(products: seq<Product>, c1: string, c2: string, searchTerm: string)
    requires c1 != AllCategories && c2 != AllCategories && ToLower(c1) == ToLower(c2)
    ensures Filter(products, c1, searchTerm) == Filter(products, c2, searchTerm)
  {
    if products != [] {
      FilterCategoryCaseInsensitive(products[1..], c1, c2, searchTerm);
    }
  }

  /** Filtering a concatenation filters each part. */
  lemma {:induction false} FilterAppend(xs: seq<Product>, ys: seq<Product>, category: string, searchTerm: string)
    ensures Filter(xs + ys, category, searchTerm) == Filter(xs, category, searchTerm) + Filter(ys, category, searchTerm)
  {
    if xs != [] {
      assert (xs + ys)[1..] == xs[1..] + ys;
      FilterAppend(xs[1..], ys, category, searchTerm);
    } else {
      assert xs + ys == ys;
    }
  }
}
