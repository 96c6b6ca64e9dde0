/** The product catalog and its queries: lookup by id, filtering by
    category, case-insensitive text search and the category list. Each
    query takes the catalog it runs over; the storefront passes `Catalog`. */
module Products {
  import opened Types
  import Seqs

  const TShirt := Product("luxury-tshirt-1", "Luxury T-Shirt", 35, "Clothes", TShirtDescription)
  const TShirtDescription := "Premium cotton t-shirt crafted with attention to detail. Features a minimalist design with the NADER signature subtle branding. Perfect for everyday luxury."

  const Mug := Product("black-mug-1", "Black Mug", 15, "Mugs", MugDescription)
  const MugDescription := "Elegant matte black ceramic mug with subtle NADER branding. Perfect for your morning coffee or evening tea. Dishwasher and microwave safe."

  const Bottle := Product("insulated-bottle-1", "Insulated Bottle", 25, "Bottles", BottleDescription)
  const BottleDescription := "Double-wall vacuum insulated stainless steel bottle. Keeps drinks cold for 24 hours or hot for 12 hours. Features leak-proof design with premium finish."

  const Notebook := Product("minimalist-notebook-1", "Minimalist Notebook", 20, "Notebooks", NotebookDescription)
  const NotebookDescription := "Premium hardcover notebook with dotted pages. Perfect for journaling, note-taking, or creative work. Features high-quality paper and minimalist design."

  const PhoneCover := Product("phone-cover-1", "Phone Cover", 18, "Phone Covers", PhoneCoverDescription)
  const PhoneCoverDescription := "Minimalist phone case providing excellent protection with style. Available for various phone models. Features precise cutouts and premium materials."

  const Hoodie := Product("luxury-hoodie-1", "Premium Hoodie", 65, "Clothes", HoodieDescription)
  const HoodieDescription := "Ultra-soft premium cotton hoodie with minimalist design. Features subtle NADER branding and perfect fit. Ideal for casual luxury comfort."

  /** The shipped catalog, in display order. */
  const Catalog: seq<Product> := [TShirt, Mug, Bottle, Notebook, PhoneCover, Hoodie]

  // ---------------------------------------------------------------------
  // Lookup by id

  function HasId(id: string): Product -> bool {
    (p: Product) => p.id == id
  }

  /** `getProductById`: the first product with the id, or nothing. */
  function GetProductById(catalog: seq<Product>, id: string): (r: Option<Product>)
    ensures r.None? <==> forall i :: 0 <= i < |catalog| ==> catalog[i].id != id
    ensures r.Some? ==> r.value in catalog && r.value.id == id
  {
    var found := Seqs.Find(catalog, HasId(id));
    assert found.None? <==> forall i :: 0 <= i < |catalog| ==> !HasId(id)(catalog[i]);
    found
  }

  /** The product found is the one at the first index carrying the id. */
  lemma GetProductByIdFirst(catalog: seq<Product>, id: string, k: nat)
    requires k < |catalog| && catalog[k].id == id
    requires forall j :: 0 <= j < k ==> catalog[j].id != id
    ensures GetProductById(catalog, id) == Some(catalog[k])
  {
    Seqs.FindFirst(catalog, HasId(id), k);
  }

  // ---------------------------------------------------------------------
  // Filter by category

  function InCategory(category: string): Product -> bool {
    (p: Product) => p.category == category
  }

  /** `getProductsByCategory`. */
  function GetProductsByCategory(catalog: seq<Product>, category: string): seq<Product> {
    Seqs.Filter(catalog, InCategory(category))
  }

  /** Exactly the products of the category, in catalog order. */
  lemma GetProductsByCategorySpec(catalog: seq<Product>, category: string)
    ensures forall p :: p in GetProductsByCategory(catalog, category) <==> p in catalog && p.category == category
    ensures Seqs.IsSubsequence(GetProductsByCategory(catalog, category), catalog)
    ensures forall p :: multiset(GetProductsByCategory(catalog, category))[p]
                        == if p.category == category then multiset(catalog)[p] else 0
  {
    Seqs.FilterMultiplicity(catalog, InCategory(category));
    Seqs.FilterMembership(catalog, InCategory(category));
    Seqs.FilterIsSubsequence(catalog, InCategory(category));
  }

  // ---------------------------------------------------------------------
  // Text search

  /** `toLowerCase` on ASCII letters; every other character is kept. */
  function LowerChar(c: char): char {
    if 'A' <= c <= 'Z' then (c as int + 32) as char else c
  }

  function Lower(s: string): string {
    seq(|s|, i requires 0 <= i < |s| => LowerChar(s[i]))
  }

  /** Lowercasing twice is lowercasing once. */
  lemma LowerIdempotent(s: string)
    ensures Lower(Lower(s)) == Lower(s)
  {
  }

  /** `needle` occurs in `hay` starting at index `i`. */
  predicate OccursAt(hay: string, needle: string, i: nat) {
    i + |needle| <= |hay| && hay[i..i + |needle|] == needle
  }

  /** `hay.includes(needle)`. */
  function Includes(hay: string, needle: string): bool
    decreases |hay|
  {
    if |needle| <= |hay| && hay[..|needle|] == needle then true
    else if |hay| == 0 then false
    else Includes(hay[1..], needle)
  }

  /** `includes` holds iff the needle occurs at some index. */
  lemma IncludesSpec(hay: string, needle: string)
    ensures Includes(hay, needle) <==> exists i :: 0 <= i <= |hay| && OccursAt(hay, needle, i)
  {
    if Includes(hay, needle) {
      var i := IncludesWitness(hay, needle);
    }
    forall i | 0 <= i <= |hay| && OccursAt(hay, needle, i) ensures Includes(hay, needle) {
      IncludesAt(hay, needle, i);
    }
  }

  /** Where `includes` holds, the needle occurs at some index. */
  lemma {:induction false} IncludesWitness(hay: string, needle: string) returns (i: nat)
    requires Includes(hay, needle)
    ensures i <= |hay| && OccursAt(hay, needle, i)
    decreases |hay|
  {
    if |needle| <= |hay| && hay[..|needle|] == needle {
      i := 0;
    } else {
      var tail := hay[1..];
      var j := IncludesWitness(tail, needle);
      assert hay[j + 1..j + 1 + |needle|] == tail[j..j + |needle|];
      i := j + 1;
    }
  }

  /** An occurrence at any index makes `includes` hold. */
  lemma {:induction false} IncludesAt(hay: string, needle: string, i: nat)
    requires i <= |hay| && OccursAt(hay, needle, i)
    ensures Includes(hay, needle)
    decreases i
  {
    if i > 0 && !(|needle| <= |hay| && hay[..|needle|] == needle) {
      var tail := hay[1..];
      assert tail[i - 1..i - 1 + |needle|] == hay[i..i + |needle|];
      IncludesAt(tail, needle, i - 1);
    }
  }

  /** The empty string is included in every string. */
  lemma IncludesEmpty(hay: string)
    ensures Includes(hay, "")
  {
    assert hay[..0] == "";
  }

  /** The search predicate for an already lowercased query. */
  function MatchesQuery(lowercaseQuery: string): Product -> bool {
    (p: Product) =>
      Includes(Lower(p.name), lowercaseQuery)
      || Includes(Lower(p.description), lowercaseQuery)
      || Includes(Lower(p.category), lowercaseQuery)
  }

  /** `searchProducts`. */
  function SearchProducts(catalog: seq<Product>, query: string): seq<Product> {
    Seqs.Filter(catalog, MatchesQuery(Lower(query)))
  }

  /** The query matches a text field when its lowercased form occurs in the
      field's lowercased form. */
  ghost predicate FieldMatches(field: string, query: string) {
    exists i :: 0 <= i <= |Lower(field)| && OccursAt(Lower(field), Lower(query), i)
  }

  /** A product is found iff it is in the catalog and the query matches its
      name, description or category; the results keep catalog order. */
  lemma SearchProductsSpec(catalog: seq<Product>, query: string)
    ensures forall p :: p in SearchProducts(catalog, query) <==>
              p in catalog
              && (FieldMatches(p.name, query) || FieldMatches(p.description, query)
                  || FieldMatches(p.category, query))
    ensures Seqs.IsSubsequence(SearchProducts(catalog, query), catalog)
    ensures forall p :: multiset(SearchProducts(catalog, query))[p]
                        == if FieldMatches(p.name, query) || FieldMatches(p.description, query)
                              || FieldMatches(p.category, query)
                           then multiset(catalog)[p] else 0
  {
    var q := Lower(query);
    Seqs.FilterMultiplicity(catalog, MatchesQuery(q));
    Seqs.FilterMembership(catalog, MatchesQuery(q));
    Seqs.FilterIsSubsequence(catalog, MatchesQuery(q));
    forall p: Product
      ensures MatchesQuery(q)(p) <==>
        (FieldMatches(p.name, query) || FieldMatches(p.description, query)
         || FieldMatches(p.category, query))
    {
      IncludesSpec(Lower(p.name), q);
      IncludesSpec(Lower(p.description), q);
      IncludesSpec(Lower(p.category), q);
    }
  }

  /** The empty query finds the whole catalog. */
  lemma SearchEmptyQuery(catalog: seq<Product>)
    ensures SearchProducts(catalog, "") == catalog
  {
    assert Lower("") == "";
    forall i | 0 <= i < |catalog| ensures MatchesQuery("")(catalog[i]) {
      IncludesEmpty(Lower(catalog[i].name));
    }
    Seqs.FilterKeepsAll(catalog, MatchesQuery(""));
  }

  /** The case of the query's letters does not change the result. */
  lemma SearchIgnoresQueryCase(catalog: seq<Product>, query: string)
    ensures SearchProducts(catalog, query) == SearchProducts(catalog, Lower(query))
  {
    LowerIdempotent(query);
  }

  // ---------------------------------------------------------------------
  // Category list

  /** `Array.from(new Set(products.map(p => p.category)))`: each category
      once, in the order it is first met. */
  function DistinctCategories(catalog: seq<Product>): seq<string> {
    if |catalog| == 0 then []
    else
      var seen := DistinctCategories(catalog[..|catalog| - 1]);
      var c := catalog[|catalog| - 1].category;
      if c in seen then seen else seen + [c]
  }

  /** Some product of the catalog has the category. */
  ghost predicate HasCategory(catalog: seq<Product>, c: string) {
    exists i :: 0 <= i < |catalog| && catalog[i].category == c
  }

  /** Every product of category `b` comes after some product of category
      `a`: `a` is first met before `b`. */
  ghost predicate MetBefore(catalog: seq<Product>, a: string, b: string) {
    forall m :: 0 <= m < |catalog| && catalog[m].category == b ==>
      exists l :: 0 <= l < m && catalog[l].category == a
  }

  /** The distinct categories: no repeats, exactly the categories in use,
      in first-occurrence order. */
  lemma {:induction false} DistinctCategoriesSpec(catalog: seq<Product>)
    ensures forall i, j :: 0 <= i < j < |DistinctCategories(catalog)| ==>
              DistinctCategories(catalog)[i] != DistinctCategories(catalog)[j]
    ensures forall c :: c in DistinctCategories(catalog) <==> HasCategory(catalog, c)
    ensures forall i, j :: 0 <= i < j < |DistinctCategories(catalog)| ==>
              MetBefore(catalog, DistinctCategories(catalog)[i], DistinctCategories(catalog)[j])
  {
    if |catalog| > 0 {
      var init := catalog[..|catalog| - 1];
      var last := |catalog| - 1;
      var x := catalog[last].category;
      DistinctCategoriesSpec(init);
      var d0 := DistinctCategories(init);
      var d := DistinctCategories(catalog);
      forall c ensures HasCategory(catalog, c) <==> HasCategory(init, c) || c == x {
        if HasCategory(catalog, c) && c != x {
          var i :| 0 <= i < |catalog| && catalog[i].category == c;
          assert init[i] == catalog[i];
        }
        if HasCategory(init, c) {
          var i :| 0 <= i < |init| && init[i].category == c;
          assert catalog[i] == init[i];
        }
      }
      forall i, j | 0 <= i < j < |d| ensures MetBefore(catalog, d[i], d[j]) {
        forall m | 0 <= m < |catalog| && catalog[m].category == d[j]
          ensures exists l :: 0 <= l < m && catalog[l].category == d[i]
        {
          assert d[i] in d0;
          if m < last {
            assert init[m] == catalog[m];
            if j < |d0| {
              assert MetBefore(init, d0[i], d0[j]);
              var l :| 0 <= l < m && init[l].category == d[i];
              assert catalog[l] == init[l];
            } else {
              // d[j] is the new category x, which no earlier product has
              assert false;
            }
          } else {
            assert HasCategory(init, d[i]);
            var l :| 0 <= l < |init| && init[l].category == d[i];
            assert catalog[l] == init[l];
          }
        }
      }
    }
  }

  /** How many products of the catalog are in the category. */
  function CategoryCount(catalog: seq<Product>, category: string): int {
    |GetProductsByCategory(catalog, category)|
  }

  /** `getCategories`. */
  function GetCategories(catalog: seq<Product>): seq<CategoryFilter> {
    var cats := DistinctCategories(catalog);
    seq(|cats|, i requires 0 <= i < |cats| =>
      CategoryFilter(cats[i], CategoryCount(catalog, cats[i]), false))
  }

  function SumCounts(fs: seq<CategoryFilter>): int {
    if |fs| == 0 then 0 else SumCounts(fs[..|fs| - 1]) + fs[|fs| - 1].count
  }

  /** The category list names each category in use once, in first-occurrence
      order, inactive, with its product count; the counts add up to the size
      of the catalog. */
  lemma GetCategoriesSpec(catalog: seq<Product>)
    ensures forall c :: (exists i :: 0 <= i < |GetCategories(catalog)| && GetCategories(catalog)[i].category == c)
                        <==> HasCategory(catalog, c)
    ensures forall i, j :: 0 <= i < j < |GetCategories(catalog)| ==>
              GetCategories(catalog)[i].category != GetCategories(catalog)[j].category
              && MetBefore(catalog, GetCategories(catalog)[i].category, GetCategories(catalog)[j].category)
    ensures forall i :: 0 <= i < |GetCategories(catalog)| ==>
              !GetCategories(catalog)[i].active
              && GetCategories(catalog)[i].count == |GetProductsByCategory(catalog, GetCategories(catalog)[i].category)|
    ensures SumCounts(GetCategories(catalog)) == |catalog|
  {
    CategoriesAreDistinct(catalog);
    CountsSumToSize(catalog);
    SumCountsIsSumOver(catalog, DistinctCategories(catalog));
  }

  lemma CategoriesAreDistinct(catalog: seq<Product>)
    ensures forall c :: (exists i :: 0 <= i < |GetCategories(catalog)| && GetCategories(catalog)[i].category == c)
                        <==> HasCategory(catalog, c)
    ensures forall i, j :: 0 <= i < j < |GetCategories(catalog)| ==>
              GetCategories(catalog)[i].category != GetCategories(catalog)[j].category
              && MetBefore(catalog, GetCategories(catalog)[i].category, GetCategories(catalog)[j].category)
  {
    var d := DistinctCategories(catalog);
    var fs := GetCategories(catalog);
    DistinctCategoriesSpec(catalog);
    forall c ensures (exists i :: 0 <= i < |fs| && fs[i].category == c) <==> c in d {
      if c in d {
        var i :| 0 <= i < |d| && d[i] == c;
        assert fs[i].category == c;
      }
    }
  }

  /** The sum of the counts of a list of categories. */
  function SumOver(catalog: seq<Product>, cats: seq<string>): int {
    if |cats| == 0 then 0
    else SumOver(catalog, cats[..|cats| - 1]) + CategoryCount(catalog, cats[|cats| - 1])
  }

  lemma {:induction false} SumCountsIsSumOver(catalog: seq<Product>, cats: seq<string>)
    ensures SumCounts(seq(|cats|, i requires 0 <= i < |cats| =>
              CategoryFilter(cats[i], CategoryCount(catalog, cats[i]), false)))
         == SumOver(catalog, cats)
  {
    var fs := seq(|cats|, i requires 0 <= i < |cats| =>
                CategoryFilter(cats[i], CategoryCount(catalog, cats[i]), false));
    if |cats| > 0 {
      var c0 := cats[..|cats| - 1];
      SumCountsIsSumOver(catalog, c0);
      assert fs[..|fs| - 1] == seq(|c0|, i requires 0 <= i < |c0| =>
               CategoryFilter(c0[i], CategoryCount(catalog, c0[i]), false));
    }
  }

  /** Appending one product raises its category's count by one. */
  lemma CategoryCountAppend(catalog: seq<Product>, p: Product, c: string)
    ensures CategoryCount(catalog + [p], c) == CategoryCount(catalog, c) + (if p.category == c then 1 else 0)
  {
    Seqs.FilterAppend(catalog, [p], InCategory(c));
    assert [p][..0] == [];
  }

  lemma {:induction false} SumOverAppend(catalog: seq<Product>, p: Product, cats: seq<string>)
    requires forall i, j :: 0 <= i < j < |cats| ==> cats[i] != cats[j]
    ensures SumOver(catalog + [p], cats) == SumOver(catalog, cats) + (if p.category in cats then 1 else 0)
  {
    if |cats| > 0 {
      var c0 := cats[..|cats| - 1];
      SumOverAppend(catalog, p, c0);
      CategoryCountAppend(catalog, p, cats[|cats| - 1]);
      assert cats == c0 + [cats[|cats| - 1]];
      if p.category == cats[|cats| - 1] {
        assert p.category !in c0;
      }
    }
  }

  /** A category no product has counts zero. */
  lemma CategoryCountAbsent(catalog: seq<Product>, c: string)
    requires !HasCategory(catalog, c)
    ensures CategoryCount(catalog, c) == 0
  {
    Seqs.FilterDropsAll(catalog, InCategory(c));
  }

  lemma {:induction false} CountsSumToSize(catalog: seq<Product>)
    ensures SumOver(catalog, DistinctCategories(catalog)) == |catalog|
  {
    if |catalog| > 0 {
      var init := catalog[..|catalog| - 1];
      var p := catalog[|catalog| - 1];
      assert catalog == init + [p];
      CountsSumToSize(init);
      var d0 := DistinctCategories(init);
      DistinctCategoriesSpec(init);
      SumOverAppend(init, p, d0);
      if p.category !in d0 {
        CategoryCountAppend(init, p, p.category);
        CategoryCountAbsent(init, p.category);
      }
    }
  }

  // ---------------------------------------------------------------------
  // The shipped catalog

  lemma ShippedLookup()
    ensures GetProductById(Catalog, "black-mug-1") == Some(Mug)
  {
    GetProductByIdFirst(Catalog, "black-mug-1", 1);
  }

  lemma ShippedLookupUnknown()
    ensures GetProductById(Catalog, "gift-card-1") == None
  {
  }

  lemma ShippedClothes()
    ensures GetProductsByCategory(Catalog, "Clothes") == [TShirt, Hoodie]
  {
    var f := InCategory("Clothes");
    assert [TShirt][..0] == [];
    assert Seqs.Filter([TShirt], f) == [TShirt];
    assert [TShirt, Mug][..1] == [TShirt];
    assert Seqs.Filter([TShirt, Mug], f) == [TShirt];
    assert [TShirt, Mug, Bottle][..2] == [TShirt, Mug];
    assert Seqs.Filter([TShirt, Mug, Bottle], f) == [TShirt];
    assert [TShirt, Mug, Bottle, Notebook][..3] == [TShirt, Mug, Bottle];
    assert Seqs.Filter([TShirt, Mug, Bottle, Notebook], f) == [TShirt];
    assert Catalog[..5] == [TShirt, Mug, Bottle, Notebook, PhoneCover];
    assert [TShirt, Mug, Bottle, Notebook, PhoneCover][..4] == [TShirt, Mug, Bottle, Notebook];
    assert Seqs.Filter(Catalog[..5], f) == [TShirt];
  }
}
