/**
  The product catalogue page (src/pages/Products.tsx): the three narrowing
  passes that compute the visible products, the per-category item count,
  the heading for the selected category, and the defaulting of the URL's
  `category` and `featured` parameters.
 */
module Products {
  import opened Wrappers
  import opened Seqs
  import opened Text

  datatype Category = Category(id: string, name: string)

  /** A catalogue entry; `category` and `featured` may be missing. */
  datatype Product = Product(
    id: string,
    name: string,
    price: real,
    image: string,
    category: Option<Category>,
    featured: Option<bool>)

  /** The filter controls: category selector, featured-only switch, search box. */
  datatype FilterState = FilterState(selectedCategory: string, featuredOnly: bool, searchTerm: string)

  /** Sentinel selector value meaning "no category restriction". */
  const AllSelector: string := "all"

  /** Heading shown when no particular category is selected or known. */
  const AllProductsTitle: string := "All Products"

  /** Featured means the flag is present and true; a missing or false flag does not count. */
  predicate IsFeatured(p: Product) {
    p.featured == Some(true)
  }

  /** The category pass runs for any selector other than the empty string and `'all'`. */
  predicate CategoryPassActive(selected: string) {
    selected != "" && selected != AllSelector
  }

  /** The category test: identifier equal, or name equal ignoring case; no category never matches. */
  predicate InCategory(p: Product, selected: string) {
    p.category.Some? &&
    (p.category.value.id == selected || Lower(p.category.value.name) == Lower(selected))
  }

  /** The search pass runs when the term is not blank once trimmed. */
  predicate SearchPassActive(term: string) {
    Trim(term) != ""
  }

  /** The name test, against the lowered but UNtrimmed term. */
  predicate NameMatches(p: Product, term: string) {
    Includes(Lower(p.name), Lower(term))
  }

  /**
    Reference definition of visibility, one product at a time: every active
    criterion holds.  Inactive criteria impose nothing.
   */
  predicate Visible(p: Product, st: FilterState) {
    && (st.featuredOnly ==> IsFeatured(p))
    && (CategoryPassActive(st.selectedCategory) ==> InCategory(p, st.selectedCategory))
    && (SearchPassActive(st.searchTerm) ==> NameMatches(p, st.searchTerm))
  }

  /** The filtering effect: featured pass, then category pass, then search pass, each only when active. */
  function FilterProducts(all: seq<Product>, st: FilterState): (r: seq<Product>)
    ensures |r| <= |all|
    ensures forall p :: p in r <==> p in all && Visible(p, st)
  {
    var sel, term := st.selectedCategory, st.searchTerm;
    var inCategory: Product -> bool := p => InCategory(p, sel);
    var matches: Product -> bool := p => NameMatches(p, term);
    var afterFeatured := if st.featuredOnly then Filter(all, IsFeatured) else all;
    PassMembership(all, st.featuredOnly, IsFeatured);
    var afterCategory :=
      if CategoryPassActive(sel) then Filter(afterFeatured, inCategory) else afterFeatured;
    PassMembership(afterFeatured, CategoryPassActive(sel), inCategory);
    var r := if SearchPassActive(term) then Filter(afterCategory, matches) else afterCategory;
    PassMembership(afterCategory, SearchPassActive(term), matches);
    r
  }

  /** A pass, active or not, keeps exactly the members that pass its test when it is active. */
  lemma PassMembership(xs: seq<Product>, active: bool, keep: Product -> bool)
    ensures var ys := if active then Filter(xs, keep) else xs;
            |ys| <= |xs| && forall p :: p in ys <==> p in xs && (active ==> keep(p))
  {
  }

  /** A pass, active or not, is a filter by the predicate "active implies keep". */
  lemma PassAsFilter(xs: seq<Product>, active: bool, keep: Product -> bool, pass: Product -> bool)
    requires forall p :: pass(p) <==> (active ==> keep(p))
    ensures (if active then Filter(xs, keep) else xs) == Filter(xs, pass)
  {
    if active {
      FilterSamePredicate(xs, keep, pass);
    } else {
      FilterAll(xs, pass);
    }
  }

  /** The three passes together are a single filter by `Visible`, so order is preserved. */
  lemma FilterIsSinglePass(all: seq<Product>, st: FilterState)
    ensures FilterProducts(all, st) == Filter(all, p => Visible(p, st))
  {
    var sel, term := st.selectedCategory, st.searchTerm;
    var f: Product -> bool := p => st.featuredOnly ==> IsFeatured(p);
    var c: Product -> bool := p => CategoryPassActive(sel) ==> InCategory(p, sel);
    var s: Product -> bool := p => SearchPassActive(term) ==> NameMatches(p, term);
    var a := if st.featuredOnly then Filter(all, IsFeatured) else all;
    PassAsFilter(all, st.featuredOnly, IsFeatured, f);
    var b := if CategoryPassActive(sel) then Filter(a, p => InCategory(p, sel)) else a;
    PassAsFilter(a, CategoryPassActive(sel), p => InCategory(p, sel), c);
    PassAsFilter(b, SearchPassActive(term), p => NameMatches(p, term), s);
    FilterThree(all, f, c, s, p => Visible(p, st));
  }

  /** The visible products are a subsequence of the catalogue: order kept, nothing invented. */
  lemma FilterKeepsOrder(all: seq<Product>, st: FilterState)
    ensures IsSubsequence(FilterProducts(all, st), all)
  {
    FilterIsSinglePass(all, st);
    FilterIsSubsequence(all, p => Visible(p, st));
  }

  /** Filtering the visible products again with the same controls changes nothing. */
  lemma FilterIdempotentProducts(all: seq<Product>, st: FilterState)
    ensures FilterProducts(FilterProducts(all, st), st) == FilterProducts(all, st)
  {
    var r := FilterProducts(all, st);
    FilterIsSinglePass(all, st);
    FilterIsSinglePass(r, st);
    FilterIdempotent(all, p => Visible(p, st));
  }

  /** An empty catalogue shows nothing, whatever the controls. */
  lemma FilterEmpty(st: FilterState)
    ensures FilterProducts([], st) == []
  {
  }

  /** With no control active every product is shown, in catalogue order. */
  lemma FilterInactiveIsIdentity(all: seq<Product>, st: FilterState)
    requires !st.featuredOnly && !CategoryPassActive(st.selectedCategory) && !SearchPassActive(st.searchTerm)
    ensures FilterProducts(all, st) == all
  {
  }

  /** The selectors `'all'` and `''` both skip the category pass, and so show the same list. */
  lemma CategoryAllOrEmptySkipped(all: seq<Product>, featuredOnly: bool, term: string)
    ensures FilterProducts(all, FilterState("", featuredOnly, term))
         == FilterProducts(all, FilterState(AllSelector, featuredOnly, term))
  {
  }

  /** A search term made only of white space is no search at all. */
  lemma BlankSearchIsNoOp(all: seq<Product>, st: FilterState)
    requires forall i :: 0 <= i < |st.searchTerm| ==> IsJsWhitespace(st.searchTerm[i])
    ensures FilterProducts(all, st) == FilterProducts(all, st.(searchTerm := ""))
  {
    TrimEmptyIffBlank(st.searchTerm);
  }

  /** With an active search, a product is shown only if its lowered name contains the lowered term. */
  lemma SearchSound(all: seq<Product>, st: FilterState, p: Product)
    ensures SearchPassActive(st.searchTerm) && p in FilterProducts(all, st)
            ==> exists i: nat :: OccursAt(Lower(p.name), Lower(st.searchTerm), i)
  {
    IncludesIffOccurs(Lower(p.name), Lower(st.searchTerm));
  }

  /** The search is case-insensitive: lowering the term first shows the same products. */
  lemma SearchIgnoresCase(all: seq<Product>, st: FilterState)
    ensures FilterProducts(all, st) == FilterProducts(all, st.(searchTerm := Lower(st.searchTerm)))
  {
    var st' := st.(searchTerm := Lower(st.searchTerm));
    LowerIdempotent(st.searchTerm);
    TrimEmptyUnderLower(st.searchTerm);
    assert SearchPassActive(st.searchTerm) == SearchPassActive(st'.searchTerm);
    forall p | p in all
      ensures Visible(p, st) <==> Visible(p, st')
    {
      assert NameMatches(p, st.searchTerm) == NameMatches(p, st'.searchTerm);
    }
    FilterIsSinglePass(all, st);
    FilterIsSinglePass(all, st');
    FilterSamePredicate(all, p => Visible(p, st), p => Visible(p, st'));
    assert FilterProducts(all, st) == Filter(all, p => Visible(p, st));
  }

  /**
    The term is lowered but not trimmed: typing the exact (non-blank) name
    of a product with a leading space hides that product.
   */
  lemma SearchTermIsNotTrimmed(all: seq<Product>, st: FilterState, p: Product)
    requires Trim(p.name) != ""
    requires st.searchTerm == " " + p.name
    ensures p !in FilterProducts(all, st)
  {
    var term := st.searchTerm;
    TrimEmptyIffBlank(p.name);
    TrimEmptyIffBlank(term);
    var i :| 0 <= i < |p.name| && !IsJsWhitespace(p.name[i]);
    assert term[i + 1] == p.name[i];
    assert SearchPassActive(term);
    assert !Visible(p, st);
  }

  /** The category the product is filed under has exactly this identifier. */
  predicate HasCategoryId(p: Product, id: string) {
    p.category.Some? && p.category.value.id == id
  }

  /**
    Item count shown beside a category: the whole catalogue for `'all'`, otherwise the
    number of products filed under identifier `id`.  It reads only the
    unfiltered catalogue, so no filter control can affect it.
   */
  function CategoryCount(all: seq<Product>, id: string): (n: nat)
    ensures n <= |all|
    ensures id == AllSelector ==> n == |all|
    ensures id != AllSelector ==> n == Count(all, p => HasCategoryId(p, id))
  {
    if id == AllSelector then |all|
    else
      FilterLengthIsCount(all, p => HasCategoryId(p, id));
      |Filter(all, p => HasCategoryId(p, id))|
  }

  /** Selecting a category never shows fewer products than its count promises (names may add more). */
  lemma CategoryCountAtMostShown(all: seq<Product>, id: string)
    requires CategoryPassActive(id)
    ensures CategoryCount(all, id) <= |FilterProducts(all, FilterState(id, false, ""))|
  {
    var st := FilterState(id, false, "");
    FilterIsSinglePass(all, st);
    FilterLengthIsCount(all, p => Visible(p, st));
    CountMonotone(all, p => HasCategoryId(p, id), p => Visible(p, st));
  }

  /**
    Heading for the selected category: the title for `'all'` or an unknown id,
    otherwise the name of the first category with that id.
   */
  function SelectedCategoryName(categories: seq<Category>, selected: string): (title: string)
    ensures selected == AllSelector ==> title == AllProductsTitle
    ensures selected != AllSelector && (forall i :: 0 <= i < |categories| ==> categories[i].id != selected)
            ==> title == AllProductsTitle
    ensures selected != AllSelector ==>
              forall i :: 0 <= i < |categories| && categories[i].id == selected
                          && (forall j :: 0 <= j < i ==> categories[j].id != selected)
                          ==> title == categories[i].name
  {
    if selected == AllSelector then AllProductsTitle
    else
      match Find(categories, (c: Category) => c.id == selected)
      case Some(c) => c.name
      case None => AllProductsTitle
  }

  /** The URL query parameters, as a map from key to its first value. */
  type UrlParams = map<string, string>

  /**
    Syncing the controls with the URL: a missing or empty category parameter
    means `'all'`, featured-only holds only for the exact text `'true'`, and
    the search term is untouched.
   */
  function ApplyUrlParams(st: FilterState, params: UrlParams): (r: FilterState)
    ensures r.searchTerm == st.searchTerm
    ensures r.selectedCategory != ""
    ensures r.featuredOnly <==> "featured" in params && params["featured"] == "true"
    ensures !CategoryPassActive(r.selectedCategory) <==>
              ("category" !in params || params["category"] in {"", AllSelector})
    ensures CategoryPassActive(r.selectedCategory) ==> r.selectedCategory == params["category"]
  {
    var category := if "category" in params && params["category"] != "" then params["category"] else AllSelector;
    var featured := "featured" in params && params["featured"] == "true";
    st.(selectedCategory := category, featuredOnly := featured)
  }

  /** A URL with neither parameter shows the whole catalogue until a search is typed. */
  lemma BareUrlShowsEverything(all: seq<Product>, st: FilterState, params: UrlParams)
    requires "category" !in params && "featured" !in params
    requires !SearchPassActive(st.searchTerm)
    ensures FilterProducts(all, ApplyUrlParams(st, params)) == all
  {
  }
}
