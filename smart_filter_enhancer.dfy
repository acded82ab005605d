/** The page-load decision of the smart filter enhancer: on the all-products
    collection, add the modest filter to the query when it is not already
    the first value of its parameter; on one of four retailer collections,
    go to the all-products collection filtered by modest and by that
    retailer. Each decision yields the href the script would assign to
    window.location.href. */
module SmartFilterEnhancer {
  import opened Wrappers
  import opened FormUrlencoded
  import opened SearchParams

  const ModestFilterParam: string := "gf_516964"
  const ModestFilterValue: string := "Modest"
  const RetailerFilterParam: string := "gf_516921"
  const AllProductsPath: string := "/collections/all"
  const PageParam: string := "page"

  /** The two parts of window.location the script reads. */
  datatype Location = Location(pathname: string, search: string)

  /** new URLSearchParams(location.search): a leading '?' is dropped, the
      rest is parsed as application/x-www-form-urlencoded. */
  function ParamsOf(loc: Location): (q: Query)
    ensures |q| <= |loc.search|
  {
    if |loc.search| > 0 && loc.search[0] == '?' then Parse(loc.search[1..]) else Parse(loc.search)
  }

  /** The location the browser lands on after an href of the form
      path?query (no fragment) is assigned: the path up to the first '?',
      and the search part, which is empty when the query is. */
  function Navigate(href: string): (loc: Location)
    ensures '?' !in loc.pathname
  {
    var i := IndexOf(href, '?');
    Location(href[..i], if i + 1 < |href| then href[i..] else "")
  }

  /** An href of the form path?query lands on that path, with the query
      behind a '?' as its search part, or no search part when the query is
      empty. */
  lemma NavigateJoin(path: string, query: string)
    requires '?' !in path
    ensures Navigate(path + "?" + query) == Location(path, if query == [] then "" else "?" + query)
  {
    var href := path + "?" + query;
    IndexOfJoin(path, '?', query);
    assert href[..|path|] == path;
    if query != [] {
      assert href[|path|..] == "?" + query;
    }
  }

  /** An href built as path + '?' + a serialized query lands on that path
      with exactly that query. */
  lemma LandOn(path: string, q: Query)
    requires '?' !in path
    ensures Navigate(path + "?" + Serialize(q)).pathname == path
    ensures ParamsOf(Navigate(path + "?" + Serialize(q))) == q
  {
    var s := Serialize(q);
    NavigateJoin(path, s);
    ParseSerialize(q);
    if s != [] {
      assert ("?" + s)[1..] == s;
    }
  }

  // ---------------------------------------------------------------------
  // Phase 1: the modest filter on the all-products collection
  // ---------------------------------------------------------------------

  /** The filter is applied on the all-products path unless the first value
      of the modest parameter already is "Modest"; an absent parameter
      counts as not applied. */
  function ShouldApplyModestFilter(loc: Location): (r: bool)
    ensures r <==>
      var q := ParamsOf(loc);
      var i := FirstIndex(q, ModestFilterParam);
      loc.pathname == AllProductsPath && (i == |q| || q[i].value != ModestFilterValue)
  {
    GetFirst(ParamsOf(loc), ModestFilterParam);
    loc.pathname == AllProductsPath && Get(ParamsOf(loc), ModestFilterParam) != Some(ModestFilterValue)
  }

  /** The href of the modest redirect: the all-products path with the
      current query, the modest parameter set to "Modest". The landing page
      has that parameter exactly once, and every other pair as it was, in
      its original order. */
  function ApplyModestFilter(loc: Location): (href: string)
    ensures Navigate(href).pathname == AllProductsPath
    ensures var landed := ParamsOf(Navigate(href));
      landed == Set(ParamsOf(loc), ModestFilterParam, ModestFilterValue) &&
      Get(landed, ModestFilterParam) == Some(ModestFilterValue) &&
      Count(landed, ModestFilterParam) == 1 &&
      Without(landed, ModestFilterParam) == Without(ParamsOf(loc), ModestFilterParam)
  {
    var q := Set(ParamsOf(loc), ModestFilterParam, ModestFilterValue);
    LandOn(AllProductsPath, q);
    GetSet(ParamsOf(loc), ModestFilterParam, ModestFilterValue);
    CountSet(ParamsOf(loc), ModestFilterParam, ModestFilterValue);
    WithoutSet(ParamsOf(loc), ModestFilterParam, ModestFilterValue);
    AllProductsPath + "?" + Serialize(q)
  }

  // ---------------------------------------------------------------------
  // Phase 2: retailer collections
  // ---------------------------------------------------------------------

  /** The retailer collections that are redirected. */
  function ShouldRedirectRetailerCollection(loc: Location): (r: bool)
    ensures r ==> !ShouldApplyModestFilter(loc)
    ensures r <==> RetailerName(loc.pathname).Some?
  {
    loc.pathname == "/collections/asos" || loc.pathname == "/collections/uniqlo" ||
    loc.pathname == "/collections/mango" || loc.pathname == "/collections/revolve"
  }

  /** The retailer filter value of each retailer collection path. */
  function RetailerName(pathname: string): (r: Option<string>)
    ensures r.Some? ==> r.value in {"ASOS", "Uniqlo", "Mango", "Revolve"}
    ensures r.Some? ==> pathname != AllProductsPath
  {
    if pathname == "/collections/asos" then Some("ASOS")
    else if pathname == "/collections/uniqlo" then Some("Uniqlo")
    else if pathname == "/collections/mango" then Some("Mango")
    else if pathname == "/collections/revolve" then Some("Revolve")
    else None
  }

  /** The query of the retailer redirect, built by successive sets on an
      empty list: the modest filter, the retailer filter, then the current
      page number when it is present and not empty. Nothing else of the
      current query survives. */
  function RetailerQuery(retailer: string, current: Query): (r: Query)
    ensures var page := Get(current, PageParam);
      r == [Param(ModestFilterParam, ModestFilterValue), Param(RetailerFilterParam, retailer)] +
           (if page.Some? && page.value != "" then [Param(PageParam, page.value)] else [])
  {
    var modest := Set([], ModestFilterParam, ModestFilterValue);
    assert RetailerFilterParam[7] != ModestFilterParam[7];
    SetAbsent(modest, RetailerFilterParam, retailer);
    var base := Set(modest, RetailerFilterParam, retailer);
    var page := Get(current, PageParam);
    if page.Some? && page.value != "" then
      assert PageParam[0] != ModestFilterParam[0] && PageParam[0] != RetailerFilterParam[0];
      SetAbsent(base, PageParam, page.value);
      Set(base, PageParam, page.value)
    else base
  }

  /** The href of the retailer redirect, or nothing on any other path. */
  function RedirectToFilteredAllProducts(loc: Location): (href: Option<string>)
    ensures href.Some? <==> ShouldRedirectRetailerCollection(loc)
    ensures href.Some? ==>
      Navigate(href.value).pathname == AllProductsPath &&
      ParamsOf(Navigate(href.value)) == RetailerQuery(RetailerName(loc.pathname).value, ParamsOf(loc))
  {
    match RetailerName(loc.pathname)
    case None => None
    case Some(retailer) =>
      var q := RetailerQuery(retailer, ParamsOf(loc));
      LandOn(AllProductsPath, q);
      Some(AllProductsPath + "?" + Serialize(q))
  }

  // ---------------------------------------------------------------------
  // The page-load decision
  // ---------------------------------------------------------------------

  /** The hrefs assigned on one page load, in order: both checks run, one
      after the other, and the two conditions never hold together, so at
      most one redirect happens. */
  function Init(loc: Location): (hrefs: seq<string>)
    ensures |hrefs| <= 1
    ensures hrefs == [] <==> !ShouldApplyModestFilter(loc) && !ShouldRedirectRetailerCollection(loc)
    ensures ShouldApplyModestFilter(loc) ==> hrefs == [ApplyModestFilter(loc)]
    ensures ShouldRedirectRetailerCollection(loc) ==> hrefs == [RedirectToFilteredAllProducts(loc).value]
  {
    (if ShouldApplyModestFilter(loc) then [ApplyModestFilter(loc)] else []) +
    (if ShouldRedirectRetailerCollection(loc)
     then match RedirectToFilteredAllProducts(loc)
          case Some(href) => [href]
          case None => []
     else [])
  }

  /** The modest redirect's target triggers no further redirect. */
  lemma ModestTargetIsFinal(loc: Location)
    requires ShouldApplyModestFilter(loc)
    ensures Init(Navigate(ApplyModestFilter(loc))) == []
  {
    var target := Navigate(ApplyModestFilter(loc));
    assert Get(ParamsOf(target), ModestFilterParam) == Some(ModestFilterValue);
  }

  /** The retailer redirect's target triggers no further redirect. */
  lemma RetailerTargetIsFinal(loc: Location)
    requires ShouldRedirectRetailerCollection(loc)
    ensures Init(Navigate(RedirectToFilteredAllProducts(loc).value)) == []
  {
    var target := Navigate(RedirectToFilteredAllProducts(loc).value);
    var q := ParamsOf(target);
    assert q[0] == Param(ModestFilterParam, ModestFilterValue);
    assert Get(q, ModestFilterParam) == Some(ModestFilterValue);
  }

  /** No redirect loop: wherever a page load sends the browser, the next
      page load stays. */
  lemma NoRedirectLoop(loc: Location)
    ensures forall href :: href in Init(loc) ==> Init(Navigate(href)) == []
  {
    if ShouldApplyModestFilter(loc) {
      ModestTargetIsFinal(loc);
    } else if ShouldRedirectRetailerCollection(loc) {
      RetailerTargetIsFinal(loc);
    }
  }
}
