/**
  The "Related articles by country" block: on a node's page, the other nodes
  whose country is the node's address country, newest first.
 */
module RelatedArticlesByCountryBlock {
  import opened Entities
  import opened ArticleQuery
  import opened BasicPagesHelper

  /** Lines 108-111: the route's node parameter is a node with a non-empty `field_address`. */
  predicate HasAddress(routeNode: Option<Entity>)
  {
    routeNode.Some? && routeNode.value.NodeEntity?
    && routeNode.value.node.address.Some? && routeNode.value.node.address.value != []
  }

  /** Line 115: the field's `country_code`, which is that of its first value. */
  function CountryCode(node: Node): (r: string)
    requires node.address.Some? && node.address.value != []
    ensures Address(r) == node.address.value[0]
  {
    node.address.value[0].countryCode
  }

  /** Lines 116-122: the query the block runs for `node`. */
  function CountryQuery(node: Node): Query
    requires node.address.Some? && node.address.value != []
  {
    Query(CountryIn(CountryCode(node)), node.nid)
  }

  /**
    Lines 115-122: the selected articles are the stored nodes other than
    `node` whose `field_country` holds the node's country code, all of them,
    newest first.
   */
  lemma CountrySelection(site: Site, node: Node)
    requires node.address.Some? && node.address.value != []
    ensures var selected := Execute(site.nodes, CountryQuery(node));
            && NewestFirst(selected)
            && (forall a :: a in selected <==>
                  a in site.nodes && a.nid != node.nid && a.country.Some? && CountryCode(node) in a.country.value)
  {
  }

  /** Line 142: the standard-list name of the country, or null when the code is not listed. */
  function CountryName(countryList: map<string, string>, code: string): (r: Option<string>)
    ensures r.Some? <==> code in countryList
    ensures r.Some? ==> r.value == countryList[code]
  {
    if code in countryList then Some(countryList[code]) else None
  }

  /**
    Lines 103-156: `build()`. Empty without a node with an address or when
    nothing is selected; otherwise the "Articles from" heading with the
    country's name, the link to the `articles_overview` basic page and one item
    per selected article, in order.
   */
  method Build(site: Site, routeNode: Option<Entity>, countryList: map<string, string>) returns (build: Render)
    ensures !HasAddress(routeNode) ==> build == EmptyRender
    ensures HasAddress(routeNode) ==>
              var node := routeNode.value.node;
              var articles := Execute(site.nodes, CountryQuery(node));
              build == if articles == [] then EmptyRender
                       else ArticleList(ArticlesFrom(CountryName(countryList, CountryCode(node))),
                                        GetUrl(site, "articles_overview"), ItemsOf(articles))
  {
    if !HasAddress(routeNode) {
      return EmptyRender;
    }
    var node := routeNode.value.node;
    var countryCode := node.address.value[0].countryCode;
    var articles := Execute(site.nodes, Query(CountryIn(countryCode), node.nid));
    if articles == [] {
      return EmptyRender;
    }
    var items := RenderItems(articles);
    var heading := ArticlesFrom(if countryCode in countryList then Some(countryList[countryCode]) else None);
    build := ArticleList(heading, GetUrl(site, "articles_overview"), items);
  }
}
