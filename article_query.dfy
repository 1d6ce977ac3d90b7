/**
  What the two related-article blocks share: the node query they run, stated
  as its filter conditions and its sort, the render they build from the
  result, and the cache metadata they add.
 */
module ArticleQuery {
  import opened Entities

  /** The field condition of the query, with operator 'IN'. */
  datatype Condition =
    | TagsIn(tags: seq<nat>)           // field_tags IN tags
    | CountryIn(countryCode: string)   // field_country IN country code

  /** The query: the field condition, `nid != excludedNid`, sorted by `created` DESC. */
  datatype Query = Query(condition: Condition, excludedNid: nat)

  /** One rendered article: the node view builder's 'related' display of it. */
  datatype Item = RelatedView(nid: nat)

  /** The block heading. */
  datatype Heading =
    | RelatedArticles                  // "Related Articles"
    | ArticlesFrom(country: Option<string>)  // "Articles from @country"

  /** A block's render array: empty, or the heading, the "more articles" link and the items. */
  datatype Render = EmptyRender | ArticleList(heading: Heading, moreLink: Option<Url>, items: seq<Item>)

  predicate SatisfiesCondition(n: Node, c: Condition)
  {
    match c
    case TagsIn(tags) =>
      n.tags.Some? && exists i | 0 <= i < |n.tags.value| :: n.tags.value[i].targetId in tags
    case CountryIn(code) =>
      n.country.Some? && code in n.country.value
  }

  predicate Matches(n: Node, q: Query)
  {
    SatisfiesCondition(n, q.condition) && n.nid != q.excludedNid
  }

  /** The stored nodes the query's conditions keep, in storage order. */
  function Filter(nodes: seq<Node>, q: Query): (r: seq<Node>)
    ensures forall n :: n in r <==> n in nodes && Matches(n, q)
  {
    if nodes == [] then []
    else
      var rest := Filter(nodes[1..], q);
      assert forall n :: n in nodes <==> n == nodes[0] || n in nodes[1..];
      if Matches(nodes[0], q) then [nodes[0]] + rest else rest
  }

  ghost predicate NewestFirst(s: seq<Node>)
  {
    forall i, j :: 0 <= i < j < |s| ==> s[i].created >= s[j].created
  }

  /** Puts `x` before the first node that is older than it. */
  function Insert(x: Node, s: seq<Node>): seq<Node>
  {
    if s == [] || x.created >= s[0].created then [x] + s
    else [s[0]] + Insert(x, s[1..])
  }

  lemma {:induction false} InsertSpec(x: Node, s: seq<Node>)
    requires NewestFirst(s)
    ensures NewestFirst(Insert(x, s))
    ensures multiset(Insert(x, s)) == multiset(s) + multiset{x}
  {
    if s != [] && x.created < s[0].created {
      InsertSpec(x, s[1..]);
      var r := Insert(x, s[1..]);
      assert s == [s[0]] + s[1..];
      assert forall n :: n in r ==> n in s[1..] || n == x by {
        forall n | n in r ensures n in s[1..] || n == x {
          assert n in multiset(r);
        }
      }
      forall j | 0 < j < |[s[0]] + r| ensures s[0].created >= ([s[0]] + r)[j].created {
        assert ([s[0]] + r)[j] == r[j - 1];
        assert r[j - 1] in r;
      }
    }
  }

  /**
    `sort('created', 'DESC')`: a newest-first permutation of `s`, in which
    nodes of equal date keep their storage order.
   */
  function SortByCreatedDesc(s: seq<Node>): (r: seq<Node>)
    ensures NewestFirst(r)
    ensures multiset(r) == multiset(s)
  {
    if s == [] then []
    else
      var rest := SortByCreatedDesc(s[1..]);
      InsertSpec(s[0], rest);
      assert s == [s[0]] + s[1..];
      Insert(s[0], rest)
  }

  /**
    The ids the query's `execute()` gives, loaded in that order: exactly the
    stored nodes that meet the conditions, as a permutation of the filter's result,
    newest first.
   */
  function Execute(nodes: seq<Node>, q: Query): (r: seq<Node>)
    ensures NewestFirst(r)
    ensures multiset(r) == multiset(Filter(nodes, q))
    ensures forall n :: n in r <==> n in nodes && Matches(n, q)
  {
    var filtered := Filter(nodes, q);
    var r := SortByCreatedDesc(filtered);
    assert forall n :: n in r <==> n in filtered by {
      forall n ensures n in r <==> n in filtered {
        assert n in r <==> n in multiset(r);
        assert n in filtered <==> n in multiset(filtered);
      }
    }
    r
  }

  /** The items the loop over the loaded articles appends: one per article, in order. */
  function ItemsOf(articles: seq<Node>): (r: seq<Item>)
    ensures |r| == |articles|
    ensures forall i :: 0 <= i < |articles| ==> r[i].nid == articles[i].nid
  {
    seq(|articles|, i requires 0 <= i < |articles| => RelatedView(articles[i].nid))
  }

  /** The loop `$items[] = ...` over the loaded articles. */
  method RenderItems(articles: seq<Node>) returns (items: seq<Item>)
    ensures items == ItemsOf(articles)
  {
    items := [];
    for i := 0 to |articles|
      invariant items == ItemsOf(articles[..i])
    {
      var article := articles[i];
      items := items + [RelatedView(article.nid)];
    }
    assert articles[..|articles|] == articles;
  }

  const ArticleListTag: string := "node_list:article"
  const RouteContext: string := "route"

  /** `getCacheTags()`: the parent's tags with `node_list:article` merged in. */
  function CacheTags(parentTags: set<string>): (r: set<string>)
    ensures ArticleListTag in r && parentTags <= r
    ensures forall t :: t in r ==> t in parentTags || t == ArticleListTag
  {
    parentTags + {ArticleListTag}
  }

  /** `getCacheContexts()`: the parent's contexts with `route` merged in. */
  function CacheContexts(parentContexts: set<string>): (r: set<string>)
    ensures RouteContext in r && parentContexts <= r
    ensures forall c :: c in r ==> c in parentContexts || c == RouteContext
  {
    parentContexts + {RouteContext}
  }
}
