/**
  The "Related articles" block: on a node's page, the other nodes that share
  one of its tags, newest first.
 */
module RelatedArticlesBlock {
  import opened Entities
  import opened ArticleQuery
  import opened BasicPagesHelper

  /** Lines 107-110: the route's node parameter is a node with a non-empty `field_tags`. */
  predicate HasTags(routeNode: Option<Entity>)
  {
    routeNode.Some? && routeNode.value.NodeEntity?
    && routeNode.value.node.tags.Some? && routeNode.value.node.tags.value != []
  }

  /** Line 114: the `target_id` of each `field_tags` value. */
  function TagIds(tags: seq<ReferenceItem>): (r: seq<nat>)
    ensures |r| == |tags|
    ensures forall i | 0 <= i < |tags| :: r[i] == tags[i].targetId
    ensures forall x :: x in r <==> exists i | 0 <= i < |tags| :: tags[i].targetId == x
  {
    seq(|tags|, i requires 0 <= i < |tags| => tags[i].targetId)
  }

  /** Lines 115-121: the query the block runs for `node`. */
  function RelatedQuery(node: Node): Query
    requires node.tags.Some?
  {
    Query(TagsIn(TagIds(node.tags.value)), node.nid)
  }

  /** `a` references at least one of the tags `node` references. */
  ghost predicate SharesTag(a: Node, node: Node)
  {
    a.tags.Some? && node.tags.Some?
    && exists i, j :: 0 <= i < |a.tags.value| && 0 <= j < |node.tags.value|
                      && a.tags.value[i].targetId == node.tags.value[j].targetId
  }

  /**
    Lines 114-121: the selected articles are the stored nodes other than
    `node` that share a tag with it, all of them, newest first.
   */
  lemma RelatedSelection(site: Site, node: Node)
    requires node.tags.Some?
    ensures var selected := Execute(site.nodes, RelatedQuery(node));
            && NewestFirst(selected)
            && (forall a :: a in selected <==> a in site.nodes && a.nid != node.nid && SharesTag(a, node))
  {
    var tags := TagIds(node.tags.value);
    forall a ensures SatisfiesCondition(a, TagsIn(tags)) <==> SharesTag(a, node) {
      if SatisfiesCondition(a, TagsIn(tags)) {
        var i :| 0 <= i < |a.tags.value| && a.tags.value[i].targetId in tags;
        var j :| 0 <= j < |tags| && tags[j] == a.tags.value[i].targetId;
        assert a.tags.value[i].targetId == node.tags.value[j].targetId;
      }
      if SharesTag(a, node) {
        var i, j :| 0 <= i < |a.tags.value| && 0 <= j < |node.tags.value|
                    && a.tags.value[i].targetId == node.tags.value[j].targetId;
        assert tags[j] == a.tags.value[i].targetId;
      }
    }
  }

  /**
    Lines 102-151: `build()`. Empty without a node with tags or when nothing is
    selected; otherwise the "Related Articles" heading, the link to the
    `articles_overview` basic page and one item per selected article, in order.
   */
  method Build(site: Site, routeNode: Option<Entity>) returns (build: Render)
    ensures !HasTags(routeNode) ==> build == EmptyRender
    ensures HasTags(routeNode) ==>
              var articles := Execute(site.nodes, RelatedQuery(routeNode.value.node));
              build == if articles == [] then EmptyRender
                       else ArticleList(RelatedArticles, GetUrl(site, "articles_overview"), ItemsOf(articles))
  {
    if !HasTags(routeNode) {
      return EmptyRender;
    }
    var node := routeNode.value.node;
    var tags := TagIds(node.tags.value);
    var articles := Execute(site.nodes, Query(TagsIn(tags), node.nid));
    if articles == [] {
      return EmptyRender;
    }
    var items := RenderItems(articles);
    build := ArticleList(RelatedArticles, GetUrl(site, "articles_overview"), items);
  }
}
