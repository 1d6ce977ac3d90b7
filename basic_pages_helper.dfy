/**
  The basic pages helper: resolving a basic page ID (the machine name of a
  term in the `basic_pages` vocabulary) to the node that references it, and a
  node back to its ID.

  Every operation here is a function: none of them changes a node, a term or
  the storage.
 */
module BasicPagesHelper {
  import opened Entities

  /**
    The reference item targets an existing term whose stored machine name is
    `id`. An empty machine name is no stored value, so no `id` matches it.
   */
  predicate LoadsTermWithMachineName(item: ReferenceItem, referenced: map<nat, Entity>, id: string)
  {
    item.targetId in referenced
    && referenced[item.targetId].TermEntity?
    && HasMachineName(referenced[item.targetId].term)
    && referenced[item.targetId].term.machineName == Some(id)
  }

  /**
    The node-storage query condition `field_page_id.entity.field_machine_name = id`:
    some value of the node's `field_page_id`, whichever delta, targets a term
    whose machine name is `id`.
   */
  predicate MatchesPageId(n: Node, referenced: map<nat, Entity>, id: string)
  {
    n.pageId.Some?
    && exists i | 0 <= i < |n.pageId.value| :: LoadsTermWithMachineName(n.pageId.value[i], referenced, id)
  }

  /** `k` is the position of the first node in `nodes` that matches `id`. */
  ghost predicate IsFirstMatch(nodes: seq<Node>, referenced: map<nat, Entity>, id: string, k: int)
  {
    0 <= k < |nodes|
    && MatchesPageId(nodes[k], referenced, id)
    && forall j :: 0 <= j < k ==> !MatchesPageId(nodes[j], referenced, id)
  }

  /** `loadByProperties` on the node storage: the matching nodes, in storage order. */
  function LoadByPageId(nodes: seq<Node>, referenced: map<nat, Entity>, id: string): (r: seq<Node>)
    ensures |r| <= |nodes|
    ensures forall n :: n in r <==> n in nodes && MatchesPageId(n, referenced, id)
  {
    if nodes == [] then []
    else
      var rest := LoadByPageId(nodes[1..], referenced, id);
      assert forall n :: n in nodes <==> n == nodes[0] || n in nodes[1..];
      if MatchesPageId(nodes[0], referenced, id) then [nodes[0]] + rest else rest
  }

  /** Lines 67-77: the first loaded entity, when there is one and it is a node. */
  function GetBasicPage(site: Site, id: string): (r: Option<Node>)
    ensures r.Some? ==> r.value in site.nodes && MatchesPageId(r.value, site.referenced, id)
  {
    var loaded := LoadByPageId(site.nodes, site.referenced, id);
    var basicPage := seq(|loaded|, i requires 0 <= i < |loaded| => NodeEntity(loaded[i]));
    if |basicPage| == 0 || !basicPage[0].NodeEntity? then None
    else Some(basicPage[0].node)
  }

  /** The storage query is empty exactly when nothing matches, and its first result is the first match. */
  lemma {:induction false} LoadByPageIdSpec(nodes: seq<Node>, referenced: map<nat, Entity>, id: string)
    ensures LoadByPageId(nodes, referenced, id) == [] <==> forall i :: 0 <= i < |nodes| ==> !MatchesPageId(nodes[i], referenced, id)
    ensures forall k :: IsFirstMatch(nodes, referenced, id, k) ==> LoadByPageId(nodes, referenced, id)[0] == nodes[k]
  {
    if nodes != [] {
      LoadByPageIdSpec(nodes[1..], referenced, id);
      assert forall k :: IsFirstMatch(nodes, referenced, id, k) && k > 0 ==> IsFirstMatch(nodes[1..], referenced, id, k - 1);
      assert nodes == [nodes[0]] + nodes[1..];
    }
  }

  /**
    `getBasicPage(id)` is null exactly when no stored node matches `id`;
    otherwise it is the first matching node in storage order.
   */
  lemma GetBasicPageIsFirstMatch(site: Site, id: string)
    ensures GetBasicPage(site, id).None? <==> forall i :: 0 <= i < |site.nodes| ==> !MatchesPageId(site.nodes[i], site.referenced, id)
    ensures forall k :: IsFirstMatch(site.nodes, site.referenced, id, k) ==> GetBasicPage(site, id) == Some(site.nodes[k])
  {
    LoadByPageIdSpec(site.nodes, site.referenced, id);
  }

  /** No node is the basic page of the empty ID, whatever the storage holds. */
  lemma EmptyIdFindsNoPage(site: Site)
    ensures GetBasicPage(site, "").None?
  {
    GetBasicPageIsFirstMatch(site, "");
  }

  /** Lines 88-96: the path of the basic page, null when there is none. */
  function GetPath(site: Site, id: string): (r: Option<string>)
    ensures r.None? <==> GetBasicPage(site, id).None?
    ensures r.Some? ==> r.value == UrlString(NodeUrl(GetBasicPage(site, id).value.nid))
  {
    var basicPage := GetBasicPage(site, id);
    if basicPage.None? then None else Some(UrlString(NodeUrl(basicPage.value.nid)))
  }

  /** Lines 107-115: the url of the basic page, null when there is none. */
  function GetUrl(site: Site, id: string): (r: Option<Url>)
    ensures r.None? <==> GetBasicPage(site, id).None?
    ensures r.Some? ==> r.value == NodeUrl(GetBasicPage(site, id).value.nid)
  {
    var basicPage := GetBasicPage(site, id);
    if basicPage.None? then None else Some(NodeUrl(basicPage.value.nid))
  }

  /**
    `referencedEntities()`: the entities the field's values load as, keyed by
    the value's delta. A target that no longer exists leaves its delta
    without an entry; the later entities keep their own deltas.
   */
  function ReferencedEntities(items: seq<ReferenceItem>, referenced: map<nat, Entity>): (r: map<nat, Entity>)
    ensures forall d :: d in r <==> 0 <= d < |items| && items[d].targetId in referenced
    ensures forall d :: d in r ==> r[d] == referenced[items[d].targetId]
  {
    if items == [] then map[]
    else
      var last := |items| - 1;
      var loaded := ReferencedEntities(items[..last], referenced);
      if items[last].targetId in referenced then loaded[last := referenced[items[last].targetId]]
      else loaded
  }

  /** The term `t` is what delta 0 of the node's `field_page_id` loads as. */
  ghost predicate PageTermAtDeltaZero(node: Node, referenced: map<nat, Entity>, t: Term)
  {
    node.pageId.Some? && node.pageId.value != []
    && node.pageId.value[0].targetId in referenced
    && referenced[node.pageId.value[0].targetId] == TermEntity(t)
  }

  /**
    Lines 126-141: the machine name of the entity at delta 0 of the node's
    `field_page_id`. Only that delta is looked at: when its target no
    longer loads, the destructured first entity is null and so is the ID.
   */
  function GetId(node: Node, referenced: map<nat, Entity>): (r: Option<string>)
    ensures node.pageId.None? || node.pageId.value == [] ==> r.None?
    ensures r.Some? ==> r.value != ""
    ensures r.Some? <==> exists t :: PageTermAtDeltaZero(node, referenced, t) && HasMachineName(t)
    ensures forall t :: PageTermAtDeltaZero(node, referenced, t) && HasMachineName(t) ==> r == t.machineName
  {
    if node.pageId.None? || node.pageId.value == [] then None
    else
      var entities := ReferencedEntities(node.pageId.value, referenced);
      if 0 !in entities then None   // no key 0: the destructured entity is null
      else
        var termPageId := entities[0];
        if !termPageId.TermEntity? || !HasMachineName(termPageId.term) then None
        else
          assert PageTermAtDeltaZero(node, referenced, termPageId.term);
          termPageId.term.machineName
  }

  /** Lines 154-169: whether the term at delta 0 of the node's `field_page_id` has machine name `id`. */
  function IsReferencingBasicPage(node: Node, referenced: map<nat, Entity>, id: string): (r: bool)
    ensures r <==> GetId(node, referenced) == Some(id)
  {
    if node.pageId.None? || node.pageId.value == [] then false
    else
      var entities := ReferencedEntities(node.pageId.value, referenced);
      if 0 !in entities then false
      else
        var termPageId := entities[0];
        if !termPageId.TermEntity? || !HasMachineName(termPageId.term) then false
        else termPageId.term.machineName.value == id
  }

  /**
    A page-id value whose target no longer exists at delta 0 gives no ID,
    whatever the later deltas load as.
   */
  lemma MissingFirstTargetGivesNoId(node: Node, referenced: map<nat, Entity>, id: string)
    requires node.pageId.Some? && node.pageId.value != []
    requires node.pageId.value[0].targetId !in referenced
    ensures GetId(node, referenced).None?
    ensures !IsReferencingBasicPage(node, referenced, id)
  {
  }

  /** A stored node whose page ID is `id` makes `getBasicPage(id)` non-null. */
  lemma PageIdFindsBasicPage(site: Site, n: Node, id: string)
    requires n in site.nodes
    requires GetId(n, site.referenced) == Some(id)
    ensures GetBasicPage(site, id).Some?
  {
    var t :| PageTermAtDeltaZero(n, site.referenced, t) && HasMachineName(t);
    assert LoadsTermWithMachineName(n.pageId.value[0], site.referenced, id);
    assert MatchesPageId(n, site.referenced, id);
    GetBasicPageIsFirstMatch(site, id);
  }

  /**
    The converse does not hold: the storage query matches any delta of
    `field_page_id`, `getId` only delta 0, so the page found for an ID can
    report a different ID.
   */
  lemma FoundPageMayReportOtherId()
    ensures var home := Term("Homepage", "basic_pages", "en", Some("homepage"));
            var news := Term("News overview", "basic_pages", "en", Some("news_overview"));
            var n := Node(1, 0, Some([ReferenceItem(10), ReferenceItem(11)]), None, None, None);
            var site := Site([n], map[10 := TermEntity(home), 11 := TermEntity(news)]);
            GetBasicPage(site, "news_overview") == Some(n)
            && GetId(n, site.referenced) == Some("homepage")
            && !IsReferencingBasicPage(n, site.referenced, "news_overview")
  {
    var home := Term("Homepage", "basic_pages", "en", Some("homepage"));
    var news := Term("News overview", "basic_pages", "en", Some("news_overview"));
    var n := Node(1, 0, Some([ReferenceItem(10), ReferenceItem(11)]), None, None, None);
    var site := Site([n], map[10 := TermEntity(home), 11 := TermEntity(news)]);
    assert LoadsTermWithMachineName(n.pageId.value[1], site.referenced, "news_overview");
    assert IsFirstMatch(site.nodes, site.referenced, "news_overview", 0);
    GetBasicPageIsFirstMatch(site, "news_overview");
    assert PageTermAtDeltaZero(n, site.referenced, home);
  }
}
