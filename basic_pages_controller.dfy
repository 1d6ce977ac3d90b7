/**
  The redirect endpoint: a basic page ID in the path resolves, through the
  helper, to the node that references it.
 */
module BasicPagesController {
  import opened Entities
  import opened BasicPagesHelper

  /**
    A redirect response, as the route name and route parameters handed to the
    controller's `redirect()`. The fallback passes "/" in the route-name
    argument, exactly as written.
   */
  datatype Redirect = Redirect(route: string, parameters: map<string, nat>)

  /** Lines 61-65: the target, decided from the helper's result alone. */
  function RedirectFor(basicPage: Option<Node>): (r: Redirect)
    ensures r.route == "/" <==> basicPage.None?
    ensures basicPage.None? ==> r.parameters == map[]
    ensures basicPage.Some? ==> r.route == CanonicalNodeRoute && r.parameters.Keys == {"node"}
                                && r.parameters["node"] == basicPage.value.nid
  {
    if basicPage.None? then Redirect("/", map[])
    else Redirect(CanonicalNodeRoute, map["node" := basicPage.value.nid])
  }

  /**
    Lines 58-66: `redirectTo(id)` always hands a route name to `redirect()`: "/" when no
    stored node references a term with machine name `id`, otherwise the
    canonical route of the first such node in storage order.
   */
  function RedirectTo(site: Site, id: string): (r: Redirect)
    ensures r == Redirect("/", map[]) <==>
              forall i :: 0 <= i < |site.nodes| ==> !MatchesPageId(site.nodes[i], site.referenced, id)
    ensures forall k :: IsFirstMatch(site.nodes, site.referenced, id, k) ==>
              r == Redirect(CanonicalNodeRoute, map["node" := site.nodes[k].nid])
  {
    GetBasicPageIsFirstMatch(site, id);
    RedirectFor(GetBasicPage(site, id))
  }

  /** The id reaches the helper unchanged and only the helper's answer matters. */
  lemma RedirectDependsOnlyOnBasicPage(site1: Site, id1: string, site2: Site, id2: string)
    requires GetBasicPage(site1, id1) == GetBasicPage(site2, id2)
    ensures RedirectTo(site1, id1) == RedirectTo(site2, id2)
  {
  }

  /** The route of the front page. */
  const FrontRoute: string := "<front>"

  /** The route names a redirect of this controller means to reach. */
  predicate IsKnownRoute(name: string)
  {
    name == FrontRoute || name == CanonicalNodeRoute
  }

  /**
    As written, the fallback gives "/" as a route name, and "/" names no
    route: for an id no node references, the redirect cannot be generated.
   */
  lemma FallbackNamesNoRoute(site: Site, id: string)
    requires forall i :: 0 <= i < |site.nodes| ==> !MatchesPageId(site.nodes[i], site.referenced, id)
    ensures !IsKnownRoute(RedirectTo(site, id).route)
  {
  }

  /** The evidently intended target: the front page route when there is no basic page. */
  function FrontRedirectFor(basicPage: Option<Node>): (r: Redirect)
    ensures IsKnownRoute(r.route)
    ensures r.route == FrontRoute <==> basicPage.None?
    ensures basicPage.Some? ==> r == RedirectFor(basicPage)
  {
    if basicPage.None? then Redirect(FrontRoute, map[])
    else Redirect(CanonicalNodeRoute, map["node" := basicPage.value.nid])
  }

  /**
    `redirectTo(id)` with the front page fallback: every redirect names a
    known route; it is the front page exactly when no stored node matches,
    and otherwise the canonical route of the first match, as before.
   */
  function RedirectToFront(site: Site, id: string): (r: Redirect)
    ensures IsKnownRoute(r.route)
    ensures r == Redirect(FrontRoute, map[]) <==>
              forall i :: 0 <= i < |site.nodes| ==> !MatchesPageId(site.nodes[i], site.referenced, id)
    ensures forall k :: IsFirstMatch(site.nodes, site.referenced, id, k) ==>
              r == Redirect(CanonicalNodeRoute, map["node" := site.nodes[k].nid]) && r == RedirectTo(site, id)
  {
    GetBasicPageIsFirstMatch(site, id);
    FrontRedirectFor(GetBasicPage(site, id))
  }
}
