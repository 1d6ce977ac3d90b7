/**
  The host platform's entities as far as the calibrate_base module looks at them.

  A field that an entity may lack is an `Option`: `None` means the entity has
  no such field (`hasField` is false), `Some([])` means the field exists but is
  empty (`isEmpty` is true). Multi-valued fields keep their values in delta order.
 */
module Entities {

  datatype Option<+T> = None | Some(value: T)

  /** One value of an entity reference field: the id of the entity it targets. */
  datatype ReferenceItem = ReferenceItem(targetId: nat)

  /** One value of an address field; only the country code is read. */
  datatype Address = Address(countryCode: string)

  /** A content node with the fields the module reads. */
  datatype Node = Node(
    nid: nat,
    created: int,
    pageId: Option<seq<ReferenceItem>>,   // field_page_id
    tags: Option<seq<ReferenceItem>>,     // field_tags
    address: Option<seq<Address>>,        // field_address
    country: Option<seq<string>>          // field_country
  )

  /** A taxonomy term; `label()` is its name. */
  datatype Term = Term(
    name: string,
    vid: string,
    langcode: string,
    machineName: Option<string>           // field_machine_name
  )

  /** A taxonomy vocabulary. */
  datatype Vocabulary = Vocabulary(vid: string, name: string, langcode: string)

  /** Whatever an entity reference or a route parameter can hold. */
  datatype Entity = NodeEntity(node: Node) | TermEntity(term: Term) | OtherEntity(entityId: nat)

  /**
    The content the helper and the blocks query: the node storage, in storage
    order, and the entities that reference targets load as (targets missing
    from the map no longer exist).
   */
  datatype Site = Site(nodes: seq<Node>, referenced: map<nat, Entity>)

  /** The url object `toUrl()` gives for a node: its canonical route. */
  datatype Url = NodeUrl(nid: nat)

  /** The route name of a node's canonical page. */
  const CanonicalNodeRoute: string := "entity.node.canonical"

  /** True when a term has a non-empty `field_machine_name`. */
  predicate HasMachineName(t: Term)
  {
    t.machineName.Some? && t.machineName.value != ""
  }

  /** Decimal digits of a natural number. */
  function NatString(n: nat): (s: string)
    ensures |s| > 0
    ensures forall i :: 0 <= i < |s| ==> '0' <= s[i] <= '9'
  {
    var d := [(('0' as int) + n % 10) as char];
    if n < 10 then d else NatString(n / 10) + d
  }

  /** The path string `toUrl()->toString()` gives for a node url (no aliases). */
  function UrlString(u: Url): (s: string)
    ensures |s| > |"/node/"| && s[..|"/node/"|] == "/node/"
  {
    "/node/" + NatString(u.nid)
  }
}
