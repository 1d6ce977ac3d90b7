/**
  The "Basic page ID" visibility condition: a block or page is shown when the
  current node is one of the configured basic pages.
 */
module BasicPageIdCondition {
  import opened Entities
  import opened BasicPagesHelper

  /** The current route: its name and its `node` parameter, if any. */
  datatype Route = Route(name: string, node: Option<Entity>)

  /** PHP falsiness of a string: the empty string and "0". */
  predicate FalsyString(s: string)
  {
    s == "" || s == "0"
  }

  /** PHP falsiness of a nullable string. */
  predicate FalsyId(id: Option<string>)
  {
    id.None? || FalsyString(id.value)
  }

  /** The route is a node's canonical page and its parameter is a node. */
  predicate OnCanonicalNode(route: Route)
  {
    route.name == CanonicalNodeRoute && route.node.Some? && route.node.value.NodeEntity?
  }

  /**
    Lines 153-188: `evaluate()`. With no configured IDs the condition passes
    exactly when it is not negated, whatever the route. With configured IDs it
    passes only on a node's canonical page whose page ID is configured, and
    the negation flag plays no part.
   */
  function Evaluate(route: Route, referenced: map<nat, Entity>, basicPageIds: seq<string>, negated: bool): (r: bool)
    ensures basicPageIds == [] ==> r == !negated
    ensures basicPageIds != [] && OnCanonicalNode(route) ==>
              var id := GetId(route.node.value.node, referenced);
              r == (id.Some? && id.value in basicPageIds)
    ensures basicPageIds != [] && !OnCanonicalNode(route) ==> !r
  {
    if route.name == CanonicalNodeRoute && route.node.Some? && route.node.value.NodeEntity? then
      var basicPageId := GetId(route.node.value.node, referenced);
      if FalsyId(basicPageId) && |basicPageIds| == 0 then !negated
      else if |basicPageIds| == 0 && negated then false
      else if |basicPageIds| == 0 && !negated then true
      else if basicPageId.Some? && basicPageId.value in basicPageIds then true
      else false
    else if |basicPageIds| != 0 || (|basicPageIds| == 0 && negated) then false
    else true
  }

  /** With configured IDs, negating the condition does not change its result. */
  lemma NegationIgnoredWithIds(route: Route, referenced: map<nat, Entity>, basicPageIds: seq<string>)
    requires basicPageIds != []
    ensures Evaluate(route, referenced, basicPageIds, true) == Evaluate(route, referenced, basicPageIds, false)
  {
  }

  /** `implode(sep, parts)`. */
  function Join(parts: seq<string>, sep: string): (r: string)
    ensures |parts| == 1 ==> r == parts[0]
    ensures parts != [] ==> parts[0] <= r
  {
    if |parts| == 0 then ""
    else if |parts| == 1 then parts[0]
    else parts[0] + sep + Join(parts[1..], sep)
  }

  /** Lines 133-148: `summary()`, as the text it translates to. */
  function Summary(basicPageIds: seq<string>): (r: string)
    ensures |basicPageIds| == 1 ==> r == "The basic page is " + basicPageIds[0]
    ensures |basicPageIds| == 0 ==> r == "The basic page is "
  {
    if |basicPageIds| > 1 then
      var last := basicPageIds[|basicPageIds| - 1];
      "The basic page is " + Join(basicPageIds[..|basicPageIds| - 1], ", ") + " or " + last
    else
      // reset() of an empty list is false, which the placeholder renders as ""
      "The basic page is " + (if |basicPageIds| == 0 then "" else basicPageIds[0])
  }

  /** Joining one more part appends the separator and that part. */
  lemma {:induction false} JoinSnoc(parts: seq<string>, sep: string, x: string)
    requires parts != []
    ensures Join(parts + [x], sep) == Join(parts, sep) + sep + x
  {
    if |parts| > 1 {
      assert (parts + [x])[1..] == parts[1..] + [x];
      JoinSnoc(parts[1..], sep, x);
    }
  }

  /**
    Listing one more ID turns " or <last>" into ", <last> or <new>": every
    ID but the last is listed in order, joined by ", ".
   */
  lemma SummaryAppend(basicPageIds: seq<string>, x: string)
    requires |basicPageIds| >= 2
    ensures var n := |basicPageIds|;
            var listed := "The basic page is " + Join(basicPageIds[..n - 1], ", ");
            Summary(basicPageIds) == listed + " or " + basicPageIds[n - 1]
            && Summary(basicPageIds + [x]) == listed + ", " + basicPageIds[n - 1] + " or " + x
  {
    var n := |basicPageIds|;
    assert (basicPageIds + [x])[..n] == basicPageIds[..n - 1] + [basicPageIds[n - 1]];
    JoinSnoc(basicPageIds[..n - 1], ", ", basicPageIds[n - 1]);
  }

  /** `x` occurs in `s` at position `k`. */
  ghost predicate IsInfixAt(x: string, s: string, k: int)
  {
    0 <= k && k + |x| <= |s| && s[k..k + |x|] == x
  }

  /** `x` occurs in `s` at some position. */
  ghost predicate IsInfix(x: string, s: string)
  {
    exists k :: IsInfixAt(x, s, k)
  }

  lemma InfixOfConcat(x: string, a: string, b: string)
    ensures IsInfix(x, a) ==> IsInfix(x, a + b)
    ensures IsInfix(x, b) ==> IsInfix(x, a + b)
  {
    if IsInfix(x, a) {
      var k :| IsInfixAt(x, a, k);
      assert (a + b)[k..k + |x|] == a[k..k + |x|];
      assert IsInfixAt(x, a + b, k);
    }
    if IsInfix(x, b) {
      var k :| IsInfixAt(x, b, k);
      assert (a + b)[|a| + k..|a| + k + |x|] == b[k..k + |x|];
      assert IsInfixAt(x, a + b, |a| + k);
    }
  }

  lemma InfixOfItself(x: string)
    ensures IsInfix(x, x)
  {
    assert IsInfixAt(x, x, 0);
  }

  lemma {:induction false} JoinMentionsEveryPart(parts: seq<string>, sep: string, i: nat)
    requires i < |parts|
    ensures IsInfix(parts[i], Join(parts, sep))
  {
    InfixOfItself(parts[i]);
    if |parts| > 1 {
      if i == 0 {
        InfixOfConcat(parts[0], parts[0], sep + Join(parts[1..], sep));
        assert Join(parts, sep) == parts[0] + (sep + Join(parts[1..], sep));
      } else {
        JoinMentionsEveryPart(parts[1..], sep, i - 1);
        InfixOfConcat(parts[i], parts[0] + sep, Join(parts[1..], sep));
      }
    }
  }

  /** Every configured ID appears in the summary. */
  lemma SummaryMentionsEveryId(basicPageIds: seq<string>, i: nat)
    requires i < |basicPageIds|
    ensures IsInfix(basicPageIds[i], Summary(basicPageIds))
  {
    var n := |basicPageIds|;
    var prefix := "The basic page is ";
    if n == 1 {
      InfixOfItself(basicPageIds[0]);
      InfixOfConcat(basicPageIds[0], prefix, basicPageIds[0]);
    } else if i < n - 1 {
      var joined := Join(basicPageIds[..n - 1], ", ");
      JoinMentionsEveryPart(basicPageIds[..n - 1], ", ", i);
      InfixOfConcat(basicPageIds[i], prefix, joined);
      InfixOfConcat(basicPageIds[i], prefix + joined, " or " + basicPageIds[n - 1]);
      assert Summary(basicPageIds) == prefix + joined + (" or " + basicPageIds[n - 1]);
    } else {
      var last := basicPageIds[n - 1];
      InfixOfItself(last);
      InfixOfConcat(last, prefix + Join(basicPageIds[..n - 1], ", ") + " or ", last);
    }
  }

  /** A value of the `checkboxes` form element: the option key when ticked, 0 otherwise. */
  datatype CheckboxValue = Checked(key: string) | Unchecked

  /** PHP truthiness of a checkbox value. */
  predicate Truthy(v: CheckboxValue)
  {
    v.Checked? && !FalsyString(v.key)
  }

  /** `array_filter` of the submitted values: the truthy ones, in order. */
  function KeepTruthy(values: seq<CheckboxValue>): (r: seq<string>)
    ensures |r| <= |values|
    ensures forall s :: s in r <==> Checked(s) in values && !FalsyString(s)
  {
    if values == [] then []
    else
      var rest := KeepTruthy(values[1..]);
      assert forall v :: v in values <==> v == values[0] || v in values[1..];
      if Truthy(values[0]) then [values[0].key] + rest else rest
  }

  /** Filtering distributes over concatenation, so the submitted order is kept. */
  lemma {:induction false} KeepTruthyAppend(a: seq<CheckboxValue>, b: seq<CheckboxValue>)
    ensures KeepTruthy(a + b) == KeepTruthy(a) + KeepTruthy(b)
  {
    if a == [] {
      assert a + b == b;
    } else {
      assert (a + b)[0] == a[0];
      assert (a + b)[1..] == a[1..] + b;
      KeepTruthyAppend(a[1..], b);
    }
  }

  /** Ticking every stored ID again and submitting stores the same list. */
  lemma {:induction false} KeepTruthyResubmit(values: seq<CheckboxValue>)
    ensures var stored := KeepTruthy(values);
            KeepTruthy(seq(|stored|, i requires 0 <= i < |stored| => Checked(stored[i]))) == stored
  {
    if values != [] {
      KeepTruthyResubmit(values[1..]);
      var rest := KeepTruthy(values[1..]);
      var ticked := seq(|rest|, i requires 0 <= i < |rest| => Checked(rest[i]));
      if Truthy(values[0]) {
        var all := [values[0].key] + rest;
        assert seq(|all|, i requires 0 <= i < |all| => Checked(all[i])) == [Checked(values[0].key)] + ticked;
      }
    }
  }

  /**
    The condition's configuration: `basic_page_ids` and the parent class's
    `negate` flag.
   */
  class BasicPageId {
    var basicPageIds: seq<string>
    var negate: bool

    /**
      Lines 193-195 with the plugin's construction: a configuration given at
      creation wins over `defaultConfiguration()`, whose ID list is empty.
     */
    constructor (configuredIds: Option<seq<string>>, negate: bool)
      ensures basicPageIds == (if configuredIds.Some? then configuredIds.value else [])
      ensures this.negate == negate
    {
      basicPageIds := if configuredIds.Some? then configuredIds.value else [];
      this.negate := negate;
    }

    /**
      Lines 125-128: the stored list is the submitted one without its falsy
      values; the parent's handler then stores the submitted `negate` value.
     */
    method SubmitConfigurationForm(submitted: seq<CheckboxValue>, submittedNegate: bool)
      modifies this
      ensures basicPageIds == KeepTruthy(submitted)
      ensures negate == submittedNegate
    {
      basicPageIds := KeepTruthy(submitted);
      negate := submittedNegate;
    }
  }

  /**
    A node whose delta 0 page-id target no longer exists fails a condition
    configured with the ID its later delta loads as.
   */
  lemma DeletedFirstTargetFailsCondition()
    ensures var home := Term("Homepage", "basic_pages", "en", Some("homepage"));
            var n := Node(1, 0, Some([ReferenceItem(99), ReferenceItem(10)]), None, None, None);
            var referenced := map[10 := TermEntity(home)];
            GetId(n, referenced).None?
            && !IsReferencingBasicPage(n, referenced, "homepage")
            && !Evaluate(Route(CanonicalNodeRoute, Some(NodeEntity(n))), referenced, ["homepage"], false)
  {
    var home := Term("Homepage", "basic_pages", "en", Some("homepage"));
    var n := Node(1, 0, Some([ReferenceItem(99), ReferenceItem(10)]), None, None, None);
    MissingFirstTargetGivesNoId(n, map[10 := TermEntity(home)], "homepage");
  }

  /** The default configuration lets the condition pass on every route unless negated. */
  lemma DefaultConfigurationPasses(route: Route, referenced: map<nat, Entity>, negate: bool)
    ensures Evaluate(route, referenced, [], negate) == !negate
  {
  }

  /** The terms `loadByProperties(['vid' => vid])` gives, in storage order. */
  function TermsOfVocabulary(terms: seq<Term>, vid: string): (r: seq<Term>)
    ensures forall t :: t in r <==> t in terms && t.vid == vid
  {
    if terms == [] then []
    else
      var rest := TermsOfVocabulary(terms[1..], vid);
      assert forall t :: t in terms <==> t == terms[0] || t in terms[1..];
      if terms[0].vid == vid then [terms[0]] + rest else rest
  }

  /**
    The options map after visiting `terms` in order: each term with a
    machine name sets that key to its label, a later term overwriting an
    earlier one.
   */
  function OptionsOf(terms: seq<Term>): (r: map<string, string>)
    ensures forall key :: key in r ==> key != ""
  {
    if terms == [] then map[]
    else
      var options := OptionsOf(terms[..|terms| - 1]);
      var t := terms[|terms| - 1];
      if HasMachineName(t) then options[t.machineName.value := t.name] else options
  }

  /**
    A key is in the options map exactly when some term has it as its non-empty
    machine name, and it is mapped to the label of the last such term.
   */
  lemma {:induction false} OptionsOfSpec(terms: seq<Term>)
    ensures forall key :: key in OptionsOf(terms) <==>
              exists i :: 0 <= i < |terms| && HasMachineName(terms[i]) && terms[i].machineName.value == key
    ensures forall i :: 0 <= i < |terms| && HasMachineName(terms[i])
                        && (forall j :: i < j < |terms| ==> terms[j].machineName != terms[i].machineName) ==>
              OptionsOf(terms)[terms[i].machineName.value] == terms[i].name
  {
    if terms != [] {
      var n := |terms|;
      var init := terms[..n - 1];
      OptionsOfSpec(init);
      assert forall i :: 0 <= i < n - 1 ==> init[i] == terms[i];
    }
  }

  /** Lines 98-110: the options of the `basic_page_ids` checkboxes. */
  method BuildConfigurationOptions(terms: seq<Term>) returns (options: map<string, string>)
    ensures options == OptionsOf(TermsOfVocabulary(terms, "basic_pages"))
  {
    options := map[];
    var basicPages := TermsOfVocabulary(terms, "basic_pages");
    for i := 0 to |basicPages|
      invariant options == OptionsOf(basicPages[..i])
    {
      assert basicPages[..i + 1][..i] == basicPages[..i];
      var basicPage := basicPages[i];
      if !HasMachineName(basicPage) {
        continue;
      }
      options := options[basicPage.machineName.value := basicPage.name];
    }
    assert basicPages[..|basicPages|] == basicPages;
  }
}
