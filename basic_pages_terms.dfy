/**
  The drush command `calibrate:create_basic_pages_terms`: it seeds the
  `basic_pages` vocabulary and its four terms, each only when it is absent.
 */
module BasicPagesTerms {
  import opened Entities

  /** A term row of the command's table: the page ID (machine name) and the term name. */
  datatype TermEntry = TermEntry(pageId: string, name: string)

  /** A vocabulary row of the command's table. */
  datatype VocabularyEntry = VocabularyEntry(vid: string, title: string, terms: seq<TermEntry>)

  /** Lines 58-68: the fixed table the command provisions. */
  const VocabularyTerms: seq<VocabularyEntry> := [
    VocabularyEntry("basic_pages", "Basic pages", [
      TermEntry("homepage", "Homepage"),
      TermEntry("news_overview", "News overview"),
      TermEntry("articles_overview", "Articles overview"),
      TermEntry("offices_overview", "Offices overview")
    ])
  ]

  /** The vocabulary storage keyed by vid, and the term storage in creation order. */
  datatype Taxonomy = Taxonomy(vocabularies: map<string, Vocabulary>, terms: seq<Term>)

  /** `loadByProperties(['name' => name])` finds something. */
  predicate HasTermNamed(terms: seq<Term>, name: string)
  {
    exists i | 0 <= i < |terms| :: terms[i].name == name
  }

  /** The term the command creates for a table row. */
  function NewTerm(vid: string, e: TermEntry): Term
  {
    Term(e.name, vid, "en", Some(e.pageId))
  }

  /** Lines 71-77: the vocabulary is created when loading its vid gives nothing. */
  function AddVocabulary(tax: Taxonomy, entry: VocabularyEntry): (r: Taxonomy)
    ensures r.terms == tax.terms
    ensures r.vocabularies.Keys == tax.vocabularies.Keys + {entry.vid}
    ensures forall vid :: vid in tax.vocabularies ==> vid in r.vocabularies && r.vocabularies[vid] == tax.vocabularies[vid]
    ensures entry.vid !in tax.vocabularies ==> r.vocabularies[entry.vid] == Vocabulary(entry.vid, entry.title, "en")
  {
    if entry.vid in tax.vocabularies then tax
    else tax.(vocabularies := tax.vocabularies[entry.vid := Vocabulary(entry.vid, entry.title, "en")])
  }

  /** Lines 80-93, one row: the term is created when no term has its name. */
  function AddTerm(tax: Taxonomy, vid: string, e: TermEntry): (r: Taxonomy)
    ensures r.vocabularies == tax.vocabularies
    ensures tax.terms <= r.terms && |r.terms| <= |tax.terms| + 1
    ensures |r.terms| == |tax.terms| + 1 <==> !HasTermNamed(tax.terms, e.name)
    ensures |r.terms| == |tax.terms| + 1 ==> r.terms[|tax.terms|] == NewTerm(vid, e)
    ensures HasTermNamed(r.terms, e.name)
  {
    if HasTermNamed(tax.terms, e.name) then tax
    else
      var r := tax.(terms := tax.terms + [NewTerm(vid, e)]);
      assert r.terms[|tax.terms|].name == e.name;
      r
  }

  /** The inner loop over the rows `entries`, in order. */
  function AddTerms(tax: Taxonomy, vid: string, entries: seq<TermEntry>): (r: Taxonomy)
    ensures r.vocabularies == tax.vocabularies
    ensures tax.terms <= r.terms && |r.terms| <= |tax.terms| + |entries|
  {
    if entries == [] then tax
    else
      var before := AddTerms(tax, vid, entries[..|entries| - 1]);
      var r := AddTerm(before, vid, entries[|entries| - 1]);
      assert tax.terms == before.terms[..|tax.terms|] && before.terms == r.terms[..|before.terms|];
      r
  }

  /** One pass of the outer loop. */
  function ProvisionVocabulary(tax: Taxonomy, entry: VocabularyEntry): Taxonomy
  {
    AddTerms(AddVocabulary(tax, entry), entry.vid, entry.terms)
  }

  /** The number of term rows in `table`. */
  function TermRowCount(table: seq<VocabularyEntry>): nat
  {
    if table == [] then 0 else TermRowCount(table[..|table| - 1]) + |table[|table| - 1].terms|
  }

  /**
    The outer loop over the vocabulary rows `table`, in order. It keeps the
    stored terms as a prefix and creates at most one term per row.
   */
  function Provision(tax: Taxonomy, table: seq<VocabularyEntry>): (r: Taxonomy)
    ensures tax.terms <= r.terms && |r.terms| <= |tax.terms| + TermRowCount(table)
    ensures tax.vocabularies.Keys <= r.vocabularies.Keys
  {
    if table == [] then tax
    else
      var before := Provision(tax, table[..|table| - 1]);
      var r := ProvisionVocabulary(before, table[|table| - 1]);
      assert tax.terms == before.terms[..|tax.terms|] && before.terms == r.terms[..|before.terms|];
      r
  }

  /** `b` is `a` with vocabularies and terms added, none changed or removed. */
  ghost predicate OnlyAdds(a: Taxonomy, b: Taxonomy)
  {
    && (forall vid :: vid in a.vocabularies ==> vid in b.vocabularies && b.vocabularies[vid] == a.vocabularies[vid])
    && a.terms <= b.terms
  }

  /** The term `t` is the one created for some row of `table`. */
  ghost predicate IsCreatedFrom(t: Term, table: seq<VocabularyEntry>)
  {
    exists v, j :: 0 <= v < |table| && 0 <= j < |table[v].terms| && t == NewTerm(table[v].vid, table[v].terms[j])
  }

  /**
    Every term of `b` beyond those of `a` was created from a row of `table`,
    and at the time of its creation no term had its name.
   */
  ghost predicate CreatesFresh(a: Taxonomy, b: Taxonomy, table: seq<VocabularyEntry>)
  {
    forall i :: |a.terms| <= i < |b.terms| ==>
      IsCreatedFrom(b.terms[i], table) && !HasTermNamed(b.terms[..i], b.terms[i].name)
  }

  /** Every vocabulary and every term name of `table` is present in `tax`. */
  ghost predicate Provided(tax: Taxonomy, table: seq<VocabularyEntry>)
  {
    forall v :: 0 <= v < |table| ==>
      table[v].vid in tax.vocabularies
      && forall j :: 0 <= j < |table[v].terms| ==> HasTermNamed(tax.terms, table[v].terms[j].name)
  }

  lemma OnlyAddsTransitive(a: Taxonomy, b: Taxonomy, c: Taxonomy)
    requires OnlyAdds(a, b) && OnlyAdds(b, c)
    ensures OnlyAdds(a, c)
  {
    assert a.terms == b.terms[..|a.terms|];
    assert b.terms == c.terms[..|b.terms|];
    assert a.terms == c.terms[..|a.terms|];
  }

  lemma NamesKept(a: seq<Term>, b: seq<Term>, name: string)
    requires a <= b && HasTermNamed(a, name)
    ensures HasTermNamed(b, name)
  {
    var i :| 0 <= i < |a| && a[i].name == name;
    assert b[i] == a[i];
  }

  lemma ProvidedKept(a: Taxonomy, b: Taxonomy, table: seq<VocabularyEntry>)
    requires OnlyAdds(a, b) && Provided(a, table)
    ensures Provided(b, table)
  {
    forall v, j | 0 <= v < |table| && 0 <= j < |table[v].terms|
      ensures HasTermNamed(b.terms, table[v].terms[j].name)
    {
      NamesKept(a.terms, b.terms, table[v].terms[j].name);
    }
  }

  /** The inner loop only appends terms, each for one of its rows and each with a fresh name. */
  lemma {:induction false} AddTermsGrows(tax: Taxonomy, vid: string, entries: seq<TermEntry>)
    ensures OnlyAdds(tax, AddTerms(tax, vid, entries))
    ensures AddTerms(tax, vid, entries).vocabularies == tax.vocabularies
    ensures forall i :: |tax.terms| <= i < |AddTerms(tax, vid, entries).terms| ==>
              var t := AddTerms(tax, vid, entries).terms[i];
              (exists j :: 0 <= j < |entries| && t == NewTerm(vid, entries[j]))
              && !HasTermNamed(AddTerms(tax, vid, entries).terms[..i], t.name)
  {
    if entries != [] {
      var n := |entries|;
      var before := AddTerms(tax, vid, entries[..n - 1]);
      AddTermsGrows(tax, vid, entries[..n - 1]);
      var after := AddTerm(before, vid, entries[n - 1]);
      assert after.terms[..|before.terms|] == before.terms;
      forall i | |tax.terms| <= i < |after.terms|
        ensures (exists j :: 0 <= j < n && after.terms[i] == NewTerm(vid, entries[j]))
                && !HasTermNamed(after.terms[..i], after.terms[i].name)
      {
        if i < |before.terms| {
          assert after.terms[..i] == before.terms[..i];
          var j :| 0 <= j < n - 1 && before.terms[i] == NewTerm(vid, entries[..n - 1][j]);
          assert after.terms[i] == NewTerm(vid, entries[j]);
        } else {
          assert after.terms[..i] == before.terms;
          assert after.terms[i] == NewTerm(vid, entries[n - 1]);
        }
      }
      OnlyAddsTransitive(tax, before, after);
    }
  }

  /** After the inner loop, a term named after each of its rows exists. */
  lemma {:induction false} AddTermsProvides(tax: Taxonomy, vid: string, entries: seq<TermEntry>)
    ensures forall j :: 0 <= j < |entries| ==> HasTermNamed(AddTerms(tax, vid, entries).terms, entries[j].name)
  {
    if entries != [] {
      var n := |entries|;
      var before := AddTerms(tax, vid, entries[..n - 1]);
      AddTermsProvides(tax, vid, entries[..n - 1]);
      var after := AddTerm(before, vid, entries[n - 1]);
      assert before.terms <= after.terms;
      forall j | 0 <= j < n
        ensures HasTermNamed(after.terms, entries[j].name)
      {
        if j < n - 1 {
          assert entries[..n - 1][j] == entries[j];
          NamesKept(before.terms, after.terms, entries[j].name);
        } else if !HasTermNamed(before.terms, entries[j].name) {
          assert after.terms[|before.terms|].name == entries[j].name;
        }
      }
    }
  }

  /** When every row's name is already present, the inner loop changes nothing. */
  lemma {:induction false} AddTermsIdle(tax: Taxonomy, vid: string, entries: seq<TermEntry>)
    requires forall j :: 0 <= j < |entries| ==> HasTermNamed(tax.terms, entries[j].name)
    ensures AddTerms(tax, vid, entries) == tax
  {
    if entries != [] {
      var n := |entries|;
      AddTermsIdle(tax, vid, entries[..n - 1]);
    }
  }

  /**
    Lines 70-95: running the command only adds. Every vocabulary and term
    already stored stays as it was, and every new term was created for a row of
    the table, with vid, langcode "en" and machine name from that row, at a time
    when no term had its name.
   */
  lemma {:induction false} ProvisionGrows(tax: Taxonomy, table: seq<VocabularyEntry>)
    ensures OnlyAdds(tax, Provision(tax, table))
    ensures CreatesFresh(tax, Provision(tax, table), table)
  {
    if table != [] {
      var n := |table|;
      var entry := table[n - 1];
      var before := Provision(tax, table[..n - 1]);
      ProvisionGrows(tax, table[..n - 1]);
      var withVocabulary := AddVocabulary(before, entry);
      var after := AddTerms(withVocabulary, entry.vid, entry.terms);
      AddTermsGrows(withVocabulary, entry.vid, entry.terms);
      OnlyAddsTransitive(tax, before, after);
      assert after.terms[..|before.terms|] == before.terms;
      forall i | |tax.terms| <= i < |after.terms|
        ensures IsCreatedFrom(after.terms[i], table) && !HasTermNamed(after.terms[..i], after.terms[i].name)
      {
        if i < |before.terms| {
          assert after.terms[..i] == before.terms[..i];
          var v, j :| 0 <= v < n - 1 && 0 <= j < |table[..n - 1][v].terms|
                      && before.terms[i] == NewTerm(table[..n - 1][v].vid, table[..n - 1][v].terms[j]);
          assert table[..n - 1][v] == table[v];
        } else {
          var j :| 0 <= j < |entry.terms| && after.terms[i] == NewTerm(entry.vid, entry.terms[j]);
          assert 0 <= n - 1 < |table| && after.terms[i] == NewTerm(table[n - 1].vid, table[n - 1].terms[j]);
        }
      }
    }
  }

  /** After the command, every vocabulary and every term name of the table exists. */
  lemma {:induction false} ProvisionProvides(tax: Taxonomy, table: seq<VocabularyEntry>)
    ensures Provided(Provision(tax, table), table)
  {
    if table != [] {
      var n := |table|;
      var entry := table[n - 1];
      var before := Provision(tax, table[..n - 1]);
      ProvisionProvides(tax, table[..n - 1]);
      var withVocabulary := AddVocabulary(before, entry);
      var after := AddTerms(withVocabulary, entry.vid, entry.terms);
      AddTermsGrows(withVocabulary, entry.vid, entry.terms);
      AddTermsProvides(withVocabulary, entry.vid, entry.terms);
      assert OnlyAdds(before, withVocabulary);
      OnlyAddsTransitive(before, withVocabulary, after);
      ProvidedKept(before, after, table[..n - 1]);
      forall v, j | 0 <= v < n && 0 <= j < |table[v].terms|
        ensures table[v].vid in after.vocabularies && HasTermNamed(after.terms, table[v].terms[j].name)
      {
        if v < n - 1 {
          assert table[..n - 1][v] == table[v];
        }
      }
    }
  }

  /** When everything of the table is present, the command changes nothing. */
  lemma {:induction false} ProvisionIdle(tax: Taxonomy, table: seq<VocabularyEntry>)
    requires Provided(tax, table)
    ensures Provision(tax, table) == tax
  {
    if table != [] {
      var n := |table|;
      assert Provided(tax, table[..n - 1]) by {
        forall v | 0 <= v < n - 1 ensures table[..n - 1][v] == table[v] { }
      }
      ProvisionIdle(tax, table[..n - 1]);
      var entry := table[n - 1];
      assert AddVocabulary(tax, entry) == tax;
      AddTermsIdle(tax, entry.vid, entry.terms);
    }
  }

  /** Running the command twice leaves the storage as running it once does. */
  lemma ProvisionIdempotent(tax: Taxonomy, table: seq<VocabularyEntry>)
    ensures Provision(Provision(tax, table), table) == Provision(tax, table)
  {
    ProvisionProvides(tax, table);
    ProvisionIdle(Provision(tax, table), table);
  }

  /**
    After a run: the `basic_pages` vocabulary exists, untouched when it was
    there before and labelled "Basic pages" in "en" otherwise, and a term
    named after each of the four basic pages exists.
   */
  lemma BasicPagesProvided(tax: Taxonomy)
    ensures var r := Provision(tax, VocabularyTerms);
            && "basic_pages" in r.vocabularies
            && r.vocabularies["basic_pages"] ==
                 (if "basic_pages" in tax.vocabularies then tax.vocabularies["basic_pages"]
                  else Vocabulary("basic_pages", "Basic pages", "en"))
            && HasTermNamed(r.terms, "Homepage")
            && HasTermNamed(r.terms, "News overview")
            && HasTermNamed(r.terms, "Articles overview")
            && HasTermNamed(r.terms, "Offices overview")
  {
    var entry := VocabularyTerms[0];
    assert VocabularyTerms[..0] == [];
    ProvisionProvides(tax, VocabularyTerms);
    AddTermsGrows(AddVocabulary(tax, entry), entry.vid, entry.terms);
    assert Provision(tax, VocabularyTerms) == ProvisionVocabulary(tax, entry);
    assert entry.terms[0].name == "Homepage" && entry.terms[1].name == "News overview";
    assert entry.terms[2].name == "Articles overview" && entry.terms[3].name == "Offices overview";
  }

  /**
    The existence check is by name alone: a "Homepage" term in another
    vocabulary keeps the command from creating the `homepage` basic page term.
   */
  lemma NameCheckIgnoresVocabulary()
    ensures var tags := Term("Homepage", "tags", "en", None);
            var r := Provision(Taxonomy(map[], [tags]), VocabularyTerms);
            forall i :: 0 <= i < |r.terms| ==> r.terms[i].machineName != Some("homepage")
  {
    var tags := Term("Homepage", "tags", "en", None);
    var tax := Taxonomy(map[], [tags]);
    var r := Provision(tax, VocabularyTerms);
    ProvisionGrows(tax, VocabularyTerms);
    assert r.terms[..1] == [tags];
    forall i | 0 <= i < |r.terms| ensures r.terms[i].machineName != Some("homepage") {
      if i > 0 {
        assert HasTermNamed(r.terms[..i], "Homepage") by { assert r.terms[..i][0] == tags; }
        var v, j :| 0 <= v < |VocabularyTerms| && 0 <= j < |VocabularyTerms[v].terms|
                    && r.terms[i] == NewTerm(VocabularyTerms[v].vid, VocabularyTerms[v].terms[j]);
        assert v == 0;
      }
    }
  }

  /** The vocabulary and term storages as objects that `save()` changes. */
  class TaxonomyStorage {
    var vocabularies: map<string, Vocabulary>
    var terms: seq<Term>

    constructor (vocabularies: map<string, Vocabulary>, terms: seq<Term>)
      ensures Contents() == Taxonomy(vocabularies, terms)
    {
      this.vocabularies := vocabularies;
      this.terms := terms;
    }

    function Contents(): Taxonomy
      reads this
    {
      Taxonomy(vocabularies, terms)
    }

    /** `create($vocabulary)->save()`. */
    method SaveVocabulary(v: Vocabulary)
      modifies this
      ensures vocabularies == old(vocabularies)[v.vid := v] && terms == old(terms)
    {
      vocabularies := vocabularies[v.vid := v];
    }

    /** `create($params)->save()`: a new term is stored after the existing ones. */
    method SaveTerm(t: Term)
      modifies this
      ensures terms == old(terms) + [t] && vocabularies == old(vocabularies)
    {
      terms := terms + [t];
    }
  }

  /** Lines 51-101: `createBasicPagesTerms()`, the two nested loops over the table. */
  method CreateBasicPagesTerms(storage: TaxonomyStorage)
    modifies storage
    ensures storage.Contents() == Provision(old(storage.Contents()), VocabularyTerms)
  {
    ghost var start := storage.Contents();
    var vocabularyTerms := VocabularyTerms;
    for v := 0 to |vocabularyTerms|
      invariant storage.Contents() == Provision(start, vocabularyTerms[..v])
    {
      assert vocabularyTerms[..v + 1][..v] == vocabularyTerms[..v];
      var vocabulary := vocabularyTerms[v];
      var vid := vocabulary.vid;
      if vid !in storage.vocabularies {
        storage.SaveVocabulary(Vocabulary(vid, vocabulary.title, "en"));
      }
      ghost var withVocabulary := storage.Contents();
      for i := 0 to |vocabulary.terms|
        invariant storage.Contents() == AddTerms(withVocabulary, vid, vocabulary.terms[..i])
      {
        assert vocabulary.terms[..i + 1][..i] == vocabulary.terms[..i];
        var entry := vocabulary.terms[i];
        var params := Term(entry.name, vid, "en", Some(entry.pageId));
        if HasTermNamed(storage.terms, entry.name) {
          continue;
        }
        storage.SaveTerm(params);
      }
      assert vocabulary.terms[..|vocabulary.terms|] == vocabulary.terms;
    }
    assert vocabularyTerms[..|vocabularyTerms|] == vocabularyTerms;
  }
}
