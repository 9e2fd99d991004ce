/**
 * Page selection shared by `llms.txt` and `sitemap.xml`: the FAQ template
 * aliases, the exclude-pages filter loop, and the two selection rules the
 * repository carries (the plugin class and the older helper functions).
 */
module Selection {
  import opened Records
  import opened Seqs

  /** Template names that are excluded on top of the configured list. */
  const FaqAliases: seq<string> := ["faq", "faqs", "faqpage", "faq-page"]

  /** The test "not yet in `templates`", as the closure `Filter` takes. */
  function MissingFrom(templates: seq<string>): string -> bool {
    (a: string) => a !in templates
  }

  /** `templates` followed by the FAQ aliases it lacks, in alias order. */
  function WithFaqAliases(templates: seq<string>): (r: seq<string>)
    ensures |templates| <= |r| <= |templates| + |FaqAliases| && r[..|templates|] == templates
    ensures forall t :: t in r <==> t in templates || t in FaqAliases
  {
    FilterMembers(FaqAliases, MissingFrom(templates));
    templates + Filter(FaqAliases, MissingFrom(templates))
  }

  /** The `foreach ($faqVariations ...)` loop that appends each alias not yet present. */
  method AppendFaqAliases(templates: seq<string>) returns (excluded: seq<string>)
    ensures excluded == WithFaqAliases(templates)
  {
    excluded := templates;
    for i := 0 to |FaqAliases|
      invariant excluded == templates + Filter(FaqAliases[..i], MissingFrom(templates))
    {
      var alias := FaqAliases[i];
      assert alias !in FaqAliases[..i];
      FilterMembers(FaqAliases[..i], MissingFrom(templates));
      if alias !in excluded {
        excluded := excluded + [alias];
      }
      assert FaqAliases[..i + 1] == FaqAliases[..i] + [alias];
      FilterSnoc(FaqAliases[..i], alias, MissingFrom(templates));
    }
    assert FaqAliases[..|FaqAliases|] == FaqAliases;
  }

  /** No exclude-pages entry equals the page's id or its uri. */
  predicate NotNamedBy(p: Page, entries: seq<string>) {
    forall e :: e in entries ==> p.id != e && p.uri != e
  }

  function NotNamed(entries: seq<string>): Page -> bool {
    (p: Page) => NotNamedBy(p, entries)
  }

  /** The closure of one exclude-pages pass: the page's id and uri both differ from `e`. */
  function DifferentFrom(e: string): Page -> bool {
    (p: Page) => p.id != e && p.uri != e
  }

  lemma NotNamedByAppend(p: Page, done: seq<string>, e: string)
    ensures NotNamedBy(p, done + [e]) <==> NotNamedBy(p, done) && p.id != e && p.uri != e
  {
    if NotNamedBy(p, done + [e]) {
      assert e in done + [e];
      forall x | x in done ensures p.id != x && p.uri != x { assert x in done + [e]; }
    }
  }

  /** One more pass drops exactly what one more entry names. */
  lemma {:induction false} ExcludeOneMore(pages: seq<Page>, done: seq<string>, e: string)
    ensures Filter(Filter(pages, NotNamed(done)), DifferentFrom(e)) == Filter(pages, NotNamed(done + [e]))
  {
    FilterFilter(pages, NotNamed(done), DifferentFrom(e));
    forall p ensures Both(NotNamed(done), DifferentFrom(e))(p) == NotNamed(done + [e])(p) {
      NotNamedByAppend(p, done, e);
    }
    FilterExt(pages, Both(NotNamed(done), DifferentFrom(e)), NotNamed(done + [e]));
  }

  /**
   * The `if (!empty($pages)) foreach ($pages as $excludePage)` loop: one
   * `filter` pass per entry, each dropping the pages whose id or uri is
   * that entry.
   */
  method ExcludeNamedPages(pages: seq<Page>, entries: seq<string>) returns (r: seq<Page>)
    ensures r == Filter(pages, NotNamed(entries))
  {
    r := pages;
    FilterKeepsAll(pages, NotNamed([]));
    if |entries| > 0 {
      assert entries[..0] == [];
      for i := 0 to |entries|
        invariant r == Filter(pages, NotNamed(entries[..i]))
      {
        r := Filter(r, DifferentFrom(entries[i]));
        ExcludeOneMore(pages, entries[..i], entries[i]);
        assert entries[..i + 1] == entries[..i] + [entries[i]];
      }
      assert entries[..|entries|] == entries;
    }
  }

  /** The template pass: the page's template is not in the widened list. */
  function TemplateNotIn(excluded: seq<string>): Page -> bool {
    (p: Page) => p.template !in excluded
  }

  // ------------------------------------------------------- plugin class rule

  /** The class keeps a page whose template is outside the list and the aliases, and that no entry names. */
  predicate PluginKeeps(templates: seq<string>, entries: seq<string>, p: Page) {
    p.template !in templates && p.template !in FaqAliases && NotNamedBy(p, entries)
  }

  /** The pages the plugin class selects from the listed pages. */
  function PluginSelection(listed: seq<Page>, templates: seq<string>, entries: seq<string>): (r: seq<Page>)
    ensures |r| <= |listed|
    ensures forall p :: p in r ==> p in listed && PluginKeeps(templates, entries, p)
  {
    FilterMembers(listed, p => PluginKeeps(templates, entries, p));
    Filter(listed, p => PluginKeeps(templates, entries, p))
  }

  /**
   * The selection is a subsequence of the listed pages and holds exactly
   * the listed pages the rule keeps: FAQ-template pages never survive,
   * and a page no entry names by id or uri is never dropped for it.
   */
  lemma {:induction false} PluginSelectionSpec(listed: seq<Page>, templates: seq<string>, entries: seq<string>)
    ensures IsSubsequence(PluginSelection(listed, templates, entries), listed)
    ensures forall p :: p in PluginSelection(listed, templates, entries) <==> p in listed && PluginKeeps(templates, entries, p)
  {
    FilterIsSubsequence(listed, p => PluginKeeps(templates, entries, p));
    FilterMembers(listed, p => PluginKeeps(templates, entries, p));
  }

  /** The class's two passes, the widened template pass and then the exclude-pages passes, select `PluginSelection`. */
  lemma {:induction false} PluginPasses(listed: seq<Page>, templates: seq<string>, entries: seq<string>)
    ensures Filter(Filter(listed, TemplateNotIn(WithFaqAliases(templates))), NotNamed(entries))
         == PluginSelection(listed, templates, entries)
  {
    var t := TemplateNotIn(WithFaqAliases(templates));
    FilterFilter(listed, t, NotNamed(entries));
    FilterExt(listed, Both(t, NotNamed(entries)), p => PluginKeeps(templates, entries, p));
  }

  /** A page with a FAQ template is dropped whatever the configured list holds. */
  lemma FaqPagesAlwaysDropped(listed: seq<Page>, templates: seq<string>, entries: seq<string>, p: Page)
    requires p.template in FaqAliases
    ensures p !in PluginSelection(listed, templates, entries)
  {
    PluginSelectionSpec(listed, templates, entries);
  }

  // ----------------------------------------------------- helper function rule

  /**
   * The helper functions apply the template test (with the aliases) only
   * when the configured template list is non-empty.
   */
  predicate HelperKeeps(templates: seq<string>, entries: seq<string>, p: Page) {
    (templates == [] || (p.template !in templates && p.template !in FaqAliases)) && NotNamedBy(p, entries)
  }

  /** The pages the helper functions select from the listed pages. */
  function HelperSelection(listed: seq<Page>, templates: seq<string>, entries: seq<string>): (r: seq<Page>)
    ensures |r| <= |listed|
    ensures forall p :: p in r ==> p in listed && HelperKeeps(templates, entries, p)
  {
    FilterMembers(listed, p => HelperKeeps(templates, entries, p));
    Filter(listed, p => HelperKeeps(templates, entries, p))
  }

  /** The helper selection is a subsequence of the listed pages holding exactly the pages its rule keeps. */
  lemma {:induction false} HelperSelectionSpec(listed: seq<Page>, templates: seq<string>, entries: seq<string>)
    ensures IsSubsequence(HelperSelection(listed, templates, entries), listed)
    ensures forall p :: p in HelperSelection(listed, templates, entries) <==> p in listed && HelperKeeps(templates, entries, p)
  {
    FilterIsSubsequence(listed, p => HelperKeeps(templates, entries, p));
    FilterMembers(listed, p => HelperKeeps(templates, entries, p));
  }

  /**
   * The helpers' passes select `HelperSelection`: the widened template pass
   * runs only for a non-empty configured list.
   */
  lemma {:induction false} HelperPasses(listed: seq<Page>, templates: seq<string>, entries: seq<string>)
    ensures templates != [] ==>
      Filter(Filter(listed, TemplateNotIn(WithFaqAliases(templates))), NotNamed(entries))
      == HelperSelection(listed, templates, entries)
    ensures templates == [] ==> Filter(listed, NotNamed(entries)) == HelperSelection(listed, templates, entries)
  {
    if templates != [] {
      var t := TemplateNotIn(WithFaqAliases(templates));
      FilterFilter(listed, t, NotNamed(entries));
      FilterExt(listed, Both(t, NotNamed(entries)), p => HelperKeeps(templates, entries, p));
    } else {
      FilterExt(listed, NotNamed(entries), p => HelperKeeps(templates, entries, p));
    }
  }

  /** With a non-empty configured template list the two rules select the same pages. */
  lemma {:induction false} HelperAgreesWhenTemplatesConfigured(listed: seq<Page>, templates: seq<string>, entries: seq<string>)
    requires templates != []
    ensures HelperSelection(listed, templates, entries) == PluginSelection(listed, templates, entries)
  {
    FilterExt(listed, p => HelperKeeps(templates, entries, p), p => PluginKeeps(templates, entries, p));
  }

  /**
   * With an empty configured template list the helper functions keep a
   * FAQ-template page that the plugin class drops.
   */
  lemma {:induction false} HelperKeepsFaqWithoutConfiguredTemplates()
    ensures var faq := Page("faq1", "faq", "faq", "FAQ", "", "https://x.io/faq", "");
      HelperSelection([faq], [], []) == [faq] && PluginSelection([faq], [], []) == []
  {
    var faq := Page("faq1", "faq", "faq", "FAQ", "", "https://x.io/faq", "");
    assert FaqAliases[0] == "faq";
    assert Filter([faq], p => HelperKeeps([], [], p)) == [faq] by {
      assert [faq][1..] == [];
    }
  }
}
