/**
 * The older global helper functions: `llms()` with its memoised settings,
 * the helper `getFilteredPages`, `generateLlmsContent` (tags stripped,
 * whitespace kept) and `generateSitemapContent`.
 */
module Helpers {
  import opened Records
  import opened PhpStrings
  import opened Seqs
  import opened Selection
  import opened Render
  import LlmsPlugin

  // ------------------------------------------------------------ settings

  /**
   * The panel layer of `llms()`: a flag the panel sets replaces the merged
   * value; the duration whenever it is not PHP-empty (any non-zero value,
   * negative ones included), an exclude list only when non-empty.
   */
  function HelperPanel(base: Options, panel: Panel): (r: Options)
    ensures r.cacheDuration == base.cacheDuration || r.cacheDuration != 0
    ensures r.excludeTemplates == base.excludeTemplates || r.excludeTemplates != []
    ensures r.excludePages == base.excludePages || r.excludePages != []
  {
    base.(
      enabled := panel.enabled.GetOr(base.enabled),
      cache := panel.cache.GetOr(base.cache),
      cacheDuration := if panel.cacheDuration.Some? && panel.cacheDuration.value != 0
                       then panel.cacheDuration.value else base.cacheDuration,
      addTrailingSlash := panel.addTrailingSlash.GetOr(base.addTrailingSlash),
      excludeTemplates := if panel.excludeTemplates.Some? && panel.excludeTemplates.value != []
                          then panel.excludeTemplates.value else base.excludeTemplates,
      excludePages := if panel.excludePages.Some? && panel.excludePages.value != []
                      then panel.excludePages.value else base.excludePages,
      sitemapEnabled := panel.sitemapEnabled.GetOr(base.sitemapEnabled))
  }

  /** The settings `llms()` computes: defaults, then the deployment config, then the panel. */
  function HelperSettings(config: Config, panel: Panel): Options {
    HelperPanel(MergeConfig(config), panel)
  }

  /**
   * The duration rule of `llms()`: the panel value wins exactly when it is
   * set and non-zero; every other field follows the same rule as the class.
   */
  lemma HelperDurationRule(base: Options, panel: Panel)
    ensures var o := HelperPanel(base, panel);
      && (panel.cacheDuration.Some? && panel.cacheDuration.value != 0 ==> o.cacheDuration == panel.cacheDuration.value)
      && (panel.cacheDuration.None? || panel.cacheDuration.value == 0 ==> o.cacheDuration == base.cacheDuration)
      && o.(cacheDuration := base.cacheDuration) == LlmsPlugin.ApplyPanel(base, panel).(cacheDuration := base.cacheDuration)
  {
  }

  /** Unless the panel duration is negative, `llms()` and the class load the same settings. */
  lemma HelperSettingsAgree(config: Config, panel: Panel)
    requires panel.cacheDuration.None? || panel.cacheDuration.value >= 0
    ensures HelperSettings(config, panel) == LlmsPlugin.PluginOptions(config, panel)
  {
  }

  /** A negative panel duration is taken by `llms()` and ignored by the class. */
  lemma NegativeDurationDiverges(config: Config, panel: Panel)
    requires panel.cacheDuration.Some? && panel.cacheDuration.value < 0
    ensures HelperSettings(config, panel).cacheDuration == panel.cacheDuration.value < 0
    ensures LlmsPlugin.PluginOptions(config, panel).cacheDuration == MergeConfig(config).cacheDuration
  {
  }

  /** The merge of `llms()`, one panel override after another. */
  method MergeSettings(config: Config, panel: Panel) returns (settings: Options)
    ensures settings == HelperSettings(config, panel)
  {
    var merged := MergeConfig(config);
    var enabled, cache, duration, slash := merged.enabled, merged.cache, merged.cacheDuration, merged.addTrailingSlash;
    var templates, pages, sitemap := merged.excludeTemplates, merged.excludePages, merged.sitemapEnabled;
    if panel.enabled.Some? {
      enabled := panel.enabled.value;
    }
    assert enabled == panel.enabled.GetOr(merged.enabled);
    if panel.cache.Some? {
      cache := panel.cache.value;
    }
    assert cache == panel.cache.GetOr(merged.cache);
    if panel.cacheDuration.Some? && panel.cacheDuration.value != 0 {
      duration := panel.cacheDuration.value;
    }
    assert duration == HelperPanel(merged, panel).cacheDuration;
    if panel.addTrailingSlash.Some? {
      slash := panel.addTrailingSlash.value;
    }
    assert slash == panel.addTrailingSlash.GetOr(merged.addTrailingSlash);
    if panel.excludeTemplates.Some? && panel.excludeTemplates.value != [] {
      templates := panel.excludeTemplates.value;
    }
    assert templates == HelperPanel(merged, panel).excludeTemplates;
    if panel.excludePages.Some? && panel.excludePages.value != [] {
      pages := panel.excludePages.value;
    }
    assert pages == HelperPanel(merged, panel).excludePages;
    if panel.sitemapEnabled.Some? {
      sitemap := panel.sitemapEnabled.value;
    }
    settings := Options(enabled, cache, duration, slash, sitemap, templates, pages);
  }

  /** The `static $settings` of `llms()`: computed on the first call, returned as it is afterwards. */
  class SettingsMemo {
    var settings: Option<Options>

    constructor ()
      ensures settings == None
    {
      settings := None;
    }

    /** `llms()`: later calls return the first call's settings, whatever config and panel hold then. */
    method Llms(config: Config, panel: Panel) returns (s: Options)
      modifies this
      ensures old(settings).Some? ==> s == old(settings).value && settings == old(settings)
      ensures old(settings).None? ==> s == HelperSettings(config, panel) && settings == Some(s)
    {
      if settings.Some? {
        return settings.value;
      }
      s := MergeSettings(config, panel);
      settings := Some(s);
    }
  }

  // -------------------------------------------------------- page selection

  /**
   * The helper `getFilteredPages`: the widened template pass only when the
   * configured list is non-empty, then one pass per exclude-pages entry.
   */
  method GetFilteredPages(listed: seq<Page>, settings: Options) returns (pages: seq<Page>)
    ensures pages == HelperSelection(listed, settings.excludeTemplates, settings.excludePages)
  {
    pages := listed;
    if settings.excludeTemplates != [] {
      var excludeTemplates := AppendFaqAliases(settings.excludeTemplates);
      pages := Filter(pages, TemplateNotIn(excludeTemplates));
    }
    var filtered := pages;
    pages := ExcludeNamedPages(filtered, settings.excludePages);
    HelperPasses(listed, settings.excludeTemplates, settings.excludePages);
  }

  // ------------------------------------------------------------ llms.txt

  /** One page's line in `generateLlmsContent`, with the description only tag-stripped. */
  method ContentLine(page: Page, addTrailing: bool, lib: Library) returns (line: string)
    ensures line == DocLine(page, addTrailing, lib, StripOnly)
  {
    var url := page.url;
    if addTrailing && !EndsWithSlash(url) {
      url := url + "/";
    }
    var title := page.title;
    var description := if page.description != "" then lib.stripTags(page.description) else "";
    line := "- [" + title + "](" + url + ")" + (if IsPhpEmpty(description) then "" else " - " + description);
    assert url == LinkUrl(page.url, addTrailing);
  }

  /** The page loop of `generateLlmsContent`: each line and its newline appended to `head`. */
  method AppendContentLines(head: string, pages: seq<Page>, addTrailing: bool, lib: Library) returns (content: string)
    ensures content == head + Unlines(DocLines(pages, addTrailing, lib, StripOnly))
  {
    content := head;
    assert DocLines([], addTrailing, lib, StripOnly) == [];
    for i := 0 to |pages|
      invariant content == head + Unlines(DocLines(pages[..i], addTrailing, lib, StripOnly))
    {
      var line := ContentLine(pages[i], addTrailing, lib);
      UnlinesStep(head, pages, i, addTrailing, lib, StripOnly);
      content := content + (line + "\n");
    }
    assert pages[..|pages|] == pages;
  }

  /** `generateLlmsContent`; `now` is the current time as `Y-m-d H:i:s`. */
  method GenerateLlmsContent(site: Site, listed: seq<Page>, settings: Options, now: string, lib: Library)
    returns (content: string)
    ensures content == LlmsText(site, HelperSelection(listed, settings.excludeTemplates, settings.excludePages),
                                settings.addTrailingSlash, now, lib, StripOnly)
  {
    content := "# " + site.title + "\n\n";
    var description := "";
    if site.metaDescription != "" {
      description := site.metaDescription;
    } else if site.description != "" {
      description := site.description;
    }
    if !IsPhpEmpty(description) {
      content := content + ("> " + lib.stripTags(description) + "\n\n");
    }
    content := content + ("Generated on: " + now + "\n\n");
    content := content + "## Docs\n\n";
    assert content == LlmsHeader(site, now, lib, StripOnly);

    var pages := GetFilteredPages(listed, settings);
    content := AppendContentLines(content, pages, settings.addTrailingSlash, lib);
  }

  /**
   * `generateLlmsContent` writes one newline-terminated line per page,
   * in page order, when no title, URL or stripped description holds a newline.
   */
  lemma {:induction false} ContentOneLinePerPage(pages: seq<Page>, addSlash: bool, lib: Library)
    requires forall i :: 0 <= i < |pages| ==> '\n' !in pages[i].title && '\n' !in pages[i].url
    requires forall i :: 0 <= i < |pages| ==> '\n' !in lib.stripTags(pages[i].description)
    ensures Explode('\n', Unlines(DocLines(pages, addSlash, lib, StripOnly))) == DocLines(pages, addSlash, lib, StripOnly) + [""]
  {
    var lines := DocLines(pages, addSlash, lib, StripOnly);
    forall i | 0 <= i < |lines| ensures '\n' !in lines[i] {
      var p := pages[i];
      var u := LinkUrl(p.url, addSlash);
      assert '\n' !in u by {
        if addSlash && !EndsWithSlash(p.url) { assert u == p.url + "/"; }
      }
      assert '\n' !in PageDescription(p, lib, StripOnly);
    }
    UnlinesSplitsBack(lines);
  }

  /**
   * The helper writer keeps line breaks in a description: a page whose
   * tag-stripped description holds a newline spreads its entry over more
   * than one line, so the page section splits into more lines than pages.
   */
  lemma {:induction false} MultilineDescriptionSplitsEntry(p: Page, addSlash: bool, lib: Library)
    requires p.description != "" && '\n' in lib.stripTags(p.description)
    ensures '\n' in DocLine(p, addSlash, lib, StripOnly)
    ensures |Explode('\n', Unlines(DocLines([p], addSlash, lib, StripOnly)))| > |[p]| + 1
  {
    var d := lib.stripTags(p.description);
    var line := DocLine(p, addSlash, lib, StripOnly);
    var head := "- [" + p.title + "](" + LinkUrl(p.url, addSlash) + ")";
    assert PageDescription(p, lib, StripOnly) == d;
    assert line == head + (" - " + d);
    CountMember('\n', d);
    CountAppend('\n', " - ", d);
    CountAppend('\n', head, " - " + d);
    assert DocLines([p], addSlash, lib, StripOnly) == [line];
    assert Unlines([line]) == line + "\n" + Unlines([]);
    assert Unlines([line]) == line + "\n";
    CountAppend('\n', line, "\n");
    assert Count('\n', line) >= 1;
  }

  /**
   * Where no description is set, the two llms.txt writers produce the same
   * text from the same pages: the cleaning modes differ only on descriptions.
   */
  lemma {:induction false} WritersAgreeWithoutDescriptions(site: Site, pages: seq<Page>, addSlash: bool, now: string, lib: Library)
    requires site.metaDescription == "" && IsPhpEmpty(site.description)
    requires forall i :: 0 <= i < |pages| ==> pages[i].description == ""
    ensures LlmsText(site, pages, addSlash, now, lib, StripOnly) == LlmsText(site, pages, addSlash, now, lib, FullClean)
  {
    var a := DocLines(pages, addSlash, lib, StripOnly);
    var b := DocLines(pages, addSlash, lib, FullClean);
    forall i | 0 <= i < |pages| ensures a[i] == b[i] {
      assert PageDescription(pages[i], lib, StripOnly) == "" == PageDescription(pages[i], lib, FullClean);
    }
    assert a == b;
  }

  // --------------------------------------------------------- sitemap.xml

  /** One page's `<url>` block in `generateSitemapContent`. */
  method SitemapBlock(page: Page, addTrailing: bool, lib: Library) returns (block: string)
    ensures block == UrlElement(PageEntry(page, addTrailing, lib))
  {
    var url := page.url;
    if addTrailing && !EndsWithSlash(url) {
      url := url + "/";
    }
    var lastMod := page.modified;
    var depth := |Explode('/', Trim(page.uri, Slash))|;
    var changefreq := if depth <= 1 then "weekly" else "monthly";
    var priority := if 10 - 2 * depth > 1 then 10 - 2 * depth else 1;
    block := "  <url>\n"
      + "    <loc>" + lib.escapeHtml(url) + "</loc>\n"
      + "    <lastmod>" + lastMod + "</lastmod>\n"
      + "    <changefreq>" + changefreq + "</changefreq>\n"
      + "    <priority>" + FormatTenths(priority) + "</priority>\n"
      + "  </url>\n";
    assert url == LinkUrl(page.url, addTrailing);
    assert depth == UriDepth(page.uri);
    assert changefreq == ChangeFreq(depth) && priority == PriorityTenths(depth);
  }

  /** The page loop of `generateSitemapContent`: one block per page appended to `head`. */
  method AppendSitemapBlocks(head: string, pages: seq<Page>, addTrailing: bool, lib: Library) returns (xml: string)
    ensures xml == head + UrlElements(PageEntries(pages, addTrailing, lib))
  {
    xml := head;
    assert PageEntries([], addTrailing, lib) == [];
    for i := 0 to |pages|
      invariant xml == head + UrlElements(PageEntries(pages[..i], addTrailing, lib))
    {
      var block := SitemapBlock(pages[i], addTrailing, lib);
      UrlElementsStep(head, pages, i, addTrailing, lib);
      xml := xml + block;
    }
    assert pages[..|pages|] == pages;
  }

  /** `generateSitemapContent`; `now` is the current time as `Y-m-d\TH:i:s+00:00`. */
  method GenerateSitemapContent(site: Site, listed: seq<Page>, settings: Options, now: string, lib: Library)
    returns (xml: string)
    ensures xml == SitemapXml(site, HelperSelection(listed, settings.excludeTemplates, settings.excludePages),
                              settings.addTrailingSlash, now, lib)
  {
    var pages := GetFilteredPages(listed, settings);
    var addTrailing := settings.addTrailingSlash;

    xml := XmlDeclaration + UrlsetOpen;
    var siteUrl := site.url;
    if addTrailing && !EndsWithSlash(siteUrl) {
      siteUrl := siteUrl + "/";
    }
    var home := "  <url>\n"
      + "    <loc>" + lib.escapeHtml(siteUrl) + "</loc>\n"
      + "    <lastmod>" + now + "</lastmod>\n"
      + "    <changefreq>daily</changefreq>\n"
      + "    <priority>1.0</priority>\n"
      + "  </url>\n";
    assert home == HomeElement(lib.escapeHtml(LinkUrl(site.url, addTrailing)), now);
    xml := xml + home;

    xml := AppendSitemapBlocks(xml, pages, addTrailing, lib);
    xml := xml + "</urlset>";
  }
}
