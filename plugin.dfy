/**
 * The plugin class: settings loading with panel overrides, the richer
 * `isExcluded` predicate, the shared page selection, the two generators
 * and the cache-gated responses for `llms.txt` and `sitemap.xml`.
 */
module LlmsPlugin {
  import opened Records
  import opened PhpStrings
  import opened Seqs
  import opened Selection
  import opened Render
  import opened Cache

  // ------------------------------------------------------------ settings

  /**
   * The panel layer of `loadOptions`: a flag the panel sets replaces the
   * merged value; the duration only when positive, an exclude list only
   * when non-empty.
   */
  function ApplyPanel(base: Options, panel: Panel): (r: Options)
    ensures r.cacheDuration == base.cacheDuration || r.cacheDuration > 0
    ensures r.excludeTemplates == base.excludeTemplates || r.excludeTemplates != []
    ensures r.excludePages == base.excludePages || r.excludePages != []
  {
    base.(
      enabled := panel.enabled.GetOr(base.enabled),
      cache := panel.cache.GetOr(base.cache),
      cacheDuration := if panel.cacheDuration.Some? && panel.cacheDuration.value > 0
                       then panel.cacheDuration.value else base.cacheDuration,
      addTrailingSlash := panel.addTrailingSlash.GetOr(base.addTrailingSlash),
      excludeTemplates := if panel.excludeTemplates.Some? && panel.excludeTemplates.value != []
                          then panel.excludeTemplates.value else base.excludeTemplates,
      excludePages := if panel.excludePages.Some? && panel.excludePages.value != []
                      then panel.excludePages.value else base.excludePages,
      sitemapEnabled := panel.sitemapEnabled.GetOr(base.sitemapEnabled))
  }

  /** Defaults, then the deployment config, then the panel. */
  function PluginOptions(config: Config, panel: Panel): Options {
    ApplyPanel(MergeConfig(config), panel)
  }

  /**
   * Each guarded panel field wins exactly when its guard holds, and
   * otherwise the merged value stays; each plain flag wins whenever set.
   */
  lemma PanelOverrideRules(base: Options, panel: Panel)
    ensures var o := ApplyPanel(base, panel);
      && (o.cacheDuration != base.cacheDuration ==> panel.cacheDuration == Some(o.cacheDuration) && o.cacheDuration > 0)
      && (panel.cacheDuration.Some? && panel.cacheDuration.value > 0 ==> o.cacheDuration == panel.cacheDuration.value)
      && (o.excludeTemplates != base.excludeTemplates ==> panel.excludeTemplates == Some(o.excludeTemplates) && o.excludeTemplates != [])
      && (panel.excludeTemplates.Some? && panel.excludeTemplates.value != [] ==> o.excludeTemplates == panel.excludeTemplates.value)
      && (o.excludePages != base.excludePages ==> panel.excludePages == Some(o.excludePages) && o.excludePages != [])
      && (panel.excludePages.Some? && panel.excludePages.value != [] ==> o.excludePages == panel.excludePages.value)
      && (panel.enabled.Some? ==> o.enabled == panel.enabled.value)
      && (panel.enabled.None? ==> o.enabled == base.enabled)
      && (panel.cache.Some? ==> o.cache == panel.cache.value)
      && (panel.cache.None? ==> o.cache == base.cache)
      && (panel.addTrailingSlash.Some? ==> o.addTrailingSlash == panel.addTrailingSlash.value)
      && (panel.addTrailingSlash.None? ==> o.addTrailingSlash == base.addTrailingSlash)
      && (panel.sitemapEnabled.Some? ==> o.sitemapEnabled == panel.sitemapEnabled.value)
      && (panel.sitemapEnabled.None? ==> o.sitemapEnabled == base.sitemapEnabled)
  {
  }

  /** Without panel fields the settings are the merged defaults and config. */
  lemma NoPanelKeepsMerged(config: Config)
    ensures PluginOptions(config, EmptyPanel) == MergeConfig(config)
  {
  }

  /** A positive merged duration stays positive whatever the panel holds. */
  lemma DurationStaysPositive(config: Config, panel: Panel)
    requires MergeConfig(config).cacheDuration > 0
    ensures PluginOptions(config, panel).cacheDuration > 0
  {
  }

  /** Applying the same panel twice changes nothing more. */
  lemma ApplyPanelIdempotent(base: Options, panel: Panel)
    ensures ApplyPanel(ApplyPanel(base, panel), panel) == ApplyPanel(base, panel)
  {
  }

  // ---------------------------------------------------------- isExcluded

  /** `end(explode('/', $uri))`. */
  function LastSegment(uri: string): (r: string)
    ensures '/' !in r
  {
    var parts := Explode('/', uri);
    parts[|parts| - 1]
  }

  /** A uri without a slash is its own last segment. */
  lemma LastSegmentOfName(name: string)
    requires '/' !in name
    ensures LastSegment(name) == name
  {
    ExplodeNoSeparator('/', name);
  }

  /** The last segment is what follows the last slash. */
  lemma {:induction false} LastSegmentAfterSlash(folder: string, name: string)
    requires '/' !in name
    ensures LastSegment(folder + ['/'] + name) == name
    decreases |folder|
  {
    var s := folder + ['/'] + name;
    if folder == [] {
      assert s == ['/'] + name;
      assert s[1..] == name;
      ExplodeNoSeparator('/', name);
    } else {
      var tail := folder[1..] + ['/'] + name;
      assert s[1..] == tail;
      LastSegmentAfterSlash(folder[1..], name);
      CountAtLeastOne('/', folder[1..], name);
      assert |Explode('/', tail)| >= 2;
    }
  }

  /**
   * What one exclude-pages entry excludes, after `trim`: a page whose id or
   * uri is the entry, whose last uri segment is the entry, or whose uri
   * lies under the entry as a parent folder.
   */
  predicate ExcludedByEntry(p: Page, raw: string): (r: bool)
    ensures var e := Trim(raw, TrimDefault);
      '/' in e ==> (r <==> p.id == e || p.uri == e || (!IsPhpEmpty(e) && e + "/" <= p.uri))
  {
    var e := Trim(raw, TrimDefault);
    p.id == e || p.uri == e || LastSegment(p.uri) == e || (!IsPhpEmpty(e) && e + "/" <= p.uri)
  }

  /** The `foreach` over the exclude-pages entries, returning at the first entry that excludes. */
  function ExcludedByEntries(p: Page, entries: seq<string>): (r: bool)
    ensures r <==> exists i :: 0 <= i < |entries| && ExcludedByEntry(p, entries[i])
  {
    if entries == [] then false
    else if ExcludedByEntry(p, entries[0]) then true
    else
      var r := ExcludedByEntries(p, entries[1..]);
      assert forall i :: 1 <= i < |entries| ==> entries[i] == entries[1..][i - 1];
      r
  }

  /** `isExcluded`: the template is in the list, or some exclude-pages entry excludes the page. */
  function IsExcluded(p: Page, templates: seq<string>, entries: seq<string>): (r: bool)
    ensures r <==> p.template in templates || exists i :: 0 <= i < |entries| && ExcludedByEntry(p, entries[i])
  {
    if p.template in templates then true else ExcludedByEntries(p, entries)
  }

  /** The four reasons `isExcluded` gives, both directions. */
  lemma IsExcludedReasons(p: Page, templates: seq<string>, entries: seq<string>)
    ensures IsExcluded(p, templates, entries) <==>
      || p.template in templates
      || (exists i :: 0 <= i < |entries| && (p.id == Trim(entries[i], TrimDefault) || p.uri == Trim(entries[i], TrimDefault)))
      || (exists i :: 0 <= i < |entries| && LastSegment(p.uri) == Trim(entries[i], TrimDefault))
      || (exists i :: 0 <= i < |entries| && !IsPhpEmpty(Trim(entries[i], TrimDefault)) && Trim(entries[i], TrimDefault) + "/" <= p.uri)
  {
  }

  /** An entry that carries no padding is compared as it stands. */
  lemma {:induction false} UnpaddedEntry(p: Page, e: string)
    requires IsTrimmed(e, TrimDefault)
    ensures ExcludedByEntry(p, e) <==> p.id == e || p.uri == e || LastSegment(p.uri) == e || (!IsPhpEmpty(e) && e + "/" <= p.uri)
  {
    TrimStripsPadding([], e, [], TrimDefault);
    assert [] + e + [] == e;
  }

  /** Excluding `name` also excludes a page of that name in any folder. */
  lemma {:induction false} ExcludesSameNameInSubfolder(p: Page, templates: seq<string>, entries: seq<string>, folder: string, name: string)
    requires p.uri == folder + ['/'] + name && '/' !in name
    requires name in entries && IsTrimmed(name, TrimDefault)
    ensures IsExcluded(p, templates, entries)
  {
    LastSegmentAfterSlash(folder, name);
    var i :| 0 <= i < |entries| && entries[i] == name;
    UnpaddedEntry(p, entries[i]);
  }

  /** Excluding a parent folder excludes every page below it. */
  lemma {:induction false} ExcludesChildren(p: Page, templates: seq<string>, entries: seq<string>, parent: string, below: string)
    requires p.uri == parent + "/" + below
    requires parent in entries && IsTrimmed(parent, TrimDefault) && !IsPhpEmpty(parent)
    ensures IsExcluded(p, templates, entries)
  {
    var i :| 0 <= i < |entries| && entries[i] == parent;
    assert parent + "/" <= p.uri;
    UnpaddedEntry(p, entries[i]);
  }

  /**
   * Every page the shared selection drops is one `isExcluded` excludes
   * under the widened template list, when the entries carry no padding.
   */
  lemma {:induction false} SelectionDropsOnlyExcluded(listed: seq<Page>, templates: seq<string>, entries: seq<string>, p: Page)
    requires forall i :: 0 <= i < |entries| ==> IsTrimmed(entries[i], TrimDefault)
    requires p in listed && p !in PluginSelection(listed, templates, entries)
    ensures IsExcluded(p, WithFaqAliases(templates), entries)
  {
    PluginSelectionSpec(listed, templates, entries);
    if p.template !in WithFaqAliases(templates) {
      var e :| e in entries && (p.id == e || p.uri == e);
      var i :| 0 <= i < |entries| && entries[i] == e;
      UnpaddedEntry(p, entries[i]);
    }
  }

  /**
   * `isExcluded` is strictly richer than the selection: an entry naming a
   * page's last segment excludes that page in any folder, while the
   * selection, which compares whole ids and uris, keeps it.
   */
  lemma {:induction false} IsExcludedIsRicher(p: Page, folder: string, name: string)
    requires p.uri == folder + ['/'] + name && p.id == p.uri && '/' !in name && IsTrimmed(name, TrimDefault)
    requires p.template !in FaqAliases
    ensures IsExcluded(p, [], [name]) && PluginSelection([p], [], [name]) == [p]
  {
    ExcludesSameNameInSubfolder(p, [], [name], folder, name);
    assert PluginKeeps([], [name], p) by {
      assert |p.uri| > |name|;
      assert NotNamedBy(p, [name]);
    }
    assert Filter([p], q => PluginKeeps([], [name], q)) == [p] by {
      assert [p][1..] == [];
    }
  }

  // ---------------------------------------------------------- the class

  class Plugin {
    /** The site record and its listed pages (`site()->index()->listed()`), in index order. */
    const site: Site
    const listed: seq<Page>
    const lib: Library
    const options: Options
    const cache: CacheStore
    var fromCache: bool

    constructor (site: Site, listed: seq<Page>, lib: Library, config: Config, panel: Panel, cache: CacheStore)
      ensures this.site == site && this.listed == listed && this.lib == lib && this.cache == cache
      ensures options == PluginOptions(config, panel) && !fromCache
    {
      this.site := site;
      this.listed := listed;
      this.lib := lib;
      var o := LoadOptions(config, panel);
      options := o;
      this.cache := cache;
      fromCache := false;
    }

    /**
     * `loadOptions`: the merged settings, then each panel override in turn;
     * the panel layer works on the fields one at a time.
     */
    static method LoadOptions(config: Config, panel: Panel) returns (options: Options)
      ensures options == PluginOptions(config, panel)
    {
      var merged := MergeConfig(config);
      var enabled, cache, duration, slash := merged.enabled, merged.cache, merged.cacheDuration, merged.addTrailingSlash;
      var templates, pages, sitemap := merged.excludeTemplates, merged.excludePages, merged.sitemapEnabled;
      if panel.enabled.Some? {
        enabled := panel.enabled.value;
      }
      assert enabled == panel.enabled.GetOr(merged.enabled);
      if panel.cache.Some? {
        cache := panel.cache.value;
      }
      assert cache == panel.cache.GetOr(merged.cache);
      if panel.cacheDuration.Some? {
        var d := panel.cacheDuration.value;
        if d > 0 {
          duration := d;
        }
      }
      assert duration == ApplyPanel(merged, panel).cacheDuration;
      if panel.addTrailingSlash.Some? {
        slash := panel.addTrailingSlash.value;
      }
      assert slash == panel.addTrailingSlash.GetOr(merged.addTrailingSlash);
      if panel.excludeTemplates.Some? {
        var t := panel.excludeTemplates.value;
        if t != [] {
          templates := t;
        }
      }
      assert templates == ApplyPanel(merged, panel).excludeTemplates;
      if panel.excludePages.Some? {
        var e := panel.excludePages.value;
        if e != [] {
          pages := e;
        }
      }
      assert pages == ApplyPanel(merged, panel).excludePages;
      if panel.sitemapEnabled.Some? {
        sitemap := panel.sitemapEnabled.value;
      }
      options := Options(enabled, cache, duration, slash, sitemap, templates, pages);
    }

    /** `clearCache`: flushes the plugin cache. */
    static method ClearCache(cache: CacheStore)
      modifies cache
      ensures cache.entries == map[]
    {
      cache.Flush();
    }

    /** `getFilteredPages`: the widened template pass, then one pass per exclude-pages entry. */
    method GetFilteredPages() returns (pages: seq<Page>)
      ensures pages == PluginSelection(listed, options.excludeTemplates, options.excludePages)
    {
      pages := listed;
      var excludeTemplates := AppendFaqAliases(options.excludeTemplates);
      if excludeTemplates != [] {
        pages := Filter(pages, TemplateNotIn(excludeTemplates));
      }
      var filtered := pages;
      pages := ExcludeNamedPages(filtered, options.excludePages);
      PluginPasses(listed, options.excludeTemplates, options.excludePages);
    }

    /** `generateLlmsText`; `now` is the current time as `Y-m-d H:i:s`. */
    method GenerateLlmsText(now: string) returns (output: string)
      ensures output == LlmsText(site, PluginSelection(listed, options.excludeTemplates, options.excludePages),
                                 options.addTrailingSlash, now, lib, FullClean)
    {
      output := "# " + site.title + "\n\n";
      var description := "";
      if site.metaDescription != "" {
        description := site.metaDescription;
      } else if site.description != "" {
        description := site.description;
      }
      if !IsPhpEmpty(description) {
        output := output + ("> " + CleanText(lib, description) + "\n\n");
      }
      output := output + ("Generated on: " + now + "\n\n");
      output := output + "## Docs\n\n";
      assert output == LlmsHeader(site, now, lib, FullClean);

      var pages := GetFilteredPages();
      var lines := PageLines(pages, options.addTrailingSlash);
      if lines != [] {
        output := output + (Implode('\n', lines) + "\n");
        ImplodeThenNewline(lines);
      }
    }

    /** The `$lines[] = ...` loop of `generateLlmsText`: one line per page, in order. */
    method PageLines(pages: seq<Page>, addTrailing: bool) returns (lines: seq<string>)
      ensures lines == DocLines(pages, addTrailing, lib, FullClean)
    {
      lines := [];
      for i := 0 to |pages|
        invariant lines == DocLines(pages[..i], addTrailing, lib, FullClean)
      {
        var page := pages[i];
        var url := page.url;
        if addTrailing {
          url := EnsureTrailingSlash(url);
        }
        var title := page.title;
        var desc := if page.description != "" then CleanText(lib, page.description) else "";
        var line := "- [" + title + "](" + url + ")" + (if IsPhpEmpty(desc) then "" else " - " + desc);
        assert url == LinkUrl(page.url, addTrailing) && desc == PageDescription(page, lib, FullClean);
        assert line == DocLine(page, addTrailing, lib, FullClean);
        DocLinesSnoc(pages[..i], page, addTrailing, lib, FullClean);
        assert pages[..i + 1] == pages[..i] + [page];
        lines := lines + [line];
      }
      assert pages[..|pages|] == pages;
    }

    /** The body of `generateSitemapXml`'s page loop: one page's `<url>` block. */
    method UrlBlock(page: Page, addTrailing: bool) returns (block: string)
      ensures block == UrlElement(PageEntry(page, addTrailing, lib))
    {
      var url := page.url;
      if addTrailing && !EndsWithSlash(url) {
        url := url + "/";
      }
      var lastMod := page.modified;
      var depth := |Explode('/', Trim(page.uri, Slash))|;
      var changefreq := if depth <= 1 then "weekly" else "monthly";
      var priority := if 10 - 2 * depth > 1 then 10 - 2 * depth else 1;
      block := "  <url>\n"
        + "    <loc>" + lib.escapeHtml(url) + "</loc>\n"
        + "    <lastmod>" + lastMod + "</lastmod>\n"
        + "    <changefreq>" + changefreq + "</changefreq>\n"
        + "    <priority>" + FormatTenths(priority) + "</priority>\n"
        + "  </url>\n";
      assert url == LinkUrl(page.url, addTrailing);
      assert depth == UriDepth(page.uri);
      assert changefreq == ChangeFreq(depth) && priority == PriorityTenths(depth);
    }

    /** The homepage block `generateSitemapXml` writes before the page loop. */
    method HomeBlock(now: string) returns (home: string)
      ensures home == HomeElement(lib.escapeHtml(LinkUrl(site.url, options.addTrailingSlash)), now)
    {
      var siteUrl := site.url;
      if options.addTrailingSlash && !EndsWithSlash(siteUrl) {
        siteUrl := siteUrl + "/";
      }
      home := "  <url>\n"
        + "    <loc>" + lib.escapeHtml(siteUrl) + "</loc>\n"
        + "    <lastmod>" + now + "</lastmod>\n"
        + "    <changefreq>daily</changefreq>\n"
        + "    <priority>1.0</priority>\n"
        + "  </url>\n";
    }

    /** `generateSitemapXml`'s page loop: appends one `<url>` block per page to `xml`. */
    method AppendUrlBlocks(head: string, pages: seq<Page>, addTrailing: bool) returns (xml: string)
      ensures xml == head + UrlElements(PageEntries(pages, addTrailing, lib))
    {
      xml := head;
      assert PageEntries([], addTrailing, lib) == [];
      for i := 0 to |pages|
        invariant xml == head + UrlElements(PageEntries(pages[..i], addTrailing, lib))
      {
        var block := UrlBlock(pages[i], addTrailing);
        UrlElementsStep(head, pages, i, addTrailing, lib);
        xml := xml + block;
      }
      assert pages[..|pages|] == pages;
    }

    /** `generateSitemapXml`; `now` is the current time as `Y-m-d\TH:i:s+00:00`. */
    method GenerateSitemapXml(now: string) returns (xml: string)
      ensures xml == SitemapXml(site, PluginSelection(listed, options.excludeTemplates, options.excludePages),
                                options.addTrailingSlash, now, lib)
    {
      var pages := GetFilteredPages();
      var addTrailing := options.addTrailingSlash;

      xml := XmlDeclaration + UrlsetOpen;
      var home := HomeBlock(now);
      xml := xml + home;

      xml := AppendUrlBlocks(xml, pages, addTrailing);
      xml := xml + UrlsetClose;
    }

    /**
     * `response`: the disabled 404 first, leaving the cache alone; then a
     * truthy cached `llms` body; otherwise a fresh body, stored for
     * `cache.duration * 60` when caching is on.
     */
    method Response(now: string) returns (r: HttpResponse)
      modifies this, cache
      ensures !options.enabled ==>
        r == HttpResponse("LLMs.txt is disabled", "text/plain", 404)
        && cache.entries == old(cache.entries) && fromCache == old(fromCache)
      ensures options.enabled && CacheHit(options, old(cache.entries), "llms") ==>
        r == HttpResponse(old(cache.entries)["llms"].value, "text/plain", 200)
        && cache.entries == old(cache.entries) && fromCache
      ensures options.enabled && !CacheHit(options, old(cache.entries), "llms") ==>
        var body := LlmsText(site, PluginSelection(listed, options.excludeTemplates, options.excludePages),
                             options.addTrailingSlash, now, lib, FullClean);
        r == HttpResponse(body, "text/plain", 200) && fromCache == old(fromCache)
        && cache.entries == Stored(options, old(cache.entries), "llms", body)
    {
      if !options.enabled {
        return HttpResponse("LLMs.txt is disabled", "text/plain", 404);
      }
      if options.cache {
        var cached := cache.Get("llms");
        if cached.Some? && !IsPhpEmpty(cached.value) {
          fromCache := true;
          return HttpResponse(cached.value, "text/plain", 200);
        }
      }
      var content := GenerateLlmsText(now);
      if options.cache {
        cache.Set("llms", content, options.cacheDuration * 60);
      }
      r := HttpResponse(content, "text/plain", 200);
    }

    /** `sitemapResponse`: the same gate under the key `sitemap`, without touching `fromCache`. */
    method SitemapResponse(now: string) returns (r: HttpResponse)
      modifies cache
      ensures !options.sitemapEnabled ==>
        r == HttpResponse("Sitemap is disabled", "text/plain", 404) && cache.entries == old(cache.entries)
      ensures options.sitemapEnabled && CacheHit(options, old(cache.entries), "sitemap") ==>
        r == HttpResponse(old(cache.entries)["sitemap"].value, "application/xml", 200)
        && cache.entries == old(cache.entries)
      ensures options.sitemapEnabled && !CacheHit(options, old(cache.entries), "sitemap") ==>
        var body := SitemapXml(site, PluginSelection(listed, options.excludeTemplates, options.excludePages),
                               options.addTrailingSlash, now, lib);
        r == HttpResponse(body, "application/xml", 200)
        && cache.entries == Stored(options, old(cache.entries), "sitemap", body)
    {
      if !options.sitemapEnabled {
        return HttpResponse("Sitemap is disabled", "text/plain", 404);
      }
      if options.cache {
        var cached := cache.Get("sitemap");
        if cached.Some? && !IsPhpEmpty(cached.value) {
          return HttpResponse(cached.value, "application/xml", 200);
        }
      }
      var content := GenerateSitemapXml(now);
      if options.cache {
        cache.Set("sitemap", content, options.cacheDuration * 60);
      }
      r := HttpResponse(content, "application/xml", 200);
    }
  }

  // ---------------------------------------------------------- cache gate

  /** Caching is on and the key holds a truthy value. */
  predicate CacheHit(options: Options, entries: map<string, CacheEntry>, key: string): (r: bool)
    ensures !options.cache ==> !r
    ensures r ==> key in entries && |entries[key].value| >= 1
  {
    options.cache && key in entries && !IsPhpEmpty(entries[key].value)
  }

  /** The cache after a miss: the body under `key` for `cache.duration * 60` seconds when caching is on. */
  function Stored(options: Options, entries: map<string, CacheEntry>, key: string, body: string): map<string, CacheEntry> {
    if options.cache then entries[key := CacheEntry(body, options.cacheDuration * 60)] else entries
  }

  /**
   * A generated body is never PHP-empty, so once stored it is what the
   * next request with caching on returns.
   */
  lemma StoredBodyIsHit(options: Options, entries: map<string, CacheEntry>, key: string, body: string)
    requires options.cache && |body| >= 2
    ensures CacheHit(options, Stored(options, entries, key, body), key)
    ensures Stored(options, entries, key, body)[key].value == body
  {
  }

  /** Both generated bodies have at least two characters. */
  lemma GeneratedBodiesAreLong(site: Site, pages: seq<Page>, addSlash: bool, now: string, lib: Library, mode: Cleaning)
    ensures |LlmsText(site, pages, addSlash, now, lib, mode)| >= 2
    ensures |SitemapXml(site, pages, addSlash, now, lib)| >= 2
  {
  }
}
