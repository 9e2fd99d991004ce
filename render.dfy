/**
 * The two artifacts: the `llms.txt` text and the sitemaps.org 0.9
 * `urlset` document, as functions of the selected pages, the site record
 * and the settings. The generators in the plugin class and the helper
 * functions are proved equal to these.
 */
module Render {
  import opened Records
  import opened PhpStrings

  // ------------------------------------------------------------------ URLs

  /** `ensureTrailingSlash`: the shortest extension of `url` that ends in a slash. */
  function EnsureTrailingSlash(url: string): (r: string)
    ensures EndsWithSlash(r)
    ensures url <= r && |r| <= |url| + 1
    ensures EndsWithSlash(url) ==> r == url
  {
    if !EndsWithSlash(url) then url + "/" else url
  }

  lemma EnsureTrailingSlashIdempotent(url: string)
    ensures EnsureTrailingSlash(EnsureTrailingSlash(url)) == EnsureTrailingSlash(url)
  {
  }

  /** The URL a page or the site is rendered with under `add_trailing_slash`. */
  function LinkUrl(url: string, addSlash: bool): (r: string)
    ensures addSlash ==> EndsWithSlash(r) && url <= r && |r| <= |url| + 1
    ensures !addSlash ==> r == url
  {
    if addSlash then EnsureTrailingSlash(url) else url
  }

  // -------------------------------------------------------------- cleaning

  /** The whitespace step of `cleanText`: collapse `\s+` to one space, then `trim`. */
  function NormalizeWhitespace(s: string): (r: string)
    ensures '\n' !in r && '\t' !in r && '\r' !in r
  {
    NormalizeWhitespaceShape(s);
    Trim(CollapseWhitespace(s), TrimDefault)
  }

  /**
   * The result has single spaces only, no other `\s` character, and
   * no padding that `trim` would remove.
   */
  lemma {:induction false} NormalizeWhitespaceShape(s: string)
    ensures var r := Trim(CollapseWhitespace(s), TrimDefault);
      IsCollapsed(r) && IsTrimmed(r, TrimDefault) && '\n' !in r && '\t' !in r && '\r' !in r
  {
    var c := CollapseWhitespace(s);
    var r := Trim(c, TrimDefault);
    var start := TrimStart(c, TrimDefault);
    CollapseIsCollapsed(s);
    TrimSpec(c, TrimDefault);
    InfixOfCollapsed(c, start, start + |r|);
    assert IsCollapsed(r);
    CollapsedIsOneLine(r);
  }

  /** Cleaning twice is cleaning once. */
  lemma {:induction false} NormalizeWhitespaceIdempotent(s: string)
    ensures NormalizeWhitespace(NormalizeWhitespace(s)) == NormalizeWhitespace(s)
  {
    var n := NormalizeWhitespace(s);
    NormalizeWhitespaceShape(s);
    CollapseFixesCollapsed(n);
    TrimIdempotent(CollapseWhitespace(s), TrimDefault);
  }

  /**
   * No visible character is lost or added by the whitespace step, as long
   * as the text holds no NUL byte (which `trim` strips but `\s` does not
   * match).
   */
  lemma {:induction false} NormalizeWhitespaceKeepsText(s: string)
    requires '\0' !in s
    ensures Visible(NormalizeWhitespace(s)) == Visible(s)
  {
    CollapseKeepsVisible(s);
    CollapseAbsent(s, '\0');
    TrimKeepsVisible(CollapseWhitespace(s));
  }

  /**
   * Two words separated by any run of `\s` characters come out joined by
   * exactly one space.
   */
  lemma {:induction false} NormalizeWhitespaceJoin(a: string, w: string, b: string)
    requires a != [] && IsCollapsed(a) && IsTrimmed(a, TrimDefault)
    requires b != [] && IsCollapsed(b) && IsTrimmed(b, TrimDefault)
    requires w != [] && forall k :: 0 <= k < |w| ==> w[k] in PcreSpace
    ensures NormalizeWhitespace(a + w + b) == a + " " + b
  {
    assert a[|a| - 1] != ' ' && b[0] != ' ';
    assert a[|a| - 1] !in PcreSpace && b[0] !in PcreSpace;
    CollapseJoin(a, w, b);
    CollapseFixesCollapsed(a);
    CollapseFixesCollapsed(b);
    var m := a + " " + b;
    assert m[0] == a[0] && m[|m| - 1] == b[|b| - 1];
    TrimStripsPadding([], m, [], TrimDefault);
    assert [] + m + [] == m;
  }

  /** The cleaned text keeps every visible character of the decoded text, in order. */
  lemma CleanTextKeepsText(lib: Library, text: string)
    requires '\0' !in lib.decodeEntities(lib.stripTags(text))
    ensures Visible(CleanText(lib, text)) == Visible(lib.decodeEntities(lib.stripTags(text)))
  {
    NormalizeWhitespaceKeepsText(lib.decodeEntities(lib.stripTags(text)));
  }

  /** `cleanText`: strip tags, decode entities, then normalise whitespace; the result is one line. */
  function CleanText(lib: Library, text: string): (r: string)
    ensures '\n' !in r
  {
    NormalizeWhitespace(lib.decodeEntities(lib.stripTags(text)))
  }

  /** The cleaned text is collapsed and trimmed, whatever the library calls return. */
  lemma CleanTextShape(lib: Library, text: string)
    ensures IsCollapsed(CleanText(lib, text)) && IsTrimmed(CleanText(lib, text), TrimDefault)
  {
    NormalizeWhitespaceShape(lib.decodeEntities(lib.stripTags(text)));
  }

  /** How descriptions are cleaned: `cleanText` in the class, bare `strip_tags` in the helpers. */
  datatype Cleaning = FullClean | StripOnly

  function Clean(lib: Library, mode: Cleaning, s: string): string {
    match mode
    case FullClean => CleanText(lib, s)
    case StripOnly => lib.stripTags(s)
  }

  // ------------------------------------------------------------- llms.txt

  /**
   * The site description: the meta description when the field is not
   * empty, otherwise the description field.
   */
  function SiteDescription(site: Site): (r: string)
    ensures r == "" <==> site.metaDescription == "" && site.description == ""
    ensures r == site.metaDescription || r == site.description
    ensures site.metaDescription != "" ==> r == site.metaDescription
  {
    if site.metaDescription != "" then site.metaDescription
    else if site.description != "" then site.description
    else ""
  }

  /** Everything up to and including the `## Docs` heading; `now` is the formatted current time. */
  function LlmsHeader(site: Site, now: string, lib: Library, mode: Cleaning): (r: string)
    ensures "# " + site.title + "\n\n" <= r
  {
    var description := SiteDescription(site);
    var title := "# " + site.title + "\n\n";
    var generated := "Generated on: " + now + "\n\n";
    if IsPhpEmpty(description) then title + generated + "## Docs\n\n"
    else title + ("> " + Clean(lib, mode, description) + "\n\n") + generated + "## Docs\n\n"
  }

  /** A page's cleaned description, or "" when its description field is empty. */
  function PageDescription(p: Page, lib: Library, mode: Cleaning): string {
    if p.description != "" then Clean(lib, mode, p.description) else ""
  }

  /** `- [title](url)`, followed by ` - description` when the cleaned description is truthy. */
  function DocLine(p: Page, addSlash: bool, lib: Library, mode: Cleaning): (r: string)
    ensures var link := "- [" + p.title + "](" + LinkUrl(p.url, addSlash) + ")";
      link <= r && (r == link <==> IsPhpEmpty(PageDescription(p, lib, mode)))
  {
    var desc := PageDescription(p, lib, mode);
    "- [" + p.title + "](" + LinkUrl(p.url, addSlash) + ")" + (if IsPhpEmpty(desc) then "" else " - " + desc)
  }

  function DocLines(pages: seq<Page>, addSlash: bool, lib: Library, mode: Cleaning): (r: seq<string>)
    ensures |r| == |pages|
    ensures forall i :: 0 <= i < |pages| ==> r[i] == DocLine(pages[i], addSlash, lib, mode)
  {
    seq(|pages|, i requires 0 <= i < |pages| => DocLine(pages[i], addSlash, lib, mode))
  }

  /** One more page adds its line at the end. */
  lemma DocLinesSnoc(pages: seq<Page>, p: Page, addSlash: bool, lib: Library, mode: Cleaning)
    ensures DocLines(pages + [p], addSlash, lib, mode) == DocLines(pages, addSlash, lib, mode) + [DocLine(p, addSlash, lib, mode)]
  {
  }

  /** Each line followed by a newline. */
  function Unlines(lines: seq<string>): string {
    if lines == [] then "" else lines[0] + "\n" + Unlines(lines[1..])
  }

  /** The whole `llms.txt` body. */
  function LlmsText(site: Site, pages: seq<Page>, addSlash: bool, now: string, lib: Library, mode: Cleaning): (r: string)
    ensures LlmsHeader(site, now, lib, mode) <= r
    ensures pages == [] ==> r == LlmsHeader(site, now, lib, mode)
  {
    LlmsHeader(site, now, lib, mode) + Unlines(DocLines(pages, addSlash, lib, mode))
  }

  /** Appending the next page's line and a newline extends the lines of the pages before it. */
  lemma UnlinesStep(head: string, pages: seq<Page>, i: nat, addSlash: bool, lib: Library, mode: Cleaning)
    requires i < |pages|
    ensures head + Unlines(DocLines(pages[..i + 1], addSlash, lib, mode))
         == head + Unlines(DocLines(pages[..i], addSlash, lib, mode)) + (DocLine(pages[i], addSlash, lib, mode) + "\n")
  {
    var done := DocLines(pages[..i], addSlash, lib, mode);
    var line := DocLine(pages[i], addSlash, lib, mode);
    assert pages[..i + 1] == pages[..i] + [pages[i]];
    DocLinesSnoc(pages[..i], pages[i], addSlash, lib, mode);
    UnlinesSnoc(done, line);
    AppendAssoc(Unlines(done), line, "\n");
    AppendAssoc(head, Unlines(done), line + "\n");
  }

  /** Newline-terminated lines are the lines joined by newlines, plus one final empty part. */
  lemma {:induction false} UnlinesIsImplode(lines: seq<string>)
    ensures Unlines(lines) == Implode('\n', lines + [""])
  {
    if lines != [] {
      UnlinesIsImplode(lines[1..]);
      assert (lines + [""])[1..] == lines[1..] + [""];
    }
  }

  /** `implode("\n", $lines) . "\n"` on a non-empty list is the same text as appending `line . "\n"` per line. */
  lemma {:induction false} ImplodeThenNewline(lines: seq<string>)
    requires lines != []
    ensures Implode('\n', lines) + "\n" == Unlines(lines)
  {
    if |lines| > 1 {
      ImplodeThenNewline(lines[1..]);
    } else {
      assert lines[1..] == [];
    }
  }

  /** Appending one more newline-terminated line. */
  lemma {:induction false} UnlinesSnoc(lines: seq<string>, line: string)
    ensures Unlines(lines + [line]) == Unlines(lines) + line + "\n"
  {
    if lines == [] {
      assert [] + [line] == [line];
      assert [line][1..] == [];
    } else {
      assert (lines + [line])[1..] == lines[1..] + [line];
      UnlinesSnoc(lines[1..], line);
    }
  }

  /**
   * When no line holds a newline, splitting the page section at newlines
   * gives back exactly the lines, one per page, and a final empty part.
   */
  lemma {:induction false} UnlinesSplitsBack(lines: seq<string>)
    requires forall i :: 0 <= i < |lines| ==> '\n' !in lines[i]
    ensures Explode('\n', Unlines(lines)) == lines + [""]
  {
    UnlinesIsImplode(lines);
    ExplodeImplode('\n', lines + [""]);
  }

  /**
   * With the full `cleanText`, a page line holds no newline as long as the
   * page's title and URL hold none.
   */
  lemma {:induction false} DocLineIsOneLine(p: Page, addSlash: bool, lib: Library)
    requires '\n' !in p.title && '\n' !in p.url
    ensures '\n' !in DocLine(p, addSlash, lib, FullClean)
  {
    var u := LinkUrl(p.url, addSlash);
    assert '\n' !in u by {
      if addSlash && !EndsWithSlash(p.url) { assert u == p.url + "/"; }
    }
    var desc := PageDescription(p, lib, FullClean);
    assert '\n' !in desc;
  }

  /**
   * The `llms.txt` written by the plugin class holds one line per selected
   * page after its header, in page order, when titles and URLs hold no newline.
   */
  lemma {:induction false} OneLinePerPage(site: Site, pages: seq<Page>, addSlash: bool, now: string, lib: Library)
    requires forall i :: 0 <= i < |pages| ==> '\n' !in pages[i].title && '\n' !in pages[i].url
    ensures LlmsText(site, pages, addSlash, now, lib, FullClean)
         == LlmsHeader(site, now, lib, FullClean) + Implode('\n', DocLines(pages, addSlash, lib, FullClean) + [""])
    ensures Explode('\n', Unlines(DocLines(pages, addSlash, lib, FullClean))) == DocLines(pages, addSlash, lib, FullClean) + [""]
  {
    var lines := DocLines(pages, addSlash, lib, FullClean);
    forall i | 0 <= i < |lines| ensures '\n' !in lines[i] {
      DocLineIsOneLine(pages[i], addSlash, lib);
    }
    UnlinesIsImplode(lines);
    UnlinesSplitsBack(lines);
  }

  /**
   * The header opens with the title line; a `> ` line follows exactly when
   * the chosen description (the meta description if set, else the
   * description) is truthy; it closes with the `## Docs` heading.
   */
  lemma {:induction false} HeaderLayout(site: Site, now: string, lib: Library, mode: Cleaning)
    ensures var h := LlmsHeader(site, now, lib, mode);
      var d := SiteDescription(site);
      var title := "# " + site.title + "\n\n";
      && (!IsPhpEmpty(d) ==> title + ("> " + Clean(lib, mode, d) + "\n\n") <= h)
      && (IsPhpEmpty(d) ==> title + ("Generated on: " + now) <= h)
      && |h| >= 9 && h[|h| - 9..] == "## Docs\n\n"
    ensures site.metaDescription != "" ==> SiteDescription(site) == site.metaDescription
    ensures site.metaDescription == "" ==> SiteDescription(site) == site.description
  {
    var h := LlmsHeader(site, now, lib, mode);
    var d := SiteDescription(site);
    var title := "# " + site.title + "\n\n";
    var generated := "Generated on: " + now + "\n\n";
    if IsPhpEmpty(d) {
      var stamp := "Generated on: " + now;
      assert generated == stamp + "\n\n";
      AppendAssoc(title, stamp, "\n\n");
      AppendAssoc(title + stamp, "\n\n", "## Docs\n\n");
      assert h == (title + stamp) + ("\n\n" + "## Docs\n\n");
      PrefixOfAppend(title + stamp, "\n\n" + "## Docs\n\n");
      SuffixOfAppend(title + generated, "## Docs\n\n");
    } else {
      var line := "> " + Clean(lib, mode, d) + "\n\n";
      AppendAssoc(title + line, generated, "## Docs\n\n");
      PrefixOfAppend(title + line, generated + "## Docs\n\n");
      SuffixOfAppend(title + line + generated, "## Docs\n\n");
    }
  }

  lemma AppendAssoc(a: string, b: string, c: string)
    ensures (a + b) + c == a + (b + c)
  {
  }

  lemma SuffixOfAppend(a: string, b: string)
    ensures (a + b)[|a|..] == b
  {
  }

  lemma PrefixOfAppend(a: string, b: string)
    ensures a <= a + b
  {
  }

  // ---------------------------------------------------------- sitemap.xml

  /** One `<url>` element of the sitemap. */
  datatype UrlEntry = UrlEntry(loc: string, lastmod: string, changefreq: string, priority: string)

  const XmlDeclaration := "<?xml version=\"1.0\" encoding=\"UTF-8\"?>\n"
  const UrlsetOpen := "<urlset xmlns=\"http://www.sitemaps.org/schemas/sitemap/0.9\">\n"
  const UrlsetClose := "</urlset>"
  const Slash: set<char> := {'/'}

  /** `count(explode('/', trim($uri, '/')))`. */
  function UriDepth(uri: string): (d: nat)
    ensures d >= 1
    ensures d == 1 + Count('/', Trim(uri, Slash))
  {
    |Explode('/', Trim(uri, Slash))|
  }

  /** `weekly` for pages at depth one or less, `monthly` below. */
  function ChangeFreq(depth: int): (r: string)
    ensures r == "weekly" || r == "monthly"
    ensures r == "weekly" <==> depth <= 1
  {
    if depth <= 1 then "weekly" else "monthly"
  }

  /** `max(0.1, 1.0 - $depth * 0.2)` in tenths. */
  function PriorityTenths(depth: int): (t: int)
    ensures t >= 1 && t >= 10 - 2 * depth
    ensures t == 1 || t == 10 - 2 * depth
    ensures depth >= 1 ==> t <= 8
  {
    if 10 - 2 * depth > 1 then 10 - 2 * depth else 1
  }

  /** `number_format($x, 1)` for a priority between 0.0 and 1.0 given in tenths. */
  function FormatTenths(t: int): (r: string)
    requires 0 <= t <= 10
    ensures |r| == 3 && r[1] == '.' && '0' <= r[0] <= '9' && '0' <= r[2] <= '9'
    ensures (r[0] as int - '0' as int) * 10 + (r[2] as int - '0' as int) == t
  {
    if t == 10 then "1.0" else ['0', '.', ('0' as int + t) as char]
  }

  /** The synthetic homepage entry; `now` is the current time formatted as `Y-m-d\TH:i:s+00:00`. */
  function HomeEntry(site: Site, addSlash: bool, now: string, lib: Library): UrlEntry {
    UrlEntry(lib.escapeHtml(LinkUrl(site.url, addSlash)), now, "daily", "1.0")
  }

  function PageEntry(p: Page, addSlash: bool, lib: Library): (e: UrlEntry)
    ensures e.lastmod == p.modified
    ensures e.changefreq == "weekly" <==> UriDepth(p.uri) <= 1
    ensures e.changefreq != "daily" && e.priority != "1.0"
  {
    var depth := UriDepth(p.uri);
    UrlEntry(lib.escapeHtml(LinkUrl(p.url, addSlash)), p.modified, ChangeFreq(depth), FormatTenths(PriorityTenths(depth)))
  }

  /** The homepage entry followed by one entry per page, in page order. */
  function SitemapEntries(site: Site, pages: seq<Page>, addSlash: bool, now: string, lib: Library): (es: seq<UrlEntry>)
    ensures |es| == |pages| + 1 && es[0] == HomeEntry(site, addSlash, now, lib)
    ensures forall i :: 0 <= i < |pages| ==> es[i + 1] == PageEntry(pages[i], addSlash, lib)
  {
    var home := HomeEntry(site, addSlash, now, lib);
    var rest := PageEntries(pages, addSlash, lib);
    assert forall i :: 0 <= i < |pages| ==> ([home] + rest)[i + 1] == rest[i];
    [home] + rest
  }

  function PageEntries(pages: seq<Page>, addSlash: bool, lib: Library): (es: seq<UrlEntry>)
    ensures |es| == |pages|
    ensures forall i :: 0 <= i < |pages| ==> es[i] == PageEntry(pages[i], addSlash, lib)
  {
    seq(|pages|, i requires 0 <= i < |pages| => PageEntry(pages[i], addSlash, lib))
  }

  lemma PageEntriesSnoc(pages: seq<Page>, p: Page, addSlash: bool, lib: Library)
    ensures PageEntries(pages + [p], addSlash, lib) == PageEntries(pages, addSlash, lib) + [PageEntry(p, addSlash, lib)]
  {
  }

  function UrlElement(e: UrlEntry): (r: string)
    ensures "  <url>\n    <loc>" + e.loc <= r
    ensures |r| >= 9 && r[|r| - 9..] == "  </url>\n"
  {
    "  <url>\n"
    + "    <loc>" + e.loc + "</loc>\n"
    + "    <lastmod>" + e.lastmod + "</lastmod>\n"
    + "    <changefreq>" + e.changefreq + "</changefreq>\n"
    + "    <priority>" + e.priority + "</priority>\n"
    + "  </url>\n"
  }

  /** The homepage block as the generators write it, with its fixed `daily` and `1.0`. */
  function HomeElement(loc: string, now: string): string {
    "  <url>\n"
    + "    <loc>" + loc + "</loc>\n"
    + "    <lastmod>" + now + "</lastmod>\n"
    + "    <changefreq>daily</changefreq>\n"
    + "    <priority>1.0</priority>\n"
    + "  </url>\n"
  }

  /** The elements one after another, built from the back as the generators append them. */
  function UrlElements(es: seq<UrlEntry>): string {
    if es == [] then "" else UrlElements(es[..|es| - 1]) + UrlElement(es[|es| - 1])
  }

  lemma UrlElementsSnoc(es: seq<UrlEntry>, e: UrlEntry)
    ensures UrlElements(es + [e]) == UrlElements(es) + UrlElement(e)
  {
    assert (es + [e])[..|es|] == es;
  }

  /** Appending the next page's block extends the blocks of the pages before it. */
  lemma UrlElementsStep(head: string, pages: seq<Page>, i: nat, addSlash: bool, lib: Library)
    requires i < |pages|
    ensures head + UrlElements(PageEntries(pages[..i + 1], addSlash, lib))
         == head + UrlElements(PageEntries(pages[..i], addSlash, lib)) + UrlElement(PageEntry(pages[i], addSlash, lib))
  {
    var done := PageEntries(pages[..i], addSlash, lib);
    assert pages[..i + 1] == pages[..i] + [pages[i]];
    PageEntriesSnoc(pages[..i], pages[i], addSlash, lib);
    UrlElementsSnoc(done, PageEntry(pages[i], addSlash, lib));
    AppendAssoc(head, UrlElements(done), UrlElement(PageEntry(pages[i], addSlash, lib)));
  }

  /** The whole `sitemap.xml` body: the homepage block, the page blocks and the closing tag. */
  function SitemapXml(site: Site, pages: seq<Page>, addSlash: bool, now: string, lib: Library): (r: string)
    ensures XmlDeclaration + UrlsetOpen <= r
    ensures |r| >= |UrlsetClose| && r[|r| - |UrlsetClose|..] == UrlsetClose
  {
    XmlDeclaration + UrlsetOpen
    + HomeElement(lib.escapeHtml(LinkUrl(site.url, addSlash)), now)
    + UrlElements(PageEntries(pages, addSlash, lib))
    + UrlsetClose
  }

  /** The homepage block is the `<url>` element of the homepage entry. */
  lemma {:induction false} HomeElementIsEntry(loc: string, now: string)
    ensures HomeElement(loc, now) == UrlElement(UrlEntry(loc, now, "daily", "1.0"))
  {
    var y := "  <url>\n" + "    <loc>" + loc + "</loc>\n" + "    <lastmod>" + now + "</lastmod>\n";
    assert "    <changefreq>daily</changefreq>\n" == "    <changefreq>" + "daily" + "</changefreq>\n";
    assert "    <priority>1.0</priority>\n" == "    <priority>" + "1.0" + "</priority>\n";
    AppendAssoc(y + "    <changefreq>", "daily", "</changefreq>\n");
    AppendAssoc(y, "    <changefreq>", "daily" + "</changefreq>\n");
    var f := "    <changefreq>daily</changefreq>\n";
    AppendAssoc(y + f + "    <priority>", "1.0", "</priority>\n");
    AppendAssoc(y + f, "    <priority>", "1.0" + "</priority>\n");
  }

  /** Prepending one entry puts its element first. */
  lemma {:induction false} UrlElementsCons(e: UrlEntry, es: seq<UrlEntry>)
    ensures UrlElements([e] + es) == UrlElement(e) + UrlElements(es)
    decreases |es|
  {
    if es == [] {
      assert [e] + es == [e];
      assert [e][..0] == [];
    } else {
      var init := es[..|es| - 1];
      var last := es[|es| - 1];
      assert [e] + es == ([e] + init) + [last];
      UrlElementsSnoc([e] + init, last);
      UrlElementsCons(e, init);
      AppendAssoc(UrlElement(e), UrlElements(init), UrlElement(last));
    }
  }

  /**
   * The sitemap is the XML declaration, the `urlset` opening tag, the
   * elements of the homepage entry and of every page entry in order, and
   * the closing tag.
   */
  lemma {:induction false} SitemapIsEntries(site: Site, pages: seq<Page>, addSlash: bool, now: string, lib: Library)
    ensures SitemapXml(site, pages, addSlash, now, lib)
         == XmlDeclaration + UrlsetOpen + UrlElements(SitemapEntries(site, pages, addSlash, now, lib)) + UrlsetClose
  {
    var home := HomeEntry(site, addSlash, now, lib);
    var rest := PageEntries(pages, addSlash, lib);
    HomeElementIsEntry(home.loc, now);
    UrlElementsCons(home, rest);
    AppendAssoc(XmlDeclaration + UrlsetOpen, UrlElement(home), UrlElements(rest));
  }

  /**
   * Exactly one entry is the `daily` homepage entry with priority `1.0`,
   * and it comes first; every page entry is `weekly` iff its depth is at
   * most one, with a priority of `max(1, 10 - 2 * depth)` tenths, between
   * 0.1 and 0.8.
   */
  lemma {:induction false} SitemapEntryPolicy(site: Site, pages: seq<Page>, addSlash: bool, now: string, lib: Library)
    ensures var es := SitemapEntries(site, pages, addSlash, now, lib);
      && es[0].changefreq == "daily" && es[0].priority == "1.0"
      && (forall i :: 1 <= i < |es| ==> es[i].changefreq != "daily" && es[i].priority != "1.0")
      && (forall i :: 0 <= i < |pages| ==>
            var d := UriDepth(pages[i].uri);
            && (es[i + 1].changefreq == "weekly" <==> d <= 1)
            && es[i + 1].priority == FormatTenths(PriorityTenths(d))
            && 1 <= PriorityTenths(d) <= 8)
  {
    var es := SitemapEntries(site, pages, addSlash, now, lib);
    forall i | 1 <= i < |es| ensures es[i].changefreq != "daily" && es[i].priority != "1.0" {
      var d := UriDepth(pages[i - 1].uri);
      assert es[i] == PageEntry(pages[i - 1], addSlash, lib);
      var t := PriorityTenths(d);
      assert es[i].priority == FormatTenths(t);
      assert t <= 8;
      assert es[i].priority[0] == '0';
    }
  }

  /** The depth of a path of non-empty segments is its number of segments, whatever slashes surround it. */
  lemma {:induction false} UriDepthCountsSegments(segments: seq<string>, lead: string, trail: string)
    requires |segments| >= 1
    requires forall i :: 0 <= i < |segments| ==> segments[i] != "" && '/' !in segments[i]
    requires forall k :: 0 <= k < |lead| ==> lead[k] == '/'
    requires forall k :: 0 <= k < |trail| ==> trail[k] == '/'
    ensures UriDepth(lead + Implode('/', segments) + trail) == |segments|
  {
    var path := Implode('/', segments);
    ImplodeEnds(segments);
    TrimStripsPadding(lead, path, trail, Slash);
    ExplodeImplode('/', segments);
  }

  /** A join of non-empty slash-free segments neither starts nor ends with a slash. */
  lemma {:induction false} ImplodeEnds(segments: seq<string>)
    requires |segments| >= 1
    requires forall i :: 0 <= i < |segments| ==> segments[i] != "" && '/' !in segments[i]
    ensures var path := Implode('/', segments); path != [] && path[0] != '/' && path[|path| - 1] != '/'
  {
    if |segments| > 1 {
      ImplodeEnds(segments[1..]);
      var rest := Implode('/', segments[1..]);
      var path := segments[0] + ['/'] + rest;
      assert path[0] == segments[0][0];
      assert path[|path| - 1] == rest[|rest| - 1];
    }
  }

  /** The root page (empty uri) has depth one. */
  lemma RootDepth()
    ensures UriDepth("") == 1
  {
  }

  /** A depth-two uri such as `a/b` gets `monthly` and priority `0.6`. */
  lemma {:induction false} DepthTwoExample(lib: Library, addSlash: bool)
    ensures var e := PageEntry(Page("a/b", "a/b", "article", "B", "", "https://x.io/a/b", ""), addSlash, lib);
      e.changefreq == "monthly" && e.priority == "0.6"
  {
    var segments := ["a", "b"];
    assert Implode('/', segments[1..]) == "b";
    assert Implode('/', segments) == "a/b";
    UriDepthCountsSegments(segments, "", "");
    assert "" + Implode('/', segments) + "" == "a/b";
    assert UriDepth("a/b") == 2;
    assert PriorityTenths(2) == 6;
  }
}
