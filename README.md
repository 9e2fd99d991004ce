# kirby-llms, modelled in Dafny

kirby-llms is a Kirby CMS plugin whose code generates two documents:

- `/llms.txt`, a Markdown digest of the site for large language models. It has a title, an optional `> description` line, a generation stamp, a `## Docs` heading and one `- [title](url) - description` line per page.
- `/sitemap.xml`, a sitemaps.org 0.9 `urlset`. A synthetic homepage entry comes first, then one entry per page. Each page entry's `changefreq` and `priority` depend on how deep the page's uri is.

Both documents are written from the same page selection: the site's listed pages, minus pages with an excluded template and pages an exclude-pages entry names. The class always widens the excluded templates with the FAQ template aliases. The helpers widen the list only when the configured list is non-empty; with an empty list they exclude no template at all. The settings come from built-in defaults, then the deployment config, then panel fields on the site. A response method per document returns a 404 when that document is disabled. Otherwise it serves a cached body or generates, caches and returns a fresh one.

The repository carries this logic twice:

- the `Plugin` class in `src/Plugin.php`;
- the older global functions in `helpers.php`.

The model covers both and proves where they agree and where they differ.

Only `/llms.txt` is routed in `index.php`, and that route is served by the helpers: `llms()` for the settings and `generateLlmsContent` for the body, behind its own disabled check and its own cache key `llms_content`. Nothing in `index.php` routes `/sitemap.xml`. The class's `sitemapResponse` and the helper `generateSitemapContent` are modelled as the code defines them, whatever calls them.

Layout, one module per file:

- `php_strings.dfy` (`PhpStrings`): the PHP string primitives. These are `trim`/`ltrim`/`rtrim`, `explode`/`implode` on one character, the `preg_replace('/\s+/', ' ', …)` collapse, and PHP's `empty()` on strings.
- `seqs.dfy` (`Seqs`): order-preserving `filter`, as a Kirby collection's `filter` behaves.
- `records.dfy` (`Records`): the plain records that replace Kirby's objects, and the defaults-then-config merge.
- `cache.dfy` (`Cache`): the plugin cache as a class over a map, with `get`/`set`/`flush`.
- `selection.dfy` (`Selection`): the FAQ aliases, the exclude-pages loop, and the two page-selection rules.
- `render.dfy` (`Render`): the two documents as functions of the selected pages. It also holds trailing-slash handling, `cleanText`, depths, change frequencies and priorities.
- `plugin.dfy` (`LlmsPlugin`): `isExcluded`, the panel layer of `loadOptions`, and the `Plugin` class. The class's methods are proved equal to the `Render` functions.
- `helpers.dfy` (`Helpers`): `llms()` with its memoised settings, and the helper `getFilteredPages`, `generateLlmsContent` and `generateSitemapContent`. They are proved equal to the same functions.

Modelling choices:

- The library calls `strip_tags`, `html_entity_decode` and `htmlspecialchars` are uninterpreted functions in a `Library` record. Only the whitespace step of `cleanText` is proved.
- The current time and a page's formatted modification time are input strings.
- Priority is kept in integer tenths, `max(1, 10 - 2 * depth)`. `FormatTenths` renders tenths as `number_format` would.
- Kirby's `isNotEmpty()` on a field is modelled as "not the empty string".
- PHP's `empty()` and string truthiness are modelled as "the empty string or `"0"`".

Behaviour of the code worth knowing when reading the model:

- The depth of a uri is `count(explode('/', trim($uri, '/')))`. Empty inner segments count, so `a//b` has depth 3.
- The site description is `metaDescription` when that field is not empty, otherwise `description`.
- The homepage entry is always written, even when the homepage is also a listed page.
- Pages are only ever excluded. No setting puts an excluded page back.
- The helpers compare the `Template` object with loose `in_array`. The model compares the template's name.

## Model

| member | source | states |
|---|---|---|
| PhpStrings.TrimLeft | src/Plugin.php:194 | what `ltrim` leaves is no longer than the input and does not start with a stripped character; a string starting with one gets strictly shorter |
| PhpStrings.TrimRight | src/Plugin.php:194 | what `rtrim` leaves is no longer than the input and does not end with a stripped character |
| PhpStrings.TrimLeftSpec | src/Plugin.php:194 | `ltrim` leaves a suffix of the input, and every character it dropped is in the strip set |
| PhpStrings.TrimRightSpec | src/Plugin.php:194 | `rtrim` leaves a prefix of the input, and every character it dropped is in the strip set |
| PhpStrings.TrimSpec | src/Plugin.php:194 | `trim` returns the infix left once the padding is dropped; all padding before and after it is drawn from the strip set |
| PhpStrings.Trim | src/Plugin.php:194 | `trim` never lengthens its input, and what it leaves neither starts nor ends with a stripped character |
| PhpStrings.TrimLeftPadding | src/Plugin.php:283 | `ltrim` removes any padding prefix drawn from the strip set |
| PhpStrings.TrimRightPadding | src/Plugin.php:283 | `rtrim` removes any padding suffix in front of which stands a kept character |
| PhpStrings.TrimStripsPadding | src/Plugin.php:283 | padding drawn from the strip set around a trimmed string is exactly what `trim` removes |
| PhpStrings.TrimIdempotent | src/Plugin.php:194 | trimming twice is trimming once |
| PhpStrings.Explode | src/Plugin.php:373 | `explode` yields one more part than there are separators, and no part holds the separator |
| PhpStrings.ImplodeExplode | src/Plugin.php:292 | joining the parts of `explode` with the separator gives the string back |
| PhpStrings.ExplodeNoSeparator | src/Plugin.php:292-293 | a string without the separator explodes to itself alone |
| PhpStrings.ExplodeSplitsAtSeparator | src/Plugin.php:292 | splitting `a + sep + b`, where `a` has no separator, peels `a` off first |
| PhpStrings.Implode | src/Plugin.php:250 | `implode` starts with the first part and is at least one separator per gap long |
| PhpStrings.ExplodeImplode | src/Plugin.php:373 | exploding a join of separator-free parts gives the parts back |
| PhpStrings.Visible | src/Plugin.php:193 | the string's non-whitespace characters in order, holding no `\s` character |
| PhpStrings.CollapseWhitespace | src/Plugin.php:193 | the collapse is empty iff its input is empty; it starts with the input's first character, or with a space where that character is whitespace |
| PhpStrings.CollapseIsCollapsed | src/Plugin.php:193 | after the collapse, every `\s` character is a single space not followed by another `\s` character |
| PhpStrings.CollapseKeepsVisible | src/Plugin.php:193 | the collapse keeps every non-whitespace character, in order |
| PhpStrings.CollapseFixesCollapsed | src/Plugin.php:193 | a collapsed string is left unchanged, so the collapse is idempotent |
| PhpStrings.InfixOfCollapsed | src/Plugin.php:193-194 | every infix of a collapsed string is collapsed, so trimming keeps it collapsed |
| PhpStrings.CollapseJoin | src/Plugin.php:193 | a run of `\s` characters between two visible characters becomes exactly one space, and each side collapses on its own |
| PhpStrings.CollapseLeadingRun | src/Plugin.php:193 | a leading run of `\s` characters before a visible character becomes one space |
| PhpStrings.TrimKeepsVisible | src/Plugin.php:194 | on text without NUL bytes, `trim` drops no visible character |
| PhpStrings.CollapsedIsOneLine | src/Plugin.php:193 | a collapsed string holds no newline, tab or carriage return |
| Seqs.Filter | src/Plugin.php:325-328 | filtering never lengthens the page list |
| Seqs.FilterMembers | src/Plugin.php:325-328 | an element survives the filter iff it is in the list and the closure accepts it |
| Seqs.FilterIsSubsequence | src/Plugin.php:325-328 | the filtered pages are a subsequence of the input, in original order |
| Seqs.FilterFilter | src/Plugin.php:333-337 | filtering twice is filtering once with both closures |
| Records.MergeConfig | src/Plugin.php:66-95 | `array_merge($defaults, $config)` is shallow: without a config `exclude` the default lists stay; with one, both lists come from it, and a list it omits is empty |
| Records.MergeEmptyConfig | src/Plugin.php:66-95 | with no deployment config the merged settings are the defaults |
| Records.MergeIsShallow | src/Plugin.php:95 | a config `exclude` naming only `pages` drops the default `error` template exclusion |
| Cache.CacheStore.constructor | src/Plugin.php:58 | a fresh cache holds no entry |
| Cache.CacheStore.Get | src/Plugin.php:165 | `get` returns the stored value for a present key and nothing for an absent one |
| Cache.CacheStore.Set | src/Plugin.php:175 | `set` stores the value and expiry under the key and leaves every other entry alone |
| Cache.CacheStore.Flush | src/Plugin.php:143-148 | `flush` empties the cache |
| Selection.WithFaqAliases | src/Plugin.php:316-322 | the widened list starts with the configured list, adds at most four names, and holds exactly the configured names and the FAQ aliases |
| Selection.AppendFaqAliases | src/Plugin.php:317-322 | the alias loop builds exactly the widened list |
| Selection.NotNamedByAppend | src/Plugin.php:332-338 | no entry of `done + [e]` names a page iff none of `done` does and `e` names neither its id nor its uri |
| Selection.ExcludeOneMore | src/Plugin.php:333-337 | one more exclude-pages pass drops exactly what one more entry names |
| Selection.ExcludeNamedPages | src/Plugin.php:332-338 | the exclude-pages loop keeps exactly the pages no entry names by id or uri, in order |
| Selection.PluginSelection | src/Plugin.php:316-338 | the class's selection is no longer than the listed pages, and every page in it is a listed page the class's rule keeps |
| Selection.PluginSelectionSpec | src/Plugin.php:316-338 | the class's selection is a subsequence of the listed pages holding exactly those whose template is outside the list and the aliases and that no entry names |
| Selection.PluginPasses | src/Plugin.php:324-338 | the template pass followed by the exclude-pages passes selects exactly that |
| Selection.FaqPagesAlwaysDropped | src/Plugin.php:316-329 | a page with a FAQ template is never selected, whatever the configured list |
| Selection.HelperSelection | helpers.php:177-212 | the helpers' selection is no longer than the listed pages, and every page in it is a listed page the helpers' rule keeps |
| Selection.HelperSelectionSpec | helpers.php:177-212 | the helpers' selection is a subsequence of the listed pages holding exactly those their rule keeps |
| Selection.HelperPasses | helpers.php:177-210 | the helpers' passes select exactly that; the template pass runs only for a non-empty list |
| Selection.HelperAgreesWhenTemplatesConfigured | helpers.php:177-200 | with a non-empty configured template list the helpers and the class select the same pages |
| Selection.HelperKeepsFaqWithoutConfiguredTemplates | helpers.php:177-200 | with an empty configured template list the helpers keep a `faq` page that the class drops |
| Render.EnsureTrailingSlash | src/Plugin.php:203-208 | the result ends in `/`, extends the input by at most one character, and is the input itself when that already ends in `/` |
| Render.EnsureTrailingSlashIdempotent | src/Plugin.php:203-208 | applying it twice is applying it once |
| Render.LinkUrl | src/Plugin.php:240-243 | with `add_trailing_slash` every rendered URL ends in `/` and extends the page URL by at most one character; without it the URL is unchanged |
| Render.NormalizeWhitespace | src/Plugin.php:193-194 | the normalised text holds no newline, tab or carriage return |
| Render.NormalizeWhitespaceShape | src/Plugin.php:193-194 | the normalised text is collapsed and has no padding `trim` would remove |
| Render.NormalizeWhitespaceIdempotent | src/Plugin.php:193-194 | normalising twice is normalising once |
| Render.NormalizeWhitespaceKeepsText | src/Plugin.php:193-194 | on text without NUL bytes, collapse-then-trim keeps every visible character, in order, and adds none |
| Render.NormalizeWhitespaceJoin | src/Plugin.php:193-194 | two words separated by any run of `\s` characters come out joined by exactly one space |
| Render.CleanTextKeepsText | src/Plugin.php:187-195 | the cleaned text holds exactly the visible characters of the decoded text, in order, when that text has no NUL byte |
| Render.CleanText | src/Plugin.php:187-195 | `cleanText` returns a single line, whatever the library calls return |
| Render.CleanTextShape | src/Plugin.php:187-195 | the cleaned text is collapsed and trimmed, whatever the library calls return |
| Render.SiteDescription | src/Plugin.php:220-226 | the meta description when it is not empty, otherwise the description; empty only when both are |
| Render.LlmsHeader | src/Plugin.php:217-233 | the header opens with the `# title` line |
| Render.DocLine | src/Plugin.php:246 | the line opens with `- [title](url)`, and ` - description` follows exactly when the cleaned description is truthy |
| Render.DocLines | src/Plugin.php:239-247 | one line per page, in page order |
| Render.DocLinesSnoc | src/Plugin.php:239-247 | one more page adds its line at the end |
| Render.LlmsText | src/Plugin.php:215-254 | the `llms.txt` body opens with its header, and is the header alone when no page is selected |
| Render.UnlinesIsImplode | src/Plugin.php:249-251 | newline-terminated lines are the lines joined by newlines with one final empty part |
| Render.ImplodeThenNewline | src/Plugin.php:249-251 | for a non-empty list, `implode("\n", $lines) . "\n"` is each line followed by a newline |
| Render.UnlinesSnoc | helpers.php:158 | appending a line and a newline extends the newline-terminated text |
| Render.UnlinesStep | helpers.php:145-159 | the next page's line and newline extend the text written for the pages before it |
| Render.UnlinesSplitsBack | helpers.php:145-159 | lines without newlines are recovered by splitting their newline-terminated text |
| Render.DocLineIsOneLine | src/Plugin.php:245-246 | with `cleanText`, a page line holds no newline when the page's title and URL hold none |
| Render.OneLinePerPage | src/Plugin.php:238-251 | the class's `llms.txt` is its header followed by the page lines joined by newlines plus a final newline; splitting the body gives back one line per page |
| Render.HeaderLayout | src/Plugin.php:217-233 | the header opens with the title line; the `> ` line follows iff the chosen description is truthy, otherwise the generation stamp does; it ends with `## Docs`; the meta description wins when set |
| Render.UriDepth | src/Plugin.php:373 | the depth is at least one: one more than the slashes inside the slash-trimmed uri |
| Render.ChangeFreq | src/Plugin.php:374 | the change frequency is `weekly` iff the depth is at most one, `monthly` otherwise |
| Render.PriorityTenths | src/Plugin.php:375 | the priority is `max(1, 10 - 2 * depth)` tenths, at most 8 for any page depth |
| Render.FormatTenths | src/Plugin.php:381 | the formatted priority is `d.d` whose two digits read back as the tenths |
| Render.SitemapEntries | src/Plugin.php:351-386 | the homepage entry comes first, followed by one entry per page in order |
| Render.PageEntry | src/Plugin.php:367-375 | a page entry carries the page's modification time, is `weekly` iff its depth is at most one, and is never `daily` nor priority `1.0` |
| Render.UrlElement | src/Plugin.php:377-382 | a `<url>` block opens with its `<loc>` and closes with `</url>` |
| Render.SitemapXml | src/Plugin.php:346-387 | the sitemap opens with the XML declaration and the `urlset` tag and ends with `</urlset>` |
| Render.PageEntries | src/Plugin.php:366-383 | one entry per page, in order |
| Render.PageEntriesSnoc | src/Plugin.php:366-383 | one more page adds its entry at the end |
| Render.UrlElementsSnoc | src/Plugin.php:377-382 | one more entry appends its `<url>` block |
| Render.UrlElementsStep | src/Plugin.php:366-383 | the next page's block extends the blocks written for the pages before it |
| Render.HomeElementIsEntry | src/Plugin.php:359-364 | the literal homepage block is the `<url>` element of a `daily`, `1.0` entry |
| Render.UrlElementsCons | src/Plugin.php:359-383 | prepending an entry puts its block first |
| Render.SitemapIsEntries | src/Plugin.php:351-386 | the sitemap is the declaration, the `urlset` opening, the homepage block and every page block in order, then `</urlset>` |
| Render.SitemapEntryPolicy | src/Plugin.php:359-375 | only the first entry is `daily` with priority `1.0`; each page entry is `weekly` iff its depth is at most one, with a priority of 1 to 8 tenths |
| Render.UriDepthCountsSegments | src/Plugin.php:373 | a path of non-empty segments, with any slashes around it, has as many levels as segments |
| Render.RootDepth | src/Plugin.php:373 | the empty uri has depth one |
| Render.DepthTwoExample | src/Plugin.php:373-375 | a page at `a/b` is `monthly` with priority `0.6` |
| LlmsPlugin.ApplyPanel | src/Plugin.php:98-131 | the panel layer never sets a non-positive duration and never empties an exclude list: each either keeps the merged value or takes a positive or non-empty panel value |
| LlmsPlugin.PanelOverrideRules | src/Plugin.php:98-131 | each panel flag wins whenever set; duration and lists win exactly when positive or non-empty, otherwise the merged value stays |
| LlmsPlugin.NoPanelKeepsMerged | src/Plugin.php:94-98 | without panel fields the settings are the merged defaults and config |
| LlmsPlugin.DurationStaysPositive | src/Plugin.php:107-112 | a positive merged duration stays positive whatever the panel holds |
| LlmsPlugin.ApplyPanelIdempotent | src/Plugin.php:98-131 | applying the same panel twice changes nothing more |
| LlmsPlugin.LastSegment | src/Plugin.php:292-293 | the last uri segment holds no slash |
| LlmsPlugin.LastSegmentOfName | src/Plugin.php:292-293 | a slash-free uri is its own last segment |
| LlmsPlugin.LastSegmentAfterSlash | src/Plugin.php:290-296 | the last segment of `folder/name` is `name` |
| LlmsPlugin.ExcludedByEntry | src/Plugin.php:283-301 | an entry holding a slash never matches a last segment: it excludes only by id, by uri or as a non-empty parent folder |
| LlmsPlugin.ExcludedByEntries | src/Plugin.php:280-303 | the entry loop with its early return excludes iff some entry excludes |
| LlmsPlugin.IsExcluded | src/Plugin.php:265-306 | `isExcluded` holds iff the template is listed or some entry excludes the page |
| LlmsPlugin.IsExcludedReasons | src/Plugin.php:272-305 | both directions: the template is listed, or a trimmed entry equals the id or uri, or equals the last uri segment, or is a non-empty parent folder of the uri |
| LlmsPlugin.UnpaddedEntry | src/Plugin.php:283-301 | an entry without padding is compared as it stands |
| LlmsPlugin.ExcludesSameNameInSubfolder | src/Plugin.php:290-296 | excluding `name` also excludes `folder/name` |
| LlmsPlugin.ExcludesChildren | src/Plugin.php:298-301 | excluding a parent folder excludes every page below it |
| LlmsPlugin.SelectionDropsOnlyExcluded | src/Plugin.php:265-338 | every page the class's selection drops is one `isExcluded` excludes under the widened template list |
| LlmsPlugin.IsExcludedIsRicher | src/Plugin.php:265-338 | an entry naming a page's last segment makes `isExcluded` exclude it while the selection keeps it |
| LlmsPlugin.Plugin.constructor | src/Plugin.php:53-59 | the plugin holds the loaded settings and has not served from the cache |
| LlmsPlugin.Plugin.LoadOptions | src/Plugin.php:64-134 | the field-by-field overrides produce the layered settings |
| LlmsPlugin.Plugin.ClearCache | src/Plugin.php:143-148 | the cache is empty afterwards |
| LlmsPlugin.Plugin.GetFilteredPages | src/Plugin.php:311-341 | the two kinds of pass return exactly the class's selection |
| LlmsPlugin.Plugin.GenerateLlmsText | src/Plugin.php:215-254 | the text written is the `llms.txt` of the selected pages, with `cleanText` descriptions |
| LlmsPlugin.Plugin.PageLines | src/Plugin.php:238-247 | the lines array holds one line per page, in order |
| LlmsPlugin.Plugin.UrlBlock | src/Plugin.php:366-382 | one page's block is the `<url>` element of its entry |
| LlmsPlugin.Plugin.HomeBlock | src/Plugin.php:354-364 | the homepage block carries the escaped site URL, with its trailing slash under the setting |
| LlmsPlugin.Plugin.AppendUrlBlocks | src/Plugin.php:366-383 | the loop appends every page's block, in order |
| LlmsPlugin.Plugin.GenerateSitemapXml | src/Plugin.php:346-387 | the XML written is the sitemap of the selected pages |
| LlmsPlugin.Plugin.Response | src/Plugin.php:157-179 | disabled: the fixed 404, with the cache untouched; truthy cached `llms`: that body, 200, `fromCache` set; otherwise the freshly generated text, stored under `llms` for `duration * 60` when caching is on |
| LlmsPlugin.Plugin.SitemapResponse | src/Plugin.php:392-409 | the same gate for `sitemap`, with `application/xml` bodies and no `fromCache` update |
| LlmsPlugin.CacheHit | src/Plugin.php:165-168 | with caching off nothing is ever a hit, and a hit is a present, non-empty value |
| LlmsPlugin.StoredBodyIsHit | src/Plugin.php:165-176 | a stored body of two or more characters is what the next cached request returns |
| LlmsPlugin.GeneratedBodiesAreLong | src/Plugin.php:218-233 | both generated bodies have at least two characters, so a stored body is always a later cache hit |
| Helpers.HelperPanel | helpers.php:69-96 | the panel layer of `llms()` never sets a zero duration and never empties an exclude list |
| Helpers.HelperDurationRule | helpers.php:69-96 | the panel duration wins exactly when set and non-zero; every other field follows the class's rule |
| Helpers.HelperSettingsAgree | helpers.php:78-80 | unless the panel duration is negative, `llms()` and the class load the same settings |
| Helpers.NegativeDurationDiverges | helpers.php:78-80 | a negative panel duration is taken by `llms()` and ignored by the class |
| Helpers.MergeSettings | helpers.php:57-98 | the field-by-field overrides produce the helpers' layered settings |
| Helpers.SettingsMemo.constructor | helpers.php:13 | the memo starts empty |
| Helpers.SettingsMemo.Llms | helpers.php:12-99 | the first call computes and keeps the settings; every later call returns them, whatever config and panel hold then |
| Helpers.GetFilteredPages | helpers.php:170-213 | the helper passes return exactly the helpers' selection |
| Helpers.ContentLine | helpers.php:146-158 | one page's line, with the description only tag-stripped |
| Helpers.AppendContentLines | helpers.php:145-159 | the loop appends every page's line and a newline, in order |
| Helpers.GenerateLlmsContent | helpers.php:118-162 | the content written is the `llms.txt` of the helpers' selection, with tag-stripped descriptions |
| Helpers.ContentOneLinePerPage | helpers.php:145-159 | the helper text has exactly one newline-terminated line per page, in order, when no title, URL or stripped description holds a newline |
| Helpers.MultilineDescriptionSplitsEntry | helpers.php:153-158 | a page whose tag-stripped description holds a newline spreads its entry over more than one line |
| Helpers.WritersAgreeWithoutDescriptions | helpers.php:118-162 | without descriptions the helper text and the class's text are equal |
| Helpers.SitemapBlock | helpers.php:247-267 | one page's block is the `<url>` element of its entry |
| Helpers.AppendSitemapBlocks | helpers.php:246-268 | the loop appends every page's block, in order |
| Helpers.GenerateSitemapContent | helpers.php:221-273 | the XML written is the sitemap of the helpers' selection |

## Left out

- Kirby's objects (`site()`, `index()->listed()`, `Pages::filter`, `template()->name()`, `Str::startsWith`, `content()->has`) are plain records and sequences. The conversions `toBool`, `toInt` and `split` are modelled as already applied to the panel fields.
- `strip_tags`, `html_entity_decode` and `htmlspecialchars` are uninterpreted functions. Their own behaviour is not modelled, so no escaping property is claimed for `<loc>`.
- `date(...)` and `$page->modified(...)` are input strings. Date formatting is not modelled.
- The float computation `max(0.1, 1.0 - $depth * 0.2)` is modelled in exact tenths. Float rounding before `number_format` is not modelled.
- Cache expiry is not modelled. An entry's expiry argument is recorded but never consulted, so entries stay until `flush`.
- `index.php` (routes, hooks, the `llms_content` cache key) is not part of this model. Its one route serves `/llms.txt` through the helpers; no route for `/sitemap.xml` appears in it.
- `llms_clear_cache` (helpers.php:104-110) is the same `flush` as `Plugin::clearCache`, which is modelled as `LlmsPlugin.Plugin.ClearCache`. Its try/catch is not modelled.
- The config lookup that falls back from `kozmozio.llms` to `kozmozio['llms']` and to `[]` (src/Plugin.php:79-92) is not modelled. The model starts from the config array it finds.
- PHP's loose `in_array` (without strict mode) is modelled as exact equality; numeric-string coercion is not modelled.
- `response` compares the raw `enabled` setting with `=== false`. Settings are typed booleans here, so a non-boolean setting value is not modelled.
- Settings are typed. A non-array `exclude` value and a missing `exclude` list are not modelled separately; every reader treats a missing list like an empty one.
- `Page`, `Site` and `Template` identity is not modelled. Pages are values, and a page appearing twice in the listed pages is treated twice.

## Findings

| source | as written | input that shows it | evidently intended | confidence | as-written member | corrected member |
|---|---|---|---|---|---|---|
| helpers.php:153-158 | the page description is only tag-stripped, so its line breaks are written into the page list | a listed page whose description is `a` newline `b`: its entry takes two lines of `llms.txt` | one line per page, as the class writes it: its `cleanText` collapses every line break in a description to a space | medium, not executed | Helpers.MultilineDescriptionSplitsEntry | Render.OneLinePerPage |
| helpers.php:177-200 | the FAQ aliases are added, and the template pass runs, only when the configured exclude-template list is non-empty | settings with `exclude.templates = []` and a listed page with template `faq`: the helper `getFilteredPages` keeps it | FAQ-template pages are always dropped, as the comment inside the block says and as `src/Plugin.php:316-329` does unconditionally | medium, not executed | Selection.HelperKeepsFaqWithoutConfiguredTemplates | Selection.FaqPagesAlwaysDropped |
