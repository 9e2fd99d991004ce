/**
 * The plain records that stand for the content management system's
 * objects, and the settings structure of the plugin with its first
 * layer of merging (built-in defaults, then the deployment config).
 */
module Records {

  datatype Option<T> = None | Some(value: T) {
    function GetOr(default: T): T {
      match this
      case Some(v) => v
      case None => default
    }
  }

  /**
   * A listed page. `modified` is the last-modified time already formatted
   * as `Y-m-d\TH:i:s+00:00`; date formatting is not modelled.
   */
  datatype Page = Page(
    id: string,
    uri: string,
    template: string,
    title: string,
    description: string,
    url: string,
    modified: string)

  /** The site-level fields the renderers read. */
  datatype Site = Site(title: string, url: string, description: string, metaDescription: string)

  /**
   * The PHP library calls whose behaviour is not modelled: `strip_tags`,
   * `html_entity_decode(..., ENT_QUOTES | ENT_HTML5, 'UTF-8')` and
   * `htmlspecialchars`.
   */
  datatype Library = Library(
    stripTags: string -> string,
    decodeEntities: string -> string,
    escapeHtml: string -> string)

  /** An HTTP response: body, content type and status code. */
  datatype HttpResponse = HttpResponse(body: string, contentType: string, status: int)

  /**
   * The merged settings both the class and the helper functions work from:
   * `enabled`, `cache`, `cache.duration` (minutes), `add_trailing_slash`,
   * `sitemap_enabled`, `exclude.templates` and `exclude.pages`.
   * A missing `exclude` list is stored as `[]`: every reader treats a
   * missing list and an empty one alike.
   */
  datatype Options = Options(
    enabled: bool,
    cache: bool,
    cacheDuration: int,
    addTrailingSlash: bool,
    sitemapEnabled: bool,
    excludeTemplates: seq<string>,
    excludePages: seq<string>)

  /** The `exclude` array of a deployment config; either key may be missing. */
  datatype ExcludeConfig = ExcludeConfig(templates: Option<seq<string>>, pages: Option<seq<string>>)

  /** The `kozmozio.llms` deployment config: each top-level key may be missing. */
  datatype Config = Config(
    enabled: Option<bool>,
    cache: Option<bool>,
    cacheDuration: Option<int>,
    addTrailingSlash: Option<bool>,
    sitemapEnabled: Option<bool>,
    exclude: Option<ExcludeConfig>)

  /**
   * The panel fields of the site content, already converted as the source
   * converts them (`toBool`, `toInt`, `split`); `None` when the content
   * has no such field, or when there is no site content at all.
   */
  datatype Panel = Panel(
    enabled: Option<bool>,
    cache: Option<bool>,
    cacheDuration: Option<int>,
    addTrailingSlash: Option<bool>,
    excludeTemplates: Option<seq<string>>,
    excludePages: Option<seq<string>>,
    sitemapEnabled: Option<bool>)

  const EmptyConfig := Config(None, None, None, None, None, None)
  const EmptyPanel := Panel(None, None, None, None, None, None, None)

  /** The built-in defaults of both settings loaders. */
  const Defaults := Options(
    enabled := true,
    cache := false,
    cacheDuration := 60,
    addTrailingSlash := true,
    sitemapEnabled := true,
    excludeTemplates := ["error"],
    excludePages := [])

  /**
   * `array_merge($defaults, $config)`: a key the config sets replaces the
   * default wholesale. The merge is shallow, so a config `exclude` array
   * replaces both default lists, and a list it leaves out is missing.
   */
  function MergeConfig(config: Config): (o: Options)
    ensures config.exclude.None? ==> o.excludeTemplates == Defaults.excludeTemplates && o.excludePages == []
    ensures config.exclude.Some? ==> o.excludeTemplates == config.exclude.value.templates.GetOr([])
    ensures config.exclude.Some? ==> o.excludePages == config.exclude.value.pages.GetOr([])
  {
    Options(
      enabled := config.enabled.GetOr(Defaults.enabled),
      cache := config.cache.GetOr(Defaults.cache),
      cacheDuration := config.cacheDuration.GetOr(Defaults.cacheDuration),
      addTrailingSlash := config.addTrailingSlash.GetOr(Defaults.addTrailingSlash),
      sitemapEnabled := config.sitemapEnabled.GetOr(Defaults.sitemapEnabled),
      excludeTemplates := if config.exclude.Some? then config.exclude.value.templates.GetOr([])
                          else Defaults.excludeTemplates,
      excludePages := if config.exclude.Some? then config.exclude.value.pages.GetOr([])
                      else Defaults.excludePages)
  }

  /** With no deployment config the merged settings are the defaults. */
  lemma MergeEmptyConfig()
    ensures MergeConfig(EmptyConfig) == Defaults
  {
  }

  /**
   * A config `exclude` array that names only `pages` drops the default
   * `error` template exclusion: the merge does not descend into `exclude`.
   */
  lemma MergeIsShallow(pages: seq<string>)
    ensures MergeConfig(EmptyConfig.(exclude := Some(ExcludeConfig(None, Some(pages))))).excludeTemplates == []
  {
  }
}
