/** The template context processors (localtv/context_processors.py): the
    values every page's template receives. */
module Context {
  import opened Common

  /** The dictionary localtv() returns: the top-level copies of the
      safe settings, then one field per fixed entry. */
  datatype LocaltvContext = LocaltvContext(
    topSettings: map<string, string>,
    siteSettings: SiteSettings,
    categories: seq<Category>,
    settings: map<string, string>,
    sitelocation: SiteSettings,
    userIsAdmin: bool,
    displaySubmitButton: bool,
    statusUnapproved: Status,
    statusActive: Status,
    statusRejected: Status)

  /** The Django settings the templates may see. */
  const SafeSettings: seq<string> := ["FACEBOOK_APP_ID", "LOGIN_URL", "LOGOUT_URL", "GOOGLE_ANALYTICS_UA",
                                      "GOOGLE_ANALYTICS_DOMAIN", "MEDIA_URL", "RECAPTCHA_PUBLIC_KEY"]

  /** The ones left out of the top level of the context. */
  const Hidden: set<string> := {"LOGIN_URL", "LOGOUT_URL", "MEDIA_URL"}

  /** `getattr(settings, name, '')` for every safe setting; `conf` holds
      the settings that are defined. */
  function SettingsContext(conf: map<string, string>): (r: map<string, string>)
    ensures r.Keys == set s | s in SafeSettings
    ensures forall s :: s in r ==> r[s] == (if s in conf then conf[s] else "")
  {
    map s | s in SafeSettings :: if s in conf then conf[s] else ""
  }

  /** The site's root categories: the site's categories without a parent. */
  function RootCategories(cats: seq<Category>, site: nat): (r: seq<Category>)
    ensures forall c :: c in r <==> c in cats && c.site == site && c.parent.None?
  {
    Filter(cats, (c: Category) => c.site == site && c.parent.None?)
  }

  /** localtv(request): the safe settings except LOGIN_URL, LOGOUT_URL and
      MEDIA_URL at the top level, the full set under 'settings', and the
      site values and status aliases. */
  function Localtv(settings: SiteSettings, isAdmin: bool, conf: map<string, string>, cats: seq<Category>)
    : (ctx: LocaltvContext)
    ensures ctx.displaySubmitButton <==> settings.displaySubmitButton || isAdmin
    ensures ctx.userIsAdmin == isAdmin
    ensures ctx.settings == SettingsContext(conf)
    ensures forall s :: s in ctx.topSettings <==> s in SafeSettings && s !in Hidden
    ensures forall s :: s in ctx.topSettings ==> ctx.topSettings[s] == ctx.settings[s]
    ensures ctx.statusUnapproved == Unapproved && ctx.statusActive == Active && ctx.statusRejected == Rejected
    ensures ctx.siteSettings == ctx.sitelocation == settings
    ensures ctx.categories == RootCategories(cats, settings.site)
  {
    var sc := SettingsContext(conf);
    var top := map s | s in sc && s !in Hidden :: sc[s];
    LocaltvContext(top, settings, RootCategories(cats, settings.site), sc, settings, isAdmin,
                   settings.displaySubmitButton || isAdmin, Unapproved, Active, Rejected)
  }

  /** A hidden setting is gone from the top level but still readable
      through the 'settings' entry, with '' when it is not defined. */
  lemma HiddenOnlyUnderSettings(settings: SiteSettings, isAdmin: bool, conf: map<string, string>,
                                cats: seq<Category>, name: string)
    requires name in Hidden
    ensures var ctx := Localtv(settings, isAdmin, conf, cats);
            name !in ctx.topSettings && name in ctx.settings && ctx.settings[name] == (if name in conf then conf[name] else "")
  {
    assert name in SafeSettings;
  }

  /** The browse menu's templates, in order. */
  const BrowseNavigationModules: seq<string> := ["localtv/_modules/browse/videos.html",
                                                  "localtv/_modules/browse/categories.html"]

  /** browse_modules(request): the same two templates for every request. */
  function BrowseModules(): (r: seq<string>)
    ensures |r| == 2 && r[0] == "localtv/_modules/browse/videos.html"
    ensures r[1] == "localtv/_modules/browse/categories.html"
  {
    BrowseNavigationModules
  }
}
