/** The application shell (`src/App.tsx`): the header's theme and language
    buttons and the route table. Theme and language are the strings the
    providers store, so values other than the known ones can reach them. */
module App {

  const Industrial: string := "industrial"
  const Light: string := "light"
  const Minimalist: string := "minimalist"

  /** The three themes the button offers. */
  predicate KnownTheme(theme: string)
  {
    theme == Industrial || theme == Light || theme == Minimalist
  }

  /** The theme button: industrial, then light, then minimalist, and any
      other stored value starts the cycle again at industrial. */
  function NextTheme(theme: string): (r: string)
    ensures KnownTheme(r)
    ensures !KnownTheme(theme) ==> r == Industrial
  {
    if theme == Industrial then Light
    else if theme == Light then Minimalist
    else Industrial
  }

  /** One press always changes a known theme, and three presses bring it
      back. An unknown theme is reset by the first press and cycles from
      there. */
  lemma ThemeCycle(theme: string)
    ensures KnownTheme(theme) ==>
      NextTheme(theme) != theme && NextTheme(NextTheme(NextTheme(theme))) == theme
    ensures !KnownTheme(theme) ==>
      NextTheme(NextTheme(NextTheme(NextTheme(theme)))) == NextTheme(theme)
  {
  }

  /** No two presses in a row land on the same theme. */
  lemma ThemeCycleVisitsAll(theme: string)
    requires KnownTheme(theme)
    ensures var t1 := NextTheme(theme);
      var t2 := NextTheme(t1);
      theme != t1 && t1 != t2 && t2 != theme
  {
  }

  datatype Icon = Moon | Sun | Monitor

  /** The button's icon for the current theme. */
  function ThemeIcon(theme: string): (r: Icon)
    ensures r == Moon <==> theme == Industrial
    ensures r == Sun <==> theme == Light
  {
    if theme == Industrial then Moon
    else if theme == Light then Sun
    else Monitor
  }

  /** The icon tells the three themes apart. */
  lemma ThemeIconDistinguishes(a: string, b: string)
    requires KnownTheme(a) && KnownTheme(b)
    ensures ThemeIcon(a) == ThemeIcon(b) <==> a == b
  {
  }

  /** An unknown stored theme shows the minimalist icon. */
  lemma UnknownThemeIcon(theme: string)
    requires !KnownTheme(theme)
    ensures ThemeIcon(theme) == ThemeIcon(Minimalist) == Monitor
  {
  }

  const English: string := "en"
  const Tamil: string := "ta"

  /** Both language buttons: English switches to Tamil and anything else
      switches to English. */
  function ToggleLanguage(language: string): (r: string)
    ensures r == English || r == Tamil
    ensures r == Tamil <==> language == English
  {
    if language == English then Tamil else English
  }

  /** On the two languages the toggle is its own inverse and always
      changes the language; any other value becomes English. */
  lemma ToggleInvolution(language: string)
    ensures language == English || language == Tamil ==>
      ToggleLanguage(ToggleLanguage(language)) == language && ToggleLanguage(language) != language
    ensures language != English && language != Tamil ==> ToggleLanguage(language) == English
  {
  }

  const TamilName: string := "தமிழ்"
  const EnglishName: string := "English"

  /** How a language is named on the buttons. */
  function LanguageName(language: string): string
  {
    if language == Tamil then TamilName else EnglishName
  }

  /** The buttons' text: `தமிழ்` while English is shown, `English`
      otherwise. */
  function LanguageLabel(language: string): (r: string)
    ensures r == TamilName <==> language == English
    ensures r == TamilName || r == EnglishName
  {
    if language == English then TamilName else EnglishName
  }

  /** Each button names the language a press switches to, never the one
      shown. */
  lemma LabelNamesTarget(language: string)
    ensures LanguageLabel(language) == LanguageName(ToggleLanguage(language))
    ensures language == English || language == Tamil ==> LanguageLabel(language) != LanguageName(language)
  {
    assert TamilName != EnglishName by {
      assert |TamilName| != |EnglishName|;
    }
  }

  /** The screens of the route table. */
  datatype Screen = Login | Dashboard | BillScanner | AcousticDiagnostics | Profile | CompanySettings

  /** What a path renders: a screen, behind the sign-in guard when
      `protected`, or a replacing redirect. */
  datatype Element = Render(screen: Screen, protected: bool) | Redirect(target: string)

  const Root: string := "/"

  /** The paths the table names. */
  const KnownPaths: set<string> :=
    {"/login", "/", "/bill-scanner", "/acoustic-diagnostics", "/profile", "/company-settings"}

  /** The route table: the login page is open, the five application pages
      are guarded and wrapped in the header layout, and the catch-all
      redirects to the root. */
  function Resolve(path: string): (r: Element)
    ensures r.Redirect? <==> path !in KnownPaths
    ensures r.Redirect? ==> r.target == Root
    ensures r.Render? ==> (r.protected <==> r.screen != Login)
  {
    if path == "/login" then Render(Login, false)
    else if path == "/" then Render(Dashboard, true)
    else if path == "/bill-scanner" then Render(BillScanner, true)
    else if path == "/acoustic-diagnostics" then Render(AcousticDiagnostics, true)
    else if path == "/profile" then Render(Profile, true)
    else if path == "/company-settings" then Render(CompanySettings, true)
    else Redirect(Root)
  }

  /** The path of each screen. */
  function PathOf(s: Screen): string
  {
    match s
    case Login => "/login"
    case Dashboard => "/"
    case BillScanner => "/bill-scanner"
    case AcousticDiagnostics => "/acoustic-diagnostics"
    case Profile => "/profile"
    case CompanySettings => "/company-settings"
  }

  /** Every screen is reached by its own path and by no other: the table
      has no duplicate or shadowed entry. */
  lemma ResolvePathOf(s: Screen)
    ensures PathOf(s) in KnownPaths
    ensures Resolve(PathOf(s)).Render? && Resolve(PathOf(s)).screen == s
    ensures forall p :: Resolve(p).Render? && Resolve(p).screen == s ==> p == PathOf(s)
  {
  }

  /** A redirect always lands on a guarded page that renders, so it never
      loops: resolving any path takes at most one redirect. */
  lemma RedirectTerminates(path: string)
    ensures var r := Resolve(path);
      r.Redirect? ==> Resolve(r.target) == Render(Dashboard, true)
  {
  }

  /** The dashboard's `onNavigate(page)` goes to `/` followed by the page. */
  function DashboardTarget(page: string): string
  {
    Root + page
  }

  /** The dashboard's two feature cards reach their screens; a page the
      table does not know falls back to the dashboard itself. */
  lemma DashboardNavigation(page: string)
    ensures Resolve(DashboardTarget("bill-scanner")) == Render(BillScanner, true)
    ensures Resolve(DashboardTarget("acoustic-diagnostics")) == Render(AcousticDiagnostics, true)
    ensures DashboardTarget(page) !in KnownPaths ==> Resolve(DashboardTarget(page)) == Redirect(Root)
  {
    assert DashboardTarget("bill-scanner") == "/bill-scanner";
    assert DashboardTarget("acoustic-diagnostics") == "/acoustic-diagnostics";
  }
}
