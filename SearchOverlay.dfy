/** The search overlay opened by the keyboard: it is reset on opening, shows
    the engine its url names, and turns Enter into one navigation followed by
    closing, and Escape into closing. */
module SearchOverlay {
  import opened Common
  import Uri
  import Home
  import Translations

  /** The prefix used when the overlay has no engine url. */
  const FallbackEngineUrl: string := "https://google.com/search?q="

  /** The overlay's own state: the query typed and the engine url chosen. */
  datatype Overlay = Overlay(query: string, activeEngineUrl: string)

  /** The open effect: opening clears the query and takes the configured
      default engine; while closed nothing is reset. */
  function Reset(isOpen: bool, defaultUrl: string, o: Overlay): (r: Overlay)
    ensures isOpen ==> r.query == "" && r.activeEngineUrl == defaultUrl
    ensures !isOpen ==> r == o
  {
    if isOpen then Overlay("", defaultUrl) else o
  }

  /** The engine shown: the first engine whose url is the active url, else
      the first engine of the table. */
  function ActiveEngine(activeEngineUrl: string): (e: Home.SearchEngine)
    ensures e in Home.SearchEngines
    ensures Home.FindByUrl(Home.SearchEngines, activeEngineUrl).Some? ==> e.url == activeEngineUrl
    ensures Home.FindByUrl(Home.SearchEngines, activeEngineUrl).None? ==> e == Home.SearchEngines[0]
  {
    match Home.FindByUrl(Home.SearchEngines, activeEngineUrl)
    case Some(e) => e
    case None => Home.SearchEngines[0]
  }

  /** What a key press in the query input causes: at most one navigation,
      and whether the overlay closes. */
  datatype Effect = Effect(navigate: Option<string>, close: bool)

  function HandleKeyDown(key: string, o: Overlay): (r: Effect)
    ensures r.navigate.Some? <==> key == "Enter" && Trim(o.query) != []
    ensures r.close <==> r.navigate.Some? || key == "Escape"
    ensures r.navigate.Some? && o.activeEngineUrl != "" ==>
      r.navigate.value == o.activeEngineUrl + Uri.EncodeURIComponent(o.query)
    ensures r.navigate.Some? && o.activeEngineUrl == "" ==>
      r.navigate.value == FallbackEngineUrl + Uri.EncodeURIComponent(o.query)
  {
    if key == "Enter" && Trim(o.query) != [] then
      var prefix := if o.activeEngineUrl != "" then o.activeEngineUrl else FallbackEngineUrl;
      Effect(Some(prefix + Uri.EncodeURIComponent(o.query)), true)
    else
      Effect(None, key == "Escape")
  }

  /** Escape closes without navigating; no other key but Enter does
      anything. */
  lemma OnlyEnterAndEscapeAct(key: string, o: Overlay)
    ensures key == "Escape" ==> HandleKeyDown(key, o) == Effect(None, true)
    ensures key != "Enter" && key != "Escape" ==> HandleKeyDown(key, o) == Effect(None, false)
  {
  }

  /** Right after opening, Enter navigates nowhere: the query was cleared. */
  lemma EnterAfterOpenDoesNothing(defaultUrl: string, o: Overlay)
    ensures HandleKeyDown("Enter", Reset(true, defaultUrl, o)) == Effect(None, false)
  {
    assert Trim("") == [];
  }

  /** The placeholder names the shown engine: "Search with Bing..." for the
      Bing url in English. */
  function Placeholder(lang: Translations.Language, activeEngineUrl: string): string {
    Translations.Substituted(
      Translations.Lookup(lang, Translations.SearchPlaceholder), [("engine", ActiveEngine(activeEngineUrl).name)])
  }

  lemma PlaceholderNamesEngine(k: nat)
    requires k < |Home.SearchEngines|
    ensures Placeholder(Translations.En, Home.SearchEngines[k].url) == "Search with " + Home.SearchEngines[k].name + "..."
    ensures Placeholder(Translations.Tr, Home.SearchEngines[k].url) == Home.SearchEngines[k].name + " ile ara..."
  {
    Home.EachEngineFoundByUrl(k);
    Translations.EnglishSearchPlaceholder(Home.SearchEngines[k].name);
    Translations.TurkishSearchPlaceholder(Home.SearchEngines[k].name);
  }

  /** An unknown engine url shows Google's name, yet searches with that url. */
  lemma UnknownUrlShowsGoogle(url: string, query: string)
    requires url != "" && Home.FindByUrl(Home.SearchEngines, url).None?
    requires Trim(query) != []
    ensures ActiveEngine(url) == Home.Google
    ensures HandleKeyDown("Enter", Overlay(query, url)).navigate == Some(url + Uri.EncodeURIComponent(query))
  {
  }
}
