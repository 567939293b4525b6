/** The home surface: the table of search engines shared with the search
    overlay and the settings dialog, the engine selected on the home page, and
    the search it submits. */
module Home {
  import opened Common
  import Uri

  /** A search engine: the query is appended to `url`. */
  datatype SearchEngine = SearchEngine(id: string, name: string, url: string)

  const Google := SearchEngine("google", "Google", "https://www.google.com/search?q=")
  const Bing := SearchEngine("bing", "Bing", "https://www.bing.com/search?q=")
  const Yandex := SearchEngine("yandex", "Yandex", "https://yandex.com/search/?text=")
  const DuckDuckGo := SearchEngine("duckduckgo", "DuckDuckGo", "https://duckduckgo.com/?q=")

  const SearchEngines: seq<SearchEngine> := [Google, Bing, Yandex, DuckDuckGo]

  /** The four engines differ in id and in url. */
  lemma EnginesDistinct()
    ensures |SearchEngines| == 4
    ensures forall i, j :: 0 <= i < j < |SearchEngines| ==> SearchEngines[i].id != SearchEngines[j].id
    ensures forall i, j :: 0 <= i < j < |SearchEngines| ==> SearchEngines[i].url != SearchEngines[j].url
  {
    assert Google.id[0] == 'g' && Yandex.id[0] == 'y';
    assert Google.url[8] == 'w' && Bing.url[12] == 'b' && Yandex.url[8] == 'y';
    assert Google.url[12] == 'g';
  }

  /** Array.prototype.find by url: the first engine with that url. */
  function FindByUrl(engines: seq<SearchEngine>, url: string): (r: Option<SearchEngine>)
    ensures r.Some? ==> r.value in engines && r.value.url == url
    ensures r.None? <==> forall i :: 0 <= i < |engines| ==> engines[i].url != url
    ensures r.Some? ==> exists i :: (0 <= i < |engines| && engines[i] == r.value &&
      forall j :: 0 <= j < i ==> engines[j].url != url)
  {
    if engines == [] then None
    else if engines[0].url == url then Some(engines[0])
    else
      var r := FindByUrl(engines[1..], url);
      if r.Some? then
        var i :| 0 <= i < |engines| - 1 && engines[1..][i] == r.value && forall j :: 0 <= j < i ==> engines[1..][j].url != url;
        assert engines[i + 1] == r.value;
        r
      else r
  }

  /** Every engine of the table is found by its own url. */
  lemma EachEngineFoundByUrl(k: nat)
    requires k < |SearchEngines|
    ensures FindByUrl(SearchEngines, SearchEngines[k].url) == Some(SearchEngines[k])
  {
    EnginesDistinct();
    var r := FindByUrl(SearchEngines, SearchEngines[k].url);
    var i :| 0 <= i < |SearchEngines| && SearchEngines[i] == r.value &&
      forall j :: 0 <= j < i ==> SearchEngines[j].url != SearchEngines[k].url;
    assert i == k;
  }

  /** The engine selected when the page appears: the one whose url is the
      configured default, else Google. */
  function InitialEngine(defaultUrl: Option<string>): (e: SearchEngine)
    ensures e in SearchEngines
    ensures defaultUrl.Some? && FindByUrl(SearchEngines, defaultUrl.value).Some? ==> e.url == defaultUrl.value
    ensures (defaultUrl.None? || FindByUrl(SearchEngines, defaultUrl.value).None?) ==> e == Google
  {
    if defaultUrl.None? then Google
    else match FindByUrl(SearchEngines, defaultUrl.value)
      case Some(e) => e
      case None => Google
  }

  /** A changed default: the selection follows it only when it is non-empty
      and names an engine of the table; otherwise it stays. */
  function DefaultChanged(selected: SearchEngine, defaultUrl: Option<string>): (e: SearchEngine)
    ensures defaultUrl.Some? && defaultUrl.value != "" && FindByUrl(SearchEngines, defaultUrl.value).Some? ==>
      e.url == defaultUrl.value && e in SearchEngines
    ensures defaultUrl.None? || defaultUrl.value == "" || FindByUrl(SearchEngines, defaultUrl.value).None? ==>
      e == selected
  {
    if defaultUrl.None? || defaultUrl.value == "" then selected
    else match FindByUrl(SearchEngines, defaultUrl.value)
      case Some(e) => e
      case None => selected
  }

  /** The selection always stays an engine of the table. */
  lemma SelectionStaysInTable(selected: SearchEngine, defaultUrl: Option<string>)
    requires selected in SearchEngines
    ensures DefaultChanged(selected, defaultUrl) in SearchEngines
  {
  }

  /** A selection picked in the settings dialog is exactly what the home page
      starts with. */
  lemma SettingsChoiceShownOnHome(k: nat)
    requires k < |SearchEngines|
    ensures InitialEngine(Some(SearchEngines[k].url)) == SearchEngines[k]
    ensures DefaultChanged(Google, Some(SearchEngines[k].url)) == SearchEngines[k]
  {
    EachEngineFoundByUrl(k);
    assert SearchEngines[k].url != "" by {
      assert |SearchEngines[k].url| > 0;
    }
  }

  /** handleSearch: a blank query submits nothing; otherwise the engine's url
      followed by the encoded query, untrimmed. */
  function HandleSearch(query: string, selected: SearchEngine): (r: Option<string>)
    ensures r.None? <==> Trim(query) == []
    ensures r.Some? ==> (StartsWith(r.value, selected.url) &&
      r.value[|selected.url|..] == Uri.EncodeURIComponent(query))
  {
    if Trim(query) == [] then None
    else
      var r := selected.url + Uri.EncodeURIComponent(query);
      assert r[..|selected.url|] == selected.url;
      Some(r)
  }

  /** The query is not trimmed: a leading space is sent as "%20". */
  lemma LeadingSpaceKept(word: string, selected: SearchEngine)
    requires word != [] && forall i :: 0 <= i < |word| ==> Uri.IsUnreserved(word[i])
    ensures HandleSearch(" " + word, selected) == Some(selected.url + "%20" + word)
  {
    Uri.EncodeConcat(" ", word, Uri.KeptByComponent);
    Uri.SpaceEscape();
    assert forall i :: 0 <= i < |word| ==> Uri.KeptByComponent(word[i]);
    assert Uri.Encode(word, Uri.KeptByComponent) == word;
    assert Uri.EncodeURIComponent(" " + word) == "%20" + word;
    assert !IsWhiteSpace(word[0]);
    assert (" " + word)[1] == word[0];
    assert selected.url + ("%20" + word) == selected.url + "%20" + word;
  }
}
