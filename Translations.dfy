/** The interface strings: an English and a Turkish table over one set of
    keys, a lookup that falls back to English and then to the key's name, and
    the substitution of `{name}` placeholders by named parameters. */
module Translations {
  import opened Common

  datatype Language = En | Tr

  /** The keys of the English table, which the lookup accepts. */
  datatype Key =
    Welcome | SearchPlaceholder | NewTab | CloseTab | Back | Forward | Reload |
    Settings | Appearance | Theme | Dark | Light | AccentColor | Wallpaper |
    Translucency | Roundness | SearchEngine | Shortcuts | ShortcutsDesc | Version |
    LanguageLabel | EnglishLabel | TurkishLabel | Inspect | Copy | Paste |
    PinTab | UnpinTab |
    DuplicateTab | CloseOtherTabs | BrowserConsole | ThemePink | ThemeRed |
    ThemeBlue | ThemeGreen | OrLocal | BrowseFiles | Profile | Passwords |
    Privacy | Stats | ImportCsv | ExportCsv | DoNotTrack | RecordStats |
    StatsDisabled

  /** The key as written in the tables. */
  function KeyName(key: Key): string {
    match key
    case Welcome => "welcome"
    case SearchPlaceholder => "searchPlaceholder"
    case NewTab => "newTab"
    case CloseTab => "closeTab"
    case Back => "back"
    case Forward => "forward"
    case Reload => "reload"
    case Settings => "settings"
    case Appearance => "appearance"
    case Theme => "theme"
    case Dark => "dark"
    case Light => "light"
    case AccentColor => "accentColor"
    case Wallpaper => "wallpaper"
    case Translucency => "translucency"
    case Roundness => "roundness"
    case SearchEngine => "searchEngine"
    case Shortcuts => "shortcuts"
    case ShortcutsDesc => "shortcutsDesc"
    case Version => "version"
    case LanguageLabel => "language"
    case EnglishLabel => "english"
    case TurkishLabel => "turkish"
    case Inspect => "inspect"
    case Copy => "copy"
    case Paste => "paste"
    case PinTab => "pinTab"
    case UnpinTab => "unpinTab"
    case DuplicateTab => "duplicateTab"
    case CloseOtherTabs => "closeOtherTabs"
    case BrowserConsole => "browserConsole"
    case ThemePink => "themePink"
    case ThemeRed => "themeRed"
    case ThemeBlue => "themeBlue"
    case ThemeGreen => "themeGreen"
    case OrLocal => "orLocal"
    case BrowseFiles => "browseFiles"
    case Profile => "profile"
    case Passwords => "passwords"
    case Privacy => "privacy"
    case Stats => "stats"
    case ImportCsv => "importCsv"
    case ExportCsv => "exportCsv"
    case DoNotTrack => "doNotTrack"
    case RecordStats => "recordStats"
    case StatsDisabled => "statsDisabled"
  }

  /** The English table. */
  function EnglishText(key: Key): string {
    match key
    case Welcome => "MixBrowser"
    case SearchPlaceholder => "Search with {engine}..."
    case NewTab => "New Tab"
    case CloseTab => "Close Tab"
    case Back => "Back"
    case Forward => "Forward"
    case Reload => "Reload"
    case Settings => "Settings"
    case Appearance => "Appearance"
    case Theme => "Theme Mode"
    case Dark => "Dark"
    case Light => "Light"
    case AccentColor => "Accent Color"
    case Wallpaper => "Custom Wallpaper URL"
    case Translucency => "Translucency"
    case Roundness => "Roundness"
    case SearchEngine => "Default Search Engine"
    case Shortcuts => "Keyboard Shortcuts"
    case ShortcutsDesc => "Click to edit"
    case Version => "MixBrowser v0.5.0 (Beta)"
    case LanguageLabel => "Language"
    case EnglishLabel => "English"
    case TurkishLabel => "Türkçe"
    case Inspect => "Inspect Element"
    case Copy => "Copy"
    case Paste => "Paste"
    case PinTab => "Pin Tab"
    case UnpinTab => "Unpin Tab"
    case DuplicateTab => "Duplicate Tab"
    case CloseOtherTabs => "Close Other Tabs"
    case BrowserConsole => "Browser Console"
    case ThemePink => "Pink (Default)"
    case ThemeRed => "Red"
    case ThemeBlue => "Blue"
    case ThemeGreen => "Green"
    case OrLocal => "or select local file:"
    case BrowseFiles => "Browse Files"
    case Profile => "Profile & Safety"
    case Passwords => "Passwords"
    case Privacy => "Privacy"
    case Stats => "Usage Stats"
    case ImportCsv => "Import CSV"
    case ExportCsv => "Export CSV"
    case DoNotTrack => "Do Not Track"
    case RecordStats => "Record Browsing Statistics"
    case StatsDisabled => "Statistics Recording is Disabled"
  }

  /** The Turkish table. */
  function TurkishText(key: Key): string {
    match key
    case Welcome => "MixBrowser"
    case SearchPlaceholder => "{engine} ile ara..."
    case NewTab => "Yeni Sekme"
    case CloseTab => "Sekmeyi Kapat"
    case Back => "Geri"
    case Forward => "İleri"
    case Reload => "Yenile"
    case Settings => "Ayarlar"
    case Appearance => "Görünüm"
    case Theme => "Tema Modu"
    case Dark => "Koyu"
    case Light => "Açık"
    case AccentColor => "Vurgu Rengi"
    case Wallpaper => "Özel Duvar Kağıdı URL"
    case Translucency => "Saydamlık"
    case Roundness => "Yuvarlaklık"
    case SearchEngine => "Varsayılan Arama Motoru"
    case Shortcuts => "Klavye Kısayolları"
    case ShortcutsDesc => "Düzenlemek için tıklayın"
    case Version => "MixBrowser v0.6.0 (Beta)"
    case LanguageLabel => "Dil"
    case EnglishLabel => "English"
    case TurkishLabel => "Türkçe"
    case Inspect => "Öğeyi İncele"
    case Copy => "Kopyala"
    case Paste => "Yapıştır"
    case PinTab => "Sekmeyi Sabitle"
    case UnpinTab => "Sabitlemeyi Kaldır"
    case DuplicateTab => "Sekmeyi Çoğalt"
    case CloseOtherTabs => "Diğerlerini Kapat"
    case BrowserConsole => "Tarayıcı Konsolu"
    case ThemePink => "Pembe (Varsayılan)"
    case ThemeRed => "Kırmızı"
    case ThemeBlue => "Mavi"
    case ThemeGreen => "Yeşil"
    case OrLocal => "veya yerel dosya seç:"
    case BrowseFiles => "Gözat"
    case Profile => "Profil ve Güvenlik"
    case Passwords => "Parolalar"
    case Privacy => "Gizlilik"
    case Stats => "Kullanım İstatistikleri"
    case ImportCsv => "CSV İçe Aktar"
    case ExportCsv => "CSV Dışa Aktar"
    case DoNotTrack => "İzleme"
    case RecordStats => "Tarama İstatistiklerini Kaydet"
    case StatsDisabled => "İstatistik Kaydı Devre Dışı"
  }

  function Table(lang: Language): Key -> string {
    match lang
    case En => EnglishText
    case Tr => TurkishText
  }

  lemma EnglishNonEmpty(key: Key)
    ensures |EnglishText(key)| > 0
  {
    match key
    case Welcome =>
    case SearchPlaceholder =>
    case NewTab =>
    case CloseTab =>
    case Back =>
    case Forward =>
    case Reload =>
    case Settings =>
    case Appearance =>
    case Theme =>
    case Dark =>
    case Light =>
    case AccentColor =>
    case Wallpaper =>
    case Translucency =>
    case Roundness =>
    case SearchEngine =>
    case Shortcuts =>
    case ShortcutsDesc =>
    case Version =>
    case LanguageLabel =>
    case EnglishLabel =>
    case TurkishLabel =>
    case Inspect =>
    case Copy =>
    case Paste =>
    case PinTab =>
    case UnpinTab =>
    case DuplicateTab =>
    case CloseOtherTabs =>
    case BrowserConsole =>
    case ThemePink =>
    case ThemeRed =>
    case ThemeBlue =>
    case ThemeGreen =>
    case OrLocal =>
    case BrowseFiles =>
    case Profile =>
    case Passwords =>
    case Privacy =>
    case Stats =>
    case ImportCsv =>
    case ExportCsv =>
    case DoNotTrack =>
    case RecordStats =>
    case StatsDisabled =>
  }

  lemma TurkishNonEmpty(key: Key)
    ensures |TurkishText(key)| > 0
  {
    match key
    case Welcome =>
    case SearchPlaceholder =>
    case NewTab =>
    case CloseTab =>
    case Back =>
    case Forward =>
    case Reload =>
    case Settings =>
    case Appearance =>
    case Theme =>
    case Dark =>
    case Light =>
    case AccentColor =>
    case Wallpaper =>
    case Translucency =>
    case Roundness =>
    case SearchEngine =>
    case Shortcuts =>
    case ShortcutsDesc =>
    case Version =>
    case LanguageLabel =>
    case EnglishLabel =>
    case TurkishLabel =>
    case Inspect =>
    case Copy =>
    case Paste =>
    case PinTab =>
    case UnpinTab =>
    case DuplicateTab =>
    case CloseOtherTabs =>
    case BrowserConsole =>
    case ThemePink =>
    case ThemeRed =>
    case ThemeBlue =>
    case ThemeGreen =>
    case OrLocal =>
    case BrowseFiles =>
    case Profile =>
    case Passwords =>
    case Privacy =>
    case Stats =>
    case ImportCsv =>
    case ExportCsv =>
    case DoNotTrack =>
    case RecordStats =>
    case StatsDisabled =>
  }

  /** Neither table has an empty entry. */
  lemma NoEmptyEntry(lang: Language, key: Key)
    ensures Table(lang)(key) != "" && EnglishText(key) != ""
  {
    EnglishNonEmpty(key);
    TurkishNonEmpty(key);
  }

  /** The lookup: the chosen language's string when it is non-empty, else
      the English string when that is non-empty, else the key's name. */
  function Lookup(lang: Language, key: Key): (r: string)
    ensures Table(lang)(key) != "" ==> r == Table(lang)(key)
    ensures Table(lang)(key) == "" && EnglishText(key) != "" ==> r == EnglishText(key)
    ensures Table(lang)(key) == "" && EnglishText(key) == "" ==> r == KeyName(key)
  {
    var own := Table(lang)(key);
    if own != "" then own
    else if EnglishText(key) != "" then EnglishText(key)
    else KeyName(key)
  }

  /** Since no entry is empty, every lookup finds its own table's string
      and the fallbacks are never taken. */
  lemma LookupIsEntry(lang: Language, key: Key)
    ensures Lookup(lang, key) == Table(lang)(key)
    ensures Lookup(lang, key) != ""
  {
    NoEmptyEntry(lang, key);
  }

  function Placeholder(name: string): string {
    "{" + name + "}"
  }

  /** The text after replacing, parameter by parameter in order, the first
      occurrence of each parameter's placeholder by its value. */
  function Substituted(text: string, params: seq<(string, string)>): string
    decreases |params|
  {
    if params == [] then text
    else Substituted(ReplaceFirst(text, Placeholder(params[0].0), params[0].1), params[1..])
  }

  /** The translation function: look the key up, then substitute the
      parameters (in the order of their names) one at a time. Without
      parameters the looked-up string is returned as it is. */
  method Translate(lang: Language, key: Key, params: Option<seq<(string, string)>>) returns (text: string)
    ensures text == Substituted(Lookup(lang, key), if params.Some? then params.value else [])
    ensures params.None? ==> text == Table(lang)(key)
  {
    LookupIsEntry(lang, key);
    text := Lookup(lang, key);
    if params.Some? {
      var ps := params.value;
      for i := 0 to |ps|
        invariant Substituted(text, ps[i..]) == Substituted(Lookup(lang, key), ps)
      {
        assert ps[i..][1..] == ps[i + 1..];
        text := ReplaceFirst(text, Placeholder(ps[i].0), ps[i].1);
      }
      assert ps[|ps|..] == [];
    }
  }

  /** A text without '{' holds no placeholder. */
  lemma NoBraceNoPlaceholder(text: string, name: string)
    requires '{' !in text
    ensures IndexOf(text, Placeholder(name)).None?
  {
    var pat := Placeholder(name);
    forall k: nat | k + |pat| <= |text|
      ensures !MatchAt(text, pat, k)
    {
      assert text[k..k + |pat|][0] == text[k];
    }
  }

  /** Parameters whose placeholders do not occur leave the text unchanged. */
  lemma {:induction false} AbsentPlaceholdersKeepText(text: string, params: seq<(string, string)>)
    requires forall i :: 0 <= i < |params| ==> IndexOf(text, Placeholder(params[i].0)).None?
    ensures Substituted(text, params) == text
    decreases |params|
  {
    if params != [] {
      AbsentPlaceholdersKeepText(text, params[1..]);
    }
  }

  /** The tab menu passes a `defaultValue` parameter; its strings have no
      placeholder, so the parameter changes nothing. */
  lemma DefaultValueIgnored(lang: Language, key: Key, v: string)
    requires key == PinTab || key == UnpinTab || key == DuplicateTab || key == CloseOtherTabs
    ensures Substituted(Lookup(lang, key), [("defaultValue", v)]) == Table(lang)(key)
  {
    LookupIsEntry(lang, key);
    assert '{' !in Table(lang)(key);
    NoBraceNoPlaceholder(Table(lang)(key), "defaultValue");
    AbsentPlaceholdersKeepText(Table(lang)(key), [("defaultValue", v)]);
  }

  /** Only the first occurrence of a placeholder is replaced: the text after
      it, another occurrence included, is kept. */
  lemma FirstPlaceholderReplaced(pre: string, name: string, post: string, v: string)
    requires '{' !in pre
    ensures ReplaceFirst(pre + Placeholder(name) + post, Placeholder(name), v) == pre + v + post
  {
    var s := pre + Placeholder(name) + post;
    var pat := Placeholder(name);
    assert MatchAt(s, pat, |pre|) by {
      assert s[|pre|..|pre| + |pat|] == pat;
    }
    forall k: nat | k < |pre|
      ensures !MatchAt(s, pat, k)
    {
      assert s[k] == pre[k];
      if k + |pat| <= |s| {
        assert s[k..k + |pat|][0] == s[k];
      }
    }
    var k := IndexOf(s, pat).value;
    assert k == |pre|;
    assert s[..k] == pre && s[k + |pat|..] == post;
  }

  lemma SingleParameter(text: string, name: string, v: string)
    ensures Substituted(text, [(name, v)]) == ReplaceFirst(text, Placeholder(name), v)
  {
    assert [(name, v)][1..] == [];
  }

  lemma EnglishSearchEntry(pre: string, post: string)
    requires pre == "Search with " && post == "..."
    ensures EnglishText(SearchPlaceholder) == pre + Placeholder("engine") + post
    ensures '{' !in pre
  {
  }

  lemma EmptyPrefix(t: string)
    ensures "" + t == t
  {
  }

  lemma TurkishSearchEntry(post: string)
    requires post == " ile ara..."
    ensures TurkishText(SearchPlaceholder) == "" + Placeholder("engine") + post
  {
  }

  /** The search placeholder names the engine: "Search with E..." in
      English. */
  lemma EnglishSearchPlaceholder(engine: string)
    ensures Substituted(Lookup(En, SearchPlaceholder), [("engine", engine)]) == "Search with " + engine + "..."
  {
    LookupIsEntry(En, SearchPlaceholder);
    EnglishSearchEntry("Search with ", "...");
    FirstPlaceholderReplaced("Search with ", "engine", "...", engine);
    SingleParameter(EnglishText(SearchPlaceholder), "engine", engine);
  }

  /** ... and "E ile ara..." in Turkish. */
  lemma TurkishSearchPlaceholder(engine: string)
    ensures Substituted(Lookup(Tr, SearchPlaceholder), [("engine", engine)]) == engine + " ile ara..."
  {
    LookupIsEntry(Tr, SearchPlaceholder);
    TurkishSearchEntry(" ile ara...");
    FirstPlaceholderReplaced("", "engine", " ile ara...", engine);
    EmptyPrefix(engine + " ile ara...");
    SingleParameter(TurkishText(SearchPlaceholder), "engine", engine);
  }
}
