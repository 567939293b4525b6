/** The address bar: Enter on the url input classifies the trimmed text as a
    URL or as a search, and names the one address the shell navigates to.

    The four regular expressions of the classifier are written as predicates
    over characters, one per pattern, with the pattern's alternatives and
    repetitions spelled out as bounded existentials (a regular-expression
    test succeeds when some decomposition of the text matches). `\d` is an
    ASCII digit and `.` any character other than a line terminator. */
module TopBar {
  import opened Common
  import Uri

  /** The engine used when none is configured. */
  const DefaultSearchEngine: string := "https://www.google.com/search?q="

  predicate IsDigit(c: char) { '0' <= c <= '9' }

  predicate IsLetter(c: char) { ('a' <= c <= 'z') || ('A' <= c <= 'Z') }

  predicate IsLabelChar(c: char) { IsLetter(c) || IsDigit(c) || c == '-' }

  predicate AllDigits(s: string) { forall i :: 0 <= i < |s| ==> IsDigit(s[i]) }

  predicate AllLetters(s: string) { forall i :: 0 <= i < |s| ==> IsLetter(s[i]) }

  predicate AllLabelChars(s: string) { forall i :: 0 <= i < |s| ==> IsLabelChar(s[i]) }

  /** `(\/.*)?$`: nothing, or a slash and then no line terminator. */
  predicate PathPart(s: string) {
    s == [] || (s[0] == '/' && forall i :: 1 <= i < |s| ==> !IsLineTerminator(s[i]))
  }

  /** `(:\d+)?(\/.*)?$`: an optional port, then the optional path. */
  predicate PortAndPath(s: string) {
    PathPart(s) ||
    (|s| >= 2 && s[0] == ':' && exists k :: 2 <= k <= |s| && AllDigits(s[1..k]) && PathPart(s[k..]))
  }

  /** `([a-zA-Z0-9-]+\.)+`: one or more labels, each followed by a dot. */
  predicate Labels(p: string)
    decreases |p|
  {
    exists k :: 1 <= k < |p| && AllLabelChars(p[..k]) && p[k] == '.' && (k + 1 == |p| || Labels(p[k + 1..]))
  }

  /** `^(http|https|mix):\/\/` */
  predicate HasProtocol(s: string) {
    StartsWith(s, "http://") || StartsWith(s, "https://") || StartsWith(s, "mix://")
  }

  /** `^([a-zA-Z0-9-]+\.)+[a-zA-Z]{2,}(:\d+)?(\/.*)?$` */
  predicate IsDomain(s: string) {
    exists i, j :: 0 < i < j <= |s| && j - i >= 2 && Labels(s[..i]) && AllLetters(s[i..j]) && PortAndPath(s[j..])
  }

  /** `^localhost(:\d+)?(\/.*)?$` */
  predicate IsLocalhost(s: string) {
    StartsWith(s, "localhost") && PortAndPath(s[9..])
  }

  /** `(\d{1,3}\.){n}\d{1,3}(:\d+)?(\/.*)?$` */
  predicate IpGroups(s: string, n: nat)
    decreases n
  {
    if n == 0 then
      exists k :: 1 <= k <= 3 && k <= |s| && AllDigits(s[..k]) && PortAndPath(s[k..])
    else
      exists k :: 1 <= k <= 3 && k < |s| && AllDigits(s[..k]) && s[k] == '.' && IpGroups(s[k + 1..], n - 1)
  }

  /** `^(\d{1,3}\.){3}\d{1,3}(:\d+)?(\/.*)?$`: four groups of one to three
      digits; the value of a group is not checked. */
  predicate IsIP(s: string) {
    IpGroups(s, 3)
  }

  predicate IsUrl(s: string) {
    HasProtocol(s) || IsDomain(s) || IsLocalhost(s) || IsIP(s)
  }

  /** handleKeyDown: the address Enter navigates to, if any. Other keys and
      blank input navigate nowhere; a URL keeps its scheme or gets
      "https://"; anything else is searched with the engine. */
  function Target(key: string, inputVal: string, engine: string): (r: Option<string>)
    ensures r.None? <==> key != "Enter" || Trim(inputVal) == []
    ensures r.Some? && IsUrl(Trim(inputVal)) ==>
      r.value == (if HasProtocol(Trim(inputVal)) then Trim(inputVal) else "https://" + Trim(inputVal))
    ensures r.Some? && !IsUrl(Trim(inputVal)) ==> r.value == engine + Uri.EncodeURIComponent(Trim(inputVal))
  {
    if key != "Enter" then None
    else
      var url := Trim(inputVal);
      if url == [] then None
      else if IsUrl(url) then Some(if HasProtocol(url) then url else "https://" + url)
      else Some(engine + Uri.EncodeURIComponent(url))
  }

  lemma TrimIdempotent(s: string)
    ensures Trim(Trim(s)) == Trim(s)
  {
    if Trim(s) != [] {
      TrimUntouched(Trim(s));
    }
  }

  /** Surrounding white space never changes where Enter leads. */
  lemma TargetOfTrimmed(key: string, inputVal: string, engine: string)
    ensures Target(key, Trim(inputVal), engine) == Target(key, inputVal, engine)
  {
    TrimIdempotent(inputVal);
  }

  /** Every address the bar navigates to carries a scheme, as long as the
      engine's does (the default engine's does). */
  lemma TargetIsAbsolute(key: string, inputVal: string, engine: string)
    requires HasProtocol(engine)
    ensures Target(key, inputVal, engine).Some? ==> HasProtocol(Target(key, inputVal, engine).value)
  {
    var url := Trim(inputVal);
    if key == "Enter" && url != [] {
      if IsUrl(url) {
        HttpsPrefixed(url);
      } else {
        SchemeKept(engine, Uri.EncodeURIComponent(url));
      }
    }
  }

  lemma HttpsPrefixed(url: string)
    ensures HasProtocol("https://" + url)
  {
    assert ("https://" + url)[..8] == "https://";
  }

  /** Text appended after a scheme leaves the scheme in place. */
  lemma SchemeKept(prefix: string, rest: string)
    requires HasProtocol(prefix)
    ensures HasProtocol(prefix + rest)
  {
    var r := prefix + rest;
    if StartsWith(prefix, "http://") {
      assert r[..7] == prefix[..7];
    } else if StartsWith(prefix, "https://") {
      assert r[..8] == prefix[..8];
    } else {
      assert r[..6] == prefix[..6];
    }
  }

  lemma DefaultEngineHasProtocol()
    ensures HasProtocol(DefaultSearchEngine)
  {
    assert DefaultSearchEngine[..8] == "https://";
  }

  /** A search sends the text as one query value: what follows the engine
      prefix holds no '&', '=', '#', '?' or space. */
  lemma SearchIsOneParameter(inputVal: string, engine: string)
    requires Trim(inputVal) != [] && !IsUrl(Trim(inputVal))
    ensures var r := Target("Enter", inputVal, engine).value;
      StartsWith(r, engine) &&
      forall i :: |engine| <= i < |r| ==> r[i] != '&' && r[i] != '=' && r[i] != '#' && r[i] != '?' && r[i] != ' '
  {
    var q := Uri.EncodeURIComponent(Trim(inputVal));
    var r := engine + q;
    assert r[..|engine|] == engine;
    forall i | |engine| <= i < |r|
      ensures r[i] != '&' && r[i] != '=' && r[i] != '#' && r[i] != '?' && r[i] != ' '
    {
      assert r[i] == q[i - |engine|];
    }
  }

  lemma LabelsEndWithDot(p: string)
    requires Labels(p)
    ensures |p| >= 2 && p[|p| - 1] == '.'
    decreases |p|
  {
    var k :| 1 <= k < |p| && AllLabelChars(p[..k]) && p[k] == '.' && (k + 1 == |p| || Labels(p[k + 1..]));
    if k + 1 < |p| {
      LabelsEndWithDot(p[k + 1..]);
    }
  }

  lemma DomainHasDot(s: string)
    requires IsDomain(s)
    ensures '.' in s
  {
    var i, j :| 0 < i < j <= |s| && j - i >= 2 && Labels(s[..i]) && AllLetters(s[i..j]) && PortAndPath(s[j..]);
    LabelsEndWithDot(s[..i]);
    assert s[i - 1] == s[..i][i - 1];
  }

  lemma IpHasDot(s: string)
    requires IsIP(s)
    ensures '.' in s
  {
    var k :| 1 <= k <= 3 && k < |s| && AllDigits(s[..k]) && s[k] == '.' && IpGroups(s[k + 1..], 2);
  }

  /** A single word that has no dot, no scheme and is not "localhost…" is
      searched. */
  lemma WordWithoutDotIsSearched(inputVal: string, engine: string)
    requires Trim(inputVal) != [] && '.' !in Trim(inputVal)
    requires !HasProtocol(Trim(inputVal)) && !StartsWith(Trim(inputVal), "localhost")
    ensures Target("Enter", inputVal, engine) == Some(engine + Uri.EncodeURIComponent(Trim(inputVal)))
  {
    var url := Trim(inputVal);
    if IsDomain(url) {
      DomainHasDot(url);
    }
    if IsIP(url) {
      IpHasDot(url);
    }
  }

  /** A URL without a scheme is navigated with "https://" in front. */
  lemma HostGetsHttps(inputVal: string, engine: string)
    requires Trim(inputVal) == inputVal && inputVal != []
    requires IsUrl(inputVal) && !HasProtocol(inputVal)
    ensures Target("Enter", inputVal, engine) == Some("https://" + inputVal)
  {
  }

  lemma ExampleLabels()
    ensures Labels("example.")
  {
    var p := "example.";
    assert p[..7] == "example" && p[7] == '.';
    assert AllLabelChars(p[..7]);
  }

  lemma ExampleIsDomain()
    ensures IsDomain("example.com")
  {
    var s := "example.com";
    ExampleLabels();
    assert s[..8] == "example." && s[8..11] == "com" && s[11..] == [];
    assert AllLetters(s[8..11]) && PortAndPath(s[11..]);
  }

  /** A text whose first character is neither 'h' nor 'm' has no scheme. */
  lemma NoSchemeLetterStart(s: string)
    requires s != [] && s[0] != 'h' && s[0] != 'm'
    ensures !HasProtocol(s)
  {
    if |s| >= 6 {
      assert s[..6][0] == s[0];
    }
    if |s| >= 7 {
      assert s[..7][0] == s[0];
    }
    if |s| >= 8 {
      assert s[..8][0] == s[0];
    }
  }

  /** A text starting with a digit has no scheme. */
  lemma DigitStartHasNoProtocol(s: string)
    requires s != [] && IsDigit(s[0])
    ensures !HasProtocol(s)
  {
    NoSchemeLetterStart(s);
  }

  lemma DomainIsUrl(s: string)
    requires IsDomain(s)
    ensures IsUrl(s)
  {
  }

  /** "example.com" is a domain and gets "https://". */
  lemma DomainGetsHttps(s: string, engine: string)
    requires s == "example.com"
    ensures Target("Enter", s, engine) == Some("https://" + s)
  {
    ExampleIsDomain();
    DomainIsUrl(s);
    assert s[0] == 'e' && s[|s| - 1] == 'm';
    NoSchemeLetterStart(s);
    BareHostGetsHttps(s, engine);
  }

  /** A URL without a scheme and without surrounding white space gets
      "https://". */
  lemma BareHostGetsHttps(s: string, engine: string)
    requires s != [] && !IsWhiteSpace(s[0]) && !IsWhiteSpace(s[|s| - 1])
    requires IsUrl(s) && !HasProtocol(s)
    ensures Target("Enter", s, engine) == Some("https://" + s)
  {
    TrimUntouched(s);
    HostGetsHttps(s, engine);
  }

  lemma LastGroup(g: string)
    requires 1 <= |g| <= 3 && AllDigits(g)
    ensures IpGroups(g, 0)
  {
    assert g[..|g|] == g && g[|g|..] == [];
  }

  lemma GroupStep(g: string, rest: string, n: nat)
    requires 1 <= |g| <= 3 && AllDigits(g)
    requires IpGroups(rest, n)
    ensures IpGroups(g + "." + rest, n + 1)
  {
    var s := g + "." + rest;
    var k := |g|;
    assert s[..k] == g && s[k] == '.' && s[k + 1..] == rest;
  }

  /** Four groups of one to three digits, joined by dots, make an address. */
  lemma FourGroups(a: string, b: string, c: string, d: string)
    requires 1 <= |a| <= 3 && AllDigits(a) && 1 <= |b| <= 3 && AllDigits(b)
    requires 1 <= |c| <= 3 && AllDigits(c) && 1 <= |d| <= 3 && AllDigits(d)
    ensures IsIP(a + "." + (b + "." + (c + "." + d)))
  {
    var cd := c + "." + d;
    var bcd := b + "." + cd;
    LastGroup(d);
    GroupStep(c, d, 0);
    GroupStep(b, cd, 1);
    GroupStep(a, bcd, 2);
  }

  /** A URL that starts and ends with a digit is opened over https. */
  lemma DigitEndedUrlGetsHttps(s: string, engine: string)
    requires s != [] && IsDigit(s[0]) && IsDigit(s[|s| - 1]) && IsUrl(s)
    ensures Target("Enter", s, engine) == Some("https://" + s)
  {
    DigitStartHasNoProtocol(s);
    BareHostGetsHttps(s, engine);
  }

  /** Four digit groups joined by dots are an address, opened over https. */
  lemma DottedQuadGetsHttps(s: string, a: string, b: string, c: string, d: string, engine: string)
    requires 1 <= |a| <= 3 && AllDigits(a) && 1 <= |b| <= 3 && AllDigits(b)
    requires 1 <= |c| <= 3 && AllDigits(c) && 1 <= |d| <= 3 && AllDigits(d)
    requires s == a + "." + (b + "." + (c + "." + d))
    ensures IsIP(s) && Target("Enter", s, engine) == Some("https://" + s)
  {
    FourGroups(a, b, c, d);
    IpIsUrl(s);
    DigitsAtEnds(s, a, b, c, d);
    DigitEndedUrlGetsHttps(s, engine);
  }

  lemma IpIsUrl(s: string)
    requires IsIP(s)
    ensures IsUrl(s)
  {
  }

  /** The dotted text starts with the first group's digit and ends with the
      last group's. */
  lemma DigitsAtEnds(s: string, a: string, b: string, c: string, d: string)
    requires a != [] && AllDigits(a) && d != [] && AllDigits(d)
    requires s == a + "." + (b + "." + (c + "." + d))
    ensures s != [] && IsDigit(s[0]) && IsDigit(s[|s| - 1])
  {
    var cd := c + "." + d;
    var bcd := b + "." + cd;
    assert cd[|cd| - 1] == d[|d| - 1];
    assert bcd[|bcd| - 1] == cd[|cd| - 1];
    assert s[|s| - 1] == bcd[|bcd| - 1];
    assert s[0] == a[0];
  }

  /** The IPv4 pattern does not check the range of a group:
      "999.999.999.999" counts as an address and gets "https://". */
  lemma IpNotRangeChecked(g: string, engine: string)
    requires g == "999"
    ensures var s := g + "." + (g + "." + (g + "." + g));
      IsIP(s) && Target("Enter", s, engine) == Some("https://" + s)
  {
    assert AllDigits(g);
    DottedQuadGetsHttps(g + "." + (g + "." + (g + "." + g)), g, g, g, g, engine);
  }

  /** "localhost:3000/app" is a URL. */
  lemma LocalhostWithPort()
    ensures IsLocalhost("localhost:3000/app")
  {
    var s := "localhost:3000/app";
    assert s[..9] == "localhost";
    var t := s[9..];
    assert t == ":3000/app";
    assert t[1..5] == "3000" && t[5..] == "/app";
    assert PathPart(t[5..]);
  }

  /** A final label of one letter is not a domain: "example.c" is searched. */
  lemma ShortTopLevelLabelIsNoDomain()
    ensures !IsDomain("example.c")
  {
    var s := "example.c";
    forall i, j | 0 < i < j <= |s| && j - i >= 2
      ensures !(Labels(s[..i]) && AllLetters(s[i..j]) && PortAndPath(s[j..]))
    {
      assert s[..i][i - 1] == s[i - 1];
      assert s[i - 1] != '.' by {
        assert s[0] == 'e' && s[1] == 'x' && s[2] == 'a' && s[3] == 'm' && s[4] == 'p' && s[5] == 'l' && s[6] == 'e';
      }
      if Labels(s[..i]) {
        LabelsEndWithDot(s[..i]);
      }
    }
  }

  /** The state of the navigation buttons. */
  datatype NavButtons = NavButtons(backDisabled: bool, forwardDisabled: bool, reloadSpins: bool)

  /** Back and Forward are disabled exactly when the view cannot go that way;
      Reload is always enabled and spins while loading. */
  function Buttons(canGoBack: bool, canGoForward: bool, isLoading: bool): (b: NavButtons)
    ensures b.backDisabled <==> !canGoBack
    ensures b.forwardDisabled <==> !canGoForward
    ensures b.reloadSpins <==> isLoading
  {
    NavButtons(!canGoBack, !canGoForward, isLoading)
  }
}
