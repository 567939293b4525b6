/** The profile dialog's password import and export, its privacy toggles and
    the show/hide switch of a saved password.

    The import format is a light CSV: lines split on '\n', fields split on
    ','. It does not unquote, and the export does not double embedded quotes,
    so it only loosely follows section 2 of RFC 4180. */
module ProfileModal {
  import opened Common
  import opened Persistence
  import Uri

  /** What passwords:save is sent for one imported row. */
  datatype SaveRequest = SaveRequest(url: string, username: string, password: string)

  // ---------------------------------------------------------------------
  // Import
  // ---------------------------------------------------------------------

  /** One import line: saved exactly when its first three comma-separated
      fields are non-empty (before trimming), as the trimmed fields; fields
      after the third are ignored. */
  function RowOf(line: string): (r: Option<SaveRequest>)
    ensures var f := Split(line, ',');
      r.Some? <==> |f| >= 3 && f[0] != "" && f[1] != "" && f[2] != ""
  {
    var f := Split(line, ',');
    if |f| >= 3 && f[0] != "" && f[1] != "" && f[2] != "" then
      Some(SaveRequest(Trim(f[0]), Trim(f[1]), Trim(f[2])))
    else None
  }

  /** A line whose fields start with three non-empty ones is saved, as
      their trimmed values. */
  lemma RowOfSplit(line: string, a: string, b: string, c: string, more: seq<string>)
    requires Split(line, ',') == [a, b, c] + more
    requires a != "" && b != "" && c != ""
    ensures RowOf(line) == Some(SaveRequest(Trim(a), Trim(b), Trim(c)))
  {
    var f := Split(line, ',');
    assert f[0] == a && f[1] == b && f[2] == c;
  }

  lemma SplitTwoFields(a: string, b: string, tail: string)
    requires ',' !in a && ',' !in b
    ensures Split(a + [','] + b + [','] + tail, ',') == [a, b] + Split(tail, ',')
  {
    assert a + [','] + b + [','] + tail == a + [','] + (b + [','] + tail);
    SplitCons(a, b + [','] + tail, ',');
    SplitCons(b, tail, ',');
  }

  /** Three non-empty fields free of commas make a saved row of their
      trimmed values, whatever follows a third comma. */
  lemma RowOfFields(a: string, b: string, c: string, rest: Option<string>)
    requires ',' !in a && ',' !in b && ',' !in c
    requires a != "" && b != "" && c != ""
    ensures var line := a + [','] + b + [','] + c + (if rest.Some? then [','] + rest.value else "");
      RowOf(line) == Some(SaveRequest(Trim(a), Trim(b), Trim(c)))
  {
    var tail := if rest.Some? then [','] + rest.value else "";
    var ct := c + tail;
    assert a + [','] + b + [','] + c + tail == a + [','] + b + [','] + ct;
    SplitTwoFields(a, b, ct);
    if rest.Some? {
      assert ct == c + [','] + rest.value;
      SplitCons(c, rest.value, ',');
      assert [a, b] + ([c] + Split(rest.value, ',')) == [a, b, c] + Split(rest.value, ',');
      RowOfSplit(a + [','] + b + [','] + ct, a, b, c, Split(rest.value, ','));
    } else {
      assert ct == c;
      SplitNone(c, ',');
      assert [a, b] + [c] == [a, b, c] + [];
      RowOfSplit(a + [','] + b + [','] + ct, a, b, c, []);
    }
  }

  /** A line with fewer than three fields is skipped. */
  lemma ShortRowSkipped(a: string, b: string)
    requires ',' !in a && ',' !in b
    ensures RowOf(a) == None
    ensures RowOf(a + [','] + b) == None
  {
    SplitNone(a, ',');
    SplitCons(a, b, ',');
    SplitNone(b, ',');
  }

  /** A field of white space only is non-empty before trimming, so the row is
      saved, with that field empty. */
  lemma BlankFieldSavedEmpty(a: string, b: string, c: string)
    requires ',' !in a && ',' !in b && ',' !in c
    requires a != "" && b != "" && c != ""
    requires forall i :: 0 <= i < |a| ==> IsWhiteSpace(a[i])
    ensures RowOf(a + [','] + b + [','] + c).Some?
    ensures RowOf(a + [','] + b + [','] + c).value.url == ""
  {
    RowOfFields(a, b, c, None);
    assert a + [','] + b + [','] + c + "" == a + [','] + b + [','] + c;
  }

  function AsSeq(r: Option<SaveRequest>): seq<SaveRequest> {
    if r.Some? then [r.value] else []
  }

  /** The rows saved from a list of lines, in order. */
  function RowsSaved(lines: seq<string>): (r: seq<SaveRequest>)
    ensures |r| <= |lines|
  {
    if lines == [] then [] else AsSeq(RowOf(lines[0])) + RowsSaved(lines[1..])
  }

  /** A skipped line never stops the import: the rows saved from two blocks
      of lines are those of the first followed by those of the second. */
  lemma {:induction false} RowsSavedConcat(a: seq<string>, b: seq<string>)
    ensures RowsSaved(a + b) == RowsSaved(a) + RowsSaved(b)
  {
    if a == [] {
      assert a + b == b;
    } else {
      assert (a + b)[1..] == a[1..] + b;
      RowsSavedConcat(a[1..], b);
    }
  }

  lemma RowsSavedSnoc(a: seq<string>, line: string)
    ensures RowsSaved(a + [line]) == RowsSaved(a) + AsSeq(RowOf(line))
  {
    RowsSavedConcat(a, [line]);
    assert [line][1..] == [];
  }

  lemma RowsSavedStep(lines: seq<string>, i: nat)
    requires 1 <= i < |lines|
    ensures RowsSaved(lines[1..i + 1]) == RowsSaved(lines[1..i]) + AsSeq(RowOf(lines[i]))
  {
    assert lines[1..i + 1] == lines[1..i] + [lines[i]];
    RowsSavedSnoc(lines[1..i], lines[i]);
  }

  /** The save requests an import of `text` makes: one per saved row of
      lines 1 to n-1; line 0 is the header. */
  function ImportRequests(text: string): (r: seq<SaveRequest>)
    ensures |r| < |Split(text, '\n')|
  {
    RowsSaved(Split(text, '\n')[1..])
  }

  /** Whatever the first line says, it is never imported. */
  lemma HeaderIgnored(h1: string, h2: string, body: string)
    requires '\n' !in h1 && '\n' !in h2
    ensures ImportRequests(h1 + ['\n'] + body) == ImportRequests(h2 + ['\n'] + body)
  {
    SplitCons(h1, body, '\n');
    SplitCons(h2, body, '\n');
  }

  /** A row whose url field is empty is skipped. */
  lemma MissingUrlSkipped(user: string, password: string)
    requires ',' !in user && ',' !in password
    ensures RowOf([','] + user + [','] + password) == None
  {
    assert [','] + user + [','] + password == [] + [','] + (user + [','] + password);
    SplitCons([], user + [','] + password, ',');
  }

  /** The lines of a header and three rows. */
  lemma SplitFourLines(h: string, r1: string, r2: string, r3: string)
    requires '\n' !in h && '\n' !in r1 && '\n' !in r2 && '\n' !in r3
    ensures Split(h + ['\n'] + r1 + ['\n'] + r2 + ['\n'] + r3, '\n') == [h, r1, r2, r3]
  {
    assert h + ['\n'] + r1 + ['\n'] + r2 + ['\n'] + r3 == h + ['\n'] + (r1 + ['\n'] + (r2 + ['\n'] + r3));
    SplitCons(h, r1 + ['\n'] + (r2 + ['\n'] + r3), '\n');
    SplitCons(r1, r2 + ['\n'] + r3, '\n');
    SplitCons(r2, r3, '\n');
    SplitNone(r3, '\n');
  }

  lemma RowsSavedThree(r1: string, r2: string, r3: string)
    ensures RowsSaved([r1, r2, r3]) == AsSeq(RowOf(r1)) + AsSeq(RowOf(r2)) + AsSeq(RowOf(r3))
  {
    assert [r1, r2, r3] == [r1] + [r2] + [r3];
    RowsSavedSnoc([r1] + [r2], r3);
    RowsSavedSnoc([r1], r2);
    assert RowsSaved([r1]) == AsSeq(RowOf(r1)) by {
      assert [r1][1..] == [];
    }
  }

  /** A header and three rows: each row is saved or skipped on its own, in
      order. */
  lemma ThreeRowImport(h: string, r1: string, r2: string, r3: string)
    requires '\n' !in h && '\n' !in r1 && '\n' !in r2 && '\n' !in r3
    ensures ImportRequests(h + ['\n'] + r1 + ['\n'] + r2 + ['\n'] + r3) ==
      AsSeq(RowOf(r1)) + AsSeq(RowOf(r2)) + AsSeq(RowOf(r3))
  {
    SplitFourLines(h, r1, r2, r3);
    assert [h, r1, r2, r3][1..] == [r1, r2, r3];
    RowsSavedThree(r1, r2, r3);
  }

  /** Of three rows, a skipped middle one leaves the other two, in order. */
  lemma MiddleRowSkipped(h: string, r1: string, r2: string, r3: string)
    requires '\n' !in h && '\n' !in r1 && '\n' !in r2 && '\n' !in r3
    requires RowOf(r1).Some? && RowOf(r2).None? && RowOf(r3).Some?
    ensures ImportRequests(h + ['\n'] + r1 + ['\n'] + r2 + ['\n'] + r3) == [RowOf(r1).value, RowOf(r3).value]
  {
    ThreeRowImport(h, r1, r2, r3);
  }

  /** A full row of three fields, none holding a comma or a line break. */
  lemma FullRow(r: string, a: string, b: string, c: string)
    requires r == a + [','] + b + [','] + c
    requires ',' !in a && ',' !in b && ',' !in c
    requires '\n' !in a && '\n' !in b && '\n' !in c
    requires a != "" && b != "" && c != ""
    ensures RowOf(r) == Some(SaveRequest(Trim(a), Trim(b), Trim(c)))
    ensures '\n' !in r
  {
    RowOfFields(a, b, c, None);
    assert r + "" == r;
  }

  /** A row with an empty url, its fields holding no comma or line break. */
  lemma UrlLessRow(r: string, b: string, c: string)
    requires r == [','] + b + [','] + c
    requires ',' !in b && ',' !in c && '\n' !in b && '\n' !in c
    ensures RowOf(r) == None
    ensures '\n' !in r
  {
    MissingUrlSkipped(b, c);
  }

  /** Three rows of which the middle one lacks its url: the first and the
      last are saved, trimmed, and the middle one is skipped. */
  lemma MissingUrlRowSkippedInImport(h: string, r1: string, r2: string, r3: string,
                                     a1: string, b1: string, c1: string, b2: string, c2: string,
                                     a3: string, b3: string, c3: string)
    requires r1 == a1 + [','] + b1 + [','] + c1
    requires r2 == [','] + b2 + [','] + c2
    requires r3 == a3 + [','] + b3 + [','] + c3
    requires '\n' !in h
    requires ',' !in a1 && ',' !in b1 && ',' !in c1 && ',' !in b2 && ',' !in c2
    requires ',' !in a3 && ',' !in b3 && ',' !in c3
    requires '\n' !in a1 && '\n' !in b1 && '\n' !in c1 && '\n' !in b2 && '\n' !in c2
    requires '\n' !in a3 && '\n' !in b3 && '\n' !in c3
    requires a1 != "" && b1 != "" && c1 != "" && a3 != "" && b3 != "" && c3 != ""
    ensures ImportRequests(h + ['\n'] + r1 + ['\n'] + r2 + ['\n'] + r3) ==
      [SaveRequest(Trim(a1), Trim(b1), Trim(c1)), SaveRequest(Trim(a3), Trim(b3), Trim(c3))]
  {
    FullRow(r1, a1, b1, c1);
    UrlLessRow(r2, b2, c2);
    FullRow(r3, a3, b3, c3);
    MiddleRowSkipped(h, r1, r2, r3);
  }

  /** The passwords after saving `reqs` in order, the k-th save using id
      `ids(k)` when it creates an entry. */
  function SavedAll(ps: seq<PasswordEntry>, reqs: seq<SaveRequest>, ids: nat -> int, k: nat): seq<PasswordEntry>
    decreases |reqs|
  {
    if reqs == [] then ps
    else SavedAll(Upserted(ps, reqs[0].url, reqs[0].username, reqs[0].password, ids(k)), reqs[1..], ids, k + 1)
  }

  lemma {:induction false} SavedAllSnoc(ps: seq<PasswordEntry>, reqs: seq<SaveRequest>, r: SaveRequest, ids: nat -> int, k: nat)
    ensures SavedAll(ps, reqs + [r], ids, k) ==
      Upserted(SavedAll(ps, reqs, ids, k), r.url, r.username, r.password, ids(k + |reqs|))
    decreases |reqs|
  {
    if reqs == [] {
      assert [r][1..] == [];
    } else {
      assert (reqs + [r])[1..] == reqs[1..] + [r];
      SavedAllSnoc(Upserted(ps, reqs[0].url, reqs[0].username, reqs[0].password, ids(k)), reqs[1..], r, ids, k + 1);
    }
  }

  /** After an import every imported account holds the password of its last
      imported row. */
  lemma ImportedPasswordStored(ps: seq<PasswordEntry>, reqs: seq<SaveRequest>, r: SaveRequest, ids: nat -> int)
    ensures PasswordOf(SavedAll(ps, reqs + [r], ids, 0), r.url, r.username) == Some(r.password)
  {
    SavedAllSnoc(ps, reqs, r, ids, 0);
    UpsertThenLookup(SavedAll(ps, reqs, ids, 0), r.url, r.username, r.password, ids(|reqs|), r.url, r.username);
  }

  // ---------------------------------------------------------------------
  // Export
  // ---------------------------------------------------------------------

  const CsvHeader: string := "URL,Username,Password"

  const DataUriPrefix: string := "data:text/csv;charset=utf-8,"

  function Quote(s: string): string {
    ['"'] + s + ['"']
  }

  /** One exported row: the three fields, each in double quotes, unescaped. */
  function RowText(p: PasswordEntry): string {
    Quote(p.url) + [','] + Quote(p.username) + [','] + Quote(p.password)
  }

  function RowTexts(ps: seq<PasswordEntry>): (r: seq<string>)
    ensures |r| == |ps| && forall i :: 0 <= i < |ps| ==> r[i] == RowText(ps[i])
  {
    seq(|ps|, i requires 0 <= i < |ps| => RowText(ps[i]))
  }

  /** The export text: the header line, then one row per entry in list
      order, separated by '\n', with no newline at the end. */
  function ExportCsv(ps: seq<PasswordEntry>): string {
    CsvHeader + ['\n'] + Join(RowTexts(ps), '\n')
  }

  /** No field holds a separator of the light CSV format. */
  predicate Plain(p: PasswordEntry) {
    ',' !in p.url && ',' !in p.username && ',' !in p.password &&
    '\n' !in p.url && '\n' !in p.username && '\n' !in p.password
  }

  predicate AllPlain(ps: seq<PasswordEntry>) {
    forall i :: 0 <= i < |ps| ==> Plain(ps[i])
  }

  /** The export splits back into the header and one line per entry (an
      empty list leaves one empty line). */
  lemma ExportLines(ps: seq<PasswordEntry>)
    requires AllPlain(ps)
    ensures Split(ExportCsv(ps), '\n') == [CsvHeader] + (if ps == [] then [""] else RowTexts(ps))
  {
    if ps == [] {
      SplitCons(CsvHeader, Join(RowTexts(ps), '\n'), '\n');
      SplitNone("", '\n');
    } else {
      ExportRows(ps);
    }
  }

  lemma ExportRows(ps: seq<PasswordEntry>)
    requires ps != [] && AllPlain(ps)
    ensures Split(ExportCsv(ps), '\n') == [CsvHeader] + RowTexts(ps)
  {
    var rows := RowTexts(ps);
    SplitCons(CsvHeader, Join(rows, '\n'), '\n');
    forall i | 0 <= i < |rows| ensures '\n' !in rows[i] {
      assert rows[i] == RowText(ps[i]);
    }
    SplitJoin(rows, '\n');
  }

  /** Re-importing an empty export saves nothing. */
  lemma ReimportEmpty()
    ensures ImportRequests(ExportCsv([])) == []
  {
    ExportLines([]);
    ImportOfLines(ExportCsv([]), CsvHeader, [""]);
    EmptyLineSkipped();
  }

  /** Re-importing an export saves every entry, in order, with the double
      quotes still around each field, because the import does not unquote. */
  lemma ReimportNonEmpty(ps: seq<PasswordEntry>)
    requires ps != [] && AllPlain(ps)
    ensures ImportRequests(ExportCsv(ps)) == QuotedRequests(ps)
  {
    ExportRows(ps);
    ImportOfLines(ExportCsv(ps), CsvHeader, RowTexts(ps));
    QuotedRowsSaved(ps);
    SavedChain(ExportCsv(ps), RowTexts(ps), QuotedRequests(ps));
  }

  lemma SavedChain(text: string, rows: seq<string>, reqs: seq<SaveRequest>)
    requires ImportRequests(text) == RowsSaved(rows) && RowsSaved(rows) == reqs
    ensures ImportRequests(text) == reqs
  {
  }

  lemma ImportOfLines(text: string, header: string, rest: seq<string>)
    requires Split(text, '\n') == [header] + rest
    ensures ImportRequests(text) == RowsSaved(rest)
  {
    assert ([header] + rest)[1..] == rest;
  }

  lemma EmptyLineSkipped()
    ensures RowsSaved([""]) == []
  {
    SplitNone("", ',');
    assert RowOf("") == None;
    assert [""][1..] == [];
  }

  lemma {:induction false} QuotedRowsSaved(ps: seq<PasswordEntry>)
    requires AllPlain(ps)
    ensures RowsSaved(RowTexts(ps)) == QuotedRequests(ps)
  {
    if ps != [] {
      var rows := RowTexts(ps);
      assert rows[1..] == RowTexts(ps[1..]);
      assert AllPlain(ps[1..]) by {
        forall i | 0 <= i < |ps[1..]| ensures Plain(ps[1..][i]) { assert ps[1..][i] == ps[i + 1]; }
      }
      QuotedRowsSaved(ps[1..]);
      QuotedRow(ps[0]);
      assert RowsSaved(rows) == AsSeq(RowOf(rows[0])) + RowsSaved(rows[1..]);
    }
  }

  /** What re-importing an entry saves: each field still in its quotes. */
  function QuotedRequests(ps: seq<PasswordEntry>): (r: seq<SaveRequest>)
    ensures |r| == |ps|
    ensures forall i :: 0 <= i < |ps| ==>
      r[i] == SaveRequest(Quote(ps[i].url), Quote(ps[i].username), Quote(ps[i].password))
  {
    if ps == [] then []
    else [SaveRequest(Quote(ps[0].url), Quote(ps[0].username), Quote(ps[0].password))] + QuotedRequests(ps[1..])
  }

  /** A quoted field is taken whole: its quotes are not white space. */
  lemma QuotedRow(p: PasswordEntry)
    requires Plain(p)
    ensures RowOf(RowText(p)) == Some(SaveRequest(Quote(p.url), Quote(p.username), Quote(p.password)))
  {
    QuoteFacts(p.url);
    QuoteFacts(p.username);
    QuoteFacts(p.password);
    assert RowText(p) == Quote(p.url) + [','] + Quote(p.username) + [','] + Quote(p.password) + "";
    RowOfFields(Quote(p.url), Quote(p.username), Quote(p.password), None);
  }

  lemma QuoteFacts(s: string)
    requires ',' !in s
    ensures ',' !in Quote(s) && Quote(s) != ""
    ensures Trim(Quote(s)) == Quote(s)
  {
    var q := Quote(s);
    assert q[0] == '"' && q[|q| - 1] == '"';
    assert !IsWhiteSpace('"');
    TrimUntouched(q);
  }

  lemma PrefixKept()
    ensures forall i :: 0 <= i < |DataUriPrefix| ==> Uri.KeptByUri(DataUriPrefix[i])
  {
    var p := DataUriPrefix;
    assert |p| == 28;
    assert p[0] == 'd' && p[1] == 'a' && p[2] == 't' && p[3] == 'a' && p[4] == ':' && p[5] == 't' && p[6] == 'e' && p[7] == 'x' && p[8] == 't' && p[9] == '/' && p[10] == 'c' && p[11] == 's' && p[12] == 'v' && p[13] == ';' && p[14] == 'c' && p[15] == 'h' && p[16] == 'a' && p[17] == 'r' && p[18] == 's' && p[19] == 'e' && p[20] == 't' && p[21] == '=' && p[22] == 'u' && p[23] == 't' && p[24] == 'f' && p[25] == '-' && p[26] == '8' && p[27] == ',';
  }

  /** The link the export downloads: the data-URI prefix and the CSV text,
      passed through encodeURI. The prefix survives encoding unchanged. */
  function ExportUri(ps: seq<PasswordEntry>): (r: string)
    ensures StartsWith(r, DataUriPrefix)
    ensures r == DataUriPrefix + Uri.EncodeURI(ExportCsv(ps))
  {
    PrefixKept();
    Uri.EncodeConcat(DataUriPrefix, ExportCsv(ps), Uri.KeptByUri);
    Uri.EncodeURI(DataUriPrefix + ExportCsv(ps))
  }

  // ---------------------------------------------------------------------
  // Privacy toggles and the password show switch
  // ---------------------------------------------------------------------

  /** updateSettings sends a partial holding exactly the changed key. */
  function SettingsPartial(key: string, value: Json): (p: Settings)
    ensures p.Keys == {key} && p[key] == value
  {
    map[key := value]
  }

  /** Saving a one-key partial changes that key and no other. */
  lemma OneKeySave(s: Settings, key: string, value: Json)
    ensures Merge(s, SettingsPartial(key, value))[key] == value
    ensures forall k :: k in s && k != key ==> Merge(s, SettingsPartial(key, value))[k] == s[k]
    ensures Merge(s, SettingsPartial(key, value)).Keys == s.Keys + {key}
  {
  }

  /** The show switch: pressing it on entry `id` shows that entry when it was
      hidden or another one was shown, and hides it when it was shown. */
  function ToggledShown(shown: Option<int>, id: int): (r: Option<int>)
    ensures r == Some(id) <==> shown != Some(id)
    ensures r == None <==> shown == Some(id)
  {
    if shown == Some(id) then None else Some(id)
  }

  /** Pressing twice on the same entry restores a hidden state, and leaves
      that entry shown when another one was shown before. */
  lemma ToggleTwice(shown: Option<int>, id: int)
    ensures shown == None || shown == Some(id) ==> ToggledShown(ToggledShown(shown, id), id) == shown
    ensures shown.Some? && shown != Some(id) ==> ToggledShown(ToggledShown(shown, id), id) == None
  {
  }

  /** The dialog's state. */
  class ProfileView {
    var doNotTrack: bool
    var httpsOnly: bool
    var statsEnabled: bool
    var passwords: seq<PasswordEntry>
    var shownId: Option<int>

    constructor ()
      ensures doNotTrack && !httpsOnly && statsEnabled
      ensures passwords == [] && shownId == None
    {
      doNotTrack, httpsOnly, statsEnabled := true, false, true;
      passwords := [];
      shownId := None;
    }

    /** The toggle named by `key` follows `value` at once; the store merges
        the one-key partial. */
    method UpdateSettings(store: Store, key: string, value: bool)
      modifies this`doNotTrack, this`httpsOnly, this`statsEnabled, store`currentSettings, store`settingsFile
      ensures doNotTrack == if key == "doNotTrack" then value else old(doNotTrack)
      ensures httpsOnly == if key == "httpsOnly" then value else old(httpsOnly)
      ensures statsEnabled == if key == "statsEnabled" then value else old(statsEnabled)
      ensures store.currentSettings == Merge(old(store.currentSettings), SettingsPartial(key, JBool(value)))
      ensures store.settingsFile == Some(store.currentSettings)
    {
      if key == "doNotTrack" { doNotTrack := value; }
      if key == "httpsOnly" { httpsOnly := value; }
      if key == "statsEnabled" { statsEnabled := value; }
      var _ := store.SaveSettings(SettingsPartial(key, JBool(value)));
    }

    method ToggleShown(id: int)
      modifies this`shownId
      ensures shownId == ToggledShown(old(shownId), id)
    {
      shownId := if shownId == Some(id) then None else Some(id);
    }

    /** One imported row: saved with the id of its position in the import. */
    method SaveRow(store: Store, r: SaveRequest, ghost start: seq<PasswordEntry>, ghost saved: seq<SaveRequest>, ids: nat -> int, k: nat)
      requires k == |saved|
      requires LoadJson(store.passwordsFile, []) == SavedAll(start, saved, ids, 0)
      modifies store`passwordsFile
      ensures LoadJson(store.passwordsFile, []) == SavedAll(start, saved + [r], ids, 0)
    {
      SavedAllSnoc(start, saved, r, ids, 0);
      var _ := store.SavePassword(r.url, r.username, r.password, ids(k));
    }

    /** handleImport: every line after the header is split on commas; each
        complete row is saved, trimmed, with the next id; the count is the
        number of saved rows, and the list is then read back. */
    method Import(store: Store, text: string, ids: nat -> int) returns (count: nat)
      modifies store`passwordsFile, this`passwords
      ensures count == |ImportRequests(text)|
      ensures ImportRequests(text) == [] ==> store.passwordsFile == old(store.passwordsFile)
      ensures LoadJson(store.passwordsFile, []) ==
        SavedAll(LoadJson(old(store.passwordsFile), []), ImportRequests(text), ids, 0)
      ensures passwords == LoadJson(store.passwordsFile, [])
    {
      var lines := Split(text, '\n');
      count := 0;
      ghost var saved: seq<SaveRequest> := [];
      ghost var start := LoadJson(store.passwordsFile, []);
      for i := 1 to |lines|
        invariant saved == RowsSaved(lines[1..i])
        invariant count == |saved|
        invariant saved == [] ==> store.passwordsFile == old(store.passwordsFile)
        invariant LoadJson(store.passwordsFile, []) == SavedAll(start, saved, ids, 0)
      {
        var row := RowOf(lines[i]);
        RowsSavedStep(lines, i);
        if row.Some? {
          var r := row.value;
          SaveRow(store, r, start, saved, ids, count);
          count := count + 1;
          saved := saved + [r];
        }
      }
      assert lines[1..|lines|] == lines[1..];
      passwords := store.GetPasswords();
    }

    /** handleExport: the link for the passwords on screen. */
    method Export() returns (uri: string)
      ensures uri == ExportUri(passwords)
    {
      uri := ExportUri(passwords);
    }
  }
}
