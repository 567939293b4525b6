/** The main process's persistence handlers and request policy: saved
    passwords, privacy settings and visit statistics kept in three JSON
    files, the HTTPS-only rewrite of outgoing requests, and the Do Not Track
    request header (section 5.2 of the W3C Tracking Preference Expression:
    the `DNT` field with the value "1").

    A file is an `Option`: `None` stands for a file that is missing or does
    not parse, and reading it yields the handler's default. */
module Persistence {
  import opened Common

  // ---------------------------------------------------------------------
  // JSON values and settings
  // ---------------------------------------------------------------------

  /** A JSON value as far as the handlers look at it: arrays and objects are
      only ever used as truth values, and they are always true. */
  datatype Json = JNull | JBool(b: bool) | JNum(n: int) | JStr(s: string) | JCompound

  /** A settings object: property name to value. */
  type Settings = map<string, Json>

  /** JavaScript truthiness of a property; `None` is an absent property
      (undefined). */
  predicate Truthy(v: Option<Json>) {
    match v
    case None => false
    case Some(JNull) => false
    case Some(JBool(b)) => b
    case Some(JNum(n)) => n != 0
    case Some(JStr(s)) => s != ""
    case Some(JCompound) => true
  }

  function Get(s: Settings, key: string): Option<Json> {
    if key in s then Some(s[key]) else None
  }

  /** loadJson: the file's contents, or the default when there is none. */
  function LoadJson<T>(file: Option<T>, default: T): T {
    match file
    case None => default
    case Some(v) => v
  }

  /** The settings used when the settings file is missing or unreadable. */
  const DefaultSettings: Settings :=
    map["doNotTrack" := JBool(true), "httpsOnly" := JBool(false), "statsEnabled" := JBool(true)]

  /** settings:save: a shallow merge in which the saved keys override and all
      other keys keep their values. */
  function Merge(current: Settings, partial: Settings): (r: Settings)
    ensures r.Keys == current.Keys + partial.Keys
    ensures forall k :: k in partial ==> r[k] == partial[k]
    ensures forall k :: k in current && k !in partial ==> r[k] == current[k]
  {
    current + partial
  }

  /** Saving an empty partial changes nothing. */
  lemma MergeEmpty(s: Settings)
    ensures Merge(s, map[]) == s
  {
  }

  /** Saving the same partial twice is saving it once. */
  lemma MergeIdempotent(s: Settings, p: Settings)
    ensures Merge(Merge(s, p), p) == Merge(s, p)
  {
  }

  /** Two saves in a row are one save of the merged partials. */
  lemma MergeTwice(s: Settings, p: Settings, q: Settings)
    ensures Merge(Merge(s, p), q) == Merge(s, Merge(p, q))
  {
  }

  /** Without a settings file, requests are not redirected, Do Not Track is
      sent and visits are recorded. */
  lemma DefaultsPolicy(url: string, headers: map<string, string>)
    ensures LoadJson(None, DefaultSettings) == DefaultSettings
    ensures RedirectFor(DefaultSettings, url) == None
    ensures HeadersFor(DefaultSettings, headers) == headers["DNT" := "1"]
    ensures Truthy(Get(DefaultSettings, "statsEnabled"))
  {
  }

  // ---------------------------------------------------------------------
  // Request policy
  // ---------------------------------------------------------------------

  /** The replacement of a leading "http://", in any letter case, by
      "https://"; the rest of the url is kept. */
  function UpgradeToHttps(url: string): (r: string)
    ensures |url| >= 7 && ToLower(url[..7]) == "http://" ==> r == "https://" + url[7..]
    ensures !(|url| >= 7 && ToLower(url[..7]) == "http://") ==> r == url
  {
    if |url| >= 7 && ToLower(url[..7]) == "http://" then "https://" + url[7..] else url
  }

  /** An upgraded url is not upgraded again. */
  lemma UpgradeIdempotent(url: string)
    ensures UpgradeToHttps(UpgradeToHttps(url)) == UpgradeToHttps(url)
  {
    var r := UpgradeToHttps(url);
    if |url| >= 7 && ToLower(url[..7]) == "http://" {
      assert r[4] == 's';
      assert ToLower(r[..7])[4] == 's';
    }
  }

  /** The HTTPS-only handler for a plain-http request: a redirect to the
      upgraded url when `httpsOnly` is set, no redirect otherwise. */
  function RedirectFor(s: Settings, url: string): (r: Option<string>)
    ensures r.Some? <==> Truthy(Get(s, "httpsOnly"))
    ensures r.Some? && StartsWith(url, "http://") ==> r.value == "https://" + url[7..]
    ensures r.Some? && StartsWith(url, "HTTP://") ==> r.value == "https://" + url[7..]
    ensures r.Some? ==> r.value == UpgradeToHttps(url)
    ensures r.Some? && |url| >= 7 && ToLower(url[..7]) == "http://" ==> r.value == "https://" + url[7..]
    ensures r.Some? && !(|url| >= 7 && ToLower(url[..7]) == "http://") ==> r.value == url
  {
    if Truthy(Get(s, "httpsOnly")) then
      assert StartsWith(url, "http://") ==> ToLower(url[..7]) == "http://" by {
        if StartsWith(url, "http://") { LowerLiteral(url[..7]); }
      }
      assert StartsWith(url, "HTTP://") ==> ToLower(url[..7]) == "http://" by {
        if StartsWith(url, "HTTP://") { UpperLiteral(url[..7]); }
      }
      Some(UpgradeToHttps(url))
    else None
  }

  lemma LowerLiteral(p: string)
    requires p == "http://"
    ensures ToLower(p) == "http://"
  {
    var l := ToLower(p);
    assert l[0] == 'h' && l[1] == 't' && l[2] == 't' && l[3] == 'p' && l[4] == ':' && l[5] == '/' && l[6] == '/';
  }

  lemma UpperLiteral(p: string)
    requires p == "HTTP://"
    ensures ToLower(p) == "http://"
  {
    var l := ToLower(p);
    assert l[0] == 'h' && l[1] == 't' && l[2] == 't' && l[3] == 'p' && l[4] == ':' && l[5] == '/' && l[6] == '/';
  }

  /** The Do Not Track handler: with `doNotTrack` set the `DNT` header is "1"
      and every other header is kept; otherwise the headers pass unchanged. */
  function HeadersFor(s: Settings, headers: map<string, string>): (r: map<string, string>)
    ensures Truthy(Get(s, "doNotTrack")) ==> "DNT" in r && r["DNT"] == "1" && r.Keys == headers.Keys + {"DNT"}
    ensures !Truthy(Get(s, "doNotTrack")) ==> r == headers
    ensures forall k :: k in headers && k != "DNT" ==> k in r && r[k] == headers[k]
  {
    if Truthy(Get(s, "doNotTrack")) then headers["DNT" := "1"] else headers
  }

  // ---------------------------------------------------------------------
  // Passwords
  // ---------------------------------------------------------------------

  datatype PasswordEntry = PasswordEntry(id: int, url: string, username: string, password: string)

  /** findIndex by (url, username): the first entry for that account. */
  function FindAccount(ps: seq<PasswordEntry>, url: string, username: string): (r: Option<nat>)
    ensures r.Some? ==> r.value < |ps| && ps[r.value].url == url && ps[r.value].username == username
    ensures r.Some? ==> forall j :: 0 <= j < r.value ==> !(ps[j].url == url && ps[j].username == username)
    ensures r.None? ==> forall j :: 0 <= j < |ps| ==> !(ps[j].url == url && ps[j].username == username)
  {
    if ps == [] then None
    else if ps[0].url == url && ps[0].username == username then Some(0)
    else
      match FindAccount(ps[1..], url, username)
      case None => None
      case Some(k) => Some(k + 1)
  }

  /** passwords:save. A known account has only the password of its first
      entry replaced (id, position and count kept); a new account is
      appended as one entry with the fresh id. */
  function Upserted(ps: seq<PasswordEntry>, url: string, username: string, password: string, freshId: int): (r: seq<PasswordEntry>)
    ensures FindAccount(ps, url, username).Some? ==>
      var k := FindAccount(ps, url, username).value;
      |r| == |ps| && r[k] == ps[k].(password := password) &&
      forall j :: 0 <= j < |ps| && j != k ==> r[j] == ps[j]
    ensures FindAccount(ps, url, username).None? ==>
      |r| == |ps| + 1 && r[..|ps|] == ps && r[|ps|] == PasswordEntry(freshId, url, username, password)
  {
    match FindAccount(ps, url, username)
    case Some(k) => ps[k := ps[k].(password := password)]
    case None => ps + [PasswordEntry(freshId, url, username, password)]
  }

  /** The password stored for an account: that of its first entry. */
  function PasswordOf(ps: seq<PasswordEntry>, url: string, username: string): Option<string> {
    match FindAccount(ps, url, username)
    case None => None
    case Some(k) => Some(ps[k].password)
  }

  /** After a save the account's password is the saved one, and every other
      account keeps its password. */
  lemma UpsertThenLookup(ps: seq<PasswordEntry>, url: string, username: string, password: string,
                         freshId: int, url': string, username': string)
    ensures PasswordOf(Upserted(ps, url, username, password, freshId), url, username) == Some(password)
    ensures (url', username') != (url, username) ==>
      PasswordOf(Upserted(ps, url, username, password, freshId), url', username') == PasswordOf(ps, url', username')
  {
    var r := Upserted(ps, url, username, password, freshId);
    if (url', username') != (url, username) {
      match FindAccount(ps, url', username')
      case Some(j) =>
        assert FindAccount(r, url', username') == Some(j);
      case None =>
        assert FindAccount(r, url', username') == None;
    }
  }

  /** Saving the same credentials again changes nothing. */
  lemma UpsertIdempotent(ps: seq<PasswordEntry>, url: string, username: string, password: string,
                         freshId: int, freshId': int)
    ensures Upserted(Upserted(ps, url, username, password, freshId), url, username, password, freshId')
         == Upserted(ps, url, username, password, freshId)
  {
  }

  function OtherEntryId(id: int): PasswordEntry -> bool {
    (p: PasswordEntry) => p.id != id
  }

  /** passwords:delete: exactly the entries carrying the id are removed and
      the others are kept; an id no entry carries changes nothing. */
  function Deleted(ps: seq<PasswordEntry>, id: int): (r: seq<PasswordEntry>)
    ensures forall i :: 0 <= i < |r| ==> r[i] in ps && r[i].id != id
    ensures forall i :: 0 <= i < |ps| && ps[i].id != id ==> ps[i] in r
    ensures (forall i :: 0 <= i < |ps| ==> ps[i].id != id) ==> r == ps
  {
    if forall i :: 0 <= i < |ps| ==> ps[i].id != id then
      FilterKeepsAll(ps, OtherEntryId(id));
      Filter(ps, OtherEntryId(id))
    else Filter(ps, OtherEntryId(id))
  }

  /** Deleting keeps the order of what is left: deleting from a concatenation
      deletes from each part. */
  lemma DeleteKeepsOrder(a: seq<PasswordEntry>, b: seq<PasswordEntry>, id: int)
    ensures Deleted(a + b, id) == Deleted(a, id) + Deleted(b, id)
  {
    FilterConcat(a, b, OtherEntryId(id));
  }

  /** Deleting the entry a save has just added, under an id no other entry
      carries, restores the list. */
  lemma DeleteUndoesNewSave(ps: seq<PasswordEntry>, url: string, username: string, password: string, freshId: int)
    requires FindAccount(ps, url, username).None?
    requires forall i :: 0 <= i < |ps| ==> ps[i].id != freshId
    ensures Deleted(Upserted(ps, url, username, password, freshId), freshId) == ps
  {
    var x := PasswordEntry(freshId, url, username, password);
    assert Upserted(ps, url, username, password, freshId) == ps + [x];
    DeleteKeepsOrder(ps, [x], freshId);
    FilterSingleton(x, OtherEntryId(freshId));
  }

  // ---------------------------------------------------------------------
  // Visit statistics
  // ---------------------------------------------------------------------

  /** One row of visit statistics; `lastVisit` is a timestamp. */
  datatype StatsEntry = StatsEntry(domain: string, visits: int, lastVisit: int, time: string)

  function Domains(s: seq<StatsEntry>): set<string> {
    set e | e in s :: e.domain
  }

  predicate UniqueDomains(s: seq<StatsEntry>) {
    forall i, j :: 0 <= i < j < |s| ==> s[i].domain != s[j].domain
  }

  /** Ordered by visits, most visited first. */
  predicate NonIncreasing(s: seq<StatsEntry>) {
    forall i, j :: 0 <= i < j < |s| ==> s[i].visits >= s[j].visits
  }

  function HasVisits(v: int): StatsEntry -> bool {
    (e: StatsEntry) => e.visits == v
  }

  /** find by domain: the first entry for the domain. */
  function FindDomain(s: seq<StatsEntry>, d: string): (r: Option<nat>)
    ensures r.Some? ==> r.value < |s| && s[r.value].domain == d
    ensures r.Some? ==> forall j :: 0 <= j < r.value ==> s[j].domain != d
    ensures r.None? <==> d !in Domains(s)
  {
    if s == [] then None
    else if s[0].domain == d then Some(0)
    else
      match FindDomain(s[1..], d)
      case None =>
        assert s == [s[0]] + s[1..];
        None
      case Some(k) => Some(k + 1)
  }

  /** The visit count recorded for a domain, 0 when it has no entry. */
  function VisitsOf(s: seq<StatsEntry>, d: string): int {
    match FindDomain(s, d)
    case None => 0
    case Some(k) => s[k].visits
  }

  /** With unique domains, the count of a domain is that of its entry. */
  lemma VisitsOfEntry(s: seq<StatsEntry>, e: StatsEntry)
    requires UniqueDomains(s) && e in s
    ensures VisitsOf(s, e.domain) == e.visits
  {
    var i :| 0 <= i < |s| && s[i] == e;
    assert e.domain in Domains(s);
  }

  /** The increment-or-insert step: the first entry of the domain has one
      more visit and the new timestamp; without one, an entry with one visit
      and time "0m" is appended. */
  function Bumped(s: seq<StatsEntry>, d: string, now: int): (r: seq<StatsEntry>)
    ensures FindDomain(s, d).Some? ==>
      var k := FindDomain(s, d).value;
      |r| == |s| && r[k] == s[k].(visits := s[k].visits + 1, lastVisit := now) &&
      forall j :: 0 <= j < |s| && j != k ==> r[j] == s[j]
    ensures FindDomain(s, d).None? ==>
      r == s + [StatsEntry(d, 1, now, "0m")]
  {
    match FindDomain(s, d)
    case Some(k) => s[k := s[k].(visits := s[k].visits + 1, lastVisit := now)]
    case None => s + [StatsEntry(d, 1, now, "0m")]
  }

  /** The step keeps domains unique, adds the domain, adds one visit to it and
      leaves every other domain's count alone. */
  lemma BumpedCounts(s: seq<StatsEntry>, d: string, now: int, d': string)
    requires UniqueDomains(s)
    ensures var r := Bumped(s, d, now);
      UniqueDomains(r) && Domains(r) == Domains(s) + {d} &&
      VisitsOf(r, d) == VisitsOf(s, d) + 1 &&
      (d' != d ==> VisitsOf(r, d') == VisitsOf(s, d'))
  {
    match FindDomain(s, d)
    case Some(k) => BumpedExisting(s, d, now, d', k);
    case None => BumpedNew(s, d, now, d');
  }

  /** The case of a domain that already has an entry. */
  lemma BumpedExisting(s: seq<StatsEntry>, d: string, now: int, d': string, k: nat)
    requires UniqueDomains(s) && FindDomain(s, d) == Some(k)
    ensures var r := Bumped(s, d, now);
      UniqueDomains(r) && Domains(r) == Domains(s) + {d} &&
      VisitsOf(r, d) == VisitsOf(s, d) + 1 &&
      (d' != d ==> VisitsOf(r, d') == VisitsOf(s, d'))
  {
    var r := Bumped(s, d, now);
    var y := s[k].(visits := s[k].visits + 1, lastVisit := now);
    assert y.domain == d;
    assert r == s[k := y];
    UpdatedInPlace(s, k, y, d');
    assert VisitsOf(r, d) == y.visits == VisitsOf(s, d) + 1;
  }

  /** Replacing one entry by another for the same domain. */
  lemma UpdatedInPlace(s: seq<StatsEntry>, k: nat, y: StatsEntry, d': string)
    requires UniqueDomains(s) && k < |s| && y.domain == s[k].domain
    ensures UniqueDomains(s[k := y]) && Domains(s[k := y]) == Domains(s)
    ensures VisitsOf(s[k := y], y.domain) == y.visits
    ensures VisitsOf(s, y.domain) == s[k].visits
    ensures d' != y.domain ==> VisitsOf(s[k := y], d') == VisitsOf(s, d')
  {
    var r := s[k := y];
    assert forall j :: 0 <= j < |s| ==> r[j].domain == s[j].domain;
    assert Domains(r) == Domains(s) by {
      forall x | x in Domains(r) ensures x in Domains(s) {
        var e :| e in r && e.domain == x;
        var j :| 0 <= j < |r| && r[j] == e;
        assert s[j] in s;
      }
      forall x | x in Domains(s) ensures x in Domains(r) {
        var e :| e in s && e.domain == x;
        var j :| 0 <= j < |s| && s[j] == e;
        assert r[j] in r;
      }
    }
    assert r[k] in r;
    VisitsOfEntry(r, r[k]);
    assert s[k] in s;
    VisitsOfEntry(s, s[k]);
    if d' != y.domain && d' in Domains(s) {
      var e :| e in s && e.domain == d';
      var j :| 0 <= j < |s| && s[j] == e;
      assert r[j] == e;
      VisitsOfEntry(s, e);
      VisitsOfEntry(r, e);
    }
  }

  /** The case of a domain without an entry. */
  lemma BumpedNew(s: seq<StatsEntry>, d: string, now: int, d': string)
    requires UniqueDomains(s) && FindDomain(s, d).None?
    ensures var r := Bumped(s, d, now);
      UniqueDomains(r) && Domains(r) == Domains(s) + {d} &&
      VisitsOf(r, d) == VisitsOf(s, d) + 1 &&
      (d' != d ==> VisitsOf(r, d') == VisitsOf(s, d'))
  {
    var x := StatsEntry(d, 1, now, "0m");
    assert Bumped(s, d, now) == s + [x];
    AppendedFresh(s, x, d');
  }

  /** Appending an entry for a domain not yet present. */
  lemma AppendedFresh(s: seq<StatsEntry>, x: StatsEntry, d': string)
    requires UniqueDomains(s) && x.domain !in Domains(s)
    ensures UniqueDomains(s + [x]) && Domains(s + [x]) == Domains(s) + {x.domain}
    ensures VisitsOf(s + [x], x.domain) == x.visits
    ensures d' != x.domain ==> VisitsOf(s + [x], d') == VisitsOf(s, d')
  {
    var r := s + [x];
    assert forall j :: 0 <= j < |s| ==> r[j] == s[j];
    assert r[|s|] == x;
    assert forall j :: 0 <= j < |s| ==> s[j].domain != x.domain by {
      forall j | 0 <= j < |s| ensures s[j].domain != x.domain { assert s[j] in s; }
    }
    assert Domains(r) == Domains(s) + {x.domain};
    assert x in r;
    VisitsOfEntry(r, x);
    if d' != x.domain && d' in Domains(s) {
      var e :| e in s && e.domain == d';
      assert e in r;
      VisitsOfEntry(s, e);
      VisitsOfEntry(r, e);
    }
  }

  /** One step of the stable sort: `x` goes before the first entry with no
      more visits than it has. */
  function Insert(x: StatsEntry, s: seq<StatsEntry>): (r: seq<StatsEntry>)
    ensures |r| == |s| + 1
    ensures multiset(r) == multiset(s) + multiset{x}
  {
    if s == [] || x.visits >= s[0].visits then [x] + s
    else
      assert s == [s[0]] + s[1..];
      [s[0]] + Insert(x, s[1..])
  }

  lemma {:induction false} InsertSorted(x: StatsEntry, s: seq<StatsEntry>)
    requires NonIncreasing(s)
    ensures NonIncreasing(Insert(x, s))
  {
    if s != [] && x.visits < s[0].visits {
      InsertSorted(x, s[1..]);
      var rest := Insert(x, s[1..]);
      forall j | 0 <= j < |rest| ensures s[0].visits >= rest[j].visits {
        assert rest[j] in multiset(rest);
        if rest[j] != x {
          var i :| 0 <= i < |s[1..]| && s[1..][i] == rest[j];
          assert s[i + 1] == rest[j];
        }
      }
      var r := [s[0]] + rest;
      assert forall j :: 0 < j < |r| ==> r[j] == rest[j - 1];
    }
  }

  /** stats.sort by descending visits, a stable sort: entries with the same
      number of visits keep their relative order. */
  function SortByVisits(s: seq<StatsEntry>): (r: seq<StatsEntry>)
    ensures |r| == |s|
    ensures multiset(r) == multiset(s)
    ensures NonIncreasing(r)
  {
    if s == [] then []
    else
      assert s == [s[0]] + s[1..];
      InsertSorted(s[0], SortByVisits(s[1..]));
      Insert(s[0], SortByVisits(s[1..]))
  }

  lemma {:induction false} InsertStable(x: StatsEntry, s: seq<StatsEntry>, v: int)
    ensures Filter(Insert(x, s), HasVisits(v)) == Filter([x], HasVisits(v)) + Filter(s, HasVisits(v))
  {
    var p := HasVisits(v);
    if s == [] || x.visits >= s[0].visits {
      FilterConcat([x], s, p);
    } else {
      var t := s[1..];
      var it := Insert(x, t);
      var pre := if p(s[0]) then [s[0]] else [];
      var fx := Filter([x], p);
      assert s == [s[0]] + t;
      assert Insert(x, s) == [s[0]] + it;
      InsertStable(x, t, v);
      FilterCons(s[0], it, p);
      FilterCons(s[0], t, p);
      FilterSingleton(x, p);
      // x has fewer visits than s[0], so at most one of them has v
      assert pre == [] || fx == [];
      SwapEmpty(pre, fx, Filter(t, p));
    }
  }

  lemma SwapEmpty<T>(a: seq<T>, b: seq<T>, c: seq<T>)
    requires a == [] || b == []
    ensures a + (b + c) == b + (a + c)
  {
  }

  /** Ties keep their prior order: for every visit count, the entries having
      it appear in the sorted list exactly as they did before. */
  lemma {:induction false} SortIsStable(s: seq<StatsEntry>, v: int)
    ensures Filter(SortByVisits(s), HasVisits(v)) == Filter(s, HasVisits(v))
  {
    if s != [] {
      SortIsStable(s[1..], v);
      InsertStable(s[0], SortByVisits(s[1..]), v);
      FilterConcat([s[0]], s[1..], HasVisits(v));
      assert s == [s[0]] + s[1..];
    }
  }

  /** An entry of the tail's insertion is `x` or an entry of the tail. */
  lemma InsertedMember(x: StatsEntry, s: seq<StatsEntry>, e: StatsEntry)
    requires s != [] && e in Insert(x, s[1..])
    ensures e == x || exists i :: 1 <= i < |s| && s[i] == e
  {
    assert e in multiset(Insert(x, s[1..]));
    if e != x {
      assert e in multiset(s[1..]);
      var i :| 0 <= i < |s[1..]| && s[1..][i] == e;
      assert s[i + 1] == e;
    }
  }

  lemma {:induction false} InsertUnique(x: StatsEntry, s: seq<StatsEntry>)
    requires UniqueDomains(s) && x.domain !in Domains(s)
    ensures UniqueDomains(Insert(x, s))
  {
    if s == [] || x.visits >= s[0].visits {
      var r := [x] + s;
      forall j | 0 < j < |r| ensures r[j].domain != x.domain {
        assert r[j] in s;
      }
    } else {
      assert s[0] in s;
      assert Domains(s[1..]) <= Domains(s) by {
        forall y | y in Domains(s[1..]) ensures y in Domains(s) {
          var e :| e in s[1..] && e.domain == y;
          assert e in s;
        }
      }
      InsertUnique(x, s[1..]);
      var rest := Insert(x, s[1..]);
      var r := [s[0]] + rest;
      forall j | 0 <= j < |rest| ensures rest[j].domain != s[0].domain {
        InsertedMember(x, s, rest[j]);
        if rest[j] != x {
          var i :| 1 <= i < |s| && s[i] == rest[j];
        }
      }
      assert forall j :: 0 < j < |r| ==> r[j] == rest[j - 1];
    }
  }

  /** Sorting keeps the entries, so it keeps the domains unique. */
  lemma {:induction false} SortKeepsDomains(s: seq<StatsEntry>)
    requires UniqueDomains(s)
    ensures UniqueDomains(SortByVisits(s)) && Domains(SortByVisits(s)) == Domains(s)
  {
    var r := SortByVisits(s);
    assert forall e :: e in r <==> e in s by {
      forall e ensures e in r <==> e in s {
        assert e in r <==> e in multiset(r);
        assert e in s <==> e in multiset(s);
      }
    }
    if s != [] {
      SortKeepsDomains(s[1..]);
      assert s[0].domain !in Domains(s[1..]);
      InsertUnique(s[0], SortByVisits(s[1..]));
    }
  }

  /** stats:record with statistics enabled: increment or insert, then sort. */
  function Recorded(s: seq<StatsEntry>, d: string, now: int): (r: seq<StatsEntry>)
    ensures NonIncreasing(r)
    ensures multiset(r) == multiset(Bumped(s, d, now))
  {
    SortByVisits(Bumped(s, d, now))
  }

  /** Recording a visit keeps domains unique, adds the domain, adds exactly
      one visit to its count and leaves every other domain's count alone. */
  lemma RecordCounts(s: seq<StatsEntry>, d: string, now: int, d': string)
    requires UniqueDomains(s)
    ensures var r := Recorded(s, d, now);
      UniqueDomains(r) && Domains(r) == Domains(s) + {d} &&
      VisitsOf(r, d) == VisitsOf(s, d) + 1 &&
      (d' != d ==> VisitsOf(r, d') == VisitsOf(s, d'))
  {
    var b := Bumped(s, d, now);
    BumpedCounts(s, d, now, d');
    SortKeepsDomains(b);
    SamePermutationCounts(b, Recorded(s, d, now), d);
    SamePermutationCounts(b, Recorded(s, d, now), d');
  }

  /** Two lists with the same entries and unique domains give every domain
      the same count. */
  lemma SamePermutationCounts(a: seq<StatsEntry>, b: seq<StatsEntry>, d: string)
    requires multiset(a) == multiset(b) && UniqueDomains(a) && UniqueDomains(b)
    ensures VisitsOf(a, d) == VisitsOf(b, d)
  {
    assert forall e :: e in a <==> e in b by {
      forall e ensures e in a <==> e in b {
        assert e in a <==> e in multiset(a);
        assert e in b <==> e in multiset(b);
      }
    }
    assert Domains(a) == Domains(b);
    match FindDomain(a, d)
    case Some(k) =>
      assert a[k] in a;
      VisitsOfEntry(b, a[k]);
    case None =>
  }

  /** Two records of a domain that had no entry leave it with two visits. */
  lemma TwoRecordsOfNewDomain(s: seq<StatsEntry>, d: string, t1: int, t2: int)
    requires UniqueDomains(s) && d !in Domains(s)
    ensures VisitsOf(Recorded(Recorded(s, d, t1), d, t2), d) == 2
  {
    RecordCounts(s, d, t1, d);
    RecordCounts(Recorded(s, d, t1), d, t2, d);
  }

  // ---------------------------------------------------------------------
  // The main process's state
  // ---------------------------------------------------------------------

  /** The three files and the settings the request handlers read from
      memory. */
  class Store {
    var passwordsFile: Option<seq<PasswordEntry>>
    var settingsFile: Option<Settings>
    var statsFile: Option<seq<StatsEntry>>
    var currentSettings: Settings

    /** At start-up the settings file is read once, the defaults standing in
        for a missing or unreadable one. */
    constructor (passwords: Option<seq<PasswordEntry>>, settings: Option<Settings>, stats: Option<seq<StatsEntry>>)
      ensures passwordsFile == passwords && settingsFile == settings && statsFile == stats
      ensures settings.Some? ==> currentSettings == settings.value
      ensures settings.None? ==> currentSettings == DefaultSettings
    {
      passwordsFile := passwords;
      settingsFile := settings;
      statsFile := stats;
      currentSettings := LoadJson(settings, DefaultSettings);
    }

    /** passwords:get-all: the saved list, empty without a file. */
    method GetPasswords() returns (ps: seq<PasswordEntry>)
      ensures passwordsFile.None? ==> ps == []
      ensures passwordsFile.Some? ==> ps == passwordsFile.value
    {
      ps := LoadJson(passwordsFile, []);
    }

    /** passwords:save: the list read back is `Upserted` of the list read
        before. */
    method SavePassword(url: string, username: string, password: string, freshId: int) returns (ok: bool)
      modifies this`passwordsFile
      ensures ok
      ensures passwordsFile == Some(Upserted(LoadJson(old(passwordsFile), []), url, username, password, freshId))
    {
      var ps := LoadJson(passwordsFile, []);
      var idx := FindAccount(ps, url, username);
      if idx.Some? {
        var k := idx.value;
        ps := ps[k := ps[k].(password := password)];
      } else {
        ps := ps + [PasswordEntry(freshId, url, username, password)];
      }
      passwordsFile := Some(ps);
      ok := true;
    }

    /** passwords:delete. */
    method DeletePassword(id: int) returns (ok: bool)
      modifies this`passwordsFile
      ensures ok
      ensures passwordsFile == Some(Deleted(LoadJson(old(passwordsFile), []), id))
    {
      var ps := LoadJson(passwordsFile, []);
      passwordsFile := Some(Deleted(ps, id));
      ok := true;
    }

    /** settings:get answers from memory, not from the file. */
    method GetSettings() returns (s: Settings)
      ensures s == currentSettings
    {
      s := currentSettings;
    }

    /** settings:save: the merged settings are kept in memory and written. */
    method SaveSettings(partial: Settings) returns (ok: bool)
      modifies this`currentSettings, this`settingsFile
      ensures ok
      ensures currentSettings == Merge(old(currentSettings), partial)
      ensures settingsFile == Some(currentSettings)
    {
      currentSettings := currentSettings + partial;
      settingsFile := Some(currentSettings);
      ok := true;
    }

    /** stats:get: the saved statistics, empty without a file. */
    method GetStats() returns (s: seq<StatsEntry>)
      ensures statsFile.None? ==> s == []
      ensures statsFile.Some? ==> s == statsFile.value
    {
      s := LoadJson(statsFile, []);
    }

    /** stats:record: refused, with nothing written, while statistics are
        disabled; otherwise the file holds `Recorded` of what it held. */
    method RecordVisit(domain: string, now: int) returns (ok: bool)
      modifies this`statsFile
      ensures ok == Truthy(Get(currentSettings, "statsEnabled"))
      ensures !ok ==> statsFile == old(statsFile)
      ensures ok ==> statsFile == Some(Recorded(LoadJson(old(statsFile), []), domain, now))
    {
      if !Truthy(Get(currentSettings, "statsEnabled")) {
        return false;
      }
      var stats := LoadJson(statsFile, []);
      ghost var read := stats;
      var idx := FindDomain(stats, domain);
      if idx.Some? {
        var k := idx.value;
        stats := stats[k := stats[k].(visits := stats[k].visits + 1, lastVisit := now)];
      } else {
        stats := stats + [StatsEntry(domain, 1, now, "0m")];
      }
      assert stats == Bumped(read, domain, now);
      stats := SortByVisits(stats);
      statsFile := Some(stats);
      ok := true;
    }

    /** The HTTPS-only request handler, reading the settings in memory. */
    method BeforeRequest(url: string) returns (redirect: Option<string>)
      ensures redirect == RedirectFor(currentSettings, url)
    {
      if Truthy(Get(currentSettings, "httpsOnly")) {
        redirect := Some(UpgradeToHttps(url));
      } else {
        redirect := None;
      }
    }

    /** The Do Not Track request handler, reading the settings in memory. */
    method BeforeSendHeaders(headers: map<string, string>) returns (sent: map<string, string>)
      ensures sent == HeadersFor(currentSettings, headers)
    {
      sent := headers;
      if Truthy(Get(currentSettings, "doNotTrack")) {
        sent := sent["DNT" := "1"];
      }
    }
  }
}
