/**
 * Cookie migration between two cookie stores: the domain `moveDomainCookiesToStore`
 * queries, the `cookies.set` / `cookies.remove` parameters it issues per cookie, and
 * what the browser's stores look like once those calls have been applied.
 */
module Cookies {
  import opened Wrappers
  import opened Strings

  type StoreId = string

  /** The ambient cookie store of normal browsing; the extension's own queries read it. */
  const FIREFOX_DEFAULT_COOKIE_STORE: StoreId := "firefox-default"
  const HTTPS: string := "https://"

  datatype Cookie = Cookie(name: string, value: string, domain: string, hostOnly: bool, path: string,
                           secure: bool, httpOnly: bool, firstPartyDomain: string,
                           expirationDate: Option<real>)

  /** A store holds at most one cookie per name, domain and path. */
  function KeyOf(c: Cookie): (string, string, string)
  {
    (c.name, c.domain, c.path)
  }

  // ---------------------------------------------------------------------------------------
  // Domain derivation: the host name's labels from the third one on, re-joined with dots

  /** `labels.slice(2)`: everything from index 2 on, empty when there are at most two labels. */
  function DropFirstTwo(labels: seq<string>): seq<string>
  {
    if |labels| <= 2 then [] else labels[2..]
  }

  /** The domain whose cookies are moved for a request to `hostname`. */
  function DomainAndTld(hostname: string): string
  {
    Join(DropFirstTwo(Split(hostname)))
  }

  /** The derivation drops exactly the first two labels and keeps the rest verbatim. */
  lemma DomainAndTldDropsTwoLabels(first: string, second: string, rest: string)
    requires '.' !in first && '.' !in second
    ensures DomainAndTld(first + "." + second + "." + rest) == rest
  {
    assert first + "." + second + "." + rest == first + "." + (second + "." + rest);
    SplitAtFirstDot(first, second + "." + rest);
    SplitAtFirstDot(second, rest);
    assert Split(first + "." + second + "." + rest) == [first, second] + Split(rest);
    JoinSplit(rest);
  }

  /** A host name of one or two labels yields the empty domain. */
  lemma DomainAndTldOfShortHost(first: string, second: string)
    requires '.' !in first && '.' !in second
    ensures DomainAndTld(first) == ""
    ensures DomainAndTld(first + "." + second) == ""
  {
    SplitDotFree(first);
    SplitAtFirstDot(first, second);
    SplitDotFree(second);
  }

  /** Not "the last two labels": a three-label host keeps only its top-level label. */
  lemma DomainAndTldExamples()
    ensures DomainAndTld("auth.mozilla.auth0.com") == "auth0.com"
    ensures DomainAndTld("auth.mozilla.com") == "com"
  {
    assert '.' !in "auth" && '.' !in "mozilla";
    assert "auth.mozilla.auth0.com" == "auth" + "." + "mozilla" + "." + "auth0.com";
    DomainAndTldDropsTwoLabels("auth", "mozilla", "auth0.com");
    assert "auth.mozilla.com" == "auth" + "." + "mozilla" + "." + "com";
    DomainAndTldDropsTwoLabels("auth", "mozilla", "com");
  }

  /**
   * For a three-label login host such as `auth.mozilla.com` the query domain is the bare
   * top-level label (`com`), which the cookies of every site under it match: a cookie of an
   * unrelated site such as `www.example.com` is moved too.
   */
  lemma ThreeLabelHostMatchesWholeTld(first: string, second: string, tld: string, site: string)
    requires '.' !in first && '.' !in second
    requires site != [] && site[0] != '.'
    ensures DomainMatches(site + "." + tld, DomainAndTld(first + "." + second + "." + tld))
  {
    DomainAndTldDropsTwoLabels(first, second, tld);
    assert site + "." + tld == site + ("." + tld);
    EndsWithAppended(site, "." + tld);
  }

  // ---------------------------------------------------------------------------------------
  // URLs built for a cookie and the host the browser reads back from them

  /** Characters that end the host part of a URL. */
  predicate IsHostEnd(ch: char)
  {
    ch == '/' || ch == '?' || ch == '#' || ch == ':'
  }

  predicate ValidHost(h: string)
  {
    forall i :: 0 <= i < |h| ==> !IsHostEnd(h[i])
  }

  /** The longest prefix of `s` that stops before the first host-ending character. */
  function HostPrefix(s: string): string
  {
    if s == [] || IsHostEnd(s[0]) then [] else [s[0]] + HostPrefix(s[1..])
  }

  /** The host of an `https://` URL; every URL this model builds has that scheme. */
  function UrlHost(url: string): string
  {
    if |HTTPS| <= |url| && url[..|HTTPS|] == HTTPS then HostPrefix(url[|HTTPS|..]) else []
  }

  /** The rest of `s` from the first host-ending character on. */
  function AfterHost(s: string): string
  {
    if s == [] || IsHostEnd(s[0]) then s else AfterHost(s[1..])
  }

  /**
   * The path of an `https://` URL: what follows its host. The URLs this model builds carry no
   * port, query or fragment.
   */
  function UrlPath(url: string): string
  {
    if |HTTPS| <= |url| && url[..|HTTPS|] == HTTPS then AfterHost(url[|HTTPS|..]) else []
  }

  /** The URL both calls of the move loop pass: the cookie's domain between `https://` and `/`. */
  function CookieUrl(domain: string): string
  {
    HTTPS + domain + "/"
  }

  lemma {:induction false} HostPrefixStops(h: string, t: string)
    requires ValidHost(h) && |t| > 0 && IsHostEnd(t[0])
    ensures HostPrefix(h + t) == h
    ensures AfterHost(h + t) == t
    decreases |h|
  {
    if h == [] {
      assert h + t == t;
    } else {
      assert (h + t)[1..] == h[1..] + t;
      assert ValidHost(h[1..]) by {
        forall i | 0 <= i < |h[1..]| ensures !IsHostEnd(h[1..][i]) { assert h[1..][i] == h[i + 1]; }
      }
      HostPrefixStops(h[1..], t);
      assert [h[0]] + h[1..] == h;
    }
  }

  /** The browser reads the cookie's own domain back out of the URL built for it, with path `/`. */
  lemma UrlHostOfCookieUrl(domain: string)
    requires ValidHost(domain)
    ensures UrlHost(CookieUrl(domain)) == domain
    ensures UrlPath(CookieUrl(domain)) == "/"
  {
    var url := CookieUrl(domain);
    assert url[..|HTTPS|] == HTTPS;
    assert url[|HTTPS|..] == domain + "/";
    HostPrefixStops(domain, "/");
  }

  // ---------------------------------------------------------------------------------------
  // Which cookies a query returns and to which hosts a cookie applies

  /** A cookie's domain without the leading dot that marks a domain cookie. */
  function RawHost(domain: string): string
  {
    if |domain| > 0 && domain[0] == '.' then domain[1..] else domain
  }

  /** `cookies.getAll({domain})` returns the cookies whose domain is `domain` or one of its subdomains. */
  predicate DomainMatches(cookieDomain: string, domain: string)
  {
    var raw := RawHost(cookieDomain);
    raw == domain || EndsWith(raw, "." + domain)
  }

  /** A host-only cookie is sent only to its own host; a domain cookie also to subdomains. */
  predicate AppliesTo(c: Cookie, host: string)
  {
    if c.hostOnly then host == c.domain else DomainMatches(host, RawHost(c.domain))
  }

  /**
   * Path matching of section 5.1.4 of RFC 6265: the request path is the cookie path, or
   * extends it at a `/`.
   */
  predicate PathMatches(cookiePath: string, requestPath: string)
  {
    || cookiePath == requestPath
    || (&& |cookiePath| < |requestPath|
        && requestPath[..|cookiePath|] == cookiePath
        && ((|cookiePath| > 0 && cookiePath[|cookiePath| - 1] == '/') || requestPath[|cookiePath|] == '/'))
  }

  /** The request path `/` reaches only cookies whose path is `/` (or empty): `/app` is out of reach. */
  lemma RootPathMatches(cookiePath: string)
    ensures PathMatches(cookiePath, "/") <==> cookiePath == "/" || cookiePath == ""
  {
    if PathMatches(cookiePath, "/") && cookiePath != "/" {
      assert |cookiePath| == 0;
    }
  }

  function Matching(cs: seq<Cookie>, domain: string): (r: seq<Cookie>)
    ensures forall c :: c in r <==> c in cs && DomainMatches(c.domain, domain)
  {
    if cs == [] then []
    else (if DomainMatches(cs[0].domain, domain) then [cs[0]] else []) + Matching(cs[1..], domain)
  }

  lemma NoneMatching(cs: seq<Cookie>, domain: string)
    requires forall c :: c in cs ==> !DomainMatches(c.domain, domain)
    ensures Matching(cs, domain) == []
  {
  }

  // ---------------------------------------------------------------------------------------
  // Browser cookie stores and the effect of `cookies.set` / `cookies.remove`

  /** A store id the browser has no cookies for reads as an empty store. */
  function Jar(stores: map<StoreId, seq<Cookie>>, id: StoreId): seq<Cookie>
  {
    if id in stores then stores[id] else []
  }

  /** A store holds no two cookies with the same name, domain and path. */
  predicate WellFormedJar(cs: seq<Cookie>)
  {
    forall x, y :: x in cs && y in cs && KeyOf(x) == KeyOf(y) ==> x == y
  }

  /**
   * Every cookie's domain reads back as the host of the URL built from it. Required only of
   * the cookies a query matches; a store may hold others, such as an IPv6 host `::1`.
   */
  predicate ValidHosts(cs: seq<Cookie>)
  {
    forall c :: c in cs ==> ValidHost(c.domain)
  }

  function WithoutKey(cs: seq<Cookie>, key: (string, string, string)): (r: seq<Cookie>)
    ensures forall c :: c in r <==> c in cs && KeyOf(c) != key
  {
    if cs == [] then []
    else (if KeyOf(cs[0]) != key then [cs[0]] else []) + WithoutKey(cs[1..], key)
  }

  /** Whether `cookies.remove` at `host` and `path` reaches `c`, of that name. */
  predicate Reached(c: Cookie, name: string, host: string, path: string)
  {
    c.name == name && c.domain == host && PathMatches(c.path, path)
  }

  function WithoutNamed(cs: seq<Cookie>, name: string, host: string, path: string): (r: seq<Cookie>)
    ensures forall c :: c in r <==> c in cs && !Reached(c, name, host, path)
  {
    if cs == [] then []
    else (if !Reached(cs[0], name, host, path) then [cs[0]] else []) + WithoutNamed(cs[1..], name, host, path)
  }

  /** Storing a cookie replaces the one with the same name, domain and path. */
  function Upsert(cs: seq<Cookie>, c: Cookie): seq<Cookie>
  {
    WithoutKey(cs, KeyOf(c)) + [c]
  }

  /** `cookies.set` parameters. There is no `domain` member: the extension never passes one. */
  datatype SetDetails = SetDetails(storeId: StoreId, name: string, path: string, secure: bool, url: string,
                                   value: string, httpOnly: bool, firstPartyDomain: string,
                                   expirationDate: Option<real>)

  /** `cookies.remove` parameters. */
  datatype RemoveDetails = RemoveDetails(storeId: StoreId, url: string, name: string)

  datatype CookieCall = SetCall(setDetails: SetDetails) | RemoveCall(removeDetails: RemoveDetails)

  /** The cookie the browser stores for `cookies.set` without `domain`: host-only, on the URL's host. */
  function StoredCookie(d: SetDetails): Cookie
  {
    Cookie(d.name, d.value, UrlHost(d.url), true, d.path, d.secure, d.httpOnly, d.firstPartyDomain, d.expirationDate)
  }

  /** The effect of one call on the stores: only the store it names changes. */
  function Apply(stores: map<StoreId, seq<Cookie>>, call: CookieCall): map<StoreId, seq<Cookie>>
  {
    match call
    case SetCall(d) => stores[d.storeId := Upsert(Jar(stores, d.storeId), StoredCookie(d))]
    case RemoveCall(d) => stores[d.storeId := WithoutNamed(Jar(stores, d.storeId), d.name, UrlHost(d.url), UrlPath(d.url))]
  }

  /** The calls applied in the order they were issued. */
  function ApplyAll(stores: map<StoreId, seq<Cookie>>, calls: seq<CookieCall>): map<StoreId, seq<Cookie>>
  {
    if calls == [] then stores else Apply(ApplyAll(stores, calls[..|calls| - 1]), calls[|calls| - 1])
  }

  // ---------------------------------------------------------------------------------------
  // The calls `moveDomainCookiesToStore` issues

  /** The `cookies.set` call for one cookie: same attributes, URL built from its domain, no domain. */
  function SetDetailsFor(c: Cookie, toStoreId: StoreId): SetDetails
  {
    SetDetails(toStoreId, c.name, c.path, c.secure, CookieUrl(c.domain), c.value, c.httpOnly,
               c.firstPartyDomain, c.expirationDate)
  }

  /** The `cookies.remove` call for one cookie: its name at the same URL, in the source store. */
  function RemoveDetailsFor(c: Cookie, fromStoreId: StoreId): RemoveDetails
  {
    RemoveDetails(fromStoreId, CookieUrl(c.domain), c.name)
  }

  /** One set and then one remove per cookie, in query order. */
  function MoveCalls(cs: seq<Cookie>, fromStoreId: StoreId, toStoreId: StoreId): (calls: seq<CookieCall>)
    ensures |calls| == 2 * |cs|
    ensures forall i :: 0 <= i < |cs| ==>
      calls[2 * i] == SetCall(SetDetailsFor(cs[i], toStoreId)) &&
      calls[2 * i + 1] == RemoveCall(RemoveDetailsFor(cs[i], fromStoreId))
  {
    if cs == [] then []
    else
      var c := cs[|cs| - 1];
      MoveCalls(cs[..|cs| - 1], fromStoreId, toStoreId)
        + [SetCall(SetDetailsFor(c, toStoreId)), RemoveCall(RemoveDetailsFor(c, fromStoreId))]
  }

  /** Issuing the calls for one more cookie appends its set and its remove. */
  lemma MoveCallsSnoc(cs: seq<Cookie>, i: nat, fromStoreId: StoreId, toStoreId: StoreId)
    requires i < |cs|
    ensures MoveCalls(cs[..i + 1], fromStoreId, toStoreId) ==
      MoveCalls(cs[..i], fromStoreId, toStoreId)
        + [SetCall(SetDetailsFor(cs[i], toStoreId)), RemoveCall(RemoveDetailsFor(cs[i], fromStoreId))]
  {
    assert cs[..i + 1][..i] == cs[..i];
  }

  /** Applying two more calls applies them after the earlier ones. */
  lemma ApplyAllSnoc(stores: map<StoreId, seq<Cookie>>, calls: seq<CookieCall>, a: CookieCall, b: CookieCall)
    ensures ApplyAll(stores, calls + [a, b]) == Apply(Apply(ApplyAll(stores, calls), a), b)
  {
    var all := calls + [a, b];
    assert all[..|all| - 1] == calls + [a];
    assert (calls + [a])[..|calls|] == calls;
  }

  /** The stores after one `moveDomainCookiesToStore(fromStoreId, toStoreId, url)` with `url`'s host `hostname`. */
  function Migration(stores: map<StoreId, seq<Cookie>>, fromStoreId: StoreId, toStoreId: StoreId,
                     hostname: string): map<StoreId, seq<Cookie>>
  {
    ApplyAll(stores, MoveCalls(Matching(Jar(stores, FIREFOX_DEFAULT_COOKIE_STORE), DomainAndTld(hostname)),
                               fromStoreId, toStoreId))
  }

  // ---------------------------------------------------------------------------------------
  // What the calls do

  /** What a cookie becomes in the destination: the same cookie, host-only. */
  function Migrated(c: Cookie): Cookie
  {
    c.(hostOnly := true)
  }

  /**
   * The set call writes every attribute of the source cookie unchanged, except that the
   * copy is host-only.
   */
  lemma StoredCookieIsMigrated(c: Cookie, toStoreId: StoreId)
    requires ValidHost(c.domain)
    ensures SetDetailsFor(c, toStoreId).storeId == toStoreId
    ensures StoredCookie(SetDetailsFor(c, toStoreId)) == Migrated(c)
  {
    UrlHostOfCookieUrl(c.domain);
  }

  /** A migrated cookie applies to its own host and to no other, whatever scope the original had. */
  lemma MigratedIsHostOnly(c: Cookie, host: string)
    ensures AppliesTo(Migrated(c), host) <==> host == c.domain
  {
  }

  /**
   * The remove call for `c` deletes the cookies that have `c`'s name and domain and a path that
   * the URL's path `/` matches; a cookie of `c`'s name on a deeper path stays.
   */
  predicate Clears(c: Cookie, x: Cookie)
  {
    Reached(x, c.name, c.domain, "/")
  }

  /** The source store after the removes for `cs`, in order. */
  function StripAll(s: seq<Cookie>, cs: seq<Cookie>): seq<Cookie>
  {
    if cs == [] then s
    else
      var c := cs[|cs| - 1];
      WithoutNamed(StripAll(s, cs[..|cs| - 1]), c.name, c.domain, "/")
  }

  /** The destination store after the sets for `cs`, in order. */
  function UpsertAll(s: seq<Cookie>, cs: seq<Cookie>): seq<Cookie>
  {
    if cs == [] then s else Upsert(UpsertAll(s, cs[..|cs| - 1]), Migrated(cs[|cs| - 1]))
  }

  lemma {:induction false} StripAllMembers(s: seq<Cookie>, cs: seq<Cookie>)
    ensures forall x :: x in StripAll(s, cs) <==> x in s && forall c :: c in cs ==> !Clears(c, x)
    decreases |cs|
  {
    if cs != [] {
      var front := cs[..|cs| - 1];
      var last := cs[|cs| - 1];
      StripAllMembers(s, front);
      assert cs == front + [last];
      forall x
        ensures x in StripAll(s, cs) <==> x in s && forall c :: c in cs ==> !Clears(c, x)
      {
        assert StripAll(s, cs) == WithoutNamed(StripAll(s, front), last.name, last.domain, "/");
        assert (forall c :: c in cs ==> !Clears(c, x)) <==>
               (forall c :: c in front ==> !Clears(c, x)) && !Clears(last, x);
      }
    }
  }

  /** Every cookie of `cs` ends up, host-only, in the destination (their keys being distinct). */
  lemma {:induction false} UpsertAllStores(s: seq<Cookie>, cs: seq<Cookie>)
    requires forall x, y :: x in cs && y in cs && KeyOf(x) == KeyOf(y) ==> x == y
    ensures forall c :: c in cs ==> Migrated(c) in UpsertAll(s, cs)
    decreases |cs|
  {
    if cs != [] {
      var front := cs[..|cs| - 1];
      var last := cs[|cs| - 1];
      assert cs == front + [last];
      UpsertAllStores(s, front);
      var prior := UpsertAll(s, front);
      forall c | c in cs
        ensures Migrated(c) in UpsertAll(s, cs)
      {
        if c != last {
          assert c in front && last in cs;
          assert KeyOf(Migrated(c)) == KeyOf(c) && KeyOf(Migrated(last)) == KeyOf(last);
          assert KeyOf(c) != KeyOf(last);
          assert Migrated(c) in WithoutKey(prior, KeyOf(Migrated(last)));
        }
      }
    }
  }

  /** A destination cookie that no cookie of `cs` replaces survives. */
  lemma {:induction false} UpsertAllKeeps(s: seq<Cookie>, cs: seq<Cookie>, x: Cookie)
    requires x in s && forall c :: c in cs ==> KeyOf(c) != KeyOf(x)
    ensures x in UpsertAll(s, cs)
    decreases |cs|
  {
    if cs != [] {
      var front := cs[..|cs| - 1];
      var last := cs[|cs| - 1];
      assert last in cs;
      UpsertAllKeeps(s, front, x);
      assert x in WithoutKey(UpsertAll(s, front), KeyOf(Migrated(last)));
    }
  }

  /** The destination gains nothing but migrated copies of `cs`. */
  lemma {:induction false} UpsertAllOrigin(s: seq<Cookie>, cs: seq<Cookie>, x: Cookie)
    requires x in UpsertAll(s, cs)
    ensures x in s || exists c :: c in cs && x == Migrated(c)
    decreases |cs|
  {
    if cs != [] {
      var front := cs[..|cs| - 1];
      var last := cs[|cs| - 1];
      assert last in cs;
      if x != Migrated(last) {
        assert x in UpsertAll(s, front);
        UpsertAllOrigin(s, front, x);
        if !(x in s) {
          var c :| c in front && x == Migrated(c);
          assert c in cs;
        }
      }
    }
  }

  /** Applying the move calls changes the source and destination stores only, each as a whole. */
  lemma {:induction false} MoveCallsEffect(stores: map<StoreId, seq<Cookie>>, cs: seq<Cookie>,
                                           fromStoreId: StoreId, toStoreId: StoreId)
    requires fromStoreId != toStoreId
    requires forall c :: c in cs ==> ValidHost(c.domain)
    ensures var after := ApplyAll(stores, MoveCalls(cs, fromStoreId, toStoreId));
      && Jar(after, fromStoreId) == StripAll(Jar(stores, fromStoreId), cs)
      && Jar(after, toStoreId) == UpsertAll(Jar(stores, toStoreId), cs)
      && (forall k :: k != fromStoreId && k != toStoreId ==>
            (k in after <==> k in stores) && (k in stores ==> after[k] == stores[k]))
    decreases |cs|
  {
    if cs != [] {
      var front := cs[..|cs| - 1];
      var last := cs[|cs| - 1];
      var prior := MoveCalls(front, fromStoreId, toStoreId);
      var setCall := SetCall(SetDetailsFor(last, toStoreId));
      var removeCall := RemoveCall(RemoveDetailsFor(last, fromStoreId));
      var calls := MoveCalls(cs, fromStoreId, toStoreId);
      assert calls == prior + [setCall, removeCall];
      ApplyAllSnoc(stores, prior, setCall, removeCall);
      MoveCallsEffect(stores, front, fromStoreId, toStoreId);
      StoredCookieIsMigrated(last, toStoreId);
      UrlHostOfCookieUrl(last.domain);
    }
  }

  /**
   * One migration of the cookies matching `domain` in the default store: every matched cookie
   * arrives host-only in the destination; the source loses exactly the cookies that share a
   * name and domain with a matched one; the destination gains nothing else and keeps every
   * cookie no matched one replaces; all other stores are untouched.
   */
  lemma MigrationMovesMatched(stores: map<StoreId, seq<Cookie>>, fromStoreId: StoreId, toStoreId: StoreId,
                              domain: string)
    requires fromStoreId != toStoreId
    requires WellFormedJar(Jar(stores, FIREFOX_DEFAULT_COOKIE_STORE))
    requires ValidHosts(Matching(Jar(stores, FIREFOX_DEFAULT_COOKIE_STORE), domain))
    ensures var matched := Matching(Jar(stores, FIREFOX_DEFAULT_COOKIE_STORE), domain);
      var after := ApplyAll(stores, MoveCalls(matched, fromStoreId, toStoreId));
      && (forall c :: c in matched ==> Migrated(c) in Jar(after, toStoreId))
      && (forall x :: x in Jar(after, fromStoreId) <==>
            x in Jar(stores, fromStoreId) && forall c :: c in matched ==> !Clears(c, x))
      && (forall x :: x in Jar(stores, toStoreId) && (forall c :: c in matched ==> KeyOf(c) != KeyOf(x)) ==>
            x in Jar(after, toStoreId))
      && (forall x :: x in Jar(after, toStoreId) ==>
            x in Jar(stores, toStoreId) || exists c :: c in matched && x == Migrated(c))
      && (forall k :: k != fromStoreId && k != toStoreId ==>
            (k in after <==> k in stores) && (k in stores ==> after[k] == stores[k]))
  {
    var matched := Matching(Jar(stores, FIREFOX_DEFAULT_COOKIE_STORE), domain);
    var after := ApplyAll(stores, MoveCalls(matched, fromStoreId, toStoreId));
    MoveCallsEffect(stores, matched, fromStoreId, toStoreId);
    StripAllMembers(Jar(stores, fromStoreId), matched);
    UpsertAllStores(Jar(stores, toStoreId), matched);
    forall x | x in Jar(stores, toStoreId) && (forall c :: c in matched ==> KeyOf(c) != KeyOf(x))
      ensures x in Jar(after, toStoreId)
    {
      UpsertAllKeeps(Jar(stores, toStoreId), matched, x);
    }
    forall x | x in Jar(after, toStoreId)
      ensures x in Jar(stores, toStoreId) || exists c :: c in matched && x == Migrated(c)
    {
      UpsertAllOrigin(Jar(stores, toStoreId), matched, x);
    }
  }

  /**
   * No cookie of `cs` matching `domain` is within reach of a remove at path `/`: the ones left
   * are on deeper paths.
   */
  predicate RootClear(cs: seq<Cookie>, domain: string)
  {
    forall x :: x in Matching(cs, domain) ==> !PathMatches(x.path, "/")
  }

  /**
   * A migration out of the default store only deletes from it, so it never brings back a
   * reachable cookie of a domain the store was clear of.
   */
  lemma MigrationKeepsDefaultClear(stores: map<StoreId, seq<Cookie>>, toStoreId: StoreId, hostname: string,
                                   domain: string)
    requires toStoreId != FIREFOX_DEFAULT_COOKIE_STORE
    requires ValidHosts(Matching(Jar(stores, FIREFOX_DEFAULT_COOKIE_STORE), DomainAndTld(hostname)))
    requires RootClear(Jar(stores, FIREFOX_DEFAULT_COOKIE_STORE), domain)
    ensures RootClear(Jar(Migration(stores, FIREFOX_DEFAULT_COOKIE_STORE, toStoreId, hostname),
                          FIREFOX_DEFAULT_COOKIE_STORE), domain)
  {
    var source := Jar(stores, FIREFOX_DEFAULT_COOKIE_STORE);
    var matched := Matching(source, DomainAndTld(hostname));
    MoveCallsEffect(stores, matched, FIREFOX_DEFAULT_COOKIE_STORE, toStoreId);
    StripAllMembers(source, matched);
    var left := Jar(Migration(stores, FIREFOX_DEFAULT_COOKIE_STORE, toStoreId, hostname), FIREFOX_DEFAULT_COOKIE_STORE);
    forall x | x in Matching(left, domain)
      ensures !PathMatches(x.path, "/")
    {
      assert x in source;
      assert x in Matching(source, domain);
    }
  }

  /**
   * After migrating out of the default store, every cookie a repeated query still finds there
   * is on a path the remove URL's `/` does not reach; the default store only lost cookies.
   */
  lemma MigrationClearsRootPaths(stores: map<StoreId, seq<Cookie>>, toStoreId: StoreId, hostname: string)
    requires toStoreId != FIREFOX_DEFAULT_COOKIE_STORE
    requires ValidHosts(Matching(Jar(stores, FIREFOX_DEFAULT_COOKIE_STORE), DomainAndTld(hostname)))
    ensures var after := Migration(stores, FIREFOX_DEFAULT_COOKIE_STORE, toStoreId, hostname);
      && (forall x :: x in Jar(after, FIREFOX_DEFAULT_COOKIE_STORE) ==> x in Jar(stores, FIREFOX_DEFAULT_COOKIE_STORE))
      && RootClear(Jar(after, FIREFOX_DEFAULT_COOKIE_STORE), DomainAndTld(hostname))
  {
    var source := Jar(stores, FIREFOX_DEFAULT_COOKIE_STORE);
    var domain := DomainAndTld(hostname);
    var matched := Matching(source, domain);
    var after := Migration(stores, FIREFOX_DEFAULT_COOKIE_STORE, toStoreId, hostname);
    MoveCallsEffect(stores, matched, FIREFOX_DEFAULT_COOKIE_STORE, toStoreId);
    StripAllMembers(source, matched);
    var left := Jar(after, FIREFOX_DEFAULT_COOKIE_STORE);
    forall x | x in Matching(left, domain)
      ensures !PathMatches(x.path, "/")
    {
      assert x in left && DomainMatches(x.domain, domain);
      assert x in matched && !Clears(x, x);
    }
  }

  /**
   * The loop copies a matched cookie on a deeper path (such as `/app`) into the destination but
   * its remove at `/` does not reach it: it stays in the default store, and a repeated query
   * finds it again.
   */
  lemma DeeperPathCookieIsCopiedNotMoved(stores: map<StoreId, seq<Cookie>>, toStoreId: StoreId, hostname: string,
                                         c: Cookie)
    requires toStoreId != FIREFOX_DEFAULT_COOKIE_STORE
    requires WellFormedJar(Jar(stores, FIREFOX_DEFAULT_COOKIE_STORE))
    requires ValidHosts(Matching(Jar(stores, FIREFOX_DEFAULT_COOKIE_STORE), DomainAndTld(hostname)))
    requires c in Jar(stores, FIREFOX_DEFAULT_COOKIE_STORE) && DomainMatches(c.domain, DomainAndTld(hostname))
    requires !PathMatches(c.path, "/")
    ensures var after := Migration(stores, FIREFOX_DEFAULT_COOKIE_STORE, toStoreId, hostname);
      && Migrated(c) in Jar(after, toStoreId)
      && c in Jar(after, FIREFOX_DEFAULT_COOKIE_STORE)
      && c in Matching(Jar(after, FIREFOX_DEFAULT_COOKIE_STORE), DomainAndTld(hostname))
  {
    var source := Jar(stores, FIREFOX_DEFAULT_COOKIE_STORE);
    var matched := Matching(source, DomainAndTld(hostname));
    MoveCallsEffect(stores, matched, FIREFOX_DEFAULT_COOKIE_STORE, toStoreId);
    StripAllMembers(source, matched);
    UpsertAllStores(Jar(stores, toStoreId), matched);
  }

  /**
   * When every matched cookie is on a path `/` reaches, migrating out of the default store twice
   * in a row: the second run finds no matching cookie, issues no call and changes nothing.
   */
  lemma SecondMigrationIsNoOp(stores: map<StoreId, seq<Cookie>>, toStoreId: StoreId, hostname: string)
    requires toStoreId != FIREFOX_DEFAULT_COOKIE_STORE
    requires ValidHosts(Matching(Jar(stores, FIREFOX_DEFAULT_COOKIE_STORE), DomainAndTld(hostname)))
    requires forall c :: c in Matching(Jar(stores, FIREFOX_DEFAULT_COOKIE_STORE), DomainAndTld(hostname)) ==>
      PathMatches(c.path, "/")
    ensures var after := Migration(stores, FIREFOX_DEFAULT_COOKIE_STORE, toStoreId, hostname);
      && Matching(Jar(after, FIREFOX_DEFAULT_COOKIE_STORE), DomainAndTld(hostname)) == []
      && Migration(after, FIREFOX_DEFAULT_COOKIE_STORE, toStoreId, hostname) == after
  {
    var source := Jar(stores, FIREFOX_DEFAULT_COOKIE_STORE);
    var domain := DomainAndTld(hostname);
    var matched := Matching(source, domain);
    var after := Migration(stores, FIREFOX_DEFAULT_COOKIE_STORE, toStoreId, hostname);
    MoveCallsEffect(stores, matched, FIREFOX_DEFAULT_COOKIE_STORE, toStoreId);
    StripAllMembers(source, matched);
    var left := Jar(after, FIREFOX_DEFAULT_COOKIE_STORE);
    var again := Matching(left, domain);
    if again != [] {
      var x := again[0];
      assert x in left && DomainMatches(x.domain, domain);
      assert x in matched && Clears(x, x);
      assert false;
    }
  }
}
