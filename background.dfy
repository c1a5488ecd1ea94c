/**
 * The request-interception logic of the background script: which requests start a
 * containment, what a containment does (two cookie migrations, then a tab reopen guarded
 * by the deduplication table), the cleanup events, and start-up.
 */
module Background {
  import opened Wrappers
  import opened Strings
  import opened Tracker
  import opened Cookies
  import opened Containers
  import opened Host

  const SSO_LDAP_LOGIN_URL: string := "/usernamepassword/login"

  /** The `tabId` webRequest reports for a request that does not belong to a tab. */
  const NO_TAB: int := -1

  /** What `browser.tabs.get` reports about a tab. */
  datatype Tab = Tab(id: int, incognito: bool, cookieStoreId: StoreId, active: bool, index: int, windowId: int)

  /**
   * The webRequest details of an observed request. `host` is the hostname of `url`;
   * `redirectHost` is the hostname of the `redirect_uri` query parameter of `originUrl`,
   * `None` when that parameter is absent or is not a URL.
   */
  datatype RequestDetails = RequestDetails(tabId: int, requestId: string, url: string, httpMethod: string,
                                           originUrl: string, host: string, redirectHost: Option<string>)

  datatype BlockingResponse = BlockingResponse(cancel: bool)

  /** The `browser.tabs.create` properties of a reopen. */
  datatype CreateProperties = CreateProperties(url: string, cookieStoreId: StoreId, active: bool, index: int,
                                               windowId: int)

  /**
   * One `reopenTab`: the tab it creates, the tab it then removes, and (for the proofs)
   * the request id and URL of the request that caused it.
   */
  datatype Reopen = Reopen(create: CreateProperties, removedTabId: int, requestId: string, requestUrl: string)

  // ---------------------------------------------------------------------------------------
  // Classification

  /**
   * `validUrlToDetectOrContain`: the request's tab, unless the request has no tab, the tab
   * cannot be found (`lookup` is what `tabs.get(options.tabId)` gives, `None` when it
   * rejects) or the tab is incognito.
   */
  function ValidUrlToDetectOrContain(options: RequestDetails, lookup: Option<Tab>): (tab: Option<Tab>)
    ensures tab.Some? <==> options.tabId != NO_TAB && lookup.Some? && !lookup.value.incognito
    ensures tab.Some? ==> tab == lookup
  {
    if options.tabId == NO_TAB then None
    else match lookup
      case None => None
      case Some(t) => if t.incognito then None else Some(t)
  }

  /** The `detectSSO` trigger: a POST whose URL ends with the username/password login path. */
  predicate IsLoginSubmission(options: RequestDetails)
  {
    EndsWith(options.url, SSO_LDAP_LOGIN_URL) && options.httpMethod == "POST"
  }

  /** `detectSSO` goes on to migrate and contain exactly when this holds. */
  predicate ShouldContain(options: RequestDetails, lookup: Option<Tab>, ssoCookieStoreId: StoreId)
  {
    var tab := ValidUrlToDetectOrContain(options, lookup);
    tab.Some? && IsLoginSubmission(options) && tab.value.cookieStoreId != ssoCookieStoreId
  }

  /** A request is handled if and only if all five conditions hold. */
  lemma ShouldContainIff(options: RequestDetails, lookup: Option<Tab>, ssoCookieStoreId: StoreId)
    ensures ShouldContain(options, lookup, ssoCookieStoreId) <==>
      && options.tabId != NO_TAB
      && lookup.Some? && !lookup.value.incognito
      && EndsWith(options.url, SSO_LDAP_LOGIN_URL)
      && options.httpMethod == "POST"
      && lookup.value.cookieStoreId != ssoCookieStoreId
  {
  }

  /** Any URL of the form `<prefix>/usernamepassword/login` triggers when POSTed from an eligible tab. */
  lemma LoginPostFromEligibleTabContains(options: RequestDetails, tab: Tab, prefix: string, ssoCookieStoreId: StoreId)
    requires options.url == prefix + SSO_LDAP_LOGIN_URL && options.httpMethod == "POST"
    requires options.tabId != NO_TAB && !tab.incognito && tab.cookieStoreId != ssoCookieStoreId
    ensures ShouldContain(options, Some(tab), ssoCookieStoreId)
  {
    EndsWithAppended(prefix, SSO_LDAP_LOGIN_URL);
  }

  // ---------------------------------------------------------------------------------------
  // Effects of a containment

  /** `reopenTab({url, tab, cookieStoreId})`: same placement and activation, new store; the old tab goes. */
  function ReopenFor(url: string, tab: Tab, cookieStoreId: StoreId, options: RequestDetails): Reopen
  {
    Reopen(CreateProperties(url, cookieStoreId, tab.active, tab.index, tab.windowId), tab.id,
           options.requestId, options.url)
  }

  /**
   * The cookie stores after `detectSSO`'s two migrations into the SSO store: the login
   * host's domain, then the relying party's when its `redirect_uri` could be read.
   */
  function LoginMigration(stores: map<StoreId, seq<Cookie>>, ssoCookieStoreId: StoreId,
                          options: RequestDetails): map<StoreId, seq<Cookie>>
  {
    var first := Migration(stores, FIREFOX_DEFAULT_COOKIE_STORE, ssoCookieStoreId, options.host);
    match options.redirectHost
    case None => first
    case Some(h) => Migration(first, FIREFOX_DEFAULT_COOKIE_STORE, ssoCookieStoreId, h)
  }

  /**
   * After a containment's migrations into another store, the default store holds no cookie of
   * the login domain and none of the relying party's domain that the remove URL's path `/`
   * reaches; only cookies on deeper paths remain.
   */
  lemma LoginMigrationClearsDefault(stores: map<StoreId, seq<Cookie>>, ssoCookieStoreId: StoreId,
                                    options: RequestDetails)
    requires ssoCookieStoreId != FIREFOX_DEFAULT_COOKIE_STORE
    requires ValidHosts(Matching(Jar(stores, FIREFOX_DEFAULT_COOKIE_STORE), DomainAndTld(options.host)))
    requires options.redirectHost.Some? ==>
      ValidHosts(Matching(Jar(stores, FIREFOX_DEFAULT_COOKIE_STORE), DomainAndTld(options.redirectHost.value)))
    ensures var left := Jar(LoginMigration(stores, ssoCookieStoreId, options), FIREFOX_DEFAULT_COOKIE_STORE);
      && RootClear(left, DomainAndTld(options.host))
      && (options.redirectHost.Some? ==> RootClear(left, DomainAndTld(options.redirectHost.value)))
  {
    var first := Migration(stores, FIREFOX_DEFAULT_COOKIE_STORE, ssoCookieStoreId, options.host);
    MigrationClearsRootPaths(stores, ssoCookieStoreId, options.host);
    if options.redirectHost.Some? {
      var h := options.redirectHost.value;
      var source := Jar(stores, FIREFOX_DEFAULT_COOKIE_STORE);
      forall x | x in Matching(Jar(first, FIREFOX_DEFAULT_COOKIE_STORE), DomainAndTld(h))
        ensures ValidHost(x.domain)
      {
        assert x in source && x in Matching(source, DomainAndTld(h));
      }
      MigrationClearsRootPaths(first, ssoCookieStoreId, h);
      MigrationKeepsDefaultClear(first, ssoCookieStoreId, h, DomainAndTld(options.host));
    }
  }

  // ---------------------------------------------------------------------------------------
  // Reopens within one record's lifetime

  /**
   * The reopens made on a tab since its deduplication record was created: all of that tab,
   * all registered in the record, and no two caused by the same request id or the same URL.
   */
  predicate OneReopenPerTrigger(reopens: seq<Reopen>, tabId: int, record: Record)
  {
    && (forall i :: 0 <= i < |reopens| ==>
          reopens[i].removedTabId == tabId && reopens[i].requestId in record.requestIds &&
          reopens[i].requestUrl in record.urls)
    && (forall i, j :: 0 <= i < j < |reopens| ==>
          reopens[i].requestId != reopens[j].requestId && reopens[i].requestUrl != reopens[j].requestUrl)
  }

  /** A record that only grew still covers the tab's reopens. */
  lemma OneReopenPerTriggerGrows(reopens: seq<Reopen>, tabId: int, record: Record, grown: Record)
    requires OneReopenPerTrigger(reopens, tabId, record)
    requires record.requestIds <= grown.requestIds && record.urls <= grown.urls
    ensures OneReopenPerTrigger(reopens, tabId, grown)
  {
  }

  /**
   * A reopen for a request whose id and URL the record has not seen may be appended, once
   * both are registered.
   */
  lemma OneReopenPerTriggerAppend(reopens: seq<Reopen>, tabId: int, record: Record, r: Reopen)
    requires OneReopenPerTrigger(reopens, tabId, record)
    requires r.removedTabId == tabId
    requires r.requestId !in record.requestIds && r.requestUrl !in record.urls
    ensures OneReopenPerTrigger(reopens + [r], tabId,
                                Record(record.requestIds + {r.requestId}, record.urls + {r.requestUrl}))
  {
    var grown := Record(record.requestIds + {r.requestId}, record.urls + {r.requestUrl});
    var all := reopens + [r];
    forall i, j | 0 <= i < j < |all|
      ensures all[i].requestId != all[j].requestId && all[i].requestUrl != all[j].requestUrl
    {
      if j == |reopens| {
        assert all[i] == reopens[i] && all[j] == r;
      } else {
        assert all[i] == reopens[i] && all[j] == reopens[j];
      }
    }
    forall i | 0 <= i < |all|
      ensures all[i].removedTabId == tabId && all[i].requestId in grown.requestIds &&
              all[i].requestUrl in grown.urls
    {
      if i < |reopens| { assert all[i] == reopens[i]; }
    }
  }

  /** The reopens of `log` that replaced tab `tabId`, in log order. */
  function OfTab(log: seq<Reopen>, tabId: int): (r: seq<Reopen>)
    ensures forall i :: 0 <= i < |r| ==> r[i].removedTabId == tabId
    ensures forall x :: x in r ==> x in log
  {
    if log == [] then []
    else
      var last := log[|log| - 1];
      OfTab(log[..|log| - 1], tabId) + (if last.removedTabId == tabId then [last] else [])
  }

  /** Logging one more reopen extends a tab's reopens by it exactly when it replaced that tab. */
  lemma OfTabSnoc(log: seq<Reopen>, start: nat, r: Reopen, tabId: int)
    requires start <= |log|
    ensures OfTab((log + [r])[start..], tabId) == OfTab(log[start..], tabId) + (if r.removedTabId == tabId then [r] else [])
  {
    var tail := (log + [r])[start..];
    assert tail == log[start..] + [r];
    assert tail[..|tail| - 1] == log[start..];
  }

  /**
   * For every tab with a record, the reopens of that tab logged since the record was created
   * (`recordStart[t]` is the log's length at that moment) are registered in the record and no
   * two of them share a request id or a URL.
   */
  predicate LifetimesDistinct(reopens: seq<Reopen>, recordStart: map<int, nat>, records: map<int, Record>)
  {
    && recordStart.Keys == records.Keys
    && (forall t :: t in recordStart ==>
          recordStart[t] <= |reopens| &&
          OneReopenPerTrigger(OfTab(reopens[recordStart[t]..], t), t, records[t]))
  }

  /** A duplicate is registered without a reopen: the invariant survives. */
  lemma LifetimesRegisterDuplicate(reopens: seq<Reopen>, recordStart: map<int, nat>, records: map<int, Record>,
                                   tabId: int, requestId: string, url: string)
    requires LifetimesDistinct(reopens, recordStart, records)
    requires IsDuplicate(records, tabId, requestId, url)
    ensures LifetimesDistinct(reopens, recordStart, Registered(records, tabId, requestId, url))
  {
    var grown := Registered(records, tabId, requestId, url);
    RegisteredGrowsOnlyThisTab(records, tabId, requestId, url);
    forall t | t in recordStart
      ensures OneReopenPerTrigger(OfTab(reopens[recordStart[t]..], t), t, grown[t])
    {
      if t == tabId {
        OneReopenPerTriggerGrows(OfTab(reopens[recordStart[t]..], t), t, records[t], grown[t]);
      }
    }
  }

  /**
   * A request that is not a duplicate is registered and reopened: the log gains its reopen,
   * a tab without a record starts a record lifetime at that point, and the invariant survives.
   */
  lemma LifetimesRegisterReopen(reopens: seq<Reopen>, recordStart: map<int, nat>, records: map<int, Record>,
                                r: Reopen)
    requires LifetimesDistinct(reopens, recordStart, records)
    requires !IsDuplicate(records, r.removedTabId, r.requestId, r.requestUrl)
    ensures LifetimesDistinct(reopens + [r],
                              if r.removedTabId in recordStart then recordStart
                              else recordStart[r.removedTabId := |reopens|],
                              Registered(records, r.removedTabId, r.requestId, r.requestUrl))
  {
    var start := if r.removedTabId in recordStart then recordStart else recordStart[r.removedTabId := |reopens|];
    var grown := Registered(records, r.removedTabId, r.requestId, r.requestUrl);
    forall t | t in start
      ensures start[t] <= |reopens + [r]| && OneReopenPerTrigger(OfTab((reopens + [r])[start[t]..], t), t, grown[t])
    {
      LifetimeAfterReopen(reopens, recordStart, records, r, t);
    }
  }

  /** One tab's part of `LifetimesRegisterReopen`. */
  lemma LifetimeAfterReopen(reopens: seq<Reopen>, recordStart: map<int, nat>, records: map<int, Record>,
                            r: Reopen, t: int)
    requires LifetimesDistinct(reopens, recordStart, records)
    requires !IsDuplicate(records, r.removedTabId, r.requestId, r.requestUrl)
    requires t in recordStart || t == r.removedTabId
    ensures var start := if r.removedTabId in recordStart then recordStart
                         else recordStart[r.removedTabId := |reopens|];
      && start[t] <= |reopens + [r]|
      && OneReopenPerTrigger(OfTab((reopens + [r])[start[t]..], t), t,
                             Registered(records, r.removedTabId, r.requestId, r.requestUrl)[t])
  {
    RegisteredGrowsOnlyThisTab(records, r.removedTabId, r.requestId, r.requestUrl);
    var grown := Registered(records, r.removedTabId, r.requestId, r.requestUrl);
    if t == r.removedTabId && t !in records {
      LifetimeOpens(reopens, r);
    } else {
      LifetimeContinues(reopens, recordStart[t], records[t], grown[t], r, t);
    }
  }

  /** The first reopen of a record's lifetime is the lifetime's only reopen so far. */
  lemma LifetimeOpens(reopens: seq<Reopen>, r: Reopen)
    ensures OneReopenPerTrigger(OfTab((reopens + [r])[|reopens|..], r.removedTabId), r.removedTabId,
                                Record({r.requestId}, {r.requestUrl}))
  {
    OfTabSnoc(reopens, |reopens|, r, r.removedTabId);
    assert reopens[|reopens|..] == [];
  }

  /**
   * A reopen on an existing lifetime: when it replaced tab `t`, the record had not seen its id
   * or URL and gains both; otherwise tab `t`'s reopens and record are unchanged.
   */
  lemma LifetimeContinues(reopens: seq<Reopen>, start: nat, record: Record, grown: Record, r: Reopen, t: int)
    requires start <= |reopens| && OneReopenPerTrigger(OfTab(reopens[start..], t), t, record)
    requires r.removedTabId == t ==>
      r.requestId !in record.requestIds && r.requestUrl !in record.urls &&
      grown == Record(record.requestIds + {r.requestId}, record.urls + {r.requestUrl})
    requires r.removedTabId != t ==> grown == record
    ensures OneReopenPerTrigger(OfTab((reopens + [r])[start..], t), t, grown)
  {
    OfTabSnoc(reopens, start, r, t);
    if r.removedTabId == t {
      OneReopenPerTriggerAppend(OfTab(reopens[start..], t), t, record, r);
    }
  }

  /** Deleting a tab's record ends its lifetime; the invariant survives for the others. */
  lemma LifetimesClear(reopens: seq<Reopen>, recordStart: map<int, nat>, records: map<int, Record>, tabId: int)
    requires LifetimesDistinct(reopens, recordStart, records)
    ensures LifetimesDistinct(reopens, recordStart - {tabId}, records - {tabId})
  {
  }

  // ---------------------------------------------------------------------------------------
  // `moveDomainCookiesToStore`

  /**
   * Query the default store for the cookies of `hostname`'s derived domain, then for each
   * one issue a `cookies.set` into `toStoreId` and a `cookies.remove` from `fromStoreId`.
   * Returns the calls issued, in order.
   */
  method MoveDomainCookiesToStore(browser: Browser, fromStoreId: StoreId, toStoreId: StoreId, hostname: string)
    returns (calls: seq<CookieCall>)
    modifies browser
    ensures calls == MoveCalls(Matching(Jar(old(browser.cookies), FIREFOX_DEFAULT_COOKIE_STORE),
                                        DomainAndTld(hostname)), fromStoreId, toStoreId)
    ensures browser.cookies == Migration(old(browser.cookies), fromStoreId, toStoreId, hostname)
    ensures browser.identities == old(browser.identities)
  {
    var domainAndTld := DomainAndTld(hostname);
    var cookies := browser.GetAllCookies(domainAndTld);
    ghost var start := browser.cookies;
    calls := [];
    for i := 0 to |cookies|
      invariant calls == MoveCalls(cookies[..i], fromStoreId, toStoreId)
      invariant browser.cookies == ApplyAll(start, calls)
      invariant browser.identities == old(browser.identities)
    {
      var cookie := cookies[i];
      var setDetails := SetDetailsFor(cookie, toStoreId);
      browser.SetCookie(setDetails);
      var removeDetails := RemoveDetailsFor(cookie, fromStoreId);
      browser.RemoveCookie(removeDetails);
      MoveCallsSnoc(cookies, i, fromStoreId, toStoreId);
      ApplyAllSnoc(start, calls, SetCall(setDetails), RemoveCall(removeDetails));
      calls := calls + [SetCall(setDetails), RemoveCall(removeDetails)];
    }
    assert cookies[..|cookies|] == cookies;
  }

  // ---------------------------------------------------------------------------------------
  // The background script's state

  class Extension {
    /** `SSOCookieStoreId`: `None` until `setupContainer` has run. */
    var ssoCookieStoreId: Option<StoreId>
    /** Whether `init` registered the webRequest listeners. */
    var listening: bool
    const tracker: CanceledRequests
    const browser: Browser
    /** Every `reopenTab` so far, in order. */
    ghost var reopens: seq<Reopen>
    /** Per tab with a record: the length of `reopens` when that record was created. */
    ghost var recordStart: map<int, nat>

    ghost predicate Valid()
      reads this, tracker
    {
      && (listening ==> ssoCookieStoreId.Some?)
      && LifetimesDistinct(reopens, recordStart, tracker.records)
    }

    constructor (browser: Browser)
      ensures Valid() && !listening && ssoCookieStoreId == None
      ensures this.browser == browser && fresh(tracker) && tracker.records == map[]
      ensures reopens == [] && recordStart == map[]
    {
      this.browser := browser;
      tracker := new CanceledRequests();
      ssoCookieStoreId := None;
      listening := false;
      reopens := [];
      recordStart := map[];
    }

    /**
     * `setupContainer`: reuse the first container named "SSO Login" or create one, and
     * remember its cookie store id.
     */
    method SetupContainer(freshStoreId: StoreId)
      requires Valid()
      modifies this, browser
      ensures Valid() && listening == old(listening)
      ensures browser.identities == Setup(old(browser.identities), freshStoreId).identities
      ensures ssoCookieStoreId == Some(Setup(old(browser.identities), freshStoreId).cookieStoreId)
      ensures browser.cookies == old(browser.cookies)
      ensures tracker.records == old(tracker.records) && reopens == old(reopens) && recordStart == old(recordStart)
    {
      var contexts := browser.QueryIdentities(CONTAINER_NAME);
      if |contexts| > 0 {
        ssoCookieStoreId := Some(contexts[0].cookieStoreId);
      } else {
        var context := browser.CreateIdentity(CONTAINER_NAME, CONTAINER_COLOR, CONTAINER_ICON, freshStoreId);
        ssoCookieStoreId := Some(context.cookieStoreId);
      }
    }

    /**
     * `init`: set up the container; if that fails (`setupFails`), stop without registering
     * any listener, otherwise register them.
     */
    method Init(setupFails: bool, freshStoreId: StoreId)
      requires Valid() && !listening
      modifies this, browser
      ensures Valid() && listening == !setupFails
      ensures setupFails ==> ssoCookieStoreId == old(ssoCookieStoreId) && browser.identities == old(browser.identities)
      ensures !setupFails ==>
        && browser.identities == Setup(old(browser.identities), freshStoreId).identities
        && ssoCookieStoreId == Some(Setup(old(browser.identities), freshStoreId).cookieStoreId)
      ensures browser.cookies == old(browser.cookies)
      ensures tracker.records == old(tracker.records) && reopens == old(reopens) && recordStart == old(recordStart)
    {
      if setupFails {
        return;
      }
      SetupContainer(freshStoreId);
      listening := true;
    }

    /**
     * `reopenTab`: logged, since the tab calls themselves are the browser's. It is a step of
     * `ContainUrl` only, taken after the table registered the request; called on its own it
     * would log a reopen no record covers, so it neither requires nor keeps `Valid()`.
     */
    method ReopenTab(url: string, tab: Tab, cookieStoreId: StoreId, ghost options: RequestDetails)
      modifies this
      ensures reopens == old(reopens) + [ReopenFor(url, tab, cookieStoreId, options)]
      ensures recordStart == old(recordStart) && ssoCookieStoreId == old(ssoCookieStoreId) && listening == old(listening)
    {
      reopens := reopens + [ReopenFor(url, tab, cookieStoreId, options)];
    }

    /**
     * `containUrl`: always cancel the request; reopen the tab in `cookieStoreId` only when
     * the deduplication table says this is not a repeat.
     */
    method ContainUrl(cookieStoreId: StoreId, tab: Tab, options: RequestDetails, url: string)
      returns (response: BlockingResponse)
      requires Valid()
      modifies this, tracker
      ensures Valid()
      ensures response.cancel
      ensures tracker.records == Registered(old(tracker.records), tab.id, options.requestId, options.url)
      ensures reopens == old(reopens) +
        if IsDuplicate(old(tracker.records), tab.id, options.requestId, options.url) then []
        else [ReopenFor(url, tab, cookieStoreId, options)]
      ensures recordStart ==
        if tab.id in old(recordStart) then old(recordStart) else old(recordStart)[tab.id := |old(reopens)|]
      ensures ssoCookieStoreId == old(ssoCookieStoreId) && listening == old(listening)
    {
      ghost var records := tracker.records;
      var cancelEarly := tracker.ShouldCancelEarly(tab.id, options.requestId, options.url);
      if cancelEarly {
        LifetimesRegisterDuplicate(reopens, recordStart, records, tab.id, options.requestId, options.url);
        return BlockingResponse(true);
      }
      LifetimesRegisterReopen(reopens, recordStart, records, ReopenFor(url, tab, cookieStoreId, options));
      ReopenTab(url, tab, cookieStoreId, options);
      if tab.id !in recordStart {
        recordStart := recordStart[tab.id := |reopens| - 1];
      }
      return BlockingResponse(true);
    }

    /**
     * `detectSSO`: for an eligible login submission from a tab outside the SSO store,
     * migrate the login domain's and then the relying party's cookies into the SSO store and
     * contain the tab; any other request is left alone (no response, nothing changes).
     */
    method DetectSSO(options: RequestDetails, lookup: Option<Tab>) returns (response: Option<BlockingResponse>)
      requires Valid() && listening
      modifies this, tracker, browser
      ensures Valid() && listening && ssoCookieStoreId == old(ssoCookieStoreId)
      ensures browser.identities == old(browser.identities)
      ensures response.Some? <==> ShouldContain(options, lookup, ssoCookieStoreId.value)
      ensures response.Some? ==> response.value.cancel
      ensures !ShouldContain(options, lookup, ssoCookieStoreId.value) ==>
        && browser.cookies == old(browser.cookies) && tracker.records == old(tracker.records)
        && reopens == old(reopens) && recordStart == old(recordStart)
      ensures ShouldContain(options, lookup, ssoCookieStoreId.value) ==>
        && browser.cookies == LoginMigration(old(browser.cookies), ssoCookieStoreId.value, options)
        && tracker.records == Registered(old(tracker.records), lookup.value.id, options.requestId, options.url)
        && reopens == old(reopens) +
             (if IsDuplicate(old(tracker.records), lookup.value.id, options.requestId, options.url) then []
              else [ReopenFor(options.originUrl, lookup.value, ssoCookieStoreId.value, options)])
        && recordStart == if lookup.value.id in old(recordStart) then old(recordStart)
                          else old(recordStart)[lookup.value.id := |old(reopens)|]
    {
      var tab := ValidUrlToDetectOrContain(options, lookup);
      if tab.None? {
        return None;
      }
      var ssoStore := ssoCookieStoreId.value;
      if IsLoginSubmission(options) && tab.value.cookieStoreId != ssoStore {
        var _ := MoveDomainCookiesToStore(browser, FIREFOX_DEFAULT_COOKIE_STORE, ssoStore, options.host);
        if options.redirectHost.Some? {
          var _ := MoveDomainCookiesToStore(browser, FIREFOX_DEFAULT_COOKIE_STORE, ssoStore, options.redirectHost.value);
        }
        var contained := ContainUrl(ssoStore, tab.value, options, options.originUrl);
        return Some(contained);
      }
      return None;
    }

    /**
     * The `onCompleted` and `onErrorOccurred` listeners and the two-second timer: drop the
     * tab's record (if any), which ends its record lifetime; nothing else changes.
     */
    method Clear(tabId: int)
      requires Valid()
      modifies this, tracker
      ensures Valid()
      ensures tracker.records == old(tracker.records) - {tabId}
      ensures recordStart == old(recordStart) - {tabId}
      ensures reopens == old(reopens) && ssoCookieStoreId == old(ssoCookieStoreId) && listening == old(listening)
    {
      LifetimesClear(reopens, recordStart, tracker.records, tabId);
      tracker.Clear(tabId);
      recordStart := recordStart - {tabId};
    }
  }

  /**
   * The redelivery scenario: a login POST from tab 7 is contained once; the same request
   * seen again before the record is cleared is canceled without a second reopen; after
   * the cleanup event it would be contained again. A request from an incognito tab is
   * ignored and changes nothing. The browser starts with any cookies and no container.
   */
  method RedeliveredLoginReopensOnce(cookies: map<StoreId, seq<Cookie>>)
  {
    var browser := new Browser(cookies, []);
    var extension := new Extension(browser);
    extension.Init(false, "firefox-container-1");
    assert Named([], CONTAINER_NAME) == [];
    assert extension.ssoCookieStoreId == Some("firefox-container-1");

    var tab := Tab(7, false, FIREFOX_DEFAULT_COOKIE_STORE, true, 2, 1);
    var login := RequestDetails(7, "99", "https://auth.mozilla.com" + SSO_LDAP_LOGIN_URL, "POST",
                                "https://auth.mozilla.com/login?redirect_uri=https://rp.example.org/cb",
                                "auth.mozilla.com", Some("rp.example.org"));
    LoginPostFromEligibleTabContains(login, tab, "https://auth.mozilla.com", "firefox-container-1");

    var first := extension.DetectSSO(login, Some(tab));
    assert first == Some(BlockingResponse(true));
    assert |extension.reopens| == 1;
    assert extension.reopens[0].create == CreateProperties(login.originUrl, "firefox-container-1", true, 2, 1);

    assert IsDuplicate(extension.tracker.records, 7, login.requestId, login.url);
    var second := extension.DetectSSO(login, Some(tab));
    assert second == Some(BlockingResponse(true));
    assert |extension.reopens| == 1;

    var privateTab := tab.(incognito := true);
    var ignored := extension.DetectSSO(login, Some(privateTab));
    assert ignored == None && |extension.reopens| == 1;

    extension.Clear(7);
    var third := extension.DetectSSO(login, Some(tab));
    assert |extension.reopens| == 2;
  }
}
