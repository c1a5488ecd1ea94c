# SSO login containment: a Dafny model of the request-interception core

This project models the decision logic of the background script of the "contain login
SSO" browser extension (`src/background.js`). The extension watches requests to a fixed
list of single-sign-on identity providers. When a tab submits the username/password
login form, it moves the identity provider's cookies and the relying party's cookies
from the default cookie store into the "SSO Login" container. It then reopens the tab
inside that container and cancels the original request. A per-tab deduplication table
(`canceledRequests`) makes sure that overlapping notifications for one navigation
reopen the tab only once.

Modules, one per component of the script:

- `Strings` is the JavaScript string operations the script uses: `endsWith`,
  `split('.')` and `join('.')`.
- `Tracker` is the `canceledRequests` table. It is a class over a
  `map<int, Record>` with `ShouldCancelEarly`, `CancelRequest` and `Clear`, plus the
  specification functions `IsDuplicate` and `Registered` and the lemmas about them.
- `Cookies` covers three things:
  - how the migrated domain is derived;
  - the `cookies.set` and `cookies.remove` parameters built for each cookie;
  - what the browser's cookie stores (`map<StoreId, seq<Cookie>>`) hold once those
    calls are applied, and the migration lemmas.
- `Containers` is the contextual-identity lookup and creation done by `setupContainer`.
- `Host` is the browser state the script changes through its APIs: the cookie stores
  and the container list. This state is kept in a `Browser` class.
- `Background` holds the request classification, the `moveDomainCookiesToStore`
  loop, and the `Extension` class. `Extension` covers `init`, `setupContainer`,
  `detectSSO`, `containUrl`, `reopenTab` and the cleanup listeners. Its ghost log of
  reopens carries the invariant that, for as long as a tab's record lives, no two
  reopens come from the same request id or the same URL.

Behaviour the proofs bring out:

- The migrated domain is the hostname's dot-separated labels from the third one on,
  joined with dots. This drops the first two labels; it does not keep the last two.
  - `auth.mozilla.auth0.com` gives `auth0.com`.
  - The three-label providers `auth.mozilla.com` and `auth.allizom.org` give `com` and
    `org`.
  - Under the model's `getAll` filter ("the queried domain or a subdomain of it"), every
    cookie of every site under such a top-level label matches the query
    (`Cookies.ThreeLabelHostMatchesWholeTld`), so those cookies would be moved too. What a
    browser actually returns for a bare `com` query is a property of the browser, not of
    this script, and is not modelled.
  - The comment in the source above the derivation (`src/background.js:121`) calls the
    result "TLD + first domain", that is the last two labels (`mozilla.com`). The model
    follows the code as written.
- The move is a move only for cookies on the path `/`. Both calls of the loop pass the URL
  `"https://" + cookie.domain + "/"`. `cookies.remove` reaches only cookies whose path that
  URL's path `/` matches (section 5.1.4 of RFC 6265), so a matched cookie on a
  deeper path such as `/app` is copied into the SSO store and stays in the default store
  (`Cookies.DeeperPathCookieIsCopiedNotMoved`). After a migration, what the same query
  still finds in the default store is exactly such deeper-path cookies
  (`Cookies.MigrationClearsRootPaths`).
- Cookie migration runs before the duplicate check. The table therefore guards only the
  reopen, not the migration: a suppressed duplicate still migrates again. The model
  keeps this order. When every matched cookie is on `/`, `Cookies.SecondMigrationIsNoOp`
  shows that the repeated migration finds nothing left to move; otherwise it copies the
  deeper-path cookies again.
- `cookies.getAll` is called without a `storeId`, so it always reads the default store,
  whatever `fromStoreId` says. Both call sites pass the default store anyway.
- The tracker guarantees at most one reopen per request id and per URL within one
  record's lifetime. It does not guarantee one reopen per record. A request with a new
  id and a new URL on the same tab reopens again.

## Model

| member | source | states |
|---|---|---|
| `Strings.Split` | src/background.js:122 | `split('.')` never returns an empty array and none of its labels contains a dot |
| `Strings.JoinSplit` | src/background.js:122 | joining the labels of `split('.')` with dots gives back the original string |
| `Strings.SplitAtFirstDot` | src/background.js:122 | a dot-free first label followed by a dot splits off as exactly that label |
| `Strings.SplitDotFree` | src/background.js:122 | a dot-free string splits into the single label itself |
| `Strings.EndsWithAppended` | src/background.js:103 | every string of the form prefix + suffix ends with the suffix |
| `Strings.EndsWith` | src/background.js:103 | `endsWith`: the string's last characters are the suffix; `Strings.EndsWithAppended` is its property |
| `Strings.Join` | src/background.js:122 | `join('.')`: the labels separated by dots; `Strings.JoinSplit` proves it undoes `split('.')` |
| `Tracker.FirstSighting` | src/background.js:25-32 | with no record for the tab the request is not a duplicate, and the new record holds exactly `{requestId}` and `{url}` |
| `Tracker.IsDuplicate` | src/background.js:49-55 | the request is a repeat: its tab has a record that names its id or its URL; characterised by `Tracker.FirstSighting` and `Tracker.DuplicateDetection` |
| `Tracker.Registered` | src/background.js:25-32 | the table once the request is registered, by `cancelRequest` for a new tab (lines 25-32) or by the additions at lines 57-58; characterised by `Tracker.RegisteredGrowsOnlyThisTab` |
| `Tracker.DuplicateDetection` | src/background.js:49-55 | with a record present, the request is a duplicate exactly when the record already holds its request id or its URL |
| `Tracker.RegisteredGrowsOnlyThisTab` | src/background.js:57-58 | after registering, the tab's record holds the incoming id and URL and keeps all earlier entries; the table gains at most that tab; other tabs' records are unchanged |
| `Tracker.RepeatIsDuplicate` | src/background.js:50-55 | once a request is registered, any later request on that tab sharing its id or its URL is a duplicate |
| `Tracker.ClearedIsFirstSighting` | src/background.js:37-41 | after a tab's record is deleted the next request on that tab is never a duplicate |
| `Tracker.CanceledRequests.constructor` | src/background.js:20 | the table starts empty |
| `Tracker.CanceledRequests.CancelRequest` | src/background.js:23-42 | the tab's record becomes `{requestId}`, `{url}` and nothing else in the table changes |
| `Tracker.CanceledRequests.ShouldCancelEarly` | src/background.js:44-64 | returns true exactly for a duplicate, and leaves the table as `Registered` of the old table in every case |
| `Tracker.CanceledRequests.Clear` | src/background.js:181-190 | removes only the given tab's record; a no-op when there is none |
| `Containers.Named` | src/background.js:67 | the query by name returns the identities with that name and no others |
| `Containers.NamedFirst` | src/background.js:67-69 | the first identity of the answer is the registry's earliest identity with that name, so `contexts[0]` is that one |
| `Containers.NamedAppend` | src/background.js:71-76 | querying after a container was appended returns the earlier answer plus the new container when its name matches |
| `Containers.SetupSelectsFirstNamed` | src/background.js:66-78 | afterwards a container named "SSO Login" exists and the chosen store id is the first one's; an existing one is reused with no creation, otherwise exactly one red briefcase container with the created store id is added |
| `Containers.Setup` | src/background.js:66-78 | `setupContainer`'s choice as a value: the registry afterwards and the store id chosen; its properties are `Containers.SetupSelectsFirstNamed` and `Containers.SetupIdempotent` |
| `Containers.SetupIdempotent` | src/background.js:66-78 | running setup on the registry it produced creates nothing and selects the same store id, whatever id a new creation would get |
| `Cookies.DomainAndTldDropsTwoLabels` | src/background.js:122 | for `a.b.rest` with dot-free `a`, `b` the derived domain is `rest`, verbatim |
| `Cookies.DomainAndTld` | src/background.js:122 | `hostname.split('.').slice(2).join('.')`; characterised on every input by `Cookies.DomainAndTldDropsTwoLabels` and `Cookies.DomainAndTldOfShortHost` |
| `Cookies.DomainAndTldOfShortHost` | src/background.js:122 | hosts with one or two labels give the empty domain |
| `Cookies.DomainAndTldExamples` | src/background.js:122 | `auth.mozilla.auth0.com` gives `auth0.com` and `auth.mozilla.com` gives `com` |
| `Cookies.ThreeLabelHostMatchesWholeTld` | src/background.js:122-124 | for a three-label login host, the cookies of any site under its top-level label match the query |
| `Cookies.UrlHostOfCookieUrl` | src/background.js:130 | the host the browser reads from `"https://" + domain + "/"` is that domain, and its path is `/` |
| `Cookies.RootPathMatches` | src/background.js:132 | the request path `/` of the remove URL path-matches a cookie path exactly when that path is `/` or empty |
| `Cookies.Matching` | src/background.js:124 | the query returns exactly the store's cookies whose domain is the queried domain or a subdomain of it |
| `Cookies.WithoutKey` | src/background.js:129-131 | keeps exactly the cookies whose name, domain and path differ from the given ones |
| `Cookies.WithoutNamed` | src/background.js:132 | keeps exactly the cookies that a remove of the given name at the given host and path does not reach: another name, another domain, or a path the URL's path does not match |
| `Cookies.NoneMatching` | src/background.js:124 | a store where no cookie's domain matches gives an empty query result |
| `Cookies.MoveCalls` | src/background.js:126-133 | the calls for cookie i are at positions 2i and 2i+1: a `cookies.set` into the destination, then a `cookies.remove` from the source |
| `Cookies.SetDetailsFor` | src/background.js:129-131 | the `cookies.set` parameters for one cookie: destination store, the cookie's attributes, no domain, and the URL built from its domain; `Cookies.StoredCookieIsMigrated` says what it stores |
| `Cookies.RemoveDetailsFor` | src/background.js:132 | the `cookies.remove` parameters for one cookie: source store, the URL built from its domain and its name |
| `Cookies.Migration` | src/background.js:118-134 | the stores after `moveDomainCookiesToStore`: the loop's calls applied in order to the cookies the default-store query returns; its effect is `Cookies.MigrationMovesMatched` |
| `Cookies.MoveCallsSnoc` | src/background.js:126-133 | one more loop iteration appends exactly that cookie's set and remove |
| `Cookies.ApplyAllSnoc` | src/background.js:129-132 | two more calls take effect after the earlier ones, in order |
| `Cookies.StoredCookieIsMigrated` | src/background.js:128-131 | the set call goes to the destination store, and the stored copy has the source cookie's name, value, path, secure, httpOnly, firstPartyDomain and expirationDate, the source's domain string as its host, and is host-only (the assumptions behind this are under "Left out") |
| `Cookies.MigratedIsHostOnly` | src/background.js:128 | a migrated cookie applies to its own host and to no other host |
| `Cookies.StripAllMembers` | src/background.js:132 | after the removes, the source store holds exactly its cookies that no remove reaches: those that share no name and domain with a moved cookie, or whose path `/` does not match |
| `Cookies.UpsertAllStores` | src/background.js:129-131 | after the sets, every moved cookie is in the destination, host-only |
| `Cookies.UpsertAllKeeps` | src/background.js:129-131 | a destination cookie whose name, domain and path no moved cookie has survives the sets |
| `Cookies.UpsertAllOrigin` | src/background.js:129-131 | after the sets, the destination holds only its earlier cookies and host-only copies of moved cookies |
| `Cookies.MoveCallsEffect` | src/background.js:126-133 | applying the loop's calls changes the source store by the removes and the destination by the sets, and no other store |
| `Cookies.MigrationMovesMatched` | src/background.js:118-134 | every matched cookie arrives host-only in the destination; the source loses exactly the cookies sharing name and domain with a matched one whose path `/` matches; the destination gains nothing else; other stores are untouched |
| `Cookies.SecondMigrationIsNoOp` | src/background.js:118-134 | when every matched cookie is on a path `/` reaches, the same migration run again finds no cookie, issues no call and changes nothing |
| `Cookies.MigrationClearsRootPaths` | src/background.js:118-134 | after migrating out of the default store, the same query there finds only cookies on paths that `/` does not reach, and the store has only lost cookies |
| `Cookies.DeeperPathCookieIsCopiedNotMoved` | src/background.js:126-133 | a matched cookie on a path `/` does not reach is copied host-only into the destination and stays in the default store, where a repeated query finds it again |
| `Cookies.MigrationKeepsDefaultClear` | src/background.js:118-134 | a migration out of the default store never brings back a cookie on a path `/` reaches for a domain where the default store had none |
| `Host.Browser.GetAllCookies` | src/background.js:124 | `cookies.getAll({domain})` with no store id returns the matching cookies of the default store |
| `Host.Browser.SetCookie` | src/background.js:129-131 | `cookies.set` replaces or adds the host-only cookie in the named store only |
| `Host.Browser.RemoveCookie` | src/background.js:132 | `cookies.remove` deletes, from the named store only, the cookies of that name on the URL's host whose path the URL's path matches |
| `Host.Browser.QueryIdentities` | src/background.js:67 | `contextualIdentities.query({name})` returns the containers with that name |
| `Host.Browser.CreateIdentity` | src/background.js:71-75 | `contextualIdentities.create` appends one container with the given name, colour, icon and the browser-chosen store id |
| `Background.ValidUrlToDetectOrContain` | src/background.js:136-152 | a tab is returned exactly when the request has a tab id other than -1 and `tabs.get` found a tab that is not incognito; it is that tab |
| `Background.IsLoginSubmission` | src/background.js:103 | the request is a POST whose URL ends with `/usernamepassword/login` |
| `Background.ShouldContain` | src/background.js:98-104 | `detectSSO`'s guard; `Background.ShouldContainIff` spells out its five conditions |
| `Background.ReopenFor` | src/background.js:82-87 | the reopen `reopenTab` performs: a tab with the given URL and store and the original tab's active, index and window, then removal of the original |
| `Background.LoginMigration` | src/background.js:105-111 | the stores after `detectSSO`'s migrations: the login host's, then the relying party's when `redirect_uri` was read; `Background.LoginMigrationClearsDefault` is its property |
| `Background.ShouldContainIff` | src/background.js:97-104 | a request is migrated and contained if and only if: its tab id is not -1, the tab exists and is not incognito, the URL ends with `/usernamepassword/login`, the method is POST, and the tab's store is not the SSO store |
| `Background.LoginPostFromEligibleTabContains` | src/background.js:103-104 | a POST to any URL ending in the login path from an eligible tab outside the SSO store is contained |
| `Background.LoginMigrationClearsDefault` | src/background.js:105-111 | after both migrations the default store holds no cookie on a path `/` reaches for the login domain, nor for the relying-party domain when `redirect_uri` was read; only matching cookies on deeper paths can remain |
| `Background.OneReopenPerTriggerGrows` | src/background.js:57-58 | a record that only grew still covers the reopens made during its lifetime |
| `Background.OneReopenPerTriggerAppend` | src/background.js:157-166 | appending a reopen whose request id and URL the record had not seen keeps the reopens pairwise distinct in id and URL |
| `Background.LifetimesRegisterDuplicate` | src/background.js:49-58 | registering a duplicate without a reopen keeps every record lifetime's reopens registered and pairwise distinct in id and URL |
| `Background.LifetimesRegisterReopen` | src/background.js:155-166 | registering a non-duplicate and logging its reopen keeps the invariant, with a new record's lifetime starting at that reopen |
| `Background.LifetimesClear` | src/background.js:37-41 | deleting a tab's record and its lifetime keeps the invariant for the other tabs |
| `Background.MoveDomainCookiesToStore` | src/background.js:118-134 | issues exactly `MoveCalls` of the default store's cookies matching the derived domain, and leaves the stores as those calls make them |
| `Background.Extension.constructor` | src/background.js:17-21 | no store id known, no listener registered, an empty table and no reopen yet |
| `Background.Extension.SetupContainer` | src/background.js:66-78 | the container list and the remembered store id become what `Containers.Setup` gives; cookies, table and reopens are unchanged |
| `Background.Extension.Init` | src/background.js:170-192 | if setup fails no listener is registered and nothing changes; otherwise the container is set up and the listeners are registered |
| `Background.Extension.ReopenTab` | src/background.js:80-94 | logs one reopen: a new tab with the given URL and store and the original tab's active, index and window, followed by removal of the original tab |
| `Background.Extension.ContainUrl` | src/background.js:155-168 | always cancels the request; the table becomes `Registered`; a reopen is logged exactly when the request was not a duplicate; a tab without a record starts its record lifetime at the current length of the reopen log, and a tab with one keeps its start; the invariant is kept, so the tab's reopens logged since its record was created are registered in it and no two share a request id or URL |
| `Background.Extension.DetectSSO` | src/background.js:97-116 | answers with a cancel exactly when `ShouldContain` holds, and then applies both migrations and `ContainUrl`; the record lifetimes then change as in `ContainUrl`; any other request gets no answer and changes neither the cookies, nor the table, nor the reopens, nor the record lifetimes |
| `Background.Extension.Clear` | src/background.js:181-190 | `onCompleted`, `onErrorOccurred` and the two-second timer each remove only the given tab's record and end that record's lifetime (its start is dropped with it); the invariant is kept |

The method `Background.RedeliveredLoginReopensOnce` is a worked scenario, not a model of one source function, so it has no row: a login POST from tab 7 reopens once; the same request seen again reopens nothing; an incognito tab is ignored; after the record is cleared the request reopens again.

## Left out

- Real time: the 2000 ms `setTimeout` is an explicit `Clear` event. In the source, a timer armed for an earlier record deletes whatever record the tab has when the timer fires, including a newer one. `Clear` does the same, so the model allows that too.
- Async interleaving: the two `moveDomainCookiesToStore` calls are not awaited. In the source their cookie calls run after `containUrl` has already started the reopen. The model runs both migrations to completion, in order, before `containUrl`.
- Failed cookie calls: a `cookies.getAll`, `cookies.set` or `cookies.remove` whose promise rejects is not modelled. Every call takes effect. In particular a rejected `getAll` at line 124 (for example under first-party isolation, where no `firstPartyDomain` is passed) makes the source migrate nothing, while `Cookies.Migration` always moves the matching cookies.
- URL parsing: `new URL(...)` is not modelled. The hostname of the request URL and the hostname of `redirect_uri` are inputs. A missing or unparsable `redirect_uri` is `None`. Then the relying-party migration does nothing, the same as the exception thrown inside the un-awaited async call in the source. A throwing `new URL(options.originUrl)` at line 109 is not modelled.
- `UrlHost` only reads `https://` URLs up to the first `/`, `?`, `#` or `:`. The migration lemmas (`Cookies.MigrationMovesMatched`, `Cookies.MigrationKeepsDefaultClear`, `Cookies.MigrationClearsRootPaths`, `Cookies.DeeperPathCookieIsCopiedNotMoved`, `Cookies.SecondMigrationIsNoOp`, `Background.LoginMigrationClearsDefault`) therefore require, through `Cookies.ValidHosts`, that the domains of the cookies the query matches contain none of these characters. Other cookies in the store, such as one for the IPv6 host `::1`, are unconstrained. What a browser does with the URL built from a matched domain containing `:` is not modelled.
- Browser cookie semantics are simplified, as follows:
  - `cookies.remove` deletes the cookies with that name whose domain equals the URL's host and whose path the URL's path matches. A browser removes only the first such cookie, and it may also pick a domain cookie of a parent domain. The model deletes every such cookie on exactly that domain. With one cookie per name, domain and path, this differs only when a cookie on the empty path and one on `/` share name and domain.
  - `cookies.set` replaces the cookie with the same name, domain and path.
  - `firstPartyDomain` takes no part in matching.
  - The `getAll` domain filter is "equal to or a subdomain of", after stripping a leading dot. For the empty domain given by hosts of one or two labels, it matches only cookie domains that are empty or end in a dot.
- Cookies.SecondMigrationIsNoOp: promises a no-op repeat only when every matched cookie is on a path `/` reaches. For other cookies the loop never removes them, so a repeated migration copies them again (`Cookies.DeeperPathCookieIsCopiedNotMoved`).
- Background.LoginMigrationClearsDefault: promises that the default store is clear only of the matching cookies on paths `/` reaches. Cookies on deeper paths stay, because the loop's remove URL always has the path `/`.
- `expirationDate` is a floating-point number of seconds. It is carried as an opaque `real` and never computed with.
- Tab plumbing: `browser.tabs.create`, `tabs.remove`, `tabs.executeScript` and `console.log` are not modelled. `reopenTab` appends to a ghost log instead, and no table of open tabs is kept. `tabs.get` is an input (`lookup`): `None` means it rejects, and then nothing happens.
- Listener registration and URL filters: the events reaching `DetectSSO` and `Clear` are assumed to already match `SSO_DOMAINS` and the `main_frame`/`xmlhttprequest` types. `DetectSSO` requires `listening` because the listener exists only after `init` succeeded.
- Background.Extension.Init: `setupFails` stands for a rejection before anything changed. A failure after the container was created is not modelled.
- `tabsWaitingToLoad` is never populated, so its `delete` is a no-op. `detectedDomains` and `SSO_CALLBACK_URL` are never used. None of these three is modelled.
- A tab-close purge of SSO cookies, detection by the identity provider's callback path and a listener for the relying party's redirect are not in `src/background.js`, so they are not modelled.
- Cookies.StoredCookie: `cookies.set` at lines 129-131 passes no `sameSite`, so the browser gives the copy its default `sameSite`. `Cookie` has no `sameSite` field, so the model does not say what the copy's `sameSite` is.
- Cookies.StoredCookie: for a domain cookie (domain `.example.com`) the loop builds the URL `https://.example.com/`. The model assumes the browser then stores a host-only cookie whose domain is the literal host `.example.com`, which no real host matches (`Cookies.MigratedIsHostOnly`). What a browser actually does with such a URL is not modelled.
