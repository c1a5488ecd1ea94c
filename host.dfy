/**
 * The browser state the extension reaches through its APIs: the cookie stores and the
 * contextual identities. Each method is one API call with the effect the model gives it.
 */
module Host {
  import opened Cookies
  import opened Containers

  class Browser {
    var cookies: map<StoreId, seq<Cookie>>
    var identities: seq<Identity>

    constructor (cookies0: map<StoreId, seq<Cookie>>, identities0: seq<Identity>)
      ensures cookies == cookies0 && identities == identities0
    {
      cookies := cookies0;
      identities := identities0;
    }

    /**
     * `browser.cookies.getAll({domain})`. No `storeId` is passed, so the query reads the
     * store of the extension's own context, the default store.
     */
    method GetAllCookies(domain: string) returns (cs: seq<Cookie>)
      ensures cs == Matching(Jar(cookies, FIREFOX_DEFAULT_COOKIE_STORE), domain)
    {
      cs := Matching(Jar(cookies, FIREFOX_DEFAULT_COOKIE_STORE), domain);
    }

    /** `browser.cookies.set(details)`. */
    method SetCookie(details: SetDetails)
      modifies this
      ensures cookies == Apply(old(cookies), SetCall(details))
      ensures identities == old(identities)
    {
      cookies := Apply(cookies, SetCall(details));
    }

    /** `browser.cookies.remove(details)`. */
    method RemoveCookie(details: RemoveDetails)
      modifies this
      ensures cookies == Apply(old(cookies), RemoveCall(details))
      ensures identities == old(identities)
    {
      cookies := Apply(cookies, RemoveCall(details));
    }

    /** `browser.contextualIdentities.query({name})`. */
    method QueryIdentities(name: string) returns (found: seq<Identity>)
      ensures found == Named(identities, name)
    {
      found := Named(identities, name);
    }

    /** `browser.contextualIdentities.create(...)`; the browser picks the new store id, given here. */
    method CreateIdentity(name: string, color: string, icon: string, freshStoreId: StoreId) returns (created: Identity)
      modifies this
      ensures created == Identity(name, color, icon, freshStoreId)
      ensures identities == old(identities) + [created]
      ensures cookies == old(cookies)
    {
      created := Identity(name, color, icon, freshStoreId);
      identities := identities + [created];
    }
  }
}
