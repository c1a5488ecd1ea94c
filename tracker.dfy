/**
 * The deduplication table `canceledRequests`: per tab id, the request ids and URLs
 * for which a containment was already started. It answers one question — is this
 * request a repeat of something this tab's containment has already handled?
 */
module Tracker {

  /** `canceledRequests[tabId]`: the request ids and the URLs registered for one tab. */
  datatype Record = Record(requestIds: set<string>, urls: set<string>)

  /** The request repeats a registered one: the tab has a record naming its id or its URL. */
  predicate IsDuplicate(records: map<int, Record>, tabId: int, requestId: string, url: string)
  {
    tabId in records && (requestId in records[tabId].requestIds || url in records[tabId].urls)
  }

  /**
   * The table once the request is registered: a fresh record holding just this id and
   * URL when the tab had none, otherwise the tab's record with both added.
   */
  function Registered(records: map<int, Record>, tabId: int, requestId: string, url: string): map<int, Record>
  {
    records[tabId :=
      if tabId in records
      then Record(records[tabId].requestIds + {requestId}, records[tabId].urls + {url})
      else Record({requestId}, {url})]
  }

  /** First sighting: no record means no duplicate, and the new record is exactly `{requestId}`, `{url}`. */
  lemma FirstSighting(records: map<int, Record>, tabId: int, requestId: string, url: string)
    requires tabId !in records
    ensures !IsDuplicate(records, tabId, requestId, url)
    ensures Registered(records, tabId, requestId, url)[tabId] == Record({requestId}, {url})
  {
  }

  /** With a record present, the answer is "duplicate" exactly when the id or the URL was seen. */
  lemma DuplicateDetection(records: map<int, Record>, tabId: int, requestId: string, url: string)
    requires tabId in records
    ensures IsDuplicate(records, tabId, requestId, url) <==>
            requestId in records[tabId].requestIds || url in records[tabId].urls
  {
  }

  /**
   * Registering only grows the tab's record (it ends up holding the incoming id and URL
   * and keeps every earlier entry) and leaves every other tab's record as it was.
   */
  lemma RegisteredGrowsOnlyThisTab(records: map<int, Record>, tabId: int, requestId: string, url: string)
    ensures var r := Registered(records, tabId, requestId, url);
      && r.Keys == records.Keys + {tabId}
      && requestId in r[tabId].requestIds && url in r[tabId].urls
      && (tabId in records ==>
            records[tabId].requestIds <= r[tabId].requestIds && records[tabId].urls <= r[tabId].urls)
      && (forall t :: t in records && t != tabId ==> r[t] == records[t])
  {
  }

  /**
   * A redelivered request is suppressed: after registering (tabId, requestId, url), any later
   * request on the same tab that shares the id or the URL is a duplicate, until the record goes.
   */
  lemma RepeatIsDuplicate(records: map<int, Record>, tabId: int, requestId: string, url: string,
                          laterId: string, laterUrl: string)
    requires laterId == requestId || laterUrl == url
    ensures IsDuplicate(Registered(records, tabId, requestId, url), tabId, laterId, laterUrl)
  {
  }

  /** After the record is deleted, the next request on that tab is a first sighting again. */
  lemma ClearedIsFirstSighting(records: map<int, Record>, tabId: int, requestId: string, url: string)
    ensures !IsDuplicate(records - {tabId}, tabId, requestId, url)
  {
  }

  /** The process-wide table, updated in place by the request listeners. */
  class CanceledRequests {
    var records: map<int, Record>

    constructor ()
      ensures records == map[]
    {
      records := map[];
    }

    /**
     * `cancelRequest`: start the tab's record with this one request. The two-second timer it
     * arms is not real time here; its callback is the separate `Clear` event.
     */
    method CancelRequest(tabId: int, requestId: string, url: string)
      modifies this
      ensures records == old(records)[tabId := Record({requestId}, {url})]
    {
      records := records[tabId := Record({requestId}, {url})];
    }

    /**
     * `shouldCancelEarly`: true exactly for a duplicate; in every case the request's id and
     * URL are registered for the tab afterwards.
     */
    method ShouldCancelEarly(tabId: int, requestId: string, url: string) returns (cancelEarly: bool)
      modifies this
      ensures cancelEarly == IsDuplicate(old(records), tabId, requestId, url)
      ensures records == Registered(old(records), tabId, requestId, url)
    {
      if tabId !in records {
        CancelRequest(tabId, requestId, url);
        return false;
      }
      cancelEarly := false;
      var record := records[tabId];
      if requestId in record.requestIds || url in record.urls {
        cancelEarly := true;
      }
      record := record.(requestIds := record.requestIds + {requestId});
      record := record.(urls := record.urls + {url});
      records := records[tabId := record];
    }

    /**
     * The `onCompleted` and `onErrorOccurred` listeners and the timer callback: delete the
     * tab's record if there is one; nothing else changes.
     */
    method Clear(tabId: int)
      modifies this
      ensures records == old(records) - {tabId}
    {
      if tabId in records {
        records := records - {tabId};
      }
    }
  }
}
