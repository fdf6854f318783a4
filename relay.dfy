/**
 * The background worker of background.js: the per-tab event store fed by
 * runtime messages, and the table of tracked analytics requests fed by the
 * webRequest listeners. Pure functions say what each handler does to a
 * map; the `BackgroundWorker` class performs the same updates in place.
 */
module Relay {
  import opened Wrappers
  import opened Messages
  import opened Classifier

  /** A key of `tabData`: a tab id, or `None` for `undefined`. */
  type TabKey = Option<int>

  /** `sender.tab?.id || message.tabId`: a missing or zero sender tab id falls back to the message's. */
  function ResolveTabId(senderTabId: Option<int>, messageTabId: Option<int>): (k: TabKey)
    ensures senderTabId.Some? && senderTabId.value != 0 ==> k == senderTabId
    ensures senderTabId.None? || senderTabId == Some(0) ==> k == messageTabId
  {
    if senderTabId.Some? && senderTabId.value != 0 then senderTabId else messageTabId
  }

  // ---------------------------------------------------------------------
  // the per-tab event store

  /** `tabData.get(tabId) || []`: a stored list, even an empty one, or else the empty list. */
  function History(store: map<TabKey, seq<EventData>>, key: TabKey): (h: seq<EventData>)
    ensures key in store ==> h == store[key]
    ensures key !in store ==> h == []
  {
    if key in store then store[key] else []
  }

  /** Every tab other than `key` has the same entry, or the same absence of one, in both stores. */
  ghost predicate OthersUnchanged(before: map<TabKey, seq<EventData>>, after: map<TabKey, seq<EventData>>, key: TabKey) {
    forall k :: k != key ==> (k in after <==> k in before) && (k in before ==> after[k] == before[k])
  }

  /** `DATALAYER_EVENT`: create the tab's list if missing, then push the event onto it. */
  function Append(store: map<TabKey, seq<EventData>>, key: TabKey, e: EventData): (r: map<TabKey, seq<EventData>>)
    ensures key in r && History(r, key) == History(store, key) + [e]
    ensures OthersUnchanged(store, r, key)
  {
    var existing := if key in store then store[key] else [];
    store[key := existing + [e]]
  }

  /** `tabData.delete(tabId)` */
  function Forget(store: map<TabKey, seq<EventData>>, key: TabKey): (r: map<TabKey, seq<EventData>>)
    ensures key !in r && History(r, key) == []
    ensures OthersUnchanged(store, r, key)
  {
    store - {key}
  }

  /** A run of `DATALAYER_EVENT` messages for one tab. */
  function AppendAll(store: map<TabKey, seq<EventData>>, key: TabKey, es: seq<EventData>): map<TabKey, seq<EventData>>
    decreases |es|
  {
    if es == [] then store else AppendAll(Append(store, key, es[0]), key, es[1..])
  }

  /** A tab's history is its stored events in arrival order, and no other tab is touched. */
  lemma {:induction false} AppendAllInOrder(store: map<TabKey, seq<EventData>>, key: TabKey, es: seq<EventData>)
    ensures History(AppendAll(store, key, es), key) == History(store, key) + es
    ensures OthersUnchanged(store, AppendAll(store, key, es), key)
    decreases |es|
  {
    if es != [] {
      var next := Append(store, key, es[0]);
      AppendAllInOrder(next, key, es[1..]);
      assert History(store, key) + [es[0]] + es[1..] == History(store, key) + es;
    }
  }

  /** After a clear (or the tab's removal) the tab's history starts again from nothing. */
  lemma {:induction false} ForgetThenAppendAll(store: map<TabKey, seq<EventData>>, key: TabKey, es: seq<EventData>)
    ensures History(AppendAll(Forget(store, key), key, es), key) == es
  {
    AppendAllInOrder(Forget(store, key), key, es);
  }

  // ---------------------------------------------------------------------
  // the table of tracked requests

  /** `a` and `b` describe the same request apart from its outcome fields. */
  predicate SameRequest(a: RequestRecord, b: RequestRecord) {
    && a.requestId == b.requestId && a.url == b.url && a.httpMethod == b.httpMethod
    && a.timestamp == b.timestamp && a.tabId == b.tabId && a.requestType == b.requestType
  }

  /** Every entry other than `id` is the same in both tables. */
  ghost predicate OtherRequestsUnchanged(before: map<string, RequestRecord>, after: map<string, RequestRecord>, id: string) {
    forall k :: k != id ==> (k in after <==> k in before) && (k in before ==> after[k] == before[k])
  }

  /** `onBeforeRequest`: an analytics request is stored as pending under its id, replacing any earlier record. */
  function Track(requests: map<string, RequestRecord>, requestId: string, url: string, httpMethod: string,
                 now: int, tabId: int): (r: map<string, RequestRecord>)
    ensures !IsAnalyticsRequest(url) ==> r == requests
    ensures IsAnalyticsRequest(url) ==>
      && requestId in r
      && r[requestId].requestId == requestId && r[requestId].url == url && r[requestId].httpMethod == httpMethod
      && r[requestId].timestamp == now && r[requestId].tabId == tabId
      && r[requestId].status == Pending && r[requestId].requestType == GetRequestType(url)
      && r[requestId].requestType != Unknown
      && r[requestId].statusCode.None? && r[requestId].error.None?
    ensures OtherRequestsUnchanged(requests, r, requestId)
  {
    if IsAnalyticsRequest(url) then
      FilteredNeverUnknown(url);
      requests[requestId := RequestRecord(requestId, url, httpMethod, now, tabId, Pending, GetRequestType(url), None, None)]
    else requests
  }

  /** `onCompleted`: a known request becomes completed with its status code; an unknown id changes nothing. */
  function Complete(requests: map<string, RequestRecord>, requestId: string, statusCode: int): (r: map<string, RequestRecord>)
    ensures requestId !in requests ==> r == requests
    ensures r.Keys == requests.Keys
    ensures requestId in requests ==>
      && SameRequest(r[requestId], requests[requestId])
      && r[requestId].status == Completed && r[requestId].statusCode == Some(statusCode)
      && r[requestId].error == requests[requestId].error
    ensures OtherRequestsUnchanged(requests, r, requestId)
  {
    if requestId in requests then
      requests[requestId := requests[requestId].(status := Completed, statusCode := Some(statusCode))]
    else requests
  }

  /** `onErrorOccurred`: a known request becomes failed with its error; an unknown id changes nothing. */
  function Fail(requests: map<string, RequestRecord>, requestId: string, error: string): (r: map<string, RequestRecord>)
    ensures requestId !in requests ==> r == requests
    ensures r.Keys == requests.Keys
    ensures requestId in requests ==>
      && SameRequest(r[requestId], requests[requestId])
      && r[requestId].status == Failed && r[requestId].error == Some(error)
      && r[requestId].statusCode == requests[requestId].statusCode
    ensures OtherRequestsUnchanged(requests, r, requestId)
  {
    if requestId in requests then
      requests[requestId := requests[requestId].(status := Failed, error := Some(error))]
    else requests
  }

  /** One webRequest notification. */
  datatype NetworkEvent =
    | BeforeRequest(requestId: string, url: string, httpMethod: string, now: int, tabId: int)
    | RequestCompleted(requestId: string, statusCode: int)
    | ErrorOccurred(requestId: string, error: string)

  function Apply(requests: map<string, RequestRecord>, ev: NetworkEvent): map<string, RequestRecord> {
    match ev
    case BeforeRequest(id, url, m, now, tabId) => Track(requests, id, url, m, now, tabId)
    case RequestCompleted(id, code) => Complete(requests, id, code)
    case ErrorOccurred(id, error) => Fail(requests, id, error)
  }

  function ApplyAll(requests: map<string, RequestRecord>, evs: seq<NetworkEvent>): map<string, RequestRecord>
    decreases |evs|
  {
    if evs == [] then requests else ApplyAll(Apply(requests, evs[0]), evs[1..])
  }

  /** Every stored record is filed under its own id and has a known type. */
  predicate WellFiled(requests: map<string, RequestRecord>) {
    forall id :: id in requests ==> requests[id].requestId == id && requests[id].requestType != Unknown
  }

  /**
   * No notification removes a tracked request, and every stored record stays
   * filed under its own id with a type other than `Unknown`.
   */
  lemma {:induction false} ApplyAllKeepsRecords(requests: map<string, RequestRecord>, evs: seq<NetworkEvent>)
    requires WellFiled(requests)
    ensures requests.Keys <= ApplyAll(requests, evs).Keys
    ensures WellFiled(ApplyAll(requests, evs))
    decreases |evs|
  {
    if evs != [] {
      var next := Apply(requests, evs[0]);
      assert requests.Keys <= next.Keys;
      assert WellFiled(next);
      ApplyAllKeepsRecords(next, evs[1..]);
    }
  }

  /** A completion or error for an id the table has never held leaves the whole table as it was. */
  lemma {:induction false} UnknownIdsIgnored(requests: map<string, RequestRecord>, evs: seq<NetworkEvent>)
    requires forall k :: 0 <= k < |evs| ==> !evs[k].BeforeRequest? && evs[k].requestId !in requests
    ensures ApplyAll(requests, evs) == requests
    decreases |evs|
  {
    if evs != [] {
      assert Apply(requests, evs[0]) == requests;
      UnknownIdsIgnored(requests, evs[1..]);
    }
  }

  // ---------------------------------------------------------------------
  // the worker

  /** What the message listener hands to `sendResponse`. */
  datatype Response = Success | TabEvents(events: seq<EventData>) | NoResponse

  /** The broadcasts to the panel (`NETWORK_REQUEST`, `..._COMPLETED`, `..._FAILED`). */
  datatype Notice =
    | NetworkRequest(record: RequestRecord)
    | NetworkRequestCompleted(record: RequestRecord)
    | NetworkRequestFailed(record: RequestRecord)

  class BackgroundWorker {
    var tabData: map<TabKey, seq<EventData>>
    var networkRequests: map<string, RequestRecord>

    ghost predicate Valid()
      reads this
    {
      WellFiled(networkRequests)
    }

    constructor ()
      ensures Valid() && tabData == map[] && networkRequests == map[]
    {
      tabData := map[];
      networkRequests := map[];
    }

    /** The `chrome.runtime.onMessage` listener. */
    method OnMessage(message: RuntimeMessage, senderTabId: Option<int>) returns (response: Response)
      modifies this`tabData
      ensures match message
        case DatalayerEvent(data, tabId) =>
          tabData == Append(old(tabData), ResolveTabId(senderTabId, tabId), data) && response == Success
        case GetTabData(tabId) =>
          tabData == old(tabData) && response == TabEvents(History(tabData, tabId))
        case ClearTabData(tabId) =>
          tabData == Forget(old(tabData), tabId) && response == Success
        case Unrecognised =>
          tabData == old(tabData) && response == NoResponse
    {
      match message {
        case DatalayerEvent(data, tabId) =>
          var key := ResolveTabId(senderTabId, tabId);
          if key !in tabData {
            tabData := tabData[key := []];
          }
          tabData := tabData[key := tabData[key] + [data]];
          response := Success;
        case GetTabData(tabId) =>
          response := TabEvents(if tabId in tabData then tabData[tabId] else []);
        case ClearTabData(tabId) =>
          tabData := tabData - {tabId};
          response := Success;
        case Unrecognised =>
          response := NoResponse;
      }
    }

    /** The `chrome.tabs.onRemoved` listener. */
    method OnTabRemoved(tabId: int)
      modifies this`tabData
      ensures tabData == Forget(old(tabData), Some(tabId))
    {
      tabData := tabData - {Some(tabId)};
    }

    /** The `onBeforeRequest` listener; the notice is what it broadcasts, if anything. */
    method OnBeforeRequest(requestId: string, url: string, httpMethod: string, now: int, tabId: int)
      returns (notice: Option<Notice>)
      requires Valid()
      modifies this`networkRequests
      ensures Valid()
      ensures networkRequests == Track(old(networkRequests), requestId, url, httpMethod, now, tabId)
      ensures notice.Some? <==> IsAnalyticsRequest(url)
      ensures notice.Some? ==> notice.value == NetworkRequest(networkRequests[requestId])
    {
      if IsAnalyticsRequest(url) {
        FilteredNeverUnknown(url);
        var info := RequestRecord(requestId, url, httpMethod, now, tabId, Pending, GetRequestType(url), None, None);
        networkRequests := networkRequests[requestId := info];
        notice := Some(NetworkRequest(info));
      } else {
        notice := None;
      }
    }

    /** The `onCompleted` listener. */
    method OnCompleted(requestId: string, statusCode: int) returns (notice: Option<Notice>)
      requires Valid()
      modifies this`networkRequests
      ensures Valid()
      ensures networkRequests == Complete(old(networkRequests), requestId, statusCode)
      ensures notice.Some? <==> requestId in networkRequests
      ensures notice.Some? ==> notice.value == NetworkRequestCompleted(networkRequests[requestId])
    {
      if requestId in networkRequests {
        var info := networkRequests[requestId].(status := Completed, statusCode := Some(statusCode));
        networkRequests := networkRequests[requestId := info];
        notice := Some(NetworkRequestCompleted(info));
      } else {
        notice := None;
      }
    }

    /** The `onErrorOccurred` listener. */
    method OnErrorOccurred(requestId: string, error: string) returns (notice: Option<Notice>)
      requires Valid()
      modifies this`networkRequests
      ensures Valid()
      ensures networkRequests == Fail(old(networkRequests), requestId, error)
      ensures notice.Some? <==> requestId in networkRequests
      ensures notice.Some? ==> notice.value == NetworkRequestFailed(networkRequests[requestId])
    {
      if requestId in networkRequests {
        var info := networkRequests[requestId].(status := Failed, error := Some(error));
        networkRequests := networkRequests[requestId := info];
        notice := Some(NetworkRequestFailed(info));
      } else {
        notice := None;
      }
    }
  }
}
