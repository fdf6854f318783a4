/**
 * The DevTools panel's state in panel.js: the append-only event list with
 * navigation markers, the map from an event's position to the analytics
 * request attributed to it, the selection, the persist switch and the
 * first GA4 measurement id seen. Rendering is not modelled.
 */
module Panel {
  import opened Wrappers
  import opened Js
  import opened Messages
  import opened Relay

  /** An element of the panel's `events` array. */
  datatype PanelEntry =
    | Captured(event: EventData)
    | NavigationMarker(index: nat, timestamp: int, url: string)

  /** The entries `addEvent` appends for a list of events, in order. */
  function CapturedAll(es: seq<EventData>): (r: seq<PanelEntry>)
    ensures |r| == |es| && forall k :: 0 <= k < |es| ==> r[k] == Captured(es[k])
  {
    seq(|es|, k requires 0 <= k < |es| => Captured(es[k]))
  }

  /** The runtime messages the panel's listener tells apart. */
  datatype PanelMessage =
    | Event(data: EventData)     // DATALAYER_EVENT
    | Network(notice: Notice)    // NETWORK_REQUEST, NETWORK_REQUEST_COMPLETED, NETWORK_REQUEST_FAILED
    | Ignored                    // any other type

  // ---------------------------------------------------------------------
  // the request map: a JavaScript Map from event position to request, in insertion order

  type RequestMap = seq<(int, RequestRecord)>

  function Keys(m: RequestMap): (ks: seq<int>)
    ensures |ks| == |m| && forall p :: 0 <= p < |m| ==> ks[p] == m[p].0
  {
    seq(|m|, p requires 0 <= p < |m| => m[p].0)
  }

  predicate DistinctKeys(m: RequestMap) {
    forall p, q :: 0 <= p < q < |m| ==> m[p].0 != m[q].0
  }

  /** The first position of `k` in `ks`. */
  function IndexOf(ks: seq<int>, k: int): (r: Option<nat>)
    ensures r.Some? ==> r.value < |ks| && ks[r.value] == k
    ensures r.Some? ==> forall q :: 0 <= q < r.value ==> ks[q] != k
    ensures r.None? <==> k !in ks
    decreases |ks|
  {
    if ks == [] then None
    else if ks[0] == k then Some(0)
    else
      match IndexOf(ks[1..], k)
      case None => None
      case Some(p) =>
        assert forall q :: 1 <= q < p + 1 ==> ks[q] == ks[1..][q - 1];
        Some(p + 1)
  }

  /** Appending keys does not move the first position of a key already present. */
  lemma {:induction false} IndexOfPrefix(ks: seq<int>, extra: seq<int>, k: int)
    requires k in ks
    ensures IndexOf(ks + extra, k) == IndexOf(ks, k)
    decreases |ks|
  {
    if ks[0] != k {
      assert (ks + extra)[1..] == ks[1..] + extra;
      IndexOfPrefix(ks[1..], extra, k);
    }
  }

  /** With distinct keys, the first position of an entry's key is that entry's position. */
  lemma IndexOfDistinct(m: RequestMap, p: nat)
    requires DistinctKeys(m) && p < |m|
    ensures IndexOf(Keys(m), m[p].0) == Some(p)
  {
  }

  /** `map.get(key)`: the record stored under `key`, if any. */
  function Lookup(m: RequestMap, key: int): (r: Option<RequestRecord>)
    ensures r.Some? <==> key in Keys(m)
  {
    match IndexOf(Keys(m), key)
    case None => None
    case Some(p) => Some(m[p].1)
  }

  /** A record found under `key` is the record of the first entry with that key. */
  lemma LookupFirstEntry(m: RequestMap, key: int)
    ensures Lookup(m, key).Some? ==> exists p :: 0 <= p < |m| && m[p] == (key, Lookup(m, key).value)
                                               && forall q :: 0 <= q < p ==> m[q].0 != key
  {
    match IndexOf(Keys(m), key)
    case None =>
    case Some(p) =>
      assert m[p] == (key, Lookup(m, key).value);
  }

  /** With distinct keys, the record found under an entry's key is that entry's record. */
  lemma LookupEntry(m: RequestMap, p: nat)
    requires DistinctKeys(m) && p < |m|
    ensures Lookup(m, m[p].0) == Some(m[p].1)
  {
    IndexOfDistinct(m, p);
  }

  /** `map.set(key, value)`: an existing key keeps its place, a new one goes last. */
  function MapSet(m: RequestMap, key: int, value: RequestRecord): (r: RequestMap)
    ensures Keys(r) == if key in Keys(m) then Keys(m) else Keys(m) + [key]
    ensures Lookup(r, key) == Some(value)
    ensures forall k :: k != key ==> Lookup(r, k) == Lookup(m, k)
  {
    match IndexOf(Keys(m), key)
    case Some(p) =>
      var r := m[p := (key, value)];
      assert Keys(r) == Keys(m);
      r
    case None =>
      var r := m + [(key, value)];
      assert Keys(r) == Keys(m) + [key];
      forall k | k != key
        ensures Lookup(r, k) == Lookup(m, k)
      {
        if k in Keys(m) {
          IndexOfPrefix(Keys(m), [key], k);
        }
      }
      r
  }

  /** Distinct keys stay distinct under `set`. */
  lemma MapSetDistinct(m: RequestMap, key: int, value: RequestRecord)
    requires DistinctKeys(m)
    ensures DistinctKeys(MapSet(m, key, value))
  {
    var r := MapSet(m, key, value);
    forall p, q | 0 <= p < q < |r|
      ensures r[p].0 != r[q].0
    {
      assert Keys(r)[p] == r[p].0 && Keys(r)[q] == r[q].0;
      if key !in Keys(m) && q == |m| {
        assert Keys(m)[p] == m[p].0;
      } else {
        assert Keys(m)[p] == m[p].0 && Keys(m)[q] == m[q].0;
      }
    }
  }

  /** Setting the key of position `p` in a map with distinct keys replaces that entry in place. */
  lemma MapSetAt(m: RequestMap, p: nat, value: RequestRecord)
    requires DistinctKeys(m) && p < |m|
    ensures MapSet(m, m[p].0, value) == m[p := (m[p].0, value)]
  {
    IndexOfDistinct(m, p);
  }

  /** The position of the first entry, in map order, whose request has the given id. */
  function FirstWithRequestId(m: RequestMap, requestId: string): (r: Option<nat>)
    ensures r.Some? ==> r.value < |m| && m[r.value].1.requestId == requestId
    ensures r.Some? ==> forall q :: 0 <= q < r.value ==> m[q].1.requestId != requestId
    ensures r.None? ==> forall q :: 0 <= q < |m| ==> m[q].1.requestId != requestId
    decreases |m|
  {
    if m == [] then None
    else if m[0].1.requestId == requestId then Some(0)
    else
      match FirstWithRequestId(m[1..], requestId)
      case None => None
      case Some(p) =>
        assert forall q :: 1 <= q < p + 1 ==> m[q] == m[1..][q - 1];
        Some(p + 1)
  }

  /**
   * `handleNetworkRequest`'s effect on the map: the request is attributed to
   * the latest of `n` entries, replacing what that entry had; a key already
   * present keeps its place in map order and a new one goes last; with no
   * entries nothing changes.
   */
  function Attributed(m: RequestMap, n: nat, request: RequestRecord): (r: RequestMap)
    ensures n == 0 ==> r == m
    ensures n > 0 ==> Lookup(r, n - 1) == Some(request)
    ensures forall k :: k != n - 1 ==> Lookup(r, k) == Lookup(m, k)
    ensures forall k :: k in Keys(r) ==> k in Keys(m) || k == n - 1
    ensures n > 0 ==> Keys(r) == if n - 1 in Keys(m) then Keys(m) else Keys(m) + [n - 1]
  {
    if n == 0 then m else MapSet(m, n - 1, request)
  }

  /**
   * `updateNetworkRequest`'s effect on the map: the first entry in map order
   * holding a request with the same id takes the new record; the keys, their
   * order and every other entry stay.
   */
  function Replaced(m: RequestMap, request: RequestRecord): (r: RequestMap)
    ensures Keys(r) == Keys(m)
    ensures FirstWithRequestId(m, request.requestId).None? ==> r == m
    ensures FirstWithRequestId(m, request.requestId).Some? ==>
      var p := FirstWithRequestId(m, request.requestId).value;
      r[p] == (m[p].0, request) && forall q :: 0 <= q < |m| && q != p ==> r[q] == m[q]
  {
    match FirstWithRequestId(m, request.requestId)
    case None => m
    case Some(p) =>
      var r := m[p := (m[p].0, request)];
      assert Keys(r) == Keys(m);
      r
  }

  /** Every key names a position of the event list. */
  predicate KeysWithin(m: RequestMap, n: nat) {
    forall k :: k in Keys(m) ==> 0 <= k < n
  }

  /** Attributing a request to the latest of `n` entries keeps the keys distinct and below `n`. */
  lemma AttributedWithin(m: RequestMap, n: nat, request: RequestRecord)
    requires DistinctKeys(m) && KeysWithin(m, n)
    ensures DistinctKeys(Attributed(m, n, request)) && KeysWithin(Attributed(m, n, request), n)
  {
    if n > 0 {
      MapSetDistinct(m, n - 1, request);
    }
  }

  // ---------------------------------------------------------------------
  // the GA4 measurement id

  /** A truthy id: present and not the empty string. */
  predicate IdTruthy(id: Option<string>) {
    id.Some? && id.value != ""
  }

  /** Some event of `es` carries `id`. */
  ghost predicate CarriedBy(es: seq<EventData>, id: Option<string>) {
    exists k :: 0 <= k < |es| && es[k].ga4PropertyId == id
  }

  /** The panel's id after `addEvent` has seen each of `es`, starting from `current`. */
  function KnownId(current: Option<string>, es: seq<EventData>): (r: Option<string>)
    ensures r == current || (IdTruthy(r) && CarriedBy(es, r))
    decreases |es|
  {
    if es == [] then current
    else
      var next := if IdTruthy(es[0].ga4PropertyId) && !IdTruthy(current) then es[0].ga4PropertyId else current;
      var r := KnownId(next, es[1..]);
      assert r != current ==> IdTruthy(r) && CarriedBy(es, r) by {
        if r != current && r != next {
          var k :| 0 <= k < |es[1..]| && es[1..][k].ga4PropertyId == r;
          assert es[k + 1].ga4PropertyId == r;
        }
        if r != current && r == next {
          assert es[0].ga4PropertyId == r;
        }
      }
      r
  }

  /** Once an id is known, no later event replaces it. */
  lemma {:induction false} KnownIdKept(current: Option<string>, es: seq<EventData>)
    requires IdTruthy(current)
    ensures KnownId(current, es) == current
    decreases |es|
  {
    if es != [] {
      KnownIdKept(current, es[1..]);
    }
  }

  /** Without a known id, the panel adopts the id of the first event that carries one, or keeps what it had. */
  lemma {:induction false} KnownIdFirstWins(current: Option<string>, es: seq<EventData>)
    requires !IdTruthy(current)
    ensures (forall k :: 0 <= k < |es| ==> !IdTruthy(es[k].ga4PropertyId)) ==> KnownId(current, es) == current
    ensures forall p ::
      (0 <= p < |es| && IdTruthy(es[p].ga4PropertyId) && (forall k :: 0 <= k < p ==> !IdTruthy(es[k].ga4PropertyId)))
      ==> KnownId(current, es) == es[p].ga4PropertyId
    decreases |es|
  {
    if es != [] {
      if IdTruthy(es[0].ga4PropertyId) {
        KnownIdKept(es[0].ga4PropertyId, es[1..]);
      } else {
        assert KnownId(current, es) == KnownId(current, es[1..]);
        KnownIdFirstWins(current, es[1..]);
        assert forall k :: 0 <= k < |es[1..]| ==> es[1..][k] == es[k + 1];
        forall p | 0 < p < |es| && IdTruthy(es[p].ga4PropertyId)
                   && (forall k :: 0 <= k < p ==> !IdTruthy(es[k].ga4PropertyId))
          ensures KnownId(current, es) == es[p].ga4PropertyId
        {
          assert es[1..][p - 1] == es[p];
        }
      }
    }
  }

  // ---------------------------------------------------------------------
  // display helpers

  /** `getEventName(data)`: the label shown for an event; never falsy. */
  function GetEventName(data: JsValue): (r: JsValue)
    ensures Truthy(r)
    ensures !Truthy(data) ==> r == Str("Unknown")
    ensures Truthy(data) && data.Str? ==> r == data
    ensures Truthy(data) && !data.Str? ==>
      if Truthy(Get(data, "event")) then r == Get(data, "event")
      else if Truthy(Get(data, "gtm.element")) then r == Get(data, "gtm.element")
      else if Truthy(Get(data, "0")) then r == Get(data, "0")
      else r == Str("dataLayer.push")
  {
    if !Truthy(data) then Str("Unknown")
    else if data.Str? then data
    else if Truthy(Get(data, "event")) then Get(data, "event")
    else if Truthy(Get(data, "gtm.element")) then Get(data, "gtm.element")
    else if Truthy(Get(data, "0")) then Get(data, "0")
    else Str("dataLayer.push")
  }

  /** A push whose `event` key is a non-empty string is labelled by it. */
  lemma EventKeyNamesThePush(props: seq<(string, JsValue)>, name: string)
    requires name != ""
    requires FindKey(props, "event").Some? && props[FindKey(props, "event").value].1 == Str(name)
    ensures GetEventName(Object(props)) == Str(name)
  {
  }

  /** The CSS class of a request's indicator. */
  function StatusClass(status: RequestStatus): (c: string)
    ensures c == "" <==> status == Completed
    ensures c == "failed" <==> status == Failed
    ensures c == "pending" <==> status == Pending
  {
    assert "failed"[0] != "pending"[0];
    match status
    case Completed => ""
    case Failed => "failed"
    case Pending => "pending"
  }

  /** `getNetworkIndicator(index)`: no indicator without a request, otherwise its class and type. */
  function NetworkIndicator(m: RequestMap, eventIndex: int): (r: Option<(string, RequestType)>)
    ensures r.Some? <==> eventIndex in Keys(m)
    ensures r.Some? ==> r.value == (StatusClass(Lookup(m, eventIndex).value.status), Lookup(m, eventIndex).value.requestType)
  {
    match Lookup(m, eventIndex)
    case None => None
    case Some(request) => Some((StatusClass(request.status), request.requestType))
  }

  const MaxUrlLength := 50

  /** `truncateUrl(url)`: at most 50 characters, a long URL cut to 47 and marked with "...". */
  function TruncateUrl(url: string): (r: string)
    ensures |r| <= MaxUrlLength
    ensures |url| <= MaxUrlLength ==> r == url
    ensures |url| > MaxUrlLength ==> |r| == MaxUrlLength && r[..47] == url[..47] && r[47..] == "..."
  {
    if |url| > MaxUrlLength then url[..47] + "..." else url
  }

  /** Truncating twice is truncating once. */
  lemma TruncateIdempotent(url: string)
    ensures TruncateUrl(TruncateUrl(url)) == TruncateUrl(url)
  {
  }

  // ---------------------------------------------------------------------
  // the panel

  class PanelState {
    var events: seq<PanelEntry>
    var selectedEventIndex: Option<int>
    var networkRequests: RequestMap
    var persistEnabled: bool
    var ga4PropertyId: Option<string>

    /** Request-map keys are distinct positions of the event list. */
    ghost predicate Valid()
      reads this
    {
      DistinctKeys(networkRequests) && KeysWithin(networkRequests, |events|)
    }

    constructor ()
      ensures Valid()
      ensures events == [] && selectedEventIndex.None? && networkRequests == []
      ensures persistEnabled && ga4PropertyId.None?
    {
      events := [];
      selectedEventIndex := None;
      networkRequests := [];
      persistEnabled := true;
      ga4PropertyId := None;
    }

    /** `addEvent(eventData)` */
    method AddEvent(e: EventData)
      requires Valid()
      modifies this`events, this`ga4PropertyId
      ensures Valid()
      ensures events == old(events) + [Captured(e)]
      ensures ga4PropertyId == KnownId(old(ga4PropertyId), [e])
    {
      events := events + [Captured(e)];
      if IdTruthy(e.ga4PropertyId) && !IdTruthy(ga4PropertyId) {
        ga4PropertyId := e.ga4PropertyId;
      }
    }

    /** `response.data.forEach(event => addEvent(event))` on the stored events of the tab. */
    method AddEvents(es: seq<EventData>)
      requires Valid()
      modifies this`events, this`ga4PropertyId
      ensures Valid()
      ensures events == old(events) + CapturedAll(es)
      ensures ga4PropertyId == KnownId(old(ga4PropertyId), es)
    {
      var i := 0;
      while i < |es|
        invariant 0 <= i <= |es|
        invariant Valid()
        invariant events == old(events) + CapturedAll(es[..i])
        invariant KnownId(old(ga4PropertyId), es) == KnownId(ga4PropertyId, es[i..])
      {
        assert es[i..][1..] == es[i + 1..];
        AddEvent(es[i]);
        assert CapturedAll(es[..i + 1]) == CapturedAll(es[..i]) + [Captured(es[i])];
        i := i + 1;
      }
      assert es[..i] == es;
    }

    /** `addNavigationMarker(url)`: the marker's index is its own position in the list. */
    method AddNavigationMarker(url: string, now: int)
      requires Valid()
      modifies this`events
      ensures Valid()
      ensures events == old(events) + [NavigationMarker(|old(events)|, now, url)]
      ensures events[|events| - 1].index == |events| - 1
    {
      events := events + [NavigationMarker(|events|, now, url)];
    }

    /** `handleNetworkRequest(request)`: attribute the request to the latest entry, if there is one. */
    method HandleNetworkRequest(request: RequestRecord)
      requires Valid()
      modifies this`networkRequests
      ensures networkRequests == Attributed(old(networkRequests), |events|, request)
      ensures Valid()
    {
      AttributedWithin(networkRequests, |events|, request);
      var recentEventIndex := |events| - 1;
      if recentEventIndex >= 0 {
        ghost var before := networkRequests;
        networkRequests := MapSet(networkRequests, recentEventIndex, request);
        assert networkRequests == Attributed(before, recentEventIndex + 1, request);
      }
    }

    /**
     * `updateNetworkRequest(request)`: the first entry in map order with the
     * same `requestId` takes the new record; keys and other entries stay.
     */
    method UpdateNetworkRequest(request: RequestRecord)
      requires Valid()
      modifies this`networkRequests
      ensures Valid()
      ensures networkRequests == Replaced(old(networkRequests), request)
    {
      var entries := networkRequests;
      var i := 0;
      while i < |entries|
        invariant 0 <= i <= |entries|
        invariant networkRequests == entries
        invariant forall q :: 0 <= q < i ==> entries[q].1.requestId != request.requestId
      {
        if entries[i].1.requestId == request.requestId {
          MapSetAt(entries, i, request);
          networkRequests := MapSet(networkRequests, entries[i].0, request);
          assert FirstWithRequestId(entries, request.requestId) == Some(i);
          assert Keys(networkRequests) == Keys(entries);
          return;
        }
        i := i + 1;
      }
    }

    /** The panel's runtime-message listener: captured events and the background's request broadcasts. */
    method OnMessage(message: PanelMessage)
      requires Valid()
      modifies this`events, this`ga4PropertyId, this`networkRequests
      ensures Valid()
      ensures message.Event? ==>
        && events == old(events) + [Captured(message.data)]
        && ga4PropertyId == KnownId(old(ga4PropertyId), [message.data])
        && networkRequests == old(networkRequests)
      ensures !message.Event? ==> events == old(events) && ga4PropertyId == old(ga4PropertyId)
      ensures message.Network? ==>
        networkRequests == if message.notice.NetworkRequest? then Attributed(old(networkRequests), |events|, message.notice.record)
                           else Replaced(old(networkRequests), message.notice.record)
      ensures message.Ignored? ==> networkRequests == old(networkRequests)
    {
      match message {
        case Event(data) =>
          AddEvent(data);
        case Network(notice) =>
          if notice.NetworkRequest? {
            HandleNetworkRequest(notice.record);
          } else {
            UpdateNetworkRequest(notice.record);
          }
        case Ignored =>
      }
    }

    /** `selectEvent(index)` */
    method SelectEvent(index: int)
      modifies this`selectedEventIndex
      ensures selectedEventIndex == Some(index)
    {
      selectedEventIndex := Some(index);
    }

    /**
     * `clearAllEvents()`: empties the panel and, with an active tab, asks the
     * background to drop that tab's stored events.
     */
    method ClearAllEvents(activeTab: Option<int>) returns (message: Option<RuntimeMessage>)
      modifies this`events, this`networkRequests, this`selectedEventIndex
      ensures Valid()
      ensures events == [] && networkRequests == [] && selectedEventIndex.None?
      ensures message == if activeTab.Some? then Some(ClearTabData(activeTab)) else None
    {
      events := [];
      networkRequests := [];
      selectedEventIndex := None;
      message := if activeTab.Some? then Some(ClearTabData(activeTab)) else None;
    }

    /**
     * `refreshDataLayer()`: without the refresh icon nothing happens;
     * otherwise the panel is emptied and, with an active tab, a message
     * without a `type` field is sent, which the background listener does not
     * recognise.
     */
    method RefreshDataLayer(iconFound: bool, activeTab: Option<int>) returns (message: Option<RuntimeMessage>)
      requires Valid()
      modifies this`events, this`networkRequests, this`selectedEventIndex
      ensures Valid()
      ensures !iconFound ==>
        && events == old(events) && networkRequests == old(networkRequests)
        && selectedEventIndex == old(selectedEventIndex) && message.None?
      ensures iconFound ==>
        && events == [] && networkRequests == [] && selectedEventIndex.None?
        && message == if activeTab.Some? then Some(Unrecognised) else None
    {
      if !iconFound {
        return None;
      }
      events := [];
      networkRequests := [];
      selectedEventIndex := None;
      message := if activeTab.Some? then Some(Unrecognised) else None;
    }

    /** `togglePersist()` */
    method TogglePersist()
      modifies this`persistEnabled
      ensures persistEnabled == !old(persistEnabled)
    {
      persistEnabled := !persistEnabled;
    }

    /** The `onNavigated` listener: mark the navigation when persisting, otherwise clear everything. */
    method OnNavigated(url: string, now: int, activeTab: Option<int>) returns (message: Option<RuntimeMessage>)
      requires Valid()
      modifies this`events, this`networkRequests, this`selectedEventIndex
      ensures Valid()
      ensures persistEnabled ==>
        && events == old(events) + [NavigationMarker(|old(events)|, now, url)]
        && networkRequests == old(networkRequests) && selectedEventIndex == old(selectedEventIndex)
        && message.None?
      ensures !persistEnabled ==>
        && events == [] && networkRequests == [] && selectedEventIndex.None?
        && message == if activeTab.Some? then Some(ClearTabData(activeTab)) else None
    {
      if persistEnabled {
        AddNavigationMarker(url, now);
        message := None;
      } else {
        message := ClearAllEvents(activeTab);
      }
    }
  }
}
