/**
 * The page-side interceptor of injected.js as a stateful object: the
 * injection sentinel, `window.dataLayer`, the setter trap, the fingerprint
 * set, the event counter and the outbox of `window.postMessage`. Every
 * method is proved to follow the functions of module `Dedup`.
 */
module Interceptor {
  import opened Wrappers
  import opened Js
  import opened Messages
  import opened Window
  import opened EventFingerprint
  import opened Probes
  import opened Dedup

  /** What a call of `dataLayer.push(...)` does for its caller: the value it returns, or an exception. */
  datatype PushResult = Returned(value: JsValue) | Raised

  /** A `push` as a function of the array's items and the arguments: the new items and the outcome. */
  type PushFunction = (seq<JsValue>, seq<JsValue>) -> (seq<JsValue>, PushResult)

  /** `Array.prototype.push`: appends the arguments and returns the new length. */
  function NativePush(items: seq<JsValue>, args: seq<JsValue>): (seq<JsValue>, PushResult) {
    (items + args, Returned(Number(|items| + |args|)))
  }

  /** With the native push, a detected property and cloneable arguments, no wrapper raises and the push appends every argument. */
  lemma NativePushOutcome(start: Tracker, args: seq<JsValue>, depth: nat, env: PageEnv,
                          clocks: seq<seq<CallTime>>, items0: seq<JsValue>,
                          basePush: PushFunction)
    requires LayerClocks(clocks, depth, |args|)
    ensures (basePush == NativePush && DetectGA4PropertyId(env, Some(items0)).Detected? && AllCloneable(env, args)) ==>
      !SendLayers(start, args, depth, env, clocks, Some(items0)).threw
      && basePush(items0, args) == (items0 + args, Returned(Number(|items0| + |args|)))
  {
    if basePush == NativePush && DetectGA4PropertyId(env, Some(items0)).Detected? && AllCloneable(env, args) {
      SendLayersNeverRaises(start, args, depth, env, clocks, Some(items0));
    }
  }

  /**
   * A JavaScript array used as the dataLayer. `basePush` is the `push` the
   * first interceptor wrapper captured (`Array.prototype.push`, or the
   * function gtm.js or gtag.js installed before the script ran);
   * `wrapDepth` counts the interceptor wrappers stacked on top of it.
   */
  class DataLayerArray {
    var items: seq<JsValue>
    var wrapDepth: nat
    const basePush: PushFunction

    constructor (items: seq<JsValue>, basePush: PushFunction)
      ensures this.items == items && wrapDepth == 0 && this.basePush == basePush
    {
      this.items := items;
      wrapDepth := 0;
      this.basePush := basePush;
    }
  }

  class Page {
    /** `window.__DATALAYER_VISUALIZER_INJECTED__` */
    var injected: bool
    /** `window.dataLayer` when it holds an array (null otherwise) */
    var dataLayer: DataLayerArray?
    /** whether `Object.defineProperty(window, 'dataLayer', ...)` has been installed */
    var trapInstalled: bool
    /** `seenEvents`, in insertion order */
    var seen: seq<string>
    /** `eventIndex` */
    var eventIndex: nat
    /** the `DATALAYER_PUSH` messages posted to the window, in order */
    var posted: seq<EventData>

    function State(): Tracker
      reads this
    {
      Tracker(seen, eventIndex, posted)
    }

    /** `window.dataLayer` as the GA4 probe sees it. */
    function Layer(): Option<seq<JsValue>>
      reads this, dataLayer
    {
      if dataLayer == null then None else Some(dataLayer.items)
    }

    ghost predicate Valid()
      reads this
    {
      Dedup.Valid(State())
    }

    /** A page before the script runs, with or without a dataLayer array. */
    constructor (existing: DataLayerArray?)
      ensures Valid()
      ensures !injected && !trapInstalled && dataLayer == existing
      ensures State() == Initial()
    {
      injected := false;
      dataLayer := existing;
      trapInstalled := false;
      seen := [];
      eventIndex := 0;
      posted := [];
    }

    /**
     * `seenEvents.add(fp)` followed by the eviction of the oldest
     * `EvictCount` fingerprints once the set exceeds `MaxSeen`.
     */
    method Remember(fp: string)
      requires Valid() && fp !in seen
      modifies this`seen
      ensures Valid()
      ensures seen == Dedup.Remember(old(seen), fp)
    {
      AddDistinct(seen, fp);
      seen := seen + [fp];
      if |seen| > MaxSeen {
        var entries := seen;
        var i := 0;
        while i < EvictCount
          invariant 0 <= i <= EvictCount
          invariant seen == entries[i..]
        {
          EvictStep(entries, i);
          seen := Without(seen, entries[i]);
          i := i + 1;
        }
      }
    }

    /**
     * `sendDataLayerEvent(event)` with clock readings `now`; `threw` when the
     * GA4 probe or `postMessage` raised.
     */
    method SendDataLayerEvent(event: JsValue, env: PageEnv, now: CallTime) returns (threw: bool)
      requires Valid()
      modifies this`seen, this`eventIndex, this`posted
      ensures Valid()
      ensures Sent(State(), threw) == Send(old(State()), event, env, now, Layer())
    {
      ghost var t := State();
      ghost var layer := Layer();
      var fp := Fingerprint(event, env.stringify, now.atFingerprint);
      if fp in seen {
        return false;
      }
      Remember(fp);
      var index := eventIndex;
      eventIndex := eventIndex + 1;
      var preview := DetectGtmPreview(env);
      var probe := DetectGA4PropertyId(env, Layer());
      assert Layer() == layer;
      if probe.Threw? || !env.cloneable(event) {
        threw := true;
      } else {
        posted := posted + [EventData(index, now.atStamp, env.href, event, preview, probe.id)];
        threw := false;
      }
      SendOutcome(t, event, env, now, layer);
    }

    /** `events.forEach(event => sendDataLayerEvent(event))`, ended early by an exception. */
    method SendEach(events: seq<JsValue>, env: PageEnv, clock: seq<CallTime>) returns (threw: bool)
      requires Valid() && |clock| == |events|
      modifies this`seen, this`eventIndex, this`posted
      ensures Valid()
      ensures Sent(State(), threw) == SendAll(old(State()), events, env, clock, Layer())
    {
      ghost var start, layer := State(), Layer();
      var i := 0;
      while i < |events|
        invariant 0 <= i <= |events|
        invariant Valid() && Layer() == layer
        invariant SendAll(start, events, env, clock, layer) == SendAll(State(), events[i..], env, clock[i..], layer)
      {
        assert events[i..][0] == events[i] && events[i..][1..] == events[i + 1..];
        assert clock[i..][0] == clock[i] && clock[i..][1..] == clock[i + 1..];
        SendAllStep(State(), events[i..], env, clock[i..], layer);
        threw := SendDataLayerEvent(events[i], env, clock[i]);
        if threw {
          return;
        }
        i := i + 1;
      }
      threw := false;
    }

    /**
     * The script's activation. A second activation in the same window changes
     * nothing. Otherwise an existing dataLayer has its items reported and its
     * push wrapped (unless reporting raised); without one, the setter trap is
     * installed.
     */
    method Activate(env: PageEnv, clock: seq<CallTime>) returns (threw: bool)
      requires Valid() && (dataLayer != null ==> |clock| == |dataLayer.items|)
      modifies this, dataLayer
      ensures Valid() && injected && dataLayer == old(dataLayer)
      ensures old(injected) ==>
        && !threw && State() == old(State()) && trapInstalled == old(trapInstalled)
        && (dataLayer != null ==> dataLayer.items == old(dataLayer.items) && dataLayer.wrapDepth == old(dataLayer.wrapDepth))
      ensures !old(injected) && dataLayer == null ==>
        !threw && trapInstalled && State() == old(State())
      ensures !old(injected) && dataLayer != null ==>
        && Sent(State(), threw) == SendAll(old(State()), old(dataLayer.items), env, clock, Some(old(dataLayer.items)))
        && trapInstalled == old(trapInstalled)
        && dataLayer.items == old(dataLayer.items)
        && dataLayer.wrapDepth == old(dataLayer.wrapDepth) + (if threw then 0 else 1)
    {
      if injected {
        return false;
      }
      injected := true;
      if dataLayer != null {
        threw := SendEach(dataLayer.items, env, clock);
        if !threw {
          dataLayer.wrapDepth := dataLayer.wrapDepth + 1;
        }
      } else {
        trapInstalled := true;
        threw := false;
      }
    }

    /**
     * The reports of `depth` stacked wrappers: the outermost wrapper calls
     * `sendDataLayerEvent` on every argument, then hands the push to the
     * wrapper it captured, until one raises.
     */
    method ReportLayers(args: seq<JsValue>, env: PageEnv, clocks: seq<seq<CallTime>>, depth: nat) returns (threw: bool)
      requires Valid() && LayerClocks(clocks, depth, |args|)
      modifies this`seen, this`eventIndex, this`posted
      ensures Valid()
      ensures Sent(State(), threw) == SendLayers(old(State()), args, depth, env, clocks, Layer())
      decreases depth
    {
      if depth == 0 {
        return false;
      }
      ghost var start, layer := State(), Layer();
      SendLayersStep(start, args, depth, env, clocks, layer);
      threw := SendEach(args, env, clocks[0]);
      if threw {
        return;
      }
      threw := ReportLayers(args, env, clocks[1..], depth - 1);
    }

    /**
     * `window.dataLayer.push(...args)` by page code: every stacked wrapper,
     * outermost first, reports every argument with its own clock readings,
     * then the captured push runs on the items and its outcome is what the
     * caller gets. An exception from a report escapes before that push runs.
     */
    method Push(args: seq<JsValue>, env: PageEnv, clocks: seq<seq<CallTime>>) returns (result: PushResult)
      requires Valid() && dataLayer != null
      requires LayerClocks(clocks, dataLayer.wrapDepth, |args|)
      modifies this`seen, this`eventIndex, this`posted, dataLayer`items
      ensures Valid()
      ensures var r := SendLayers(old(State()), args, dataLayer.wrapDepth, env, clocks, Some(old(dataLayer.items)));
        && State() == r.tracker
        && (r.threw ==> result == Raised && dataLayer.items == old(dataLayer.items))
        && (!r.threw ==> (dataLayer.items, result) == dataLayer.basePush(old(dataLayer.items), args))
      ensures (dataLayer.basePush == NativePush
               && DetectGA4PropertyId(env, Some(old(dataLayer.items))).Detected? && AllCloneable(env, args)) ==>
        dataLayer.items == old(dataLayer.items) + args && result == Returned(Number(|old(dataLayer.items)| + |args|))
    {
      ghost var start, items0 := State(), dataLayer.items;
      NativePushOutcome(start, args, dataLayer.wrapDepth, env, clocks, items0, dataLayer.basePush);
      var threw := ReportLayers(args, env, clocks, dataLayer.wrapDepth);
      if threw {
        return Raised;
      }
      var outcome := dataLayer.basePush(dataLayer.items, args);
      dataLayer.items := outcome.0;
      result := outcome.1;
    }

    /**
     * `window.dataLayer = value` by page code, `value` an array or (null)
     * anything else. Through the trap an array gets one more wrapper on its
     * push; without the trap it is a plain assignment.
     */
    method Assign(value: DataLayerArray?)
      modifies this`dataLayer, value
      ensures dataLayer == value
      ensures value != null ==> value.items == old(value.items)
      ensures value != null ==> value.wrapDepth == old(value.wrapDepth) + (if trapInstalled then 1 else 0)
    {
      dataLayer := value;
      if trapInstalled && value != null {
        value.wrapDepth := value.wrapDepth + 1;
      }
    }
  }
}
