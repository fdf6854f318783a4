/**
 * The bookkeeping of `sendDataLayerEvent` in injected.js as functions on an
 * explicit state: the insertion-ordered set of recently seen fingerprints,
 * the event counter, and the messages posted to the page's message channel.
 * The `Interceptor.Page` class is proved to follow these functions.
 */
module Dedup {
  import opened Wrappers
  import opened Js
  import opened Messages
  import opened Window
  import opened EventFingerprint
  import opened Probes

  /** `seenEvents.size > 1000` triggers a clean-up ... */
  const MaxSeen: nat := 1000
  /** ... that deletes the 500 oldest fingerprints. */
  const EvictCount: nat := 500

  predicate Distinct(s: seq<string>) {
    forall i, j :: 0 <= i < j < |s| ==> s[i] != s[j]
  }

  predicate IsSuffix(r: seq<string>, s: seq<string>) {
    |r| <= |s| && r == s[|s| - |r|..]
  }

  /** `r` is `s` with the entry at some position holding `e` cut out. */
  ghost predicate CutOut(s: seq<string>, e: string, r: seq<string>) {
    exists k :: 0 <= k < |s| && s[k] == e && r == s[..k] + s[k + 1..]
  }

  /** Cutting `e` out of the tail of `s` cuts it out of `s` once the head is put back. */
  lemma CutOutCons(s: seq<string>, e: string, rest: seq<string>)
    requires s != [] && CutOut(s[1..], e, rest)
    ensures CutOut(s, e, [s[0]] + rest)
  {
    var j :| 0 <= j < |s[1..]| && s[1..][j] == e && rest == s[1..][..j] + s[1..][j + 1..];
    assert s[j + 1] == e;
    assert [s[0]] + rest == s[..j + 1] + s[j + 2..];
  }

  /**
   * `seenEvents.delete(e)`: in a set without repeats, the one entry `e` is
   * cut out and the others keep their insertion order.
   */
  function Without(s: seq<string>, e: string): (r: seq<string>)
    ensures forall x :: x in r <==> x in s && x != e
    ensures e !in s ==> r == s
    ensures Distinct(s) && e in s ==> CutOut(s, e, r)
  {
    if s == [] then []
    else if s[0] == e then
      var rest := Without(s[1..], e);
      assert Distinct(s) ==> rest == s[..0] + s[1..];
      rest
    else
      var rest := Without(s[1..], e);
      assert Distinct(s) && e in s ==> CutOut(s, e, [s[0]] + rest) by {
        if Distinct(s) && e in s {
          assert Distinct(s[1..]) && e in s[1..];
          CutOutCons(s, e, rest);
        }
      }
      [s[0]] + rest
  }

  /** Deleting the oldest entry of a set without repeats drops exactly the first element. */
  lemma WithoutOldest(s: seq<string>)
    requires s != [] && Distinct(s)
    ensures Without(s, s[0]) == s[1..]
  {
    assert s[0] !in s[1..];
  }

  /** One step of the clean-up loop: deleting `entries[i]` from what is left of a repeat-free snapshot. */
  lemma EvictStep(entries: seq<string>, i: nat)
    requires Distinct(entries) && i < |entries|
    ensures Without(entries[i..], entries[i]) == entries[i + 1..]
  {
    assert Distinct(entries[i..]);
    WithoutOldest(entries[i..]);
    assert entries[i..][1..] == entries[i + 1..];
  }

  /** Adding a fingerprint that is not in a repeat-free set keeps it repeat-free. */
  lemma AddDistinct(seen: seq<string>, fp: string)
    requires Distinct(seen) && fp !in seen
    ensures Distinct(seen + [fp])
  {
  }

  /**
   * `seenEvents.add(fp)` followed by the clean-up: the new fingerprint is
   * kept, only the oldest entries are dropped (500 of them, once the set has
   * grown past 1000), and the set never exceeds 1000 entries again.
   */
  function Remember(seen: seq<string>, fp: string): (r: seq<string>)
    requires fp !in seen
    ensures fp in r && r[|r| - 1] == fp
    ensures IsSuffix(r, seen + [fp])
    ensures |r| == if |seen| + 1 > MaxSeen then |seen| + 1 - EvictCount else |seen| + 1
    ensures |seen| <= MaxSeen ==> |r| <= MaxSeen
    ensures Distinct(seen) ==> Distinct(r)
    ensures forall x :: x in r ==> x in seen || x == fp
  {
    var added := seen + [fp];
    if |added| > MaxSeen then
      var r := added[EvictCount..];
      assert r[|r| - 1] == added[|added| - 1];
      r
    else added
  }

  /** The state `sendDataLayerEvent` reads and writes. */
  datatype Tracker = Tracker(seen: seq<string>, nextIndex: nat, posted: seq<EventData>)

  /** The fingerprint set stays within its cap and holds no repeats. */
  predicate Valid(t: Tracker) {
    |t.seen| <= MaxSeen && Distinct(t.seen)
  }

  /** The state at the time the script starts. */
  function Initial(): (t: Tracker)
    ensures Valid(t) && t.posted == [] && t.nextIndex == 0
  {
    Tracker([], 0, [])
  }

  /** The state after a call, and whether the call raised. */
  datatype Sent = Sent(tracker: Tracker, threw: bool)

  /**
   * `sendDataLayerEvent(event)` with clock readings `now`. A push whose
   * fingerprint was seen changes nothing. Otherwise its fingerprint is
   * remembered and the counter rises by one before the GA4 probe runs; the
   * call then raises, posting nothing, when the probe raises or when
   * `postMessage` cannot clone the payload, and else posts one event
   * carrying the old counter value.
   */
  function Send(t: Tracker, event: JsValue, env: PageEnv, now: CallTime,
                dataLayer: Option<seq<JsValue>>): (r: Sent)
    ensures Valid(t) ==> Valid(r.tracker)
  {
    var fp := Fingerprint(event, env.stringify, now.atFingerprint);
    if fp in t.seen then Sent(t, false)
    else
      var seen := Remember(t.seen, fp);
      match DetectGA4PropertyId(env, dataLayer)
      case Threw => Sent(Tracker(seen, t.nextIndex + 1, t.posted), true)
      case Detected(id) =>
        if env.cloneable(event) then
          var e := EventData(t.nextIndex, now.atStamp, env.href, event, DetectGtmPreview(env), id);
          Sent(Tracker(seen, t.nextIndex + 1, t.posted + [e]), false)
        else
          Sent(Tracker(seen, t.nextIndex + 1, t.posted), true)
  }

  /**
   * What one call does: a repeated fingerprint changes nothing; a fresh one
   * is remembered and takes the next index, and the event is posted unless
   * the GA4 probe or the clone raised, in which case nothing is posted.
   */
  lemma SendOutcome(t: Tracker, event: JsValue, env: PageEnv, now: CallTime, dataLayer: Option<seq<JsValue>>)
    ensures var r := Send(t, event, env, now, dataLayer);
      && (Fingerprint(event, env.stringify, now.atFingerprint) in t.seen ==> r == Sent(t, false))
      && (Fingerprint(event, env.stringify, now.atFingerprint) !in t.seen ==>
            && r.tracker.seen == Remember(t.seen, Fingerprint(event, env.stringify, now.atFingerprint))
            && r.tracker.nextIndex == t.nextIndex + 1)
      && Fingerprint(event, env.stringify, now.atFingerprint) in r.tracker.seen
      && (r.threw <==>
            && Fingerprint(event, env.stringify, now.atFingerprint) !in t.seen
            && (DetectGA4PropertyId(env, dataLayer).Threw? || !env.cloneable(event)))
      && (r.threw ==> r.tracker.posted == t.posted)
      && (!r.threw && r.tracker != t ==>
            && |r.tracker.posted| == |t.posted| + 1
            && t.posted <= r.tracker.posted
            && var e := r.tracker.posted[|t.posted|];
               e.index == t.nextIndex && e.data == event && e.timestamp == now.atStamp && e.url == env.href
               && e.gtmPreview == DetectGtmPreview(env) && e.ga4PropertyId == DetectGA4PropertyId(env, dataLayer).id)
  {
  }

  /**
   * `events.forEach(e => sendDataLayerEvent(e))`: one call per event, in
   * order, the k-th with clock readings `clock[k]`, until one raises.
   */
  function SendAll(t: Tracker, events: seq<JsValue>, env: PageEnv, clock: seq<CallTime>,
                   dataLayer: Option<seq<JsValue>>): (r: Sent)
    requires |clock| == |events|
    ensures Valid(t) ==> Valid(r.tracker)
    ensures t.nextIndex <= r.tracker.nextIndex
    ensures t.posted <= r.tracker.posted
    decreases |events|
  {
    if events == [] then Sent(t, false)
    else
      var first := Send(t, events[0], env, clock[0], dataLayer);
      if first.threw then first else SendAll(first.tracker, events[1..], env, clock[1..], dataLayer)
  }

  /** The first call of a run, then the rest of the run unless the first call raised. */
  lemma SendAllStep(t: Tracker, events: seq<JsValue>, env: PageEnv, clock: seq<CallTime>,
                    dataLayer: Option<seq<JsValue>>)
    requires events != [] && |clock| == |events|
    ensures var first := Send(t, events[0], env, clock[0], dataLayer);
      SendAll(t, events, env, clock, dataLayer)
        == if first.threw then first else SendAll(first.tracker, events[1..], env, clock[1..], dataLayer)
  {
  }

  /** One run of clock readings per wrapper layer, one reading per argument. */
  predicate LayerClocks(clocks: seq<seq<CallTime>>, depth: nat, arity: nat) {
    |clocks| == depth && forall j :: 0 <= j < |clocks| ==> |clocks[j]| == arity
  }

  /**
   * A push through `depth` stacked wrappers, outermost first: each wrapper
   * reports every argument, reading the clock anew for each call, and then
   * hands the same arguments to the push it replaced.
   */
  function SendLayers(t: Tracker, events: seq<JsValue>, depth: nat, env: PageEnv,
                      clocks: seq<seq<CallTime>>, dataLayer: Option<seq<JsValue>>): (r: Sent)
    requires LayerClocks(clocks, depth, |events|)
    ensures Valid(t) ==> Valid(r.tracker)
    ensures t.nextIndex <= r.tracker.nextIndex
    ensures t.posted <= r.tracker.posted
    decreases depth
  {
    if depth == 0 then Sent(t, false)
    else
      var once := SendAll(t, events, env, clocks[0], dataLayer);
      if once.threw then once else SendLayers(once.tracker, events, depth - 1, env, clocks[1..], dataLayer)
  }

  /** The outermost wrapper's run, then the inner wrappers unless that run raised. */
  lemma SendLayersStep(t: Tracker, events: seq<JsValue>, depth: nat, env: PageEnv,
                       clocks: seq<seq<CallTime>>, dataLayer: Option<seq<JsValue>>)
    requires depth > 0 && LayerClocks(clocks, depth, |events|)
    ensures LayerClocks(clocks[1..], depth - 1, |events|)
    ensures var once := SendAll(t, events, env, clocks[0], dataLayer);
      SendLayers(t, events, depth, env, clocks, dataLayer)
        == if once.threw then once else SendLayers(once.tracker, events, depth - 1, env, clocks[1..], dataLayer)
  {
    assert LayerClocks(clocks[1..], depth - 1, |events|);
  }

  // ---------------------------------------------------------------------
  // properties

  /** Every pushed value survives the structured clone of `postMessage`. */
  ghost predicate AllCloneable(env: PageEnv, events: seq<JsValue>) {
    forall k :: 0 <= k < |events| ==> env.cloneable(events[k])
  }

  /** When the GA4 probe does not raise and every payload can be cloned, no run of calls raises. */
  lemma {:induction false} SendAllNeverRaises(t: Tracker, events: seq<JsValue>, env: PageEnv, clock: seq<CallTime>,
                                              dataLayer: Option<seq<JsValue>>)
    requires |clock| == |events|
    requires DetectGA4PropertyId(env, dataLayer).Detected? && AllCloneable(env, events)
    ensures !SendAll(t, events, env, clock, dataLayer).threw
    decreases |events|
  {
    if events != [] {
      assert env.cloneable(events[0]);
      SendAllNeverRaises(Send(t, events[0], env, clock[0], dataLayer).tracker, events[1..], env, clock[1..], dataLayer);
    }
  }

  /** The same through any number of stacked wrappers. */
  lemma {:induction false} SendLayersNeverRaises(t: Tracker, events: seq<JsValue>, depth: nat, env: PageEnv,
                                                 clocks: seq<seq<CallTime>>, dataLayer: Option<seq<JsValue>>)
    requires LayerClocks(clocks, depth, |events|)
    requires DetectGA4PropertyId(env, dataLayer).Detected? && AllCloneable(env, events)
    ensures !SendLayers(t, events, depth, env, clocks, dataLayer).threw
    decreases depth
  {
    if depth > 0 {
      SendAllNeverRaises(t, events, env, clocks[0], dataLayer);
      assert LayerClocks(clocks[1..], depth - 1, |events|);
      SendLayersNeverRaises(SendAll(t, events, env, clocks[0], dataLayer).tracker, events, depth - 1, env, clocks[1..], dataLayer);
    }
  }

  /** A fresh payload that `postMessage` cannot clone raises after taking a fingerprint and an index, posting nothing. */
  lemma UncloneableRaises(t: Tracker, event: JsValue, env: PageEnv, now: CallTime, dataLayer: Option<seq<JsValue>>)
    requires Fingerprint(event, env.stringify, now.atFingerprint) !in t.seen && !env.cloneable(event)
    ensures var r := Send(t, event, env, now, dataLayer);
      r.threw && r.tracker.posted == t.posted && r.tracker.nextIndex == t.nextIndex + 1
      && Fingerprint(event, env.stringify, now.atFingerprint) in r.tracker.seen
  {
  }

  /** The posted events carry the indices 0, 1, 2, ... and the counter is the next one. */
  predicate Gapless(t: Tracker) {
    t.nextIndex == |t.posted| && forall k :: 0 <= k < |t.posted| ==> t.posted[k].index == k
  }

  /** A run of calls that raises nowhere keeps the posted indices gapless and unrepeated. */
  lemma {:induction false} SendAllGapless(t: Tracker, events: seq<JsValue>, env: PageEnv, clock: seq<CallTime>,
                                          dataLayer: Option<seq<JsValue>>)
    requires |clock| == |events|
    requires Gapless(t)
    ensures !SendAll(t, events, env, clock, dataLayer).threw ==> Gapless(SendAll(t, events, env, clock, dataLayer).tracker)
    decreases |events|
  {
    if events != [] {
      var first := Send(t, events[0], env, clock[0], dataLayer);
      if !first.threw {
        assert Gapless(first.tracker);
        SendAllGapless(first.tracker, events[1..], env, clock[1..], dataLayer);
      }
    }
  }

  /** The same through any number of stacked wrappers. */
  lemma {:induction false} SendLayersGapless(t: Tracker, events: seq<JsValue>, depth: nat, env: PageEnv,
                                             clocks: seq<seq<CallTime>>, dataLayer: Option<seq<JsValue>>)
    requires LayerClocks(clocks, depth, |events|)
    requires Gapless(t)
    ensures !SendLayers(t, events, depth, env, clocks, dataLayer).threw ==>
      Gapless(SendLayers(t, events, depth, env, clocks, dataLayer).tracker)
    decreases depth
  {
    if depth > 0 {
      SendAllGapless(t, events, env, clocks[0], dataLayer);
      var once := SendAll(t, events, env, clocks[0], dataLayer);
      if !once.threw {
        assert LayerClocks(clocks[1..], depth - 1, |events|);
        SendLayersGapless(once.tracker, events, depth - 1, env, clocks[1..], dataLayer);
      }
    }
  }

  /**
   * A second push of the same payload whose fingerprint reading falls in
   * the same 100 ms window as the first is dropped, whatever the first did.
   */
  lemma RepeatDropped(t: Tracker, event: JsValue, env: PageEnv, now1: CallTime, now2: CallTime,
                      dataLayer: Option<seq<JsValue>>)
    requires TimeWindow(now1.atFingerprint) == TimeWindow(now2.atFingerprint)
    ensures var first := Send(t, event, env, now1, dataLayer).tracker;
      Send(first, event, env, now2, dataLayer) == Sent(first, false)
  {
    FingerprintsCollideIff(event, env.stringify, now1.atFingerprint, event, env.stringify, now2.atFingerprint);
  }

  /**
   * Doubly wrapped push (the same array assigned twice through the trap) of
   * one value: when both wrappers read the clock in the same 100 ms window,
   * the inner wrapper's report is a duplicate, so at most one event is posted.
   */
  lemma {:induction false} DoubleWrapPostsOnce(t: Tracker, event: JsValue, env: PageEnv,
                                               clocks: seq<seq<CallTime>>, dataLayer: Option<seq<JsValue>>)
    requires LayerClocks(clocks, 2, 1)
    requires TimeWindow(clocks[0][0].atFingerprint) == TimeWindow(clocks[1][0].atFingerprint)
    ensures |SendLayers(t, [event], 2, env, clocks, dataLayer).tracker.posted| <= |t.posted| + 1
  {
    var first := Send(t, event, env, clocks[0][0], dataLayer);
    assert SendAll(t, [event], env, clocks[0], dataLayer) == first;
    if !first.threw {
      RepeatDropped(t, event, env, clocks[0][0], clocks[1][0], dataLayer);
      assert SendAll(first.tracker, [event], env, clocks[1], dataLayer) == Sent(first.tracker, false);
      assert clocks[1..][0] == clocks[1];
    }
  }

  /**
   * The other side of `DoubleWrapPostsOnce`: when a 100 ms boundary passes
   * between the two wrappers' readings, a fresh payload is posted twice.
   */
  lemma {:induction false} DoubleWrapAcrossWindowsPostsTwice(t: Tracker, event: JsValue, env: PageEnv,
                                                             clocks: seq<seq<CallTime>>, dataLayer: Option<seq<JsValue>>)
    requires LayerClocks(clocks, 2, 1)
    requires TimeWindow(clocks[0][0].atFingerprint) != TimeWindow(clocks[1][0].atFingerprint)
    requires Fingerprint(event, env.stringify, clocks[0][0].atFingerprint) !in t.seen
    requires Fingerprint(event, env.stringify, clocks[1][0].atFingerprint) !in t.seen
    requires DetectGA4PropertyId(env, dataLayer).Detected? && env.cloneable(event)
    ensures |SendLayers(t, [event], 2, env, clocks, dataLayer).tracker.posted| == |t.posted| + 2
  {
    var fp1 := Fingerprint(event, env.stringify, clocks[0][0].atFingerprint);
    var fp2 := Fingerprint(event, env.stringify, clocks[1][0].atFingerprint);
    DifferentWindowsDifferentFingerprints(event, event, env.stringify, clocks[0][0].atFingerprint, clocks[1][0].atFingerprint);
    SendFresh(t, event, env, clocks[0][0], dataLayer);
    var first := Send(t, event, env, clocks[0][0], dataLayer);
    assert SendAll(t, [event], env, clocks[0], dataLayer) == first;
    StaysUnseen(t, event, env, clocks[0][0], dataLayer, fp2);
    SendFresh(first.tracker, event, env, clocks[1][0], dataLayer);
    var second := Send(first.tracker, event, env, clocks[1][0], dataLayer);
    assert SendAll(first.tracker, [event], env, clocks[1], dataLayer) == second;
    assert clocks[1..][0] == clocks[1];
    assert SendLayers(t, [event], 2, env, clocks, dataLayer) == SendLayers(second.tracker, [event], 0, env, clocks[2..], dataLayer);
  }

  /** The fingerprints of a list of pushes, the k-th taken at `clock[k]`. */
  function Fingerprints(events: seq<JsValue>, env: PageEnv, clock: seq<CallTime>): (fps: seq<string>)
    requires |clock| == |events|
    ensures |fps| == |events|
    ensures forall k :: 0 <= k < |events| ==> fps[k] == Fingerprint(events[k], env.stringify, clock[k].atFingerprint)
  {
    seq(|events|, k requires 0 <= k < |events| => Fingerprint(events[k], env.stringify, clock[k].atFingerprint))
  }

  /** A fingerprint that is neither seen nor the pushed one stays unseen after the call. */
  lemma StaysUnseen(t: Tracker, event: JsValue, env: PageEnv, now: CallTime, dataLayer: Option<seq<JsValue>>,
                    other: string)
    requires other !in t.seen && other != Fingerprint(event, env.stringify, now.atFingerprint)
    ensures other !in Send(t, event, env, now, dataLayer).tracker.seen
  {
  }

  /**
   * One call with an unseen fingerprint, a probe that does not raise and a
   * payload `postMessage` can clone posts exactly its event.
   */
  lemma SendFresh(t: Tracker, event: JsValue, env: PageEnv, now: CallTime, dataLayer: Option<seq<JsValue>>)
    requires DetectGA4PropertyId(env, dataLayer).Detected? && env.cloneable(event)
    requires Fingerprint(event, env.stringify, now.atFingerprint) !in t.seen
    ensures var r := Send(t, event, env, now, dataLayer);
      && !r.threw
      && r.tracker.posted == t.posted + [r.tracker.posted[|t.posted|]]
      && r.tracker.posted[|t.posted|].data == event
      && r.tracker.posted[|t.posted|].index == t.nextIndex
      && r.tracker.nextIndex == t.nextIndex + 1
  {
    var r := Send(t, event, env, now, dataLayer);
    assert r.tracker != t by { assert r.tracker.nextIndex != t.nextIndex; }
    assert t.posted <= r.tracker.posted;
    assert r.tracker.posted == r.tracker.posted[..|t.posted|] + [r.tracker.posted[|t.posted|]];
  }

  /** The later pushes of a list with distinct unseen fingerprints are still unseen after the first one. */
  lemma TailStaysUnseen(t: Tracker, events: seq<JsValue>, env: PageEnv, clock: seq<CallTime>,
                        dataLayer: Option<seq<JsValue>>)
    requires events != [] && |clock| == |events|
    requires Distinct(Fingerprints(events, env, clock))
    requires forall k :: 0 <= k < |events| ==> Fingerprints(events, env, clock)[k] !in t.seen
    ensures Distinct(Fingerprints(events[1..], env, clock[1..]))
    ensures forall k :: 0 <= k < |events| - 1 ==>
      Fingerprints(events[1..], env, clock[1..])[k] !in Send(t, events[0], env, clock[0], dataLayer).tracker.seen
  {
    var fps := Fingerprints(events, env, clock);
    assert Fingerprints(events[1..], env, clock[1..]) == fps[1..];
    forall j | 1 <= j < |events|
      ensures fps[j] !in Send(t, events[0], env, clock[0], dataLayer).tracker.seen
    {
      StaysUnseen(t, events[0], env, clock[0], dataLayer, fps[j]);
    }
  }

  /** `after` extends `before` by one posted event per element of `events`, in order, with consecutive indices. */
  predicate PostedInOrder(before: Tracker, after: Tracker, events: seq<JsValue>) {
    && |after.posted| == |before.posted| + |events|
    && after.nextIndex == before.nextIndex + |events|
    && forall k :: 0 <= k < |events| ==>
         after.posted[|before.posted| + k].data == events[k]
         && after.posted[|before.posted| + k].index == before.nextIndex + k
  }

  /** Posting the head and then the tail in order posts the whole list in order. */
  lemma PostedInOrderCons(t: Tracker, mid: Tracker, r: Tracker, events: seq<JsValue>)
    requires events != []
    requires PostedInOrder(t, mid, events[..1]) && mid.posted <= r.posted
    requires PostedInOrder(mid, r, events[1..])
    ensures PostedInOrder(t, r, events)
  {
    var n := |t.posted|;
    assert r.posted[n] == mid.posted[n];
    forall k | 1 <= k < |events|
      ensures r.posted[n + k].data == events[k] && r.posted[n + k].index == t.nextIndex + k
    {
      assert events[k] == events[1..][k - 1];
      assert n + k == (n + 1) + (k - 1);
    }
  }

  /**
   * Pushes with pairwise different, unseen fingerprints are all reported, in
   * argument order, each with its own payload and consecutive indices, when
   * the GA4 probe does not raise and every payload can be cloned.
   */
  lemma {:induction false} FreshEventsAllPosted(t: Tracker, events: seq<JsValue>, env: PageEnv, clock: seq<CallTime>,
                                                dataLayer: Option<seq<JsValue>>)
    requires |clock| == |events|
    requires DetectGA4PropertyId(env, dataLayer).Detected? && AllCloneable(env, events)
    requires Distinct(Fingerprints(events, env, clock))
    requires forall k :: 0 <= k < |events| ==> Fingerprints(events, env, clock)[k] !in t.seen
    ensures !SendAll(t, events, env, clock, dataLayer).threw
    ensures PostedInOrder(t, SendAll(t, events, env, clock, dataLayer).tracker, events)
    decreases |events|
  {
    if events != [] {
      assert Fingerprints(events, env, clock)[0] !in t.seen && env.cloneable(events[0]);
      SendFresh(t, events[0], env, clock[0], dataLayer);
      var first := Send(t, events[0], env, clock[0], dataLayer);
      assert PostedInOrder(t, first.tracker, events[..1]);
      TailStaysUnseen(t, events, env, clock, dataLayer);
      assert AllCloneable(env, events[1..]) by {
        forall k | 0 <= k < |events| - 1 ensures env.cloneable(events[1..][k]) {
          assert events[1..][k] == events[k + 1];
        }
      }
      FreshEventsAllPosted(first.tracker, events[1..], env, clock[1..], dataLayer);
      var r := SendAll(first.tracker, events[1..], env, clock[1..], dataLayer);
      assert SendAll(t, events, env, clock, dataLayer) == r;
      PostedInOrderCons(t, first.tracker, r.tracker, events);
    }
  }
}
