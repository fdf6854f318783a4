/**
 * The duplicate-detection key of the page-side script (injected.js): the
 * serialised payload, an underscore, and the number of the 100 ms window the
 * push falls in. When serialisation throws, the sorted top-level keys joined
 * by commas stand in for the payload.
 */
module EventFingerprint {
  import opened Wrappers
  import opened Text
  import opened Js

  /** Width of a deduplication window in milliseconds. */
  const WindowMillis: nat := 100

  /** `Math.floor(Date.now() / 100)` for a non-negative clock. */
  function TimeWindow(now: nat): nat {
    now / WindowMillis
  }

  /**
   * `Object.keys(event || {}).sort().join(',')`: empty for a falsy event and
   * for a primitive without keys, the key itself for a one-key object.
   */
  function FallbackContent(event: JsValue): (r: string)
    ensures !Truthy(event) ==> r == ""
    ensures !event.Object? && !event.Str? ==> r == ""
    ensures event.Object? && |event.props| == 1 ==> r == event.props[0].0
  {
    assert event.Object? && |event.props| == 1 ==> Sort(OwnKeys(event)) == [event.props[0].0] by {
      if event.Object? && |event.props| == 1 {
        var sorted := Sort(OwnKeys(event));
        assert |multiset(sorted)| == 1;
        assert sorted[0] in multiset(OwnKeys(event));
      }
    }
    Join(Sort(OwnKeys(if Truthy(event) then event else Object([]))), ",")
  }

  /** The part of the fingerprint before the final underscore. */
  function Content(event: JsValue, stringify: JsValue -> Option<string>): string {
    match stringify(event)
    case Some(text) => text
    case None => FallbackContent(event)
  }

  /** `generateEventFingerprint(event)` at clock reading `now`. */
  function Fingerprint(event: JsValue, stringify: JsValue -> Option<string>, now: nat): string {
    Content(event, stringify) + "_" + NatToString(TimeWindow(now))
  }

  /**
   * A fingerprint is the payload text, an underscore, and a run of decimal
   * digits that reads back as the number of the 100 ms window.
   */
  lemma FingerprintShape(event: JsValue, stringify: JsValue -> Option<string>, now: nat)
    ensures var r, c := Fingerprint(event, stringify, now), Content(event, stringify);
      && |c| + 2 <= |r|
      && r[..|c|] == c
      && r[|c|] == '_'
      && (forall k :: |c| < k < |r| ==> IsDigit(r[k]))
      && DigitsValue(r[|c| + 1..]) == now / WindowMillis
  {
    var c, d := Content(event, stringify), NatToString(TimeWindow(now));
    NatToStringRoundTrip(TimeWindow(now));
    assert (c + "_" + d)[|c| + 1..] == d;
  }

  /** In `x + [sep] + d` with a separator-free `d`, the separator stands just before `d` and none follows it. */
  lemma SeparatorPosition(x: string, d: string, sep: char)
    requires sep !in d
    ensures var s := x + [sep] + d;
      s[|s| - |d| - 1] == sep && forall k :: |s| - |d| <= k < |s| ==> s[k] != sep
  {
    var s := x + [sep] + d;
    forall k | |s| - |d| <= k < |s| ensures s[k] != sep {
      assert s[k] == d[k - |x| - 1];
    }
  }

  /** Two strings ending in a separator and a separator-free tail split the same way only if both parts agree. */
  lemma LastSeparatorSplit(x1: string, d1: string, x2: string, d2: string, sep: char)
    requires sep !in d1 && sep !in d2
    requires x1 + [sep] + d1 == x2 + [sep] + d2
    ensures x1 == x2 && d1 == d2
  {
    var s := x1 + [sep] + d1;
    SeparatorPosition(x1, d1, sep);
    SeparatorPosition(x2, d2, sep);
    assert |d1| <= |d2| by { assert s[|s| - |d2| - 1] == sep; }
    assert |d2| <= |d1| by { assert s[|s| - |d1| - 1] == sep; }
    assert x1 == s[..|x1|] && x2 == s[..|x2|];
    assert d1 == s[|x1| + 1..] && d2 == s[|x2| + 1..];
  }

  /**
   * A fingerprint determines its payload text and its time window: two
   * pushes collide exactly when both agree.
   */
  lemma FingerprintsCollideIff(e1: JsValue, s1: JsValue -> Option<string>, now1: nat,
                               e2: JsValue, s2: JsValue -> Option<string>, now2: nat)
    ensures Fingerprint(e1, s1, now1) == Fingerprint(e2, s2, now2)
        <==> Content(e1, s1) == Content(e2, s2) && TimeWindow(now1) == TimeWindow(now2)
  {
    var d1, d2 := NatToString(TimeWindow(now1)), NatToString(TimeWindow(now2));
    if Fingerprint(e1, s1, now1) == Fingerprint(e2, s2, now2) {
      assert '_' !in d1 && '_' !in d2;
      LastSeparatorSplit(Content(e1, s1), d1, Content(e2, s2), d2, '_');
      NatToStringInjective(TimeWindow(now1), TimeWindow(now2));
    }
  }

  /** Pushes in different 100 ms windows never share a fingerprint, whatever their payloads. */
  lemma DifferentWindowsDifferentFingerprints(e1: JsValue, e2: JsValue, stringify: JsValue -> Option<string>,
                                              now1: nat, now2: nat)
    requires TimeWindow(now1) != TimeWindow(now2)
    ensures Fingerprint(e1, stringify, now1) != Fingerprint(e2, stringify, now2)
  {
    FingerprintsCollideIff(e1, stringify, now1, e2, stringify, now2);
  }

  /** Pushes that serialise identically within one 100 ms window share a fingerprint. */
  lemma SameWindowSameFingerprint(e1: JsValue, e2: JsValue, stringify: JsValue -> Option<string>,
                                  now1: nat, now2: nat)
    requires stringify(e1).Some? && stringify(e1) == stringify(e2)
    requires TimeWindow(now1) == TimeWindow(now2)
    ensures Fingerprint(e1, stringify, now1) == Fingerprint(e2, stringify, now2)
  {
  }

  /**
   * When serialisation throws, the fingerprint depends only on the collection
   * of top-level keys, not on their order.
   */
  lemma FallbackIgnoresKeyOrder(e1: JsValue, e2: JsValue, stringify: JsValue -> Option<string>, now: nat)
    requires stringify(e1).None? && stringify(e2).None?
    requires e1.Object? && e2.Object?
    requires multiset(OwnKeys(e1)) == multiset(OwnKeys(e2))
    ensures Fingerprint(e1, stringify, now) == Fingerprint(e2, stringify, now)
  {
    SortIgnoresOrder(OwnKeys(e1), OwnKeys(e2));
  }
}
