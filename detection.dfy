/**
 * The two best-effort probes the page-side script (injected.js) attaches to
 * each event: the GA4 measurement id found in the dataLayer, and whether GTM
 * preview mode is active.
 */
module Probes {
  import opened Wrappers
  import opened Text
  import opened Js
  import opened Messages
  import opened Window

  // ---------------------------------------------------------------------
  // the regular expression /G-[A-Z0-9]+/

  /** `[A-Z0-9]` */
  predicate IsIdChar(c: char) {
    'A' <= c <= 'Z' || '0' <= c <= '9'
  }

  /** The regular expression can start a match at position `i` of `s`. */
  predicate IdStartsAt(s: string, i: int) {
    0 <= i && i + 2 < |s| && s[i] == 'G' && s[i + 1] == '-' && IsIdChar(s[i + 2])
  }

  /** A GA4 measurement id: `G-` followed by one or more `[A-Z0-9]`. */
  predicate IsMeasurementId(m: string) {
    |m| >= 3 && m[..2] == "G-" && forall k :: 2 <= k < |m| ==> IsIdChar(m[k])
  }

  /** The end of the longest run of `[A-Z0-9]` starting at `j` (the greedy `+`). */
  function RunEnd(s: string, j: nat): (e: nat)
    requires j <= |s|
    ensures j <= e <= |s|
    ensures forall k :: j <= k < e ==> IsIdChar(s[k])
    ensures e < |s| ==> !IsIdChar(s[e])
    decreases |s| - j
  {
    if j < |s| && IsIdChar(s[j]) then RunEnd(s, j + 1) else j
  }

  /** The leftmost position at or after `i` where a match starts. */
  function FindIdStart(s: string, i: nat): (p: Option<nat>)
    requires i <= |s|
    ensures p.Some? ==> i <= p.value && IdStartsAt(s, p.value)
    ensures p.Some? ==> forall q :: i <= q < p.value ==> !IdStartsAt(s, q)
    ensures p.None? ==> forall q :: i <= q < |s| ==> !IdStartsAt(s, q)
    decreases |s| - i
  {
    if i == |s| then None
    else if IdStartsAt(s, i) then Some(i)
    else FindIdStart(s, i + 1)
  }

  /**
   * `s.match(/G-[A-Z0-9]+/)?.[0]`: the leftmost, longest measurement id in
   * `s`, or nothing when no position starts one.
   */
  function FirstMeasurementId(s: string): (m: Option<string>)
    ensures m.Some? ==> IsMeasurementId(m.value)
    ensures m.Some? ==> exists p :: IdStartsAt(s, p) && OccursAt(s, m.value, p)
                                    && (forall q :: 0 <= q < p ==> !IdStartsAt(s, q))
                                    && (p + |m.value| == |s| || !IsIdChar(s[p + |m.value|]))
    ensures m.None? <==> forall q :: 0 <= q < |s| ==> !IdStartsAt(s, q)
  {
    match FindIdStart(s, 0)
    case None => None
    case Some(p) =>
      var m := s[p..RunEnd(s, p + 2)];
      assert OccursAt(s, m, p);
      Some(m)
  }

  // ---------------------------------------------------------------------
  // detectGA4PropertyId

  /** The outcome of the GA4 probe: an id or `null`, or an exception from `JSON.stringify`. */
  datatype Detection = Detected(id: Option<string>) | Threw

  /** `item && typeof item === 'object' && !item['gtm.start']`: the items the probe serialises. */
  predicate Searched(item: JsValue) {
    item.Object? && !Truthy(Get(item, "gtm.start"))
  }

  /** Every item before `k` that the probe serialises serialises without an id. */
  ghost predicate NoIdBefore(items: seq<JsValue>, stringify: JsValue -> Option<string>, k: int)
    requires k <= |items|
  {
    forall j :: 0 <= j < k && Searched(items[j]) ==>
      stringify(items[j]).Some? && FirstMeasurementId(stringify(items[j]).value).None?
  }

  /** `NoIdBefore` up to `k` on a list splits into its head and the same property on its tail. */
  lemma NoIdBeforeShift(items: seq<JsValue>, stringify: JsValue -> Option<string>, k: int)
    requires 1 <= k <= |items|
    ensures NoIdBefore(items, stringify, k) <==>
            NoIdBefore(items, stringify, 1) && NoIdBefore(items[1..], stringify, k - 1)
  {
    assert forall j :: 1 <= j < k ==> items[j] == items[1..][j - 1];
  }

  /** `NoIdBefore` up to 1 speaks of the head alone. */
  lemma NoIdBeforeHead(items: seq<JsValue>, stringify: JsValue -> Option<string>)
    requires items != []
    ensures NoIdBefore(items, stringify, 1) <==>
      (Searched(items[0]) ==> stringify(items[0]).Some? && FirstMeasurementId(stringify(items[0]).value).None?)
  {
  }

  /** Item `k` is the first searched item that decides the scan, and its serialisation is `text`. */
  ghost predicate DecidedAt(items: seq<JsValue>, stringify: JsValue -> Option<string>, k: int, text: Option<string>) {
    0 <= k < |items| && Searched(items[k]) && NoIdBefore(items, stringify, k) && stringify(items[k]) == text
  }

  /** A decision on the tail, past a head that does not decide, is a decision on the whole list. */
  lemma DecidedShift(items: seq<JsValue>, stringify: JsValue -> Option<string>, found: Option<string> -> bool)
    requires items != [] && NoIdBefore(items, stringify, 1)
    requires exists k, text :: DecidedAt(items[1..], stringify, k, text) && found(text)
    ensures exists k, text :: DecidedAt(items, stringify, k, text) && found(text)
  {
    var k, text :| DecidedAt(items[1..], stringify, k, text) && found(text);
    NoIdBeforeShift(items, stringify, k + 1);
    assert items[1..][k] == items[k + 1];
    assert DecidedAt(items, stringify, k + 1, text);
  }

  /**
   * The loop of `detectGA4PropertyId` over the dataLayer: the first searched
   * item whose serialisation holds an id decides; an item that cannot be
   * serialised raises (the call is not inside a `try`).
   */
  function ScanItems(items: seq<JsValue>, stringify: JsValue -> Option<string>): (r: Detection)
    ensures r.Detected? && r.id.Some? ==> IsMeasurementId(r.id.value)
    ensures r.Detected? && r.id.Some? ==>
      exists k, text :: DecidedAt(items, stringify, k, text) && text.Some? && FirstMeasurementId(text.value) == r.id
    ensures r == Detected(None) <==> NoIdBefore(items, stringify, |items|)
    ensures r == Threw ==> exists k, text :: DecidedAt(items, stringify, k, text) && text.None?
  {
    if items == [] then Detected(None)
    else
      var rest := ScanItems(items[1..], stringify);
      var item := items[0];
      NoIdBeforeShift(items, stringify, |items|);
      NoIdBeforeHead(items, stringify);
      if Searched(item) && stringify(item).None? then
        assert DecidedAt(items, stringify, 0, None);
        Threw
      else if Searched(item) && FirstMeasurementId(stringify(item).value).Some? then
        var id := FirstMeasurementId(stringify(item).value);
        assert DecidedAt(items, stringify, 0, stringify(item));
        Detected(id)
      else
        if rest == Threw then
          DecidedShift(items, stringify, (text: Option<string>) => text.None?);
          rest
        else if rest.Detected? && rest.id.Some? then
          DecidedShift(items, stringify, (text: Option<string>) => text.Some? && FirstMeasurementId(text.value) == rest.id);
          rest
        else
          rest
  }

  /**
   * `detectGA4PropertyId()`: `null` unless gtag or its TCF flag is present
   * and the dataLayer exists; otherwise the scan of the dataLayer's items.
   */
  function DetectGA4PropertyId(env: PageEnv, dataLayer: Option<seq<JsValue>>): (r: Detection)
    ensures !(env.tcfSupportDefined || env.gtagTruthy) ==> r == Detected(None)
    ensures dataLayer.None? ==> r == Detected(None)
    ensures r.Detected? && r.id.Some? ==> IsMeasurementId(r.id.value)
    ensures r == Threw ==> exists item :: item in dataLayer.value && Searched(item) && env.stringify(item).None?
  {
    if (env.tcfSupportDefined || env.gtagTruthy) && dataLayer.Some? then
      ScanItems(dataLayer.value, env.stringify)
    else
      Detected(None)
  }

  /** A dataLayer whose searched items all serialise never makes the probe raise. */
  lemma SerialisableNeverThrows(env: PageEnv, dataLayer: Option<seq<JsValue>>)
    requires dataLayer.Some? ==> forall item :: item in dataLayer.value && Searched(item) ==> env.stringify(item).Some?
    ensures DetectGA4PropertyId(env, dataLayer).Detected?
  {
  }

  // ---------------------------------------------------------------------
  // detectGTMPreview

  /** The cookie prefix GTM's Tag Assistant sets. */
  const PreviewCookiePrefix := "__TAG_ASSISTANT"

  /** `cookie.trim().startsWith('__TAG_ASSISTANT')` */
  predicate IsPreviewCookie(piece: string) {
    StartsWith(Trim(piece), PreviewCookiePrefix)
  }

  /** Some piece of `pieces` is a preview cookie. */
  ghost predicate SomePreviewCookie(pieces: seq<string>) {
    exists k :: 0 <= k < |pieces| && IsPreviewCookie(pieces[k])
  }

  /** One step of the cookie loop: the first piece, or one of the rest. */
  lemma {:induction false} SomePreviewCookieCons(pieces: seq<string>)
    requires pieces != []
    ensures SomePreviewCookie(pieces) <==> IsPreviewCookie(pieces[0]) || SomePreviewCookie(pieces[1..])
  {
    if SomePreviewCookie(pieces[1..]) {
      var j :| 0 <= j < |pieces[1..]| && IsPreviewCookie(pieces[1..][j]);
      assert IsPreviewCookie(pieces[j + 1]);
    }
    if SomePreviewCookie(pieces) && !IsPreviewCookie(pieces[0]) {
      var k :| 0 <= k < |pieces| && IsPreviewCookie(pieces[k]);
      assert pieces[k] == pieces[1..][k - 1];
    }
  }

  /** The cookie loop: some `;`-separated piece, trimmed, starts with the prefix. */
  function AnyPreviewCookie(pieces: seq<string>): (found: bool)
    ensures found <==> SomePreviewCookie(pieces)
    decreases |pieces|
  {
    if pieces == [] then false
    else
      SomePreviewCookieCons(pieces);
      IsPreviewCookie(pieces[0]) || AnyPreviewCookie(pieces[1..])
  }

  /** `container && container.dataLayer && container.dataLayer.gtmDom` is truthy. */
  predicate ContainerInPreview(container: JsValue) {
    Truthy(container) && Truthy(Get(container, "dataLayer")) && Truthy(Get(Get(container, "dataLayer"), "gtmDom"))
  }

  /** The container loop over `Object.keys(window.google_tag_manager)`. */
  function AnyContainerInPreview(gtm: JsValue, ids: seq<string>): (found: bool)
    ensures found <==> exists k :: 0 <= k < |ids| && ContainerInPreview(Get(gtm, ids[k]))
  {
    if ids == [] then false
    else
      assert forall k :: 1 <= k < |ids| ==> ids[k] == ids[1..][k - 1];
      ContainerInPreview(Get(gtm, ids[0])) || AnyContainerInPreview(gtm, ids[1..])
  }

  /** Some `;`-separated piece of the cookie string, trimmed, starts with the preview prefix. */
  ghost predicate HasPreviewCookie(cookie: string) {
    SomePreviewCookie(Split(cookie, ';'))
  }

  /** `google_tag_manager` is present and one of its containers is in preview. */
  ghost predicate HasContainerInPreview(gtm: JsValue) {
    Truthy(gtm) && exists k :: 0 <= k < |OwnKeys(gtm)| && ContainerInPreview(Get(gtm, OwnKeys(gtm)[k]))
  }

  /**
   * `detectGTMPreview()`: active when the Tag Assistant API is present, a
   * preview cookie is set, or some GTM container is in preview; the container
   * ids are the keys of `google_tag_manager` when it is present.
   */
  function DetectGtmPreview(env: PageEnv): (p: GtmPreview)
    ensures p.active <==>
      env.tagAssistantApi || HasPreviewCookie(env.cookie) || HasContainerInPreview(env.googleTagManager)
    ensures p.containerIds == if Truthy(env.googleTagManager) then OwnKeys(env.googleTagManager) else []
  {
    var ids := if Truthy(env.googleTagManager) then OwnKeys(env.googleTagManager) else [];
    var fromContainers := Truthy(env.googleTagManager) && AnyContainerInPreview(env.googleTagManager, ids);
    GtmPreview(env.tagAssistantApi || AnyPreviewCookie(Split(env.cookie, ';')) || fromContainers, ids)
  }
}
