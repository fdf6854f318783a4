/**
 * What the page-side script reads from its surroundings, passed in
 * explicitly: `JSON.stringify`, whether `postMessage` can clone a payload,
 * `window.location.href`, the globals probed for gtag and GTM preview mode,
 * `document.cookie`, and the clock.
 */
module Window {
  import opened Wrappers
  import opened Js

  /**
   * `stringify` is `JSON.stringify`: `None` when it throws (a cyclic value,
   * for one), otherwise the text it produces (for `undefined`, the text
   * "undefined" that the template literal prints). `cloneable` says whether
   * the structured clone of `window.postMessage` accepts a pushed value; it
   * is false for values holding functions or DOM nodes (an `eventCallback`,
   * a `gtm.element`), which `JsValue` does not spell out.
   */
  datatype PageEnv = PageEnv(
    href: string,
    stringify: JsValue -> Option<string>,
    cloneable: JsValue -> bool,
    gtagTruthy: bool,
    tcfSupportDefined: bool,
    tagAssistantApi: bool,
    cookie: string,
    googleTagManager: JsValue)

  /**
   * The two `Date.now()` readings of one `sendDataLayerEvent` call: the one
   * the fingerprint takes and the one stamped on the posted event.
   */
  datatype CallTime = CallTime(atFingerprint: nat, atStamp: nat)
}
