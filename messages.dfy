/**
 * The records that cross context boundaries: the event the page-side script
 * posts (`DATALAYER_PUSH` data), the network request record the background
 * worker keeps and broadcasts, and the runtime messages the background
 * worker handles.
 */
module Messages {
  import opened Wrappers
  import opened Js

  /** The result of the GTM preview-mode probe attached to each event. */
  datatype GtmPreview = GtmPreview(active: bool, containerIds: seq<string>)

  /** One captured dataLayer push, as posted by the page-side script. */
  datatype EventData = EventData(
    index: nat,
    timestamp: int,
    url: string,
    data: JsValue,
    gtmPreview: GtmPreview,
    ga4PropertyId: Option<string>)

  /** `'pending'`, `'completed'`, `'failed'` */
  datatype RequestStatus = Pending | Completed | Failed

  /** The classification of a tracked request. */
  datatype RequestType = GA4 | UA | GTM | GA | Unknown

  /** A tracked analytics request; `statusCode` and `error` are absent until set. */
  datatype RequestRecord = RequestRecord(
    requestId: string,
    url: string,
    httpMethod: string,
    timestamp: int,
    tabId: int,
    status: RequestStatus,
    requestType: RequestType,
    statusCode: Option<int>,
    error: Option<string>)

  /** The runtime messages the background worker's listener distinguishes by `type`. */
  datatype RuntimeMessage =
    | DatalayerEvent(data: EventData, tabId: Option<int>)
    | GetTabData(tabId: Option<int>)
    | ClearTabData(tabId: Option<int>)
    | Unrecognised
}
