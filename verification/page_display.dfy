/** The connector builder's view of one test-read page: a records tab, a
    request tab when the page has a request, a response tab when it has a
    response, and the tab opened first. */
module PageDisplay {
  import opened Wrappers
  import opened JsonValues

  datatype HttpResponse = HttpResponse(status: int, body: Option<string>, headers: Json)

  datatype Page = Page(records: seq<Json>, request: Option<Json>, response: Option<HttpResponse>)

  /** A response body after the parse attempt. */
  datatype Body = ParsedBody(json: Json) | RawBody(text: string)

  /** The response with its body unpacked; every other response field is kept. */
  datatype ResponseView = ResponseView(status: int, headers: Json, body: Body)

  /** A tab's text. `formatJson` is left opaque: content names the value it formats. */
  datatype Content =
    | EmptyText
    | FormattedRecords(records: seq<Json>)
    | FormattedRequest(request: Option<Json>)
    | FormattedResponse(view: ResponseView)

  /** The response tab's text. A missing response or a missing or empty body
      gives the empty string; a body that does not parse is kept raw. `parse`
      stands for `JSON.parse`, `None` for a throw. */
  function FormatResponse(response: Option<HttpResponse>, parse: string -> Option<Json>): (r: Content)
    ensures r == EmptyText <==> response.None? || response.value.body.None? || response.value.body.value == ""
    ensures r != EmptyText ==>
              && r.FormattedResponse?
              && r.view.status == response.value.status
              && r.view.headers == response.value.headers
              && var text := response.value.body.value;
                 r.view.body == (if parse(text).Some? then ParsedBody(parse(text).value) else RawBody(text))
  {
    if response.None? || response.value.body.None? || response.value.body.value == "" then EmptyText
    else
      var text := response.value.body.value;
      var body := match parse(text) case Some(j) => ParsedBody(j) case None => RawBody(text);
      FormattedResponse(ResponseView(response.value.status, response.value.headers, body))
  }

  datatype TabKey = RecordsTab | RequestTab | ResponseTab

  datatype TabData = TabData(key: TabKey, content: Content)

  datatype TabLayout = TabLayout(tabs: seq<TabData>, defaultTabIndex: nat)

  /** Whether some tab carries `key`. */
  predicate HasTab(tabs: seq<TabData>, key: TabKey) {
    exists i :: 0 <= i < |tabs| && tabs[i].key == key
  }

  function Bit(b: bool): nat {
    if b then 1 else 0
  }

  /** The tab list and default tab, built as the component pushes them. */
  function Layout(page: Page, parse: string -> Option<Json>): (r: TabLayout)
    // records first, always
    ensures |r.tabs| >= 1 && r.tabs[0] == TabData(RecordsTab, FormattedRecords(page.records))
    // one tab per present part, keys distinct
    ensures |r.tabs| == 1 + Bit(page.request.Some?) + Bit(page.response.Some?)
    ensures forall i, j :: 0 <= i < j < |r.tabs| ==> r.tabs[i].key != r.tabs[j].key
    ensures HasTab(r.tabs, RequestTab) <==> page.request.Some?
    ensures HasTab(r.tabs, ResponseTab) <==> page.response.Some?
    // the response tab comes last, after the request tab
    ensures page.response.Some? ==> r.tabs[|r.tabs| - 1] == TabData(ResponseTab, FormatResponse(page.response, parse))
    ensures page.request.Some? ==> r.tabs[1] == TabData(RequestTab, FormattedRequest(page.request))
    // a failed response opens on the response tab, anything else on records
    ensures r.defaultTabIndex < |r.tabs|
    ensures r.tabs[r.defaultTabIndex].key ==
              (if page.response.Some? && page.response.value.status >= 400 then ResponseTab else RecordsTab)
  {
    var records := [TabData(RecordsTab, FormattedRecords(page.records))];
    var withRequest := records + (if page.request.Some? then [TabData(RequestTab, FormattedRequest(page.request))] else []);
    assert page.request.Some? ==> withRequest[1].key == RequestTab;
    if page.response.None? then
      TabLayout(withRequest, 0)
    else
      var tabs := withRequest + [TabData(ResponseTab, FormatResponse(page.response, parse))];
      assert tabs[|tabs| - 1].key == ResponseTab;
      assert page.request.Some? ==> tabs[1].key == RequestTab;
      TabLayout(tabs, if page.response.value.status >= 400 then |tabs| - 1 else 0)
  }
}
