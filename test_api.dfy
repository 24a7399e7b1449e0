/**
 * `test_api.py`: check the credentials, choose the range, request it, and sort
 * the reply into success or one of the failure cases, each of which makes
 * `test_api_connection` return `False`.
 *
 * The requests, the interactive prompt and the browser are not modelled: the
 * decoded replies are parameters.
 */
module TestApi {
  import opened Text
  import opened SheetsApi

  /**
   * The key as printed: its first five and its last five characters around
   * `...`, with Python's clamping of slice bounds. (The line guards the second
   * slice with a test that the key is set, which always holds there.)
   */
  function MaskKey(key: string): (masked: string) {
    key[..SliceBound(5, |key|)] + "..." + key[SliceBound(-5, |key|)..]
  }

  /**
   * The masked key shows at most five characters from each end; a key of
   * five characters or fewer is shown in full on both sides of the dots.
   */
  lemma MaskKeyShape(key: string)
    ensures var n := Min(|key|, 5);
      && MaskKey(key) == key[..n] + "..." + key[|key| - n..]
      && |MaskKey(key)| == 2 * n + 3
    ensures |key| <= 5 ==> MaskKey(key) == key + "..." + key
  {
    if |key| <= 5 {
      assert key[..|key|] == key;
      assert key[0..] == key;
    }
  }

  lemma MaskKeyExample()
    ensures MaskKey("ABCDEFGHIJKLMNOP") == "ABCDE...LMNOP"
    ensures MaskKey("abc") == "abc...abc"
  {
    MaskKeyShape("ABCDEFGHIJKLMNOP");
    MaskKeyShape("abc");
  }

  /** `full_range`: the bare cell range when no sheet names came back, else the first sheet's. */
  function FullRange(sheetNames: seq<string>): (range: string)
    ensures range == CellRange <==> sheetNames == []
    ensures sheetNames != [] ==> range == sheetNames[0] + "!" + CellRange
  {
    if sheetNames == [] then CellRange
    else
      assert |sheetNames[0] + "!" + CellRange| > |CellRange|;
      sheetNames[0] + "!" + CellRange
  }

  /** How the values request ended. */
  datatype Reply =
    | PermissionDenied       // the spreadsheet is not shared publicly
    | BadRange               // the sheet name in the range does not exist
    | RequestFailed(status: int)
    | MissingValues          // 200, but no `values` key
    | EmptyValues            // 200, `values` is empty
    | Received(dataRows: int) // success; the number of rows after the header

  /** The branches on the status code, the body text and `values`. */
  function ClassifyReply(reply: ValuesResponse): (r: Reply) {
    if reply.status != 200 then
      if reply.status == 403 && Contains(reply.body, "PERMISSION_DENIED") then PermissionDenied
      else if reply.status == 400 && Contains(reply.body, "Unable to parse range") then BadRange
      else RequestFailed(reply.status)
    else match reply.values
      case None => MissingValues
      case Some(values) => if values == [] then EmptyValues else Received(|values| - 1)
  }

  /**
   * Only a 200 reply with a non-empty `values` list succeeds; each special
   * failure branch is taken for exactly its status and body text.
   */
  lemma ReplyCases(reply: ValuesResponse)
    ensures ClassifyReply(reply).Received? <==>
      reply.status == 200 && reply.values.Some? && reply.values.value != []
    ensures ClassifyReply(reply).Received? ==> ClassifyReply(reply).dataRows == |reply.values.value| - 1 >= 0
    ensures ClassifyReply(reply) == PermissionDenied <==>
      reply.status == 403 && Contains(reply.body, "PERMISSION_DENIED")
    ensures ClassifyReply(reply) == BadRange <==>
      reply.status == 400 && Contains(reply.body, "Unable to parse range")
    ensures ClassifyReply(reply) == RequestFailed(reply.status) <==>
      && reply.status != 200
      && !(reply.status == 403 && Contains(reply.body, "PERMISSION_DENIED"))
      && !(reply.status == 400 && Contains(reply.body, "Unable to parse range"))
    ensures ClassifyReply(reply) == MissingValues <==> reply.status == 200 && reply.values.None?
    ensures ClassifyReply(reply) == EmptyValues <==> reply.status == 200 && reply.values == Some([])
  {
  }

  /** The permission branch needs the marker in the body, wherever it occurs. */
  lemma PermissionDeniedExample()
    ensures ClassifyReply(ValuesResponse(403, "{\"status\": \"PERMISSION_DENIED\"}", None)) == PermissionDenied
    ensures ClassifyReply(ValuesResponse(403, "forbidden", None)) == RequestFailed(403)
  {
    var body := "{\"status\": \"PERMISSION_DENIED\"}";
    assert OccursAt(body, "PERMISSION_DENIED", 12);
    ContainsIff(body, "PERMISSION_DENIED");
    ContainsIff("forbidden", "PERMISSION_DENIED");
  }

  /** What `test_api_connection` ends with. */
  datatype Outcome =
    | MissingApiKey
    | MissingSpreadsheetId
    | Attempted(maskedKey: string, fullRange: string, reply: Reply)

  /** `test_api_connection`'s return value. */
  predicate Succeeded(outcome: Outcome) {
    outcome.Attempted? && outcome.reply.Received?
  }

  /**
   * `test_api_connection`: the API key is checked first, then the spreadsheet
   * id; only then are the sheet names fetched and the range requested.
   */
  function TestApiConnection(cfg: Config, sheetsReply: SheetsResponse, valuesReply: ValuesResponse): (o: Outcome) {
    if !Present(cfg.apiKey) then MissingApiKey
    else if !Present(cfg.spreadsheetId) then MissingSpreadsheetId
    else
      var sheetNames := GetSheetNames(cfg, sheetsReply);
      Attempted(MaskKey(cfg.apiKey.value), FullRange(sheetNames), ClassifyReply(valuesReply))
  }

  /**
   * A missing key fails before anything else, whatever the id; a missing id
   * fails next; with both present the request is made for the range the sheet
   * names give. The test succeeds exactly when both are present, the reply is
   * 200 and `values` is non-empty, and then it reports one row fewer than
   * `values` holds.
   */
  lemma ConnectionOutcome(cfg: Config, sheetsReply: SheetsResponse, valuesReply: ValuesResponse)
    ensures var o := TestApiConnection(cfg, sheetsReply, valuesReply);
      && (!Present(cfg.apiKey) ==> o == MissingApiKey)
      && (Present(cfg.apiKey) && !Present(cfg.spreadsheetId) ==> o == MissingSpreadsheetId)
      && (Present(cfg.apiKey) && Present(cfg.spreadsheetId) ==>
            && o.Attempted?
            && o.maskedKey == MaskKey(cfg.apiKey.value)
            && (o.fullRange == CellRange <==> GetSheetNames(cfg, sheetsReply) == [])
            && (GetSheetNames(cfg, sheetsReply) != [] ==>
                  o.fullRange == GetSheetNames(cfg, sheetsReply)[0] + "!A1:G100"))
    ensures var o := TestApiConnection(cfg, sheetsReply, valuesReply);
      Succeeded(o) <==>
        && Present(cfg.apiKey) && Present(cfg.spreadsheetId) && valuesReply.status == 200
        && valuesReply.values.Some? && valuesReply.values.value != []
    ensures var o := TestApiConnection(cfg, sheetsReply, valuesReply);
      Succeeded(o) ==> o.reply.dataRows == |valuesReply.values.value| - 1
    ensures valuesReply.status != 200 ==> !Succeeded(TestApiConnection(cfg, sheetsReply, valuesReply))
  {
    ReplyCases(valuesReply);
  }
}
