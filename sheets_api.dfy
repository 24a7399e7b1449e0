/**
 * What both scripts receive from outside: the three settings read from the
 * environment, and the already decoded replies of the spreadsheet service.
 * Also `get_sheet_names`, which the two scripts define identically.
 */
module SheetsApi {

  datatype Option<+T> = None | Some(value: T) {
    function GetOr(default: T): T {
      match this
      case Some(v) => v
      case None => default
    }
  }

  /**
   * The settings: `GOOGLE_SHEETS_API_KEY` and `SPREADSHEET_ID` are `None`
   * when unset; `SHEET_NAME` falls back to the empty string.
   */
  datatype Config = Config(apiKey: Option<string>, spreadsheetId: Option<string>, sheetName: string)

  /** Python truthiness of an optional string: set and not empty. */
  predicate Present(setting: Option<string>) {
    setting.Some? && setting.value != ""
  }

  /** One entry of the `sheets` list; `title` is `None` when `properties` or `title` is missing. */
  datatype SheetMeta = SheetMeta(title: Option<string>)

  /** The reply to the spreadsheet-metadata request; `sheets` is `None` when the key is absent. */
  datatype SheetsResponse = SheetsResponse(status: int, sheets: Option<seq<SheetMeta>>)

  /**
   * The reply to a values request: the status code, the raw body text and the
   * decoded `values` entry (`None` when the key is absent), a list of rows of cells.
   */
  datatype ValuesResponse = ValuesResponse(status: int, body: string, values: Option<seq<seq<string>>>)

  /** The cell range both scripts request. */
  const CellRange := "A1:G100"

  /**
   * The title of every sheet, in order, or `None` when some entry has no
   * title (the nested lookup raises `KeyError`, which the caller catches).
   */
  function Titles(sheets: seq<SheetMeta>): (r: Option<seq<string>>)
    ensures r.Some? <==> forall i :: 0 <= i < |sheets| ==> sheets[i].title.Some?
    ensures r.Some? ==> |r.value| == |sheets|
    ensures r.Some? ==> forall i :: 0 <= i < |sheets| ==> r.value[i] == sheets[i].title.value
  {
    if sheets == [] then Some([])
    else match (sheets[0].title, Titles(sheets[1..]))
      case (Some(t), Some(rest)) => Some([t] + rest)
      case _ => None
  }

  /**
   * `get_sheet_names`: no request without both credentials, `[]` on a
   * non-200 reply or a malformed entry, else the sheet titles.
   */
  function GetSheetNames(cfg: Config, reply: SheetsResponse): (names: seq<string>)
    ensures !Present(cfg.apiKey) || !Present(cfg.spreadsheetId) ==> names == []
    ensures reply.status != 200 ==> names == []
    ensures Present(cfg.apiKey) && Present(cfg.spreadsheetId) && reply.status == 200 ==>
      var sheets := reply.sheets.GetOr([]);
      if forall i :: 0 <= i < |sheets| ==> sheets[i].title.Some? then
        |names| == |sheets| && forall i :: 0 <= i < |sheets| ==> names[i] == sheets[i].title.value
      else names == []
  {
    if !Present(cfg.apiKey) || !Present(cfg.spreadsheetId) then []
    else if reply.status != 200 then []
    else Titles(reply.sheets.GetOr([])).GetOr([])
  }
}
