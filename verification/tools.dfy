/** The tool helpers: shaping of web-search results from the search API's
    reply, and the size arithmetic of the rendered table image (column widths
    and canvas dimensions). The HTTP request and the drawing are external. */
module Tools {
  import opened Wrappers
  import opened Text

  // ---------------------------------------------------------------------
  // Web search

  /** One hit as the search API returns it. */
  datatype ApiResult = ApiResult(title: string, url: string, description: string, extraSnippets: seq<string>)

  /** The parts of the API's JSON reply the code reads. */
  datatype ApiBody = ApiBody(web: seq<ApiResult>, isNewsBreaking: bool, news: seq<ApiResult>)

  /** What the HTTP request produced: a network failure, or a status flag and
      a body (`None` when the body is not JSON of the expected shape). */
  datatype HttpOutcome = NetworkError | HttpReply(ok: bool, body: Option<ApiBody>)

  datatype Origin = WebResult | NewsResult

  /** A result handed back to the model. */
  datatype SearchResult = SearchResult(title: string, link: string, description: string,
                                       extraSnippets: seq<string>, origin: Origin)

  const SearchFailed := "Failed to perform web search"

  function FromWeb(r: ApiResult): SearchResult {
    SearchResult(r.title, r.url, r.description, r.extraSnippets, WebResult)
  }

  function FromNews(r: ApiResult): SearchResult {
    SearchResult(r.title, r.url, r.description, [], NewsResult)
  }

  /** `webSearch(query, country)`: `fetch` is the search API as a function of
      query and country. Every failure ends in the one error `SearchFailed`. */
  function WebSearch(apiKey: string, query: string, country: string,
                     fetch: (string, string) -> HttpOutcome): (r: Result<seq<SearchResult>>)
    ensures r.Failure? ==> r.error == SearchFailed
    ensures apiKey == "" ==> r.Failure?
    ensures r.Success? <==> apiKey != "" && fetch(query, country).HttpReply?
                            && fetch(query, country).ok && fetch(query, country).body.Some?
    ensures r.Success? ==>
      var body := fetch(query, country).body.value;
      && |r.value| == |body.web| + (if body.isNewsBreaking then |body.news| else 0)
      && (forall i | 0 <= i < |body.web| ::
            r.value[i].origin == WebResult && r.value[i].link == body.web[i].url
            && r.value[i].title == body.web[i].title
            && r.value[i].description == body.web[i].description
            && r.value[i].extraSnippets == body.web[i].extraSnippets)
      && (body.isNewsBreaking ==> forall i | 0 <= i < |body.news| ::
            r.value[|body.web| + i].origin == NewsResult
            && r.value[|body.web| + i].link == body.news[i].url
            && r.value[|body.web| + i].title == body.news[i].title
            && r.value[|body.web| + i].description == body.news[i].description
            && r.value[|body.web| + i].extraSnippets == [])
  {
    if apiKey == "" then Failure(SearchFailed)
    else match fetch(query, country)
      case NetworkError => Failure(SearchFailed)
      case HttpReply(ok, body) =>
        if !ok || body.None? then Failure(SearchFailed)
        else
          var b := body.value;
          var web := seq(|b.web|, i requires 0 <= i < |b.web| => FromWeb(b.web[i]));
          var news := if b.isNewsBreaking then seq(|b.news|, i requires 0 <= i < |b.news| => FromNews(b.news[i])) else [];
          Success(web + news)
  }

  // ---------------------------------------------------------------------
  // Table image size

  const DefaultWidth: nat := 100
  const CharWidth: nat := 10
  const CellPadding: nat := 10
  const HeaderHeight: nat := 40
  const RowHeight: nat := 35
  const TitleHeight: nat := 50

  /** A table cell: text or a number. Numbers are integers here. */
  datatype Cell = Str(text: string) | Num(value: int)

  /** `String(cell)`: the text itself, or the number in decimal with a minus
      sign when negative (JavaScript prints integers below 10^21 this way). */
  function CellText(c: Cell): (r: string)
    ensures c.Num? && c.value >= 0 ==> AllDigits(r) && DecimalValue(r) == c.value
    ensures c.Num? && c.value < 0 ==> |r| >= 2 && r[0] == '-' && AllDigits(r[1..]) && DecimalValue(r[1..]) == -c.value
  {
    match c
    case Str(text) => text
    case Num(n) =>
      if n < 0 then (DecimalRoundTrip(-n); "-" + NatToString(-n))
      else (DecimalRoundTrip(n); NatToString(n))
  }

  /** A table as the model requests it; an empty title means no title. */
  datatype Table = Table(headers: seq<string>, rows: seq<seq<Cell>>, title: string)

  /** A JavaScript number as it occurs here: a pixel count or `NaN`
      (`Math.max(undefined, x)` for a cell beyond the last header). */
  datatype Width = Px(n: nat) | NaN

  function Max(a: nat, b: nat): nat {
    if a < b then b else a
  }

  /** `Math.max(w, x)` where `x` is a number. */
  function MaxWidth(w: Width, x: nat): Width {
    match w
    case Px(n) => Px(Max(n, x))
    case NaN => NaN
  }

  /** Ten pixels per UTF-16 code unit of a text. */
  function TextWidth(s: string): nat {
    CharWidth * Utf16Length(s)
  }

  /** The width of a cell's text. */
  function CellPx(c: Cell): nat {
    TextWidth(CellText(c))
  }

  /** The widest cell in column `i` over `rows`, in pixels; 0 if none. */
  function CellWidth(rows: seq<seq<Cell>>, i: nat): nat
    decreases |rows|
  {
    if rows == [] then 0
    else
      var last := rows[|rows| - 1];
      Max(CellWidth(rows[..|rows| - 1], i), if i < |last| then CellPx(last[i]) else 0)
  }

  /** The number of cells in the widest row. */
  function MaxRowLength(rows: seq<seq<Cell>>): nat
    decreases |rows|
  {
    if rows == [] then 0 else Max(MaxRowLength(rows[..|rows| - 1]), |rows[|rows| - 1]|)
  }

  /** Column `i`'s width: at least the default, the header and every cell
      in the column; `NaN` for a column that has no header. */
  function ColumnWidth(headers: seq<string>, rows: seq<seq<Cell>>, i: nat): Width {
    if i < |headers| then Px(Max(Max(DefaultWidth, TextWidth(headers[i])), CellWidth(rows, i)))
    else NaN
  }

  /** All column widths of a table. */
  function Widths(t: Table): seq<Width> {
    var n := Max(|t.headers|, MaxRowLength(t.rows));
    seq(n, i requires 0 <= i < n => ColumnWidth(t.headers, t.rows, i))
  }

  /** A header of astral characters (emoji, say) is measured at twenty
      pixels per character, as JavaScript's `length` counts two code units
      for each. */
  lemma AstralHeaderWidth(h: string)
    requires forall i | 0 <= i < |h| :: Astral(h[i])
    ensures ColumnWidth([h], [], 0) == Px(Max(DefaultWidth, 20 * |h|))
  {
    Utf16LengthAstral(h);
  }

  /** A number cell is as wide as its decimal digits plus a minus sign when
      it is negative. */
  lemma NumberCellWidth(n: int)
    ensures TextWidth(CellText(Num(n))) == CharWidth * (|NatToString(if n < 0 then -n else n)| + if n < 0 then 1 else 0)
  {
    var digits := NatToString(if n < 0 then -n else n);
    forall i | 0 <= i < |digits| ensures !Astral(digits[i]) {
      assert IsDigit(digits[i]);
    }
    Utf16LengthBmp(digits);
    if n < 0 {
      var r := CellText(Num(n));
      assert r == "-" + digits;
      forall i | 0 <= i < |r| ensures !Astral(r[i]) {
        if i > 0 { assert r[i] == digits[i - 1]; }
      }
      Utf16LengthBmp(r);
    }
  }

  /** The first two passes of `calculateColumnWidths`: the default width,
      raised to the width of each header. */
  method HeaderWidths(headers: seq<string>) returns (widths: seq<Width>)
    ensures |widths| == |headers|
    ensures forall i | 0 <= i < |widths| :: widths[i] == ColumnWidth(headers, [], i)
  {
    widths := [];
    var k := 0;
    while k < |headers|
      invariant 0 <= k <= |headers| && |widths| == k
      invariant forall i | 0 <= i < k :: widths[i] == Px(DefaultWidth)
    {
      widths := widths + [Px(DefaultWidth)];
      k := k + 1;
    }
    k := 0;
    while k < |headers|
      invariant 0 <= k <= |headers| && |widths| == |headers|
      invariant forall i | 0 <= i < k :: widths[i] == ColumnWidth(headers, [], i)
      invariant forall i | k <= i < |widths| :: widths[i] == Px(DefaultWidth)
    {
      widths := widths[k := MaxWidth(widths[k], TextWidth(headers[k]))];
      k := k + 1;
    }
  }

  /** One row of the content pass: each cell raises its column's width, and
      a cell beyond the current columns adds a `NaN` entry. */
  method AddRow(headers: seq<string>, before: seq<seq<Cell>>, row: seq<Cell>, widths0: seq<Width>)
    returns (widths: seq<Width>)
    requires |widths0| == Max(|headers|, MaxRowLength(before))
    requires forall i | 0 <= i < |widths0| :: widths0[i] == ColumnWidth(headers, before, i)
    ensures |widths| == Max(|headers|, MaxRowLength(before + [row]))
    ensures forall i | 0 <= i < |widths| :: widths[i] == ColumnWidth(headers, before + [row], i)
  {
    var after := before + [row];
    assert after[..|after| - 1] == before;
    widths := widths0;
    var c := 0;
    while c < |row|
      invariant 0 <= c <= |row|
      invariant |widths| == Max(|widths0|, c)
      invariant forall i | 0 <= i < |widths| ::
        widths[i] == ColumnWidth(headers, if i < c then after else before, i)
    {
      var w := CellPx(row[c]);
      if c < |widths| {
        widths := widths[c := MaxWidth(widths[c], w)];
      } else {
        widths := widths + [NaN];
      }
      c := c + 1;
    }
  }

  /** `calculateColumnWidths`: one entry per header, plus a `NaN` entry for
      every cell position beyond the headers that some row uses. */
  method CalculateColumnWidths(t: Table) returns (widths: seq<Width>)
    ensures |widths| == Max(|t.headers|, MaxRowLength(t.rows))
    ensures forall i | 0 <= i < |widths| :: widths[i] == ColumnWidth(t.headers, t.rows, i)
  {
    widths := HeaderWidths(t.headers);
    var r := 0;
    while r < |t.rows|
      invariant 0 <= r <= |t.rows|
      invariant |widths| == Max(|t.headers|, MaxRowLength(t.rows[..r]))
      invariant forall i | 0 <= i < |widths| :: widths[i] == ColumnWidth(t.headers, t.rows[..r], i)
    {
      widths := AddRow(t.headers, t.rows[..r], t.rows[r], widths);
      assert t.rows[..r] + [t.rows[r]] == t.rows[..r + 1];
      r := r + 1;
    }
    assert t.rows[..|t.rows|] == t.rows;
  }

  /** Sum of the widths; `NaN` as soon as one of them is. */
  function Total(ws: seq<Width>): Width
    decreases |ws|
  {
    if ws == [] then Px(0)
    else match (Total(ws[..|ws| - 1]), ws[|ws| - 1])
      case (Px(a), Px(b)) => Px(a + b)
      case _ => NaN
  }

  /** The canvas height: optional title band, header band, one band per row. */
  function TableHeight(t: Table): nat {
    (if t.title != "" then TitleHeight else 0) + HeaderHeight + RowHeight * |t.rows|
  }

  /** `createTableImage`'s canvas size: the column widths plus padding on
      both sides, and the height of the bands. */
  method TableDimensions(t: Table) returns (width: Width, height: nat)
    ensures height == TableHeight(t)
    ensures width == match Total(Widths(t)) case Px(n) => Px(n + 2 * CellPadding) case NaN => NaN
    ensures MaxRowLength(t.rows) <= |t.headers| ==>
              width.Px? && width.n >= DefaultWidth * |t.headers| + 2 * CellPadding
    ensures MaxRowLength(t.rows) > |t.headers| ==> width == NaN
  {
    var widths := CalculateColumnWidths(t);
    assert widths == Widths(t);
    width := match Total(widths) case Px(n) => Px(n + 2 * CellPadding) case NaN => NaN;
    height := TableHeight(t);
    if MaxRowLength(t.rows) <= |t.headers| {
      TotalOfHeaderColumns(t, widths, |widths|);
      assert widths[..|widths|] == widths;
    } else {
      TotalWithNaN(widths, |t.headers|);
    }
  }

  lemma {:induction false} TotalOfHeaderColumns(t: Table, widths: seq<Width>, n: nat)
    requires n <= |widths| <= |t.headers|
    requires forall i | 0 <= i < |widths| :: widths[i] == ColumnWidth(t.headers, t.rows, i)
    ensures Total(widths[..n]).Px? && Total(widths[..n]).n >= DefaultWidth * n
  {
    if n > 0 {
      TotalOfHeaderColumns(t, widths, n - 1);
      assert widths[..n][..n - 1] == widths[..n - 1];
    }
  }

  lemma {:induction false} TotalWithNaN(widths: seq<Width>, k: nat)
    requires k < |widths| && widths[k] == NaN
    ensures Total(widths) == NaN
    decreases |widths|
  {
    if k < |widths| - 1 {
      TotalWithNaN(widths[..|widths| - 1], k);
    }
  }

  /** Every row band lies inside the canvas: row `k` starts below the header
      and ends no lower than the canvas height. */
  lemma RowsInsideCanvas(t: Table, k: nat)
    requires k < |t.rows|
    ensures var top := (if t.title != "" then TitleHeight else 0) + HeaderHeight + k * RowHeight;
      top >= HeaderHeight && top + RowHeight <= TableHeight(t)
  {
  }
}
