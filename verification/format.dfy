/**
 * `formatResponse` of the recommendation panel: the text shown for the
 * JSON the recommendation endpoint returns.
 *
 * JSON values keep JavaScript's truthiness; an absent key is `None`
 * (`undefined`).  Every rendering of a number (`String`, `toFixed`,
 * `toLocaleString`, `parseFloat`) and the `JSON.stringify` dump are
 * fields of a `Render` record, left uninterpreted.
 */
module Format {
  import opened Wrappers
  import opened Strings

  /** A JSON value as the panel sees it; `Composite` is an object or array with its `String()` text. */
  datatype Value = Null | Bool(b: bool) | Num(x: real) | Str(s: string) | Composite(text: string)

  /** JavaScript truthiness (NaN is not modelled). */
  predicate IsTruthy(v: Value) {
    match v
    case Null => false
    case Bool(b) => b
    case Num(x) => x != 0.0
    case Str(s) => s != ""
    case Composite(_) => true
  }

  /** A key that is present with a truthy value. */
  predicate Present(o: Option<Value>) {
    o.Some? && IsTruthy(o.value)
  }

  /** One recommended position; every field may be absent. */
  datatype Position = Position(
    nftId: Option<Value>, id: Option<Value>, weightedScore: Option<Value>,
    apr: Option<Value>, roi: Option<Value>, feeTier: Option<Value>,
    tickLower: Option<Value>, tickUpper: Option<Value>, inRange: Option<Value>,
    age: Option<Value>, underlyingValue: Option<Value>)

  /**
   * A truthy `scoring_weights`.  One that is not an object reads as one
   * with none of the three keys, since `(1).apr` is `undefined` too.
   */
  datatype Weights = Weights(apr: Option<Value>, roi: Option<Value>, volume: Option<Value>)

  /** The reply of the recommendation endpoint. */
  datatype RecData = RecData(
    error: Option<Value>, totalPositions: Option<Value>, positions: Option<seq<Position>>,
    network: Option<Value>, exchange: Option<Value>, scoringWeights: Option<Weights>,
    token0: Option<Value>, token1: Option<Value>)

  /** The number renderings and the dump, left uninterpreted. */
  datatype Render = Render(
    number: real -> string,            // `${x}` for a number
    percent0: Option<Value> -> string, // `(w * 100).toFixed(0)`
    percent2: Value -> string,         // `(score * 100).toFixed(2)`
    fixed2: real -> string,            // `x.toFixed(2)`
    days: Value -> string,             // `parseFloat(v.toString()).toFixed(1)`
    locale: Value -> string,           // `parseFloat(v.toString()).toLocaleString()`
    dump: RecData -> string,           // `JSON.stringify(data, null, 2)`
    typeError: string)                 // message of the TypeError a bad field raises

  /** `${v}` in a template literal. */
  function Show(render: Render, v: Value): string {
    match v
    case Null => "null"
    case Bool(b) => if b then "true" else "false"
    case Num(x) => render.number(x)
    case Str(s) => s
    case Composite(t) => t
  }

  function Min(a: nat, b: nat): nat {
    if a <= b then a else b
  }

  // ---------------------------------------------------------------------
  // Header
  // ---------------------------------------------------------------------

  /** `data.total_positions || (data.positions ? data.positions.length : 0)`, as text. */
  function CountText(data: RecData, render: Render): string {
    if Present(data.totalPositions) then Show(render, data.totalPositions.value)
    else if data.positions.Some? then Decimal(|data.positions.value|)
    else "0"
  }

  /**
   * `(name || 'Unknown').toUpperCase()`; `None` when a truthy non-string
   * makes `toUpperCase` throw.
   */
  function NameText(o: Option<Value>): (r: Option<string>)
    ensures r.None? <==> Present(o) && !o.value.Str?
    ensures r.Some? ==> forall i :: 0 <= i < |r.value| ==> !IsLowerAscii(r.value[i])
    ensures Present(o) && o.value.Str? ==> r == Some(Upper(o.value.s))
  {
    if !Present(o) then Some(Upper("Unknown"))
    else match o.value
      case Str(s) => Some(Upper(s))
      case _ => None
  }

  /** A missing or falsy name is shown as `UNKNOWN`. */
  lemma UnknownName(o: Option<Value>)
    requires !Present(o)
    ensures NameText(o) == Some("UNKNOWN")
  {
    assert Upper("Unknown") == "UNKNOWN";
  }

  /** The `SCORING WEIGHTS` block, present exactly when the weights are. */
  function WeightsText(w: Option<Weights>, render: Render): (r: string)
    ensures r == "" <==> w.None?
  {
    match w
    case None => ""
    case Some(ws) =>
      "SCORING WEIGHTS:\n"
      + "  - APR: " + render.percent0(ws.apr) + "%\n"
      + "  - ROI: " + render.percent0(ws.roi) + "%\n"
      + "  - Volume: " + render.percent0(ws.volume) + "%\n\n"
  }

  /** The three header lines: the count, the network and the exchange. */
  function HeaderLines(count: string, network: string, pool: string): (r: string)
    ensures StartsWith(r, "FOUND " + count + " UNISWAP POSITIONS\n")
    ensures |r| > 0 && r[0] == 'F'
  {
    var first := "FOUND " + count + " UNISWAP POSITIONS\n";
    StartsWithAppend(first, "NETWORK: " + network + "\n" + "POOL: " + pool + "\n");
    first + ("NETWORK: " + network + "\n" + "POOL: " + pool + "\n")
  }

  /** The three header lines and the weights block; `None` when a name throws. */
  function Header(data: RecData, render: Render): (r: Option<string>)
    ensures r.None? <==> NameText(data.network).None? || NameText(data.exchange).None?
    ensures r.Some? ==>
              StartsWith(r.value, HeaderLines(CountText(data, render), NameText(data.network).value, NameText(data.exchange).value))
    ensures r.Some? ==> StartsWith(r.value, "FOUND " + CountText(data, render) + " UNISWAP POSITIONS\n")
    ensures r.Some? ==> |r.value| > 0 && r.value[0] == 'F'
  {
    match (NameText(data.network), NameText(data.exchange))
    case (Some(n), Some(e)) =>
      var lines := HeaderLines(CountText(data, render), n, e);
      var w := WeightsText(data.scoringWeights, render);
      StartsWithAppend(lines, w);
      StartsWithTransitive(lines + w, lines, "FOUND " + CountText(data, render) + " UNISWAP POSITIONS\n");
      assert (lines + w)[0] == lines[0];
      Some(lines + w)
    case _ => None
  }

  // ---------------------------------------------------------------------
  // Listing
  // ---------------------------------------------------------------------

  /** The identifier of the k-th listed position: `nft_id`, else `id`, else its number. */
  function IdText(pos: Position, k: nat, render: Render): string {
    if Present(pos.nftId) then "Position ID: " + Show(render, pos.nftId.value)
    else if Present(pos.id) then "ID: " + Show(render, pos.id.value)
    else "Position #" + Decimal(k + 1)
  }

  /** `${index + 1}. ` and the identifier. */
  function IdLine(pos: Position, k: nat, render: Render): (r: string)
    ensures StartsWith(r, Decimal(k + 1) + ". ")
  {
    var lead := Decimal(k + 1) + ". ";
    StartsWithAppend(lead, IdText(pos, k, render) + "\n");
    lead + (IdText(pos, k, render) + "\n")
  }

  function ScoreLine(pos: Position, render: Render): string {
    if pos.weightedScore.Some? then "   Score: " + render.percent2(pos.weightedScore.value) + "%\n" else ""
  }

  /** The APR line: only for a numeric `apr`. */
  function AprLine(pos: Position, render: Render): (r: string)
    ensures r != "" <==> pos.apr.Some? && pos.apr.value.Num?
    ensures r != "" ==> StartsWith(r, "   APR: ")
  {
    match pos.apr
    case Some(Num(x)) =>
      StartsWithAppend("   APR: ", render.fixed2(x) + "%\n");
      "   APR: " + (render.fixed2(x) + "%\n")
    case _ => ""
  }

  /** The ROI line: only for a numeric `roi`. */
  function RoiLine(pos: Position, render: Render): (r: string)
    ensures r != "" <==> pos.roi.Some? && pos.roi.value.Num?
    ensures r != "" ==> StartsWith(r, "   ROI: ")
  {
    match pos.roi
    case Some(Num(x)) =>
      StartsWithAppend("   ROI: ", render.fixed2(x) + "%\n");
      "   ROI: " + (render.fixed2(x) + "%\n")
    case _ => ""
  }

  function FeeLine(pos: Position, render: Render): string {
    if Present(pos.feeTier) then "   Fee Tier: " + Show(render, pos.feeTier.value) + "\n" else ""
  }

  function TicksLine(pos: Position, render: Render): string {
    if pos.tickLower.Some? && pos.tickUpper.Some? then
      "   Ticks: " + Show(render, pos.tickLower.value) + " to " + Show(render, pos.tickUpper.value) + "\n"
    else ""
  }

  function InRangeLine(pos: Position): string {
    if pos.inRange.Some? then "   In Range: " + (if IsTruthy(pos.inRange.value) then "Yes" else "No") + "\n" else ""
  }

  function AgeLine(pos: Position, render: Render): string {
    if pos.age.Some? then "   Age: " + render.days(pos.age.value) + " days\n" else ""
  }

  function TvlLine(pos: Position, render: Render): string {
    if pos.underlyingValue.Some? then "   TVL: $" + render.locale(pos.underlyingValue.value) + "\n" else ""
  }

  /** `null.toString()` in the age or TVL line throws. */
  predicate Throws(pos: Position) {
    pos.age == Some(Null) || pos.underlyingValue == Some(Null)
  }

  /** The lines under the identifier, each present only when its field is. */
  function Details(pos: Position, render: Render): string {
    ScoreLine(pos, render) + AprLine(pos, render) + RoiLine(pos, render)
    + FeeLine(pos, render) + TicksLine(pos, render) + InRangeLine(pos)
    + AgeLine(pos, render) + TvlLine(pos, render) + "\n"
  }

  /** The k-th entry of the listing. */
  function Entry(pos: Position, k: nat, render: Render): string {
    IdLine(pos, k, render) + Details(pos, render)
  }

  /** `positions.slice(0, 10)`, entry by entry. */
  function Entries(ps: seq<Position>, render: Render): (r: seq<string>)
    ensures |r| == Min(10, |ps|)
    ensures forall k :: 0 <= k < |r| ==> r[k] == Entry(ps[k], k, render)
  {
    seq(Min(10, |ps|), k requires 0 <= k < Min(10, |ps|) => Entry(ps[k], k, render))
  }

  /** Some listed position throws while its entry is built. */
  predicate ListingThrows(ps: seq<Position>) {
    exists k :: 0 <= k < Min(10, |ps|) && Throws(ps[k])
  }

  const Rule: string := Repeat('=', 80)

  /** The banner over a non-empty listing. */
  const ListingBanner: string := "TOP UNISWAP POSITIONS:\n" + Rule + "\n\n"

  predicate HasPositions(data: RecData) {
    data.positions.Some? && |data.positions.value| > 0
  }

  /**
   * `formatResponse(data)`; `None` when building the text throws, which the
   * caller reports as a failed request.
   */
  function FormatResponse(data: RecData, render: Render): (r: Option<string>)
    ensures Present(data.error) ==> r.Some?
    ensures r.Some? && StartsWith(r.value, "ERROR: ") <==> Present(data.error)
    ensures r.None? <==> (!Present(data.error) && (Header(data, render).None? ||
              (HasPositions(data) && ListingThrows(data.positions.value))))
    ensures r.Some? && !Present(data.error) ==> StartsWith(r.value, Header(data, render).value)
  {
    if Present(data.error) then Some(ErrorReport(data, render))
    else match Header(data, render)
      case None => None
      case Some(h) =>
        match Listing(data, render)
        case None => None
        case Some(t) =>
          HeaderLeads(h, t);
          Some(h + t)
  }

  /** The error branch: `ERROR: `, the error, and the dump of the whole reply. */
  function ErrorReport(data: RecData, render: Render): (r: string)
    requires Present(data.error)
    ensures StartsWith(r, "ERROR: ")
  {
    var rest := Show(render, data.error.value) + "\n" + render.dump(data);
    StartsWithAppend("ERROR: ", rest);
    "ERROR: " + rest
  }

  /**
   * What follows the header: the banner and the entries, or `NO POSITIONS
   * FOUND` and the dump; `None` when building an entry throws.
   */
  function Listing(data: RecData, render: Render): (r: Option<string>)
    ensures r.None? <==> HasPositions(data) && ListingThrows(data.positions.value)
  {
    if HasPositions(data) then
      var ps := data.positions.value;
      if ListingThrows(ps) then None else Some(ListingBanner + Concat(Entries(ps, render)))
    else Some("\nNO POSITIONS FOUND\n" + "Response: " + render.dump(data) + "\n")
  }

  /** Text led by the header keeps the header as its prefix and cannot pass for an error. */
  lemma HeaderLeads(h: string, t: string)
    requires |h| > 0 && h[0] == 'F'
    ensures StartsWith(h + t, h) && !StartsWith(h + t, "ERROR: ")
  {
    StartsWithAppend(h, t);
    assert (h + t)[0] == 'F';
  }

  // ---------------------------------------------------------------------
  // Properties
  // ---------------------------------------------------------------------

  /**
   * A report without an error opens with the count line, then `NETWORK: `
   * and `POOL: ` with the names as `NameText` renders them: upper-cased, or
   * `UNKNOWN` when missing or falsy.
   */
  lemma ReportHeaderLines(data: RecData, render: Render)
    requires !Present(data.error) && FormatResponse(data, render).Some?
    ensures NameText(data.network).Some? && NameText(data.exchange).Some?
    ensures StartsWith(FormatResponse(data, render).value,
              HeaderLines(CountText(data, render), NameText(data.network).value, NameText(data.exchange).value))
  {
    var h := Header(data, render).value;
    StartsWithTransitive(FormatResponse(data, render).value, h,
      HeaderLines(CountText(data, render), NameText(data.network).value, NameText(data.exchange).value));
  }

  /** A truthy `error` gives the error line and the dump, with no header or listing. */
  lemma ErrorBranch(data: RecData, render: Render)
    requires Present(data.error)
    ensures FormatResponse(data, render) == Some("ERROR: " + Show(render, data.error.value) + "\n" + render.dump(data))
  {
    var m := Show(render, data.error.value);
    assert "ERROR: " + m + "\n" + render.dump(data) == "ERROR: " + (m + "\n" + render.dump(data));
  }

  /** The count shown: `total_positions` if truthy, else the list's length, else 0. */
  lemma CountDefaults(data: RecData, render: Render)
    ensures !Present(data.totalPositions) && data.positions.Some? ==> CountText(data, render) == Decimal(|data.positions.value|)
    ensures !Present(data.totalPositions) && data.positions.None? ==> CountText(data, render) == "0"
    ensures Present(data.totalPositions) && data.totalPositions.value.Str? ==>
              CountText(data, render) == data.totalPositions.value.s
  {
  }

  /** A non-empty list is shown as at most ten numbered entries under the banner. */
  lemma ListingShape(data: RecData, render: Render)
    requires !Present(data.error) && Header(data, render).Some?
    requires HasPositions(data) && !ListingThrows(data.positions.value)
    ensures var ps := data.positions.value;
      && FormatResponse(data, render) == Some(Header(data, render).value + ListingBanner + Concat(Entries(ps, render)))
      && |Entries(ps, render)| == Min(10, |ps|) <= 10
  {
    var h := Header(data, render).value;
    var es := Concat(Entries(data.positions.value, render));
    assert h + ListingBanner + es == h + (ListingBanner + es);
  }

  /** A missing or empty list shows `NO POSITIONS FOUND` and the dump. */
  lemma EmptyListing(data: RecData, render: Render)
    requires !Present(data.error) && Header(data, render).Some?
    requires !HasPositions(data)
    ensures FormatResponse(data, render)
         == Some(Header(data, render).value + "\nNO POSITIONS FOUND\n" + "Response: " + render.dump(data) + "\n")
  {
    var h := Header(data, render).value;
    var t := "\nNO POSITIONS FOUND\n" + "Response: " + render.dump(data) + "\n";
    assert h + "\nNO POSITIONS FOUND\n" + "Response: " + render.dump(data) + "\n" == h + t;
  }

  /** Entries are numbered from 1, and distinct entries carry distinct numbers. */
  lemma EntryNumbering(p: Position, q: Position, k: nat, l: nat, render: Render)
    ensures StartsWith(Entry(p, k, render), Decimal(k + 1) + ". ")
    ensures k != l ==> Decimal(k + 1) != Decimal(l + 1)
  {
    var idl := IdLine(p, k, render);
    StartsWithAppend(idl, Details(p, render));
    StartsWithTransitive(Entry(p, k, render), idl, Decimal(k + 1) + ". ");
    if k != l && Decimal(k + 1) == Decimal(l + 1) {
      NatDigitsInjective(k + 1, l + 1);
    }
  }

  /** The identifier prefers `nft_id`, then `id`, then the entry's own number. */
  lemma IdPrecedence(pos: Position, k: nat, render: Render)
    ensures Present(pos.nftId) ==> IdText(pos, k, render) == "Position ID: " + Show(render, pos.nftId.value)
    ensures !Present(pos.nftId) && Present(pos.id) ==> IdText(pos, k, render) == "ID: " + Show(render, pos.id.value)
    ensures !Present(pos.nftId) && !Present(pos.id) ==>
              IdLine(pos, k, render) == Decimal(k + 1) + ". Position #" + Decimal(k + 1) + "\n"
  {
  }

  /** Positions past the tenth change nothing: only the first ten are read. */
  lemma BeyondTenIgnored(data: RecData, qs: seq<Position>, render: Render)
    requires !Present(data.error) && data.positions.Some?
    requires |qs| == |data.positions.value|
    requires qs[..Min(10, |qs|)] == data.positions.value[..Min(10, |qs|)]
    ensures FormatResponse(data.(positions := Some(qs)), render) == FormatResponse(data, render)
  {
    var ps := data.positions.value;
    var d2 := data.(positions := Some(qs));
    assert CountText(d2, render) == CountText(data, render);
    assert Header(d2, render) == Header(data, render);
    forall k | 0 <= k < Min(10, |qs|)
      ensures qs[k] == ps[k]
    {
      assert qs[k] == qs[..Min(10, |qs|)][k];
    }
    assert Entries(qs, render) == Entries(ps, render);
    assert ListingThrows(qs) == ListingThrows(ps);
  }

  /** A null `age` in a listed position makes the whole format throw; past the tenth it is never read. */
  lemma NullAgeThrows(data: RecData, k: nat, render: Render)
    requires !Present(data.error) && Header(data, render).Some?
    requires data.positions.Some? && k < |data.positions.value|
    requires data.positions.value[k].age == Some(Null)
    ensures k < 10 ==> FormatResponse(data, render).None?
  {
    if k < 10 {
      assert HasPositions(data);
      assert Throws(data.positions.value[k]);
    }
  }
}
