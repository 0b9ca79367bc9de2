/** The comparable-booking estimator (`houseboat_price_predictor.py`): the
    dataset is cut down to one-night bookings and its two categorical
    columns are replaced by integer codes; a query is then priced from the
    median of the bookings that match it exactly, falling back to the median
    of all bookings, scaled by a season factor and pulled halfway towards
    the actual median price when it strays more than 20% from it. */
module ComparablePricing {
  import opened Wrappers
  import opened LabelEncoding
  import opened Statistics

  datatype Column = HouseboatType | Season

  /** The columns encoded, in the order the source encodes them. */
  const CategoricalColumns: seq<Column> := [HouseboatType, Season]

  /** A categorical cell: the label read from the file, or the integer code
      that replaces it once its column is encoded. */
  datatype Cell = Text(text: string) | Code(code: nat)

  /** One row of the bookings table. */
  datatype Booking = Booking(
    capacity: int,
    bedrooms: int,
    houseboatType: Cell,
    season: Cell,
    duration: int,
    basePrice: real,
    finalPrice: real)

  function CellOf(b: Booking, c: Column): Cell {
    match c
    case HouseboatType => b.houseboatType
    case Season => b.season
  }

  /** `df[col] = ...` for one row: column `c` is overwritten, every other field kept. */
  function WithCell(b: Booking, c: Column, v: Cell): (r: Booking)
    ensures CellOf(r, c) == v
    ensures forall other :: other != c ==> CellOf(r, other) == CellOf(b, other)
    ensures r.capacity == b.capacity && r.bedrooms == b.bedrooms && r.duration == b.duration
    ensures r.basePrice == b.basePrice && r.finalPrice == b.finalPrice
  {
    match c
    case HouseboatType => b.(houseboatType := v)
    case Season => b.(season := v)
  }

  /** The table as loaded: both categorical columns still hold text. */
  predicate Loaded(rows: seq<Booking>) {
    forall b, c :: b in rows ==> CellOf(b, c).Text?
  }

  /** `df[df["duration"] == 1]`: the one-night bookings, in their original order. */
  function SingleNight(rows: seq<Booking>): (r: seq<Booking>)
    ensures forall i :: 0 <= i < |r| ==> r[i].duration == 1 && r[i] in rows
    ensures forall b :: multiset(r)[b] == if b.duration == 1 then multiset(rows)[b] else 0
  {
    if rows == [] then []
    else
      assert rows == [rows[0]] + rows[1..];
      (if rows[0].duration == 1 then [rows[0]] else []) + SingleNight(rows[1..])
  }

  /** The filter works row by row: filtering a table made of two parts is
      filtering each part and keeping the first part's rows first. With
      the one-row case of `SingleNight`, this fixes the result as the
      one-night rows in table order. */
  lemma {:induction false} SingleNightAppend(a: seq<Booking>, b: seq<Booking>)
    ensures SingleNight(a + b) == SingleNight(a) + SingleNight(b)
    decreases |a|
  {
    if a == [] {
      assert a + b == b;
    } else {
      var head := if a[0].duration == 1 then [a[0]] else [];
      assert (a + b)[0] == a[0];
      assert (a + b)[1..] == a[1..] + b;
      assert SingleNight(a + b) == head + SingleNight(a[1..] + b);
      SingleNightAppend(a[1..], b);
      ConcatAssociative(head, SingleNight(a[1..]), SingleNight(b));
    }
  }

  lemma ConcatAssociative(x: seq<Booking>, y: seq<Booking>, z: seq<Booking>)
    ensures x + (y + z) == (x + y) + z
  {
  }

  /** The labels of column `c`, row by row. */
  function ColumnLabels(rows: seq<Booking>, c: Column): (r: seq<string>)
    requires forall i :: 0 <= i < |rows| ==> CellOf(rows[i], c).Text?
    ensures |r| == |rows|
    ensures forall i :: 0 <= i < |rows| ==> r[i] == CellOf(rows[i], c).text
  {
    seq(|rows|, i requires 0 <= i < |rows| => CellOf(rows[i], c).text)
  }

  /** `le.transform(df[col])` written back into column `c`. */
  function EncodeColumn(rows: seq<Booking>, c: Column, e: LabelEncoder): (r: seq<Booking>)
    requires forall i :: 0 <= i < |rows| ==> CellOf(rows[i], c).Text? && CellOf(rows[i], c).text in e.classes
    ensures |r| == |rows|
    ensures forall i :: 0 <= i < |rows| ==>
      r[i] == WithCell(rows[i], c, Code(Transform(e, CellOf(rows[i], c).text).value))
  {
    seq(|rows|, i requires 0 <= i < |rows| =>
      WithCell(rows[i], c, Code(Transform(e, CellOf(rows[i], c).text).value)))
  }

  /** `row` is `orig` with the columns that have an encoder holding the code
      of `orig`'s label, and every other field untouched. */
  ghost predicate EncodedRow(row: Booking, orig: Booking, encoders: map<Column, LabelEncoder>) {
    row.capacity == orig.capacity && row.bedrooms == orig.bedrooms &&
    row.duration == orig.duration &&
    row.basePrice == orig.basePrice && row.finalPrice == orig.finalPrice &&
    forall c :: if c in encoders then
        CellOf(row, c).Code? && CellOf(row, c).code < |encoders[c].classes| &&
        CellOf(orig, c).Text? &&
        InverseTransform(encoders[c], CellOf(row, c).code) == CellOf(orig, c).text
      else CellOf(row, c) == CellOf(orig, c)
  }

  /** What loading leaves behind: the one-night rows of `raw`, each with
      its labels replaced by codes, and one fitted encoder per categorical
      column, fitted on those one-night rows. */
  ghost predicate Prepared(raw: seq<Booking>, df: seq<Booking>, encoders: map<Column, LabelEncoder>)
    requires Loaded(raw)
  {
    var rows := SingleNight(raw);
    |df| == |rows| &&
    (forall c :: c in encoders && encoders[c] == Fit(ColumnLabels(rows, c))) &&
    forall k :: 0 <= k < |df| ==> EncodedRow(df[k], rows[k], encoders)
  }

  /** Encoding one more column keeps every row an encoding of its original. */
  lemma EncodeColumnStep(df: seq<Booking>, rows: seq<Booking>, encoders: map<Column, LabelEncoder>, col: Column)
    requires |df| == |rows| && col !in encoders
    requires forall k :: 0 <= k < |df| ==> EncodedRow(df[k], rows[k], encoders)
    requires forall k :: 0 <= k < |df| ==> CellOf(df[k], col).Text?
    ensures var le := Fit(ColumnLabels(df, col));
      forall k :: 0 <= k < |df| ==> EncodedRow(EncodeColumn(df, col, le)[k], rows[k], encoders[col := le])
  {
    var le := Fit(ColumnLabels(df, col));
    var next := EncodeColumn(df, col, le);
    forall k | 0 <= k < |df| ensures EncodedRow(next[k], rows[k], encoders[col := le]) {
      assert ColumnLabels(df, col)[k] == CellOf(df[k], col).text;
      EncodeRowStep(df[k], rows[k], encoders, col, le);
    }
  }

  /** Writing the code of a row's label into a column without an encoder
      keeps the row an encoding of its original. */
  lemma EncodeRowStep(row: Booking, orig: Booking, encoders: map<Column, LabelEncoder>, col: Column, le: LabelEncoder)
    requires col !in encoders && EncodedRow(row, orig, encoders)
    requires CellOf(row, col).Text? && CellOf(row, col).text in le.classes
    ensures EncodedRow(WithCell(row, col, Code(Transform(le, CellOf(row, col).text).value)), orig, encoders[col := le])
  {
    assert CellOf(row, col) == CellOf(orig, col);
  }

  lemma AllColumnsEncoded(encoders: map<Column, LabelEncoder>)
    requires forall c :: c in encoders <==> c in CategoricalColumns[..|CategoricalColumns|]
    ensures forall c :: c in encoders
  {
    assert CategoricalColumns[..|CategoricalColumns|] == [HouseboatType, Season];
    forall c ensures c in encoders {
      assert c == HouseboatType || c == Season;
    }
  }

  lemma SingleNightLoaded(raw: seq<Booking>)
    requires Loaded(raw)
    ensures forall k, c :: 0 <= k < |SingleNight(raw)| ==> CellOf(SingleNight(raw)[k], c).Text?
  {
  }

  /** The loop state of the set-up after its first `i` columns: those columns
      have encoders fitted on the one-night rows and hold codes; the others
      still hold their text. */
  ghost predicate EncodedUpTo(rows: seq<Booking>, df: seq<Booking>, encoders: map<Column, LabelEncoder>, i: nat)
    requires i <= |CategoricalColumns|
    requires forall k, c :: 0 <= k < |rows| ==> CellOf(rows[k], c).Text?
  {
    |df| == |rows| &&
    (forall c :: c in encoders <==> c in CategoricalColumns[..i]) &&
    (forall c :: c in encoders ==> encoders[c] == Fit(ColumnLabels(rows, c))) &&
    forall k :: 0 <= k < |df| ==> EncodedRow(df[k], rows[k], encoders)
  }

  /** Before column `i` is encoded it has no encoder and still holds the
      one-night rows' text. */
  lemma NextColumnUnencoded(rows: seq<Booking>, df: seq<Booking>, encoders: map<Column, LabelEncoder>, i: nat)
    requires i < |CategoricalColumns|
    requires forall k, c :: 0 <= k < |rows| ==> CellOf(rows[k], c).Text?
    requires EncodedUpTo(rows, df, encoders, i)
    ensures CategoricalColumns[i] !in encoders
    ensures forall k :: 0 <= k < |df| ==> CellOf(df[k], CategoricalColumns[i]).Text?
    ensures ColumnLabels(df, CategoricalColumns[i]) == ColumnLabels(rows, CategoricalColumns[i])
  {
    var col := CategoricalColumns[i];
    assert col !in encoders by {
      assert CategoricalColumns[..i] == if i == 0 then [] else [HouseboatType];
    }
    assert forall k :: 0 <= k < |df| ==> CellOf(df[k], col) == CellOf(rows[k], col);
  }

  /** Encoding column `i` with an encoder fitted on its labels advances the
      loop state by one column. */
  lemma PrepareStep(rows: seq<Booking>, df: seq<Booking>, encoders: map<Column, LabelEncoder>, i: nat, le: LabelEncoder)
    requires i < |CategoricalColumns| && CategoricalColumns[i] !in encoders
    requires forall k, c :: 0 <= k < |rows| ==> CellOf(rows[k], c).Text?
    requires EncodedUpTo(rows, df, encoders, i)
    requires forall k :: 0 <= k < |df| ==> CellOf(df[k], CategoricalColumns[i]).Text?
    requires ColumnLabels(df, CategoricalColumns[i]) == ColumnLabels(rows, CategoricalColumns[i])
    requires le == Fit(ColumnLabels(df, CategoricalColumns[i]))
    ensures EncodedUpTo(rows, EncodeColumn(df, CategoricalColumns[i], le), encoders[CategoricalColumns[i] := le], i + 1)
  {
    EncodeColumnStep(df, rows, encoders, CategoricalColumns[i]);
    EncodersStep(rows, encoders, i, le, encoders[CategoricalColumns[i] := le]);
  }

  /** Adding the encoder of column `i` keeps the encoders those of the
      first columns, each fitted on the one-night rows. */
  lemma EncodersStep(rows: seq<Booking>, encoders: map<Column, LabelEncoder>, i: nat, le: LabelEncoder,
                     next: map<Column, LabelEncoder>)
    requires i < |CategoricalColumns|
    requires forall k, c :: 0 <= k < |rows| ==> CellOf(rows[k], c).Text?
    requires forall c :: c in encoders <==> c in CategoricalColumns[..i]
    requires forall c :: c in encoders ==> encoders[c] == Fit(ColumnLabels(rows, c))
    requires le == Fit(ColumnLabels(rows, CategoricalColumns[i]))
    requires next == encoders[CategoricalColumns[i] := le]
    ensures forall c :: c in next <==> c in CategoricalColumns[..i + 1]
    ensures forall c :: c in next ==> next[c] == Fit(ColumnLabels(rows, c))
  {
    assert CategoricalColumns[..i + 1] == CategoricalColumns[..i] + [CategoricalColumns[i]];
  }

  /** The module-level set-up: filter to one-night bookings, then fit an
      encoder for each categorical column and overwrite the column with codes. */
  method PrepareDataset(raw: seq<Booking>) returns (df: seq<Booking>, encoders: map<Column, LabelEncoder>)
    requires Loaded(raw)
    ensures Prepared(raw, df, encoders)
    ensures forall k :: 0 <= k < |df| ==> df[k].duration == 1
  {
    df := SingleNight(raw);
    ghost var rows := df;
    SingleNightLoaded(raw);
    encoders := map[];
    for i := 0 to |CategoricalColumns|
      invariant EncodedUpTo(rows, df, encoders, i)
    {
      var col := CategoricalColumns[i];
      NextColumnUnencoded(rows, df, encoders, i);
      var le := Fit(ColumnLabels(df, col));
      PrepareStep(rows, df, encoders, i, le);
      df := EncodeColumn(df, col, le);
      encoders := encoders[col := le];
    }
    AllColumnsEncoded(encoders);
  }

  /** A pricing query, after the console answers have been turned into labels. */
  datatype Query = Query(capacity: int, bedrooms: int, houseboatType: string, season: string)

  /** The console's one-letter answers, taken after `.strip().upper()`:
      `S` is Standard (anything else Luxury), `P` is Peak (anything else
      Off-Season). */
  function QueryFromAnswers(capacity: int, bedrooms: int, typeAnswer: string, seasonAnswer: string): (q: Query)
    ensures q.capacity == capacity && q.bedrooms == bedrooms
    ensures q.houseboatType in {"Standard", "Luxury"} && (q.houseboatType == "Standard" <==> typeAnswer == "S")
    ensures q.season in {"Peak", "Off-Season"} && (q.season == "Peak" <==> seasonAnswer == "P")
  {
    Query(capacity, bedrooms,
          if typeAnswer == "S" then "Standard" else "Luxury",
          if seasonAnswer == "P" then "Peak" else "Off-Season")
  }

  /** The exact-match condition on an encoded row. */
  predicate MatchesCodes(b: Booking, q: Query, typeCode: nat, seasonCode: nat): (r: bool)
    ensures r ==> b.houseboatType.Code? && b.season.Code?
    ensures b.houseboatType.Text? || b.season.Text? ==> !r
  {
    b.capacity == q.capacity && b.bedrooms == q.bedrooms &&
    b.houseboatType == Code(typeCode) && b.season == Code(seasonCode)
  }

  /** The exact-match condition stated on the labels of a loaded row. */
  predicate MatchesLabels(b: Booking, q: Query) {
    b.capacity == q.capacity && b.bedrooms == q.bedrooms &&
    b.houseboatType == Text(q.houseboatType) && b.season == Text(q.season)
  }

  /** `similar_boats`: the rows matching the query exactly, in table order. */
  function Similar(df: seq<Booking>, q: Query, typeCode: nat, seasonCode: nat): (r: seq<Booking>)
    ensures forall i :: 0 <= i < |r| ==> MatchesCodes(r[i], q, typeCode, seasonCode) && r[i] in df
    ensures forall b :: multiset(r)[b] == if MatchesCodes(b, q, typeCode, seasonCode) then multiset(df)[b] else 0
    ensures |r| <= |df|
  {
    if df == [] then []
    else
      assert df == [df[0]] + df[1..];
      (if MatchesCodes(df[0], q, typeCode, seasonCode) then [df[0]] else [])
        + Similar(df[1..], q, typeCode, seasonCode)
  }

  /** The selection works row by row: selecting from a table made of two
      parts is selecting from each part and keeping the first part's rows
      first, so the selected rows stay in table order. */
  lemma {:induction false} SimilarAppend(a: seq<Booking>, b: seq<Booking>, q: Query, t: nat, s: nat)
    ensures Similar(a + b, q, t, s) == Similar(a, q, t, s) + Similar(b, q, t, s)
    decreases |a|
  {
    if a == [] {
      assert a + b == b;
    } else {
      var head := if MatchesCodes(a[0], q, t, s) then [a[0]] else [];
      assert (a + b)[0] == a[0];
      assert (a + b)[1..] == a[1..] + b;
      assert Similar(a + b, q, t, s) == head + Similar(a[1..] + b, q, t, s);
      SimilarAppend(a[1..], b, q, t, s);
      ConcatAssociative(head, Similar(a[1..], q, t, s), Similar(b, q, t, s));
    }
  }

  /** The rows `similar_boats` selects for a query whose labels both encoders know. */
  function Matches(df: seq<Booking>, encoders: map<Column, LabelEncoder>, q: Query): (r: seq<Booking>)
    requires HouseboatType in encoders && Season in encoders
    requires q.houseboatType in encoders[HouseboatType].classes && q.season in encoders[Season].classes
    ensures forall b :: b in r <==> b in df && MatchesCodes(b, q,
      Transform(encoders[HouseboatType], q.houseboatType).value, Transform(encoders[Season], q.season).value)
  {
    Similar(df, q, Transform(encoders[HouseboatType], q.houseboatType).value,
            Transform(encoders[Season], q.season).value)
  }

  function BasePrices(rows: seq<Booking>): (r: seq<real>)
    ensures |r| == |rows| && forall i :: 0 <= i < |rows| ==> r[i] == rows[i].basePrice
  {
    seq(|rows|, i requires 0 <= i < |rows| => rows[i].basePrice)
  }

  function FinalPrices(rows: seq<Booking>): (r: seq<real>)
    ensures |r| == |rows| && forall i :: 0 <= i < |rows| ==> r[i] == rows[i].finalPrice
  {
    seq(|rows|, i requires 0 <= i < |rows| => rows[i].finalPrice)
  }

  /** The estimator's season factor: 1.2 for the label "Peak", 0.85 for any other. */
  function SeasonalMultiplier(season: string): (f: real)
    ensures f == 1.2 <==> season == "Peak"
    ensures f == 0.85 <==> season != "Peak"
  {
    if season == "Peak" then 1.2 else 0.85
  }

  function Abs(x: real): (r: real)
    ensures r >= 0.0 && (r == x || r == -x)
  {
    if x < 0.0 then -x else x
  }

  /** The sanity check against the actual median price: a prediction more
      than 20% of `actual` away from it is replaced by the mean of the two. */
  function Reconcile(predicted: real, actual: real): (r: real)
    ensures Abs(predicted - actual) <= 0.2 * actual ==> r == predicted
    ensures Abs(predicted - actual) > 0.2 * actual ==> r - actual == (predicted - actual) / 2.0
    ensures (predicted <= r <= actual) || (actual <= r <= predicted)
    ensures Abs(r - actual) <= Abs(predicted - actual)
    ensures Abs(predicted - actual) > 0.2 * actual && predicted != actual ==>
      Abs(r - actual) < Abs(predicted - actual)
  {
    if Abs(predicted - actual) > 0.2 * actual then (predicted + actual) / 2.0 else predicted
  }

  datatype PredictError = UnknownCategory(column: Column) | EmptyDataset

  datatype Estimate = Estimate(price: real) | Failure(error: PredictError)

  /** The price of a non-empty selection: its median base price times the
      season factor, reconciled with its median final price. */
  function MatchedPrice(similar: seq<Booking>, season: string): real
    requires similar != []
  {
    Reconcile(Median(BasePrices(similar)) * SeasonalMultiplier(season), Median(FinalPrices(similar)))
  }

  /** The price from the comparable bookings: the median base price of the
      matches (of the whole table when there are none) times the season
      factor, reconciled with the matches' median final price when there
      are matches. */
  function PriceFromMatches(df: seq<Booking>, similar: seq<Booking>, season: string): (r: real)
    requires df != []
    ensures similar == [] ==> r == Median(BasePrices(df)) * SeasonalMultiplier(season)
    ensures similar != [] ==>
      var predicted := Median(BasePrices(similar)) * SeasonalMultiplier(season);
      var actual := Median(FinalPrices(similar));
      ((predicted <= r <= actual) || (actual <= r <= predicted)) &&
      Abs(r - actual) <= Abs(predicted - actual)
  {
    var basePrice := if similar != [] then Median(BasePrices(similar)) else Median(BasePrices(df));
    var predicted := basePrice * SeasonalMultiplier(season);
    if similar != [] then Reconcile(predicted, Median(FinalPrices(similar))) else predicted
  }

  /** `predict_dynamic_price`, without the console: encode the query's
      labels, select the exact matches and price from them. */
  function PredictDynamicPrice(df: seq<Booking>, encoders: map<Column, LabelEncoder>, q: Query): (r: Estimate)
    requires HouseboatType in encoders && Season in encoders
    ensures r.Failure? && r.error.UnknownCategory? <==>
      q.houseboatType !in encoders[HouseboatType].classes || q.season !in encoders[Season].classes
    ensures r == Failure(EmptyDataset) ==> df == []
  {
    match Transform(encoders[HouseboatType], q.houseboatType)
    case None => Failure(UnknownCategory(HouseboatType))
    case Some(typeCode) =>
      match Transform(encoders[Season], q.season)
      case None => Failure(UnknownCategory(Season))
      case Some(seasonCode) =>
        if df == [] then Failure(EmptyDataset)
        else Estimate(PriceFromMatches(df, Similar(df, q, typeCode, seasonCode), q.season))
  }

  // Properties of the estimator.

  /** With a fitted encoder, a row's code equals the query's code exactly
      when the row's label equals the query's label. */
  lemma CodeMatchesLabel(e: LabelEncoder, code: nat, text: string, l: string)
    requires StrictlySorted(e.classes) && code < |e.classes| && InverseTransform(e, code) == text
    requires Transform(e, l).Some?
    ensures code == Transform(e, l).value <==> text == l
  {
    TransformOfClass(e, code);
  }

  /** On a prepared table, the rows selected by comparing codes are exactly
      the one-night bookings whose capacity, bedrooms, type label and season
      label all equal the query's. */
  lemma SelectionMatchesLabels(raw: seq<Booking>, df: seq<Booking>, encoders: map<Column, LabelEncoder>, q: Query)
    requires Loaded(raw) && Prepared(raw, df, encoders)
    requires Transform(encoders[HouseboatType], q.houseboatType).Some?
    requires Transform(encoders[Season], q.season).Some?
    ensures |df| == |SingleNight(raw)|
    ensures var t, s := Transform(encoders[HouseboatType], q.houseboatType).value,
                        Transform(encoders[Season], q.season).value;
      forall k :: 0 <= k < |df| ==> (MatchesCodes(df[k], q, t, s) <==> MatchesLabels(SingleNight(raw)[k], q))
  {
    var rows := SingleNight(raw);
    var t := Transform(encoders[HouseboatType], q.houseboatType).value;
    var s := Transform(encoders[Season], q.season).value;
    forall k | 0 <= k < |df|
      ensures MatchesCodes(df[k], q, t, s) <==> MatchesLabels(rows[k], q)
    {
      assert EncodedRow(df[k], rows[k], encoders);
      var typeCell, seasonCell := CellOf(df[k], HouseboatType), CellOf(df[k], Season);
      CodeMatchesLabel(encoders[HouseboatType], typeCell.code, rows[k].houseboatType.text, q.houseboatType);
      CodeMatchesLabel(encoders[Season], seasonCell.code, rows[k].season.text, q.season);
    }
  }

  /** A label the encoder knows comes from some one-night booking, so a
      prepared table that accepts the query's labels is not empty. */
  lemma KnownLabelMeansData(raw: seq<Booking>, df: seq<Booking>, encoders: map<Column, LabelEncoder>, c: Column, l: string)
    requires Loaded(raw) && Prepared(raw, df, encoders)
    requires Transform(encoders[c], l).Some?
    ensures |df| > 0
  {
    SingleNightLoaded(raw);
    assert l in ColumnLabels(SingleNight(raw), c);
  }

  /** On a prepared table the estimator fails only for an unknown label:
      the global-median fallback always has bookings to work with. */
  lemma PreparedNeverEmpty(raw: seq<Booking>, df: seq<Booking>, encoders: map<Column, LabelEncoder>, q: Query)
    requires Loaded(raw) && Prepared(raw, df, encoders)
    ensures PredictDynamicPrice(df, encoders, q) != Failure(EmptyDataset)
  {
    if Transform(encoders[HouseboatType], q.houseboatType).Some? {
      KnownLabelMeansData(raw, df, encoders, HouseboatType, q.houseboatType);
    }
  }

  /** A selection by codes is empty when no row matches. */
  lemma SimilarEmpty(df: seq<Booking>, q: Query, t: nat, s: nat)
    requires forall k :: 0 <= k < |df| ==> !MatchesCodes(df[k], q, t, s)
    ensures Similar(df, q, t, s) == []
  {
  }

  /** A selection by codes is non-empty when some row matches. */
  lemma SimilarNonEmpty(df: seq<Booking>, q: Query, t: nat, s: nat, j: nat)
    requires j < |df| && MatchesCodes(df[j], q, t, s)
    ensures Similar(df, q, t, s) != []
  {
    assert df[j] in multiset(df);
    assert multiset(Similar(df, q, t, s))[df[j]] == multiset(df)[df[j]];
  }

  /** With encoded labels and no row matching their codes, the estimate
      falls back to the whole table. */
  lemma EstimateWithoutCodeMatches(df: seq<Booking>, encoders: map<Column, LabelEncoder>, q: Query, t: nat, s: nat)
    requires HouseboatType in encoders && Season in encoders
    requires Transform(encoders[HouseboatType], q.houseboatType) == Some(t)
    requires Transform(encoders[Season], q.season) == Some(s)
    requires df != [] && forall k :: 0 <= k < |df| ==> !MatchesCodes(df[k], q, t, s)
    ensures PredictDynamicPrice(df, encoders, q) == Estimate(Median(BasePrices(df)) * SeasonalMultiplier(q.season))
  {
    SimilarEmpty(df, q, t, s);
    PredictWithCodes(df, encoders, q, t, s);
    PriceFromNoMatches(df, q.season);
  }

  /** With both labels encoded and a non-empty table, the estimator prices
      the query from the rows matching the codes. */
  lemma PredictWithCodes(df: seq<Booking>, encoders: map<Column, LabelEncoder>, q: Query, t: nat, s: nat)
    requires HouseboatType in encoders && Season in encoders
    requires Transform(encoders[HouseboatType], q.houseboatType) == Some(t)
    requires Transform(encoders[Season], q.season) == Some(s)
    requires df != []
    ensures PredictDynamicPrice(df, encoders, q) == Estimate(PriceFromMatches(df, Similar(df, q, t, s), q.season))
  {
  }

  /** Pricing from an empty selection falls back to the whole table. */
  lemma PriceFromNoMatches(df: seq<Booking>, season: string)
    requires df != []
    ensures PriceFromMatches(df, [], season) == Median(BasePrices(df)) * SeasonalMultiplier(season)
  {
  }

  /** Pricing from a non-empty selection reconciles with it. */
  lemma PriceFromSomeMatches(df: seq<Booking>, similar: seq<Booking>, season: string)
    requires df != [] && similar != []
    ensures PriceFromMatches(df, similar, season) == MatchedPrice(similar, season)
  {
  }

  /** On a prepared table, when no one-night booking has the query's
      capacity, bedrooms, type label and season label, the estimate is the
      season factor times the median base price of the whole table, with no
      reconciliation. */
  lemma FallbackWithoutMatches(raw: seq<Booking>, df: seq<Booking>, encoders: map<Column, LabelEncoder>, q: Query)
    requires Loaded(raw) && Prepared(raw, df, encoders)
    requires q.houseboatType in encoders[HouseboatType].classes && q.season in encoders[Season].classes
    requires forall k :: 0 <= k < |SingleNight(raw)| ==> !MatchesLabels(SingleNight(raw)[k], q)
    ensures df != []
    ensures PredictDynamicPrice(df, encoders, q) == Estimate(Median(BasePrices(df)) * SeasonalMultiplier(q.season))
  {
    KnownLabelMeansData(raw, df, encoders, HouseboatType, q.houseboatType);
    SelectionMatchesLabels(raw, df, encoders, q);
    var t := Transform(encoders[HouseboatType], q.houseboatType).value;
    var s := Transform(encoders[Season], q.season).value;
    EstimateWithoutCodeMatches(df, encoders, q, t, s);
  }

  /** On a prepared table, a one-night booking that matches the query's
      labels is a row that matches the query's codes. */
  lemma LabelMatchIsCodeMatch(raw: seq<Booking>, df: seq<Booking>, encoders: map<Column, LabelEncoder>, q: Query, j: nat)
    requires Loaded(raw) && Prepared(raw, df, encoders)
    requires q.houseboatType in encoders[HouseboatType].classes && q.season in encoders[Season].classes
    requires j < |SingleNight(raw)| && MatchesLabels(SingleNight(raw)[j], q)
    ensures j < |df|
    ensures MatchesCodes(df[j], q, Transform(encoders[HouseboatType], q.houseboatType).value,
                         Transform(encoders[Season], q.season).value)
  {
    SelectionMatchesLabels(raw, df, encoders, q);
  }

  /** On a prepared table, when some one-night booking matches the query's
      labels, the estimate is the matches' median base price times the
      season factor, reconciled with the matches' median final price. */
  lemma ReconcileWhenMatched(raw: seq<Booking>, df: seq<Booking>, encoders: map<Column, LabelEncoder>, q: Query, j: nat)
    requires Loaded(raw) && Prepared(raw, df, encoders)
    requires q.houseboatType in encoders[HouseboatType].classes && q.season in encoders[Season].classes
    requires j < |SingleNight(raw)| && MatchesLabels(SingleNight(raw)[j], q)
    ensures Matches(df, encoders, q) != []
    ensures PredictDynamicPrice(df, encoders, q) == Estimate(MatchedPrice(Matches(df, encoders, q), q.season))
  {
    LabelMatchIsCodeMatch(raw, df, encoders, q, j);
    EstimateWithMatch(df, encoders, q, j);
  }

  /** With known labels and row `j` matching their codes, the estimate is
      reconciled with the matches. */
  lemma EstimateWithMatch(df: seq<Booking>, encoders: map<Column, LabelEncoder>, q: Query, j: nat)
    requires HouseboatType in encoders && Season in encoders
    requires q.houseboatType in encoders[HouseboatType].classes && q.season in encoders[Season].classes
    requires j < |df|
    requires MatchesCodes(df[j], q, Transform(encoders[HouseboatType], q.houseboatType).value,
                          Transform(encoders[Season], q.season).value)
    ensures Matches(df, encoders, q) != []
    ensures PredictDynamicPrice(df, encoders, q) == Estimate(MatchedPrice(Matches(df, encoders, q), q.season))
  {
    var t := Transform(encoders[HouseboatType], q.houseboatType).value;
    var s := Transform(encoders[Season], q.season).value;
    SimilarNonEmpty(df, q, t, s, j);
    PredictWithCodes(df, encoders, q, t, s);
    assert Matches(df, encoders, q) == Similar(df, q, t, s);
    PriceFromSomeMatches(df, Matches(df, encoders, q), q.season);
  }

  /** With exact matches, the matches' median base price times the season
      factor is kept when within 20% of the matches' median final price, and
      otherwise replaced by the mean of the two. */
  lemma ReconcileWithMatches(df: seq<Booking>, similar: seq<Booking>, season: string)
    requires df != [] && similar != []
    ensures var predicted := Median(BasePrices(similar)) * SeasonalMultiplier(season);
      var actual := Median(FinalPrices(similar));
      var r := PriceFromMatches(df, similar, season);
      (Abs(predicted - actual) <= 0.2 * actual ==> r == predicted) &&
      (Abs(predicted - actual) > 0.2 * actual ==> r == (predicted + actual) / 2.0) &&
      ((predicted <= r <= actual) || (actual <= r <= predicted))
  {
    var predicted := Median(BasePrices(similar)) * SeasonalMultiplier(season);
    var actual := Median(FinalPrices(similar));
    assert PriceFromMatches(df, similar, season) == Reconcile(predicted, actual);
  }

  /** When every booking has positive prices, every estimate is positive. */
  lemma EstimateIsPositive(df: seq<Booking>, encoders: map<Column, LabelEncoder>, q: Query)
    requires HouseboatType in encoders && Season in encoders
    requires forall k :: 0 <= k < |df| ==> df[k].basePrice > 0.0 && df[k].finalPrice > 0.0
    ensures PredictDynamicPrice(df, encoders, q).Estimate? ==> PredictDynamicPrice(df, encoders, q).price > 0.0
  {
    if PredictDynamicPrice(df, encoders, q).Estimate? {
      var t := Transform(encoders[HouseboatType], q.houseboatType).value;
      var s := Transform(encoders[Season], q.season).value;
      var similar := Similar(df, q, t, s);
      PriceFromMatchesPositive(df, similar, q.season);
    }
  }

  lemma PriceFromMatchesPositive(df: seq<Booking>, similar: seq<Booking>, season: string)
    requires df != []
    requires forall k :: 0 <= k < |df| ==> df[k].basePrice > 0.0 && df[k].finalPrice > 0.0
    requires forall k :: 0 <= k < |similar| ==> similar[k] in df
    ensures PriceFromMatches(df, similar, season) > 0.0
  {
    var rows := if similar != [] then similar else df;
    MedianPositive(BasePrices(rows));
    var m := Median(BasePrices(rows));
    var f := SeasonalMultiplier(season);
    assert m * f > 0.0 by {
      assert f > 0.0;
      PositiveProduct(m, f);
    }
    if similar != [] {
      MedianPositive(FinalPrices(similar));
    }
  }

  lemma PositiveProduct(a: real, b: real)
    requires a > 0.0 && b > 0.0
    ensures a * b > 0.0
  {
  }

  lemma MedianPositive(xs: seq<real>)
    requires |xs| > 0 && forall i :: 0 <= i < |xs| ==> xs[i] > 0.0
    ensures Median(xs) > 0.0
  {
    MedianBetweenMinAndMax(xs);
  }
}
