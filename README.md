# Houseboat pricing: a verified model of the two estimators

This project models the two price estimators of a houseboat booking system and
proves properties about them in Dafny.

* **The rule-based stay pricer** (`calculate_price_with_rules`). A nightly base
  price is scaled by a season factor and a weekend factor. Peak season is
  December to February (x1.20) and the monsoon is June to August (x0.85). The
  weekend factor applies to a night beginning on a Friday or Saturday (x1.15).
  This is done for every night from check-in up to, but excluding, check-out.
  The nightly prices are summed and a platform fee is added as a percentage.
  The pricer first checks its inputs:
  * a zero base price or an empty date string is rejected;
  * a date that does not parse, or does not name a real day, is rejected;
  * a check-out on or before check-in is rejected.
* **The comparable-booking estimator** (`houseboat_price_predictor.py`).
  * **Set-up.** The bookings table is cut down to one-night bookings. The
    `houseboat_type` and `season` columns are then label-encoded in place, and
    the two encoders are kept.
  * **Query.** The query's labels are encoded, and the bookings that match
    capacity, bedrooms, type and season exactly are selected.
  * **Base price.** The median base price of the matches is taken. When there
    are no matches, the median of the whole table is used instead. The result
    is multiplied by 1.2 for "Peak" and by 0.85 otherwise.
  * **Reconciliation.** When there are matches, the estimate is compared with
    the matches' median final price. If it differs by more than 20% of that
    price, it is replaced by the mean of the two.

Modules:

* `Wrappers` (`wrappers.dfy`) declares the `Option` type the other modules share.
* `Calendar` (`calendar.dfy`) is the part of Python's `datetime.date` the pricer uses:
  * proleptic Gregorian dates in years 1 to 9999;
  * ordinal day numbers and weekdays;
  * field-by-field comparison;
  * the next day, and the difference in days.
* `RuleBasedPricing` (`rule_based_pricing.dfy`) holds:
  * the input checks;
  * the two multiplier rules;
  * the night-by-night loop, as a method proved against the `StayTotal` function;
  * the fee;
  * the properties of the pricer.
* `LabelEncoding` (`label_encoding.dfy`) is scikit-learn's `LabelEncoder`. Fitting keeps the column's distinct labels in ascending Python string order, and a label's code is its position in that list.
* `Statistics` (`statistics.dfy`) is the median: the middle value of the sorted values, or the mean of the two middle ones.
* `ComparablePricing` (`comparable_pricing.dfy`) holds:
  * the table set-up, as a method whose loop encodes one column per iteration;
  * the query;
  * the exact-match selection;
  * the estimate;
  * its properties.

The pricer rejects only a base price that is zero (Python-falsy), so a
negative base price is priced; the model does the same. Otherwise the model
follows the code, except in two ways:

* **Error results.** The pricer returns `None` for every rejection. The model
  returns `NoPrice(reason)` instead, tagged with the check that failed
  (`MissingInput`, `InvalidDate` or `InvalidRange`), so the lemmas can say
  which check applies.
* **Unknown labels.** In the estimator, an unknown query label makes
  scikit-learn's `transform` raise a `ValueError` that nothing catches. The
  model returns `Failure(UnknownCategory(column))` for it instead.

`EmptyDataset` is kept as the estimator's failure on an empty table.
`ComparablePricing.PreparedNeverEmpty` proves it never happens on a table
prepared by the set-up. On such a table the encoders are fitted on the rows,
so an empty table has no known labels and fails earlier, as unknown.

## Model

| member | source | states |
|---|---|---|
| Calendar.DaysInMonth | rulebased_pricing_module.py:64 | Month lengths are 28 to 31, and 29 exactly for February of a leap year |
| Calendar.DayNumber | rulebased_pricing_module.py:36 | The ordinal day number of a valid date is at least 1 |
| Calendar.Weekday | rulebased_pricing_module.py:44 | `weekday()` is in 0..6 |
| Calendar.Before | rulebased_pricing_module.py:32 | Python's `<` on dates: never true of equal dates, and decided by the year when the years differ |
| Calendar.AtOrBefore | rulebased_pricing_module.py:32 | Python's `<=` on dates holds exactly when the other date is not strictly before |
| Calendar.NextDay | rulebased_pricing_module.py:64 | Adding one day gives a valid date whose ordinal is one more and which compares after the old date |
| Calendar.DaysBetween | rulebased_pricing_module.py:36 | `(b - a).days` is positive exactly when `a < b` and zero exactly when the dates are equal |
| Calendar.DaysBeforeYearStep | rulebased_pricing_module.py:64 | Crossing into the next year advances the ordinal by the length of the old year (365, or 366 in a leap year) |
| Calendar.DateOrder | rulebased_pricing_module.py:32 | Field-by-field date comparison agrees with comparison of day numbers |
| Calendar.EarlierYear | rulebased_pricing_module.py:36 | Every day of an earlier year has a smaller ordinal than every day of a later year |
| Calendar.DayNumberInjective | rulebased_pricing_module.py:36 | Two valid dates with the same day number are the same date |
| Calendar.DayNumberBounded | rulebased_pricing_module.py:64 | Every valid date's ordinal lies between 1 and that of 9999-12-31, so adding days within a stay cannot overflow |
| Calendar.WeekdayOfNextDay | rulebased_pricing_module.py:44 | The weekday of the next day is the next weekday, modulo 7 |
| Calendar.FirstDayIsMonday | rulebased_pricing_module.py:44 | 0001-01-01 has weekday 0 (Monday), anchoring the weekday numbering |
| RuleBasedPricing.ParseDate | rulebased_pricing_module.py:28-29 | `fromisoformat`, as Python 3.10 defines it, succeeds exactly on a `YYYY-MM-DD` text naming a real day, and gives that day |
| RuleBasedPricing.SeasonMultiplier | rulebased_pricing_module.py:47-51 | 1.20 exactly for months 12, 1 and 2; 0.85 exactly for months 6, 7 and 8; 1.0 exactly for all other months |
| RuleBasedPricing.WeekendMultiplier | rulebased_pricing_module.py:54-57 | 1.15 exactly when the night's weekday is Friday (4) or Saturday (5), else 1.0 |
| RuleBasedPricing.NightFactor | rulebased_pricing_module.py:47-60 | The combined factor of one night lies between 0.85 (a monsoon weekday) and 1.38 (a peak-season Friday or Saturday) |
| RuleBasedPricing.NightFactorIsProduct | rulebased_pricing_module.py:47-60 | The combined factor is the season factor times the weekend factor: the two rules apply independently |
| RuleBasedPricing.NightlyPrice | rulebased_pricing_module.py:42-60 | A night's price is the base price times the night's factor; its bounds and growth are the lemmas `NightlyPriceBounds` and `NightlyPriceMonotone` |
| RuleBasedPricing.NightlyPriceBounds | rulebased_pricing_module.py:42-60 | A night costs between 85% and 138% of a non-negative base price, and a positive amount for a positive base price |
| RuleBasedPricing.Nights | rulebased_pricing_module.py:41-64 | The loop visits `n` dates, the k-th being k days after check-in, each a valid date |
| RuleBasedPricing.StayTotal | rulebased_pricing_module.py:37-61 | The sum of the nightly prices is non-negative for a non-negative base price, and positive for a positive base price and at least one night |
| RuleBasedPricing.WithFee | rulebased_pricing_module.py:68 | A 0% fee leaves the total unchanged |
| RuleBasedPricing.WithFeePositive | rulebased_pricing_module.py:68 | A positive total stays positive under any fee above -100% |
| RuleBasedPricing.CheckStay | rulebased_pricing_module.py:22-34 | Missing input (zero base price or an empty date) is reported exactly when present. Otherwise an invalid date is reported exactly when a date fails to parse. An accepted request has two valid dates with check-out strictly after check-in |
| RuleBasedPricing.QuoteStay | rulebased_pricing_module.py:22-68 | A price is returned exactly when the input checks accept the request, and otherwise the rejection the checks name. The price is positive for a positive base price and a fee above -100% |
| RuleBasedPricing.SumNightlyPrices | rulebased_pricing_module.py:36-64 | The night-by-night loop returns the sum of the nightly prices of the stay's nights |
| RuleBasedPricing.CalculatePriceWithRules | rulebased_pricing_module.py:5-71 | The pricer's result is that of the input checks, the loop and the fee (`QuoteStay`), for every input |
| RuleBasedPricing.CalculatePriceWithDefaultFee | rulebased_pricing_module.py:5 | Called without a fee, the pricer charges the default 10% fee |
| RuleBasedPricing.PricedExactlyForNonEmptyStays | rulebased_pricing_module.py:22-34 | A price is returned if and only if the base price is non-zero, both dates parse, and check-out is strictly after check-in. A stay of zero or fewer nights is rejected as an invalid range |
| RuleBasedPricing.MissingInputRejected | rulebased_pricing_module.py:22-24 | A zero base price or an empty date string is rejected as missing input |
| RuleBasedPricing.NightsAreTheStay | rulebased_pricing_module.py:36-64 | The nights priced are exactly the dates from check-in up to but excluding check-out, each once, `(check_out - check_in).days` of them |
| RuleBasedPricing.WithFeeMonotone | rulebased_pricing_module.py:68 | With a fee above -100%, the fee keeps the order of stay totals |
| RuleBasedPricing.WithFeeGrowsWithFee | rulebased_pricing_module.py:68 | On a positive total, a higher fee percentage gives a higher price |
| RuleBasedPricing.NightlyPriceMonotone | rulebased_pricing_module.py:42-60 | A night's price strictly increases with the base price and is positive for a positive base price |
| RuleBasedPricing.StayTotalMonotone | rulebased_pricing_module.py:41-61 | Over a non-empty stay, the total strictly increases with the base price and is positive for a positive base price |
| RuleBasedPricing.ZeroFeeIsStayTotal | rulebased_pricing_module.py:68 | With a 0% fee the price is exactly the sum of the nightly prices |
| RuleBasedPricing.PriceGrowsWithBase | rulebased_pricing_module.py:36-68 | For a fixed valid stay and a non-negative fee, a higher positive base price gives a strictly higher price |
| RuleBasedPricing.PriceGrowsWithFee | rulebased_pricing_module.py:36-68 | For a fixed valid stay and a positive base price, a higher fee gives a strictly higher price |
| RuleBasedPricing.PeakWeekendExample | rulebased_pricing_module.py:86-103 | 7000 per night from Friday 2024-12-20 to 2024-12-22 with a 10% fee costs 21252 |
| RuleBasedPricing.OffSeasonWeekdayExample | rulebased_pricing_module.py:107-116 | 7000 per night from Wednesday 2024-07-10 to 2024-07-11 with a 10% fee costs 6545 |
| LabelEncoding.LabelLessIrreflexive | houseboat_price_predictor.py:17 | No label sorts before itself |
| LabelEncoding.LabelLessTransitive | houseboat_price_predictor.py:17 | The string order used to sort classes is transitive |
| LabelEncoding.LabelLessTotal | houseboat_price_predictor.py:17 | Any two different labels are ordered one way or the other |
| LabelEncoding.LabelLessPrefix | houseboat_price_predictor.py:17 | A proper prefix sorts before the longer label, as in Python's string order |
| LabelEncoding.LabelLess | houseboat_price_predictor.py:17 | Python's `<` on strings, code point by code point; the lemmas `LabelLessIrreflexive`, `LabelLessTransitive`, `LabelLessTotal` and `LabelLessPrefix` state that it is a strict total order with proper prefixes first |
| LabelEncoding.Insert | houseboat_price_predictor.py:17 | Adding a label keeps the class list strictly ascending and adds exactly that label |
| LabelEncoding.Fit | houseboat_price_predictor.py:16-17 | The fitted classes are strictly ascending and are exactly the labels of the column |
| LabelEncoding.Transform | houseboat_price_predictor.py:34-35 | A label gets a code if and only if it is a class, and the class at that code is the label |
| LabelEncoding.TransformOfClass | houseboat_price_predictor.py:17 | Encoding the class at position k gives k: codes are unique |
| LabelEncoding.SameCodeSameLabel | houseboat_price_predictor.py:34-42 | Two known labels have the same code if and only if they are equal |
| Statistics.InsertAscending | houseboat_price_predictor.py:46 | Inserting into ascending values keeps them ascending and adds exactly that value |
| Statistics.Sorted | houseboat_price_predictor.py:46 | Sorting gives an ascending permutation of the values |
| Statistics.Min | houseboat_price_predictor.py:46 | The minimum is one of the values and at most each of them |
| Statistics.Max | houseboat_price_predictor.py:46 | The maximum is one of the values and at least each of them |
| Statistics.SortedWithinBounds | houseboat_price_predictor.py:46 | Every sorted value lies between the minimum and the maximum |
| Statistics.Median | houseboat_price_predictor.py:46 | The middle value of the sorted values, or the mean of the two middle ones; its properties are the lemmas `MedianOfAscending`, `MedianOfValues`, `MedianBetweenMinAndMax`, `MedianOfPermutation` and `MedianOfConstant` |
| Statistics.MedianOfAscending | houseboat_price_predictor.py:46 | For any ascending arrangement of the values, the median is its middle value for an odd count and the mean of its two middle values for an even count |
| Statistics.MedianOfValues | houseboat_price_predictor.py:46-59 | The median of an odd count is one of the values; that of an even count is the mean of two of the values |
| Statistics.MedianBetweenMinAndMax | houseboat_price_predictor.py:46 | The median lies between the smallest and the largest value |
| Statistics.AscendingUnique | houseboat_price_predictor.py:46 | Two ascending orderings of the same values are equal |
| Statistics.MedianOfPermutation | houseboat_price_predictor.py:59 | The median depends only on the collection of values, not on the row order |
| Statistics.MedianOfConstant | houseboat_price_predictor.py:46 | The median of equal values is that value |
| ComparablePricing.WithCell | houseboat_price_predictor.py:17 | Writing a cell sets that column, and keeps the other categorical column, capacity, bedrooms, duration and both prices |
| ComparablePricing.SingleNight | houseboat_price_predictor.py:11 | The filter keeps exactly the one-night rows, each as often as in the table |
| ComparablePricing.SingleNightAppend | houseboat_price_predictor.py:11 | Filtering a table is filtering its parts in turn, so the kept rows stay in table order |
| ComparablePricing.ColumnLabels | houseboat_price_predictor.py:17 | The column read out holds each row's label at that row's position |
| ComparablePricing.EncodeColumn | houseboat_price_predictor.py:17 | Each row's cell is replaced by the code of its label, the rest of the row kept |
| ComparablePricing.EncodeColumnStep | houseboat_price_predictor.py:15-18 | Encoding one more column keeps every row an encoding of its original one-night row |
| ComparablePricing.PrepareDataset | houseboat_price_predictor.py:10-18 | The set-up leaves the one-night rows in order, with every categorical label replaced by its code. Each column's encoder is fitted on that column's one-night labels. Every other field is unchanged |
| ComparablePricing.QueryFromAnswers | houseboat_price_predictor.py:24-31 | On answers already passed through `.strip().upper()`: `S` gives "Standard" and anything else "Luxury"; `P` gives "Peak" and anything else "Off-Season" |
| ComparablePricing.MatchesCodes | houseboat_price_predictor.py:38-43 | A matching row holds codes in both categorical columns; a row still holding text never matches |
| ComparablePricing.Similar | houseboat_price_predictor.py:38-43 | The selection keeps exactly the rows matching capacity, bedrooms and both codes, each as often as in the table |
| ComparablePricing.SimilarAppend | houseboat_price_predictor.py:38-43 | Selecting from a table is selecting from its parts in turn, so the selected rows stay in table order |
| ComparablePricing.Matches | houseboat_price_predictor.py:34-43 | For known labels, a row is selected exactly when it is in the table and matches capacity, bedrooms and the two encoded labels |
| ComparablePricing.BasePrices | houseboat_price_predictor.py:46-49 | The base-price column of the rows, in row order |
| ComparablePricing.FinalPrices | houseboat_price_predictor.py:56 | The final-price column of the rows, in row order |
| ComparablePricing.SeasonalMultiplier | houseboat_price_predictor.py:52 | 1.2 exactly for "Peak", 0.85 exactly for any other season label |
| ComparablePricing.Abs | houseboat_price_predictor.py:60 | The absolute difference is non-negative and is the value or its negation |
| ComparablePricing.Reconcile | houseboat_price_predictor.py:58-64 | Within 20% of the actual median the prediction is kept. Otherwise it moves halfway to the actual median. Either way the result lies between the two, is never further from the actual median, and is strictly closer when the rule fires |
| ComparablePricing.MatchedPrice | houseboat_price_predictor.py:46-64 | The price of a non-empty selection: its median base price times the season factor, reconciled with its median final price; `ReconcileWithMatches` and `PriceFromMatchesPositive` state the keep-or-average rule and positivity for it |
| ComparablePricing.PriceFromMatches | houseboat_price_predictor.py:46-64 | Without matches, the whole table's median base price times the season factor. With matches, a price between their median base price times the season factor and their median final price, and no further from the latter |
| ComparablePricing.PredictDynamicPrice | houseboat_price_predictor.py:21-64 | The estimator fails as unknown if and only if one of the query's labels is not a class of its encoder; it fails for an empty table only when the table is empty |
| ComparablePricing.CodeMatchesLabel | houseboat_price_predictor.py:34-42 | A row's code equals the query's code exactly when the row's label equals the query's label |
| ComparablePricing.SelectionMatchesLabels | houseboat_price_predictor.py:38-43 | On a prepared table, a row is selected by codes exactly when its one-night original matches the query's capacity, bedrooms, type label and season label |
| ComparablePricing.KnownLabelMeansData | houseboat_price_predictor.py:14-18 | A label known to a fitted encoder comes from some one-night row, so the table is not empty |
| ComparablePricing.PreparedNeverEmpty | houseboat_price_predictor.py:46-49 | On a prepared table the global-median fallback always has rows: the estimator never fails for an empty table |
| ComparablePricing.FallbackWithoutMatches | houseboat_price_predictor.py:38-53 | On a prepared table with known labels, when no one-night booking matches the query, the table is not empty and the estimate is the whole table's median base price times the season factor, unreconciled |
| ComparablePricing.LabelMatchIsCodeMatch | houseboat_price_predictor.py:34-43 | On a prepared table, a one-night booking matching the query's labels is a row the code selection keeps |
| ComparablePricing.ReconcileWhenMatched | houseboat_price_predictor.py:38-64 | On a prepared table with known labels, when some one-night booking matches the query, the selection is not empty and the estimate is its median base price times the season factor reconciled with its median final price |
| ComparablePricing.ReconcileWithMatches | houseboat_price_predictor.py:52-64 | With matches, the matches' median base price times the season factor is kept when within 20% of their median final price, and is otherwise replaced by the mean of the two |
| ComparablePricing.EstimateIsPositive | houseboat_price_predictor.py:46-64 | When every booking has positive prices, every estimate is positive |
| ComparablePricing.PriceFromMatchesPositive | houseboat_price_predictor.py:46-64 | The price from positive-priced matches, or the positive-priced table, is positive |
| ComparablePricing.MedianPositive | houseboat_price_predictor.py:46 | The median of positive prices is positive |

## Left out

- Loading the CSV file, console prompts and answers, and all printed output are left out. The model takes the table and the query as values, and the console answers as strings.
- ComparablePricing.QueryFromAnswers: takes the answers after `.strip().upper()`; the normalisation itself is not modelled.
- RuleBasedPricing.ParseDate: follows `fromisoformat` of Python 3.10 and earlier. Python 3.11 and later also accept forms such as `20241220` and ISO week dates, which the model treats as unparseable.
- The properties of `Statistics.Median`, `LabelEncoding.LabelLess` and `RuleBasedPricing.NightlyPrice` are stated as lemmas about them (`MedianOfValues`, `MedianBetweenMinAndMax`, `LabelLessIrreflexive`, `LabelLessTransitive`, `LabelLessTotal`, `LabelLessPrefix`, `NightlyPriceBounds`), not as contracts on the functions themselves.
- The `if 'duration' in df.columns` guard is not modelled. The table always has the duration column.
- Date strings are modelled as `DateText`: an empty string, text that is not `YYYY-MM-DD`, or the three numeric fields of a `YYYY-MM-DD` string. The character-level parsing of `fromisoformat` is not modelled.
- The catch-all `except Exception` branch of the pricer is not modelled. The only other exception the loop could raise is a date overflow past 9999-12-31, and the model proves that overflow cannot happen (`Calendar.DayNumberBounded`).
- RuleBasedPricing.CalculatePriceWithRules: prices are exact reals. Floating-point rounding and the final `round(..., 2)` are not modelled, so the results are the unrounded amounts.
- ComparablePricing.PredictDynamicPrice: prices are exact reals, and pandas' skipping of missing values (NaN) in medians is not modelled. The fallback therefore fires exactly when there are no matches, which is the only way the source's median is NaN on a table without missing prices.
- The estimator's unused `pickle` import and the module-level call that runs the console prompt are left out. The demonstration block of the pricer is modelled only as the two example lemmas.
- Python values that are falsy besides `0` and the empty string (such as `None`) are not modelled. The base price is a number and a date is a `DateText`.
