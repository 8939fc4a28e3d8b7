# StocksApplication valuation and strategy engine, in Dafny

This project models the core of StocksApplication, a Java program that keeps stock portfolios for its
users. A portfolio is a ledger of BUY, SELL and PORTFOLIO records. On top of the ledger the program
resolves closing prices through a bundled series, a local cache and a quote API, and it derives the
composition of a portfolio on a date. It also values a portfolio and computes its cost basis,
samples its value over a date range, runs a dollar-cost-averaging schedule, and stores that schedule
between sessions so the controller can catch it up the next time the portfolio is opened.

The modules follow the program's structure:

- `Wrappers`: the Option type.
- `Text`: the parts of `String` and `Integer.parseInt` the core relies on, including Java's `split`,
  which drops trailing empty pieces.
- `Calendar`: dates, the day numbering behind `Calendar.add`, `before` and weekdays, and the
  `yyyy-MM-dd` format.
- `Validators`: the input checks of the model classes.
- `Prices`: getPrice, getPriceHelper and callAPI over a market of bundled series and API answers,
  with the cache as a map.
- `Json`: the `jsonparser` package (JSONObject, JSONArray and JSONParser).
- `Ledger`: the records, setValidSellSymbols, validSellOrderQuantity, getCostValueBasis,
  getCompositionHelper and getPortfolioValue, as functions on the records.
- `Performance`: the daily, weekly, monthly and yearly samplers of portfolioPerformance, over a
  valuation of day numbers.
- `Strategy`: the schedule of investmentStrategy and the normalisation of its weights.
- `Checkpoint` and `CheckpointLoops`: the ongoing-strategies text file of isStrategyOngoing, and the
  rewrite of that file that investmentStrategy performs.
- `Model`: the class `StocksModel`, whose fields are the cache, the ledgers and the
  ongoing-strategies files that the source keeps on disk. Its methods run the source's loops as written,
  including the four defects under "## Findings", and are proved equal to the functions of the
  modules above that model them.
- `Controller`: the controller's prompt loops over a stream of input tokens, and
  getOngoingStrategyUpToDate, which decodes a stored strategy and resumes it.

The wall clock is a parameter `today`. `Double.parseDouble` and `Double.toString` are parameters
`read` and `show`, except in callAPI's row parser (see `Prices.ReadRow` under "## Left out"). The quote API is a fixed `Prices.Market`. Files are maps from user to text.

## Model

| member | source | states |
|---|---|---|
| Validators.CheckValidWeightage | src/stocks/model/StocksModelAbstract.java:337-343 | the loop's total is the sum of the weights so far; true exactly when the new weight lies in [0, 100] and that sum plus it lies in [0, 100] |
| Validators.AcceptedWeightsWithinHundred | src/stocks/model/StocksModelAbstract.java:326-343 | weights each accepted against the ones before them each lie in [0, 100] and together total between 0 and 100 |
| Validators.WeightageExamples | test/StocksModelAbstractTest.java:574-586 | example: 30 is accepted after 20 and 50, another 50 is refused |
| Validators.CheckValidYear | src/stocks/model/StocksModelAbstract.java:381-384 | throws exactly when the text is not an int; true only for a year from 1999 to the current year |
| Validators.CheckValidMonth | src/stocks/model/StocksModelAbstract.java:395-398 | throws exactly when the text is not an int; true only for 1 to 12 |
| Validators.CheckValidDate | src/stocks/model/StocksModelAbstract.java:408-413 | throws exactly when a part is not an int or `YearMonth.of` rejects year or month; true only for a day that exists in that month |
| Validators.CheckValidBuyDate | src/stocks/model/StocksModelAbstract.java:424-451 | throws exactly when the text is not a date |
| Validators.BuyDateOfFormat | src/stocks/model/StocksModelAbstract.java:424-451 | on a formatted date the check is true exactly for a day not after today that is neither a Saturday nor a Sunday |
| Validators.DatePartsAccepted | src/stocks/model/StocksModelAbstract.java:381-413 | the parts of any real date with a year from 1999 on, written as integers, pass the year, month and day checks |
| Validators.LastBundledDayAccepted | test/StocksModelAbstractTest.java:290-296 | example: 2022-10-31 is accepted as a buying date on any day from then on |
| Text.ParseInt | src/stocks/model/StocksModelAbstract.java:382 | `Integer.parseInt`: a result only for non-empty text, always within the range of an `int` |
| Text.ParseIntText | src/stocks/model/StocksModelAbstract.java:381-413 | reading back the decimal text of any `int` gives that `int` |
| Text.SplitOnce | src/jsonparser/JSONParser.java:64 | `split(sep, 2)`: one piece, the whole text, exactly when the separator is absent; otherwise the text before its first occurrence and everything after it |
| Text.SplitJoin | src/jsonparser/JSONParser.java:85 | splitting joined pieces gives them back, when no piece but the last holds the separator's first character and the last is non-empty |
| Text.SplitJoinAvoiding | src/stocks/controller/StocksController.java:841-842 | splitting at a character the pieces lack gives the pieces back (a final empty piece aside) |
| Text.SplitTerminated | src/stocks/model/StocksModelAbstract.java:1378-1394 | splitting text in which every piece is followed by the separator gives the pieces back, when the last is not empty |
| Text.SplitRejoin | src/stocks/controller/StocksController.java:841-842 | the pieces of a split, joined and split again, are the same pieces |
| Text.SplitAvoids | src/stocks/controller/StocksController.java:841-842 | no piece of a split at a character holds that character, nor any character the text lacks |
| Text.RemoveAllJoin | src/jsonparser/JSONParser.java:63 | `replace("\"", "")` of a join is the join of the pieces with the quotes removed |
| Text.ParseDecimalPrice | test/StocksModelAbstractTest.java:389-390 | example: `Double.parseDouble("94.66")` reads 94.66 |
| Text.ParseDecimalRejectsWords | src/stocks/model/StocksModelAbstract.java:771 | example: text that is not a number does not parse |
| Calendar.NextDay | src/stocks/model/StocksModelAbstract.java:746 | `add(DATE, 1)`: a real date whose number is one more |
| Calendar.AddDays | src/stocks/model/StocksModelAbstract.java:1090 | `add(DATE, k)`: a real date whose number is k more |
| Calendar.PrevDay | src/stocks/model/StocksModelAbstract.java:798 | `add(DATE, -1)`: the day whose next day is the given one |
| Calendar.OrderIsChronological | src/stocks/model/StocksModelAbstract.java:1006 | `before` and not-after between dates are the order of their day numbers, both ways |
| Calendar.LastBundledDayIsMonday | src/stocks/model/StocksModelAbstract.java:672 | example: 2022-10-31, the last day of the bundled series, was a Monday |
| Calendar.NextFridayAfter | src/stocks/model/StocksModelAbstract.java:1079 | `next(FRIDAY)`: a Friday one to seven days after the date |
| Calendar.LastDayOfMonth | src/stocks/model/StocksModelAbstract.java:1135-1138 | a real date in the given month whose next day is the first of a month |
| Calendar.AddYear | src/stocks/model/StocksModelAbstract.java:1201 | `add(YEAR, 1)`: the same month and day a year later, with 29 February becoming the 28th |
| Calendar.ParseDate | src/stocks/model/StocksModelAbstract.java:438-442 | a date is read only when it exists in the calendar |
| Calendar.ParseFormatDate | src/stocks/model/StocksModelAbstract.java:1059 | reading back the `yyyy-MM-dd` text of a date gives the date |
| Calendar.FormatDateInjective | src/stocks/model/StocksModelAbstract.java:686-688 | distinct dates have distinct `yyyy-MM-dd` texts, so text comparison is date comparison |
| Prices.CollectContents | src/stocks/model/StocksModelAbstract.java:763-767 | callAPI's map comes out only when every row's column 4 is a number; it holds exactly the days the rows name, each with the close of the last row naming it |
| Prices.CollectStops | src/stocks/model/StocksModelAbstract.java:764-766 | once one row's close fails to parse, the whole response fails with that error |
| Prices.RowDayCanonical | src/stocks/model/StocksModelAbstract.java:730 | a row is found under a day exactly when its date column is that day's `yyyy-MM-dd` text |
| Prices.ScanFromFirst | src/stocks/model/StocksModelAbstract.java:737-741 | the forward scan finds the first priced day from the asked day on, no later than tomorrow; when it finds nothing, no day from the asked day to tomorrow has a price |
| Prices.ScanQuote | src/stocks/model/StocksModelAbstract.java:718-743 | without the sentinel, a fetched price the series lacks on the day is the price of the first later priced day, no later than tomorrow; null exactly when no such day has one |
| Prices.SentinelNeverMissing | src/stocks/model/StocksModelAbstract.java:730-735 | with the last-valid-price flag set, a lookup never answers null |
| Prices.FoundIsPositive | src/stocks/model/StocksModelAbstract.java:657-743 | -1 only comes back when the flag asks for it; a price found is positive as a consequence of the assumed positive closes (see `Prices.ValidMarket` under "## Left out") |
| Prices.BundledFirst | src/stocks/model/StocksModelAbstract.java:672-687 | up to 2022-10-31 a bundled symbol's bundled price is the answer whatever the cache and the network hold, and the cache is untouched |
| Prices.QuoteStable | src/stocks/model/StocksModelAbstract.java:689-700 | a lookup keeps a consistent cache consistent, and every later lookup answers as it would have before it |
| Prices.LookupKeepsAnswers | src/stocks/model/StocksModelAbstract.java:769-779 | writing a fetched series to the cache changes no answer of any later lookup |
| Prices.CacheIrrelevant | src/stocks/model/StocksModelAbstract.java:689-702 | with a consistent cache, every lookup answers what it answers with no cache at all |
| Prices.ConsistentCachesAgree | src/stocks/model/StocksModelAbstract.java:689-702 | any two consistent caches give every lookup the same answer |
| Json.JsonObject.constructor | src/jsonparser/JSONObject.java:19 | a new object holds no entries |
| Json.JsonObject.Put | src/jsonparser/JSONObject.java:31 | the key maps to the new value and every other entry is unchanged |
| Json.JsonObject.Get | src/jsonparser/JSONObject.java:42 | the stored value for a present key, null exactly when the key is absent |
| Json.JsonObject.ToJsonString | src/jsonparser/JSONObject.java:55-74 | `{`, then `"key":value` for every key exactly once in some iteration order of the map, commas between consecutive entries, then `}`; Strings quoted only when asked to |
| Json.PutThenGet | src/jsonparser/JSONObject.java:19-44 | on a new object a put is seen by get on that key and on no other |
| Json.PutKeepsOthers | src/jsonparser/JSONObject.java:31-44 | a put is seen by get on its key and leaves every other key's answer as it was |
| Json.JsonArray.constructor | src/jsonparser/JSONArray.java:18 | a new array is empty |
| Json.JsonArray.Add | src/jsonparser/JSONArray.java:29 | the element is appended and the earlier elements are kept in order |
| Json.JsonArray.Get | src/jsonparser/JSONArray.java:40 | the element at the index |
| Json.JsonArray.Set | src/jsonparser/JSONArray.java:51 | the element at the index is replaced, the others are kept, and the list itself is returned |
| Json.JsonArray.Size | src/jsonparser/JSONArray.java:62 | the number of elements |
| Json.JsonArray.ToJsonString | src/jsonparser/JSONArray.java:72-85 | `[`, the text of every element in order with its Strings quoted, commas between, `]` |
| Json.ArrayOperations | src/jsonparser/JSONArray.java:29-64 | after a set and an add the array has one more element, the added one last, and the earlier ones with the one replaced |
| Json.JsonParser.constructor | src/jsonparser/JSONParser.java:22 | a new parser's map is empty |
| Json.HashMapRejects | src/jsonparser/JSONParser.java:60-73 | the text is accepted exactly when it is braced and holds a ':' once its quotes are deleted; it is then split at its first ':' into a key free of ':' and the rest |
| Json.JsonParser.GetHashMap | src/jsonparser/JSONParser.java:60-73 | the parser's map gains the key and value the text holds, or is unchanged when the text is rejected or empty |
| Json.JsonParser.ReadSegment | src/jsonparser/JSONParser.java:88-97 | one segment of the stocks text read into a new object, or the exception the cutting or splitting throws |
| Json.JsonParser.PutPairs | src/jsonparser/JSONParser.java:94-98 | every piece split at its first ':' and put into the object in order; false when a piece has no ':' |
| Json.JsonParser.GetJsonArray | src/jsonparser/JSONParser.java:82-102 | a new array of the objects the stocks text holds, in order, or the exception when it is missing or a segment cannot be read |
| Json.JsonParser.Parse | src/jsonparser/JSONParser.java:35-49 | an empty array when the text is rejected, an escaping exception on empty text, otherwise the objects getJsonArray reads |
| Json.ParseLedgerText | src/jsonparser/JSONParser.java:35-102 | parsing the text a ledger is stored as gives back the same objects in the same order, every value as a String of its text, whatever order the hash maps were written in |
| Ledger.MatchingTotalSnoc | src/stocks/model/StocksModelAbstract.java:930-936 | one more record adds its quantity to the matching total exactly when it has the operation, the symbol and a date on or before the day |
| Ledger.HoldingIsBoughtMinusSold | src/stocks/model/StocksModelAbstract.java:908-939 | the quantity the sell-order check compares with is what was bought minus what was sold of that symbol on or before the date; PORTFOLIO records, other symbols and later records play no part |
| Ledger.GetCostValueBasis | src/stocks/model/StocksModelAbstract.java:990-1021 | the loop's sum is the cost basis: every BUY on or before the date adds its commission and price times quantity, every SELL its commission |
| Ledger.CostBasisMonotone | src/stocks/model/StocksModelAbstract.java:1006-1014 | with no negative amounts, the cost basis never decreases as the date moves later |
| Ledger.CostBasisBeforeAnyTrade | src/stocks/model/StocksModelAbstract.java:1006 | a ledger whose purchases and sales all come after the date has cost basis zero on it |
| Ledger.BoughtSymbols | src/stocks/model/StocksModelAbstract.java:865-879 | the symbols that may be sold are exactly those with a BUY record, each listed once |
| Ledger.Round2Close | src/stocks/model/StocksModelAbstract.java:617 | rounding to two decimals moves a value by at most half a cent |
| Ledger.Round2Whole | src/stocks/model/StocksModelAbstract.java:617 | rounding to two decimals leaves whole numbers as they are |
| Ledger.AnchorIsFirst | src/stocks/model/StocksModelAbstract.java:586-587 | a symbol's position is built from its first record dated on or before the day; there is none exactly when no record qualifies |
| Ledger.AnchorStable | src/stocks/model/StocksModelAbstract.java:587-628 | once a symbol is handled its anchor does not move |
| Ledger.ProcessedAnchored | src/stocks/model/StocksModelAbstract.java:559-628 | the handled symbols are exactly those with a record dated on or before the day so far |
| Ledger.PositionsAnchored | src/stocks/model/StocksModelAbstract.java:629-637 | every position emitted sits at its symbol's anchor, carries that anchor's tally and has a positive quantity |
| Ledger.PositionsDistinct | src/stocks/model/StocksModelAbstract.java:587-628 | no symbol is emitted twice |
| Ledger.PositionsComplete | src/stocks/model/StocksModelAbstract.java:628-638 | every handled symbol whose tally is positive has its position emitted |
| Ledger.CompositionDistinct | src/stocks/model/StocksModelAbstract.java:556-644 | each symbol appears at most once in the composition, both as written and with the corrected step |
| Ledger.PositionsMembers | src/stocks/model/StocksModelAbstract.java:556-644 | over any tallies, the outer loop emits a symbol exactly when it has a record dated on or before the day and its anchor's tally is positive, and the position is built from that anchor and that tally |
| Ledger.CompositionMembers | src/stocks/model/StocksModelAbstract.java:556-644 | with the corrected step: a symbol is in the composition exactly when it has a record dated on or before the day and its anchor's tally is positive; price and commission are then the anchor's, quantity, average and dates the tally's |
| Ledger.CompositionAsWrittenMembers | src/stocks/model/StocksModelAbstract.java:556-644 | the same for the composition the program computes, whose tally uses the step as written: a symbol is present exactly when its anchor's tally as written is positive, with that tally's quantity, average and dates |
| Ledger.TallyAsWrittenAgrees | src/stocks/model/StocksModelAbstract.java:605-623 | without PORTFOLIO records the step as written and the corrected step reach the same total and average; only the dates differ |
| Ledger.TallyDates | src/stocks/model/StocksModelAbstract.java:608-612 | with the corrected step, a position's dates bound the date of every record tallied into it |
| Ledger.TallyDatesAttained | src/stocks/model/StocksModelAbstract.java:608-612 | with the corrected step, the first and last dates are dates of tallied records |
| Ledger.CompositionDates | src/stocks/model/StocksModelAbstract.java:608-612 | a position's dates are the earliest and the latest date of the records tallied into it |
| Ledger.TallyIsNet | src/stocks/model/StocksModelAbstract.java:614-623 | with whole quantities no rounding happens: the tallied quantity is the exact net quantity |
| Ledger.CompositionQuantityIsHolding | src/stocks/model/StocksModelAbstract.java:556-644 | for a ledger of purchases and sales in whole quantities, a position's quantity, as written and corrected, is what the sell-order check finds held on that day, when the anchor is a purchase |
| Ledger.FirstDateNotEarliest | src/stocks/model/StocksModelAbstract.java:608-612 | as written, purchases dated the 10th, 3rd and 5th leave the first date at the 5th, where the corrected step gives the 3rd |
| Ledger.PortfolioRecordSubtracts | src/stocks/model/StocksModelAbstract.java:614-623 | as written, a second PORTFOLIO record of a symbol subtracts: 10 then 5 shares show as 5, where the corrected step shows 15 |
| Ledger.ValueAllOrNothing | src/stocks/model/StocksModelAbstract.java:821-854 | the value is a sum exactly when every record dated on or before the day has a price on that day, and then it is the full signed sum; otherwise -1 or the null-price crash |
| Ledger.LaterRecordIgnored | src/stocks/model/StocksModelAbstract.java:836 | a record dated after the day does not change the value on that day |
| Ledger.ValuePrefix | src/stocks/model/StocksModelAbstract.java:827-852 | the value over the first n records depends on those records only |
| Ledger.ValueCacheIndependent | src/stocks/model/StocksModelAbstract.java:838 | whichever consistent cache the lookups start from, the value comes out the same |
| Ledger.TenGoogleShares | test/StocksModelAbstractTest.java:406-416 | example: ten GOOG shares on 2022-10-31 are worth 946.6 at the bundled close of 94.66 (the test's 946.5999999999999 is the same product in floating point) |
| Performance.Put | src/stocks/model/StocksModelAbstract.java:1072 | `LinkedHashMap.put`: the map keeps every key in place, and either keeps its size or gains the new sample last |
| Performance.PutPlaces | src/stocks/model/StocksModelAbstract.java:1072 | a key not yet in the map is appended; a present one is updated where it stands, and nothing else changes |
| Performance.ScanForwardFinds | src/stocks/model/StocksModelAbstract.java:1061-1065 | the forward scan stops at the first valued day from the start on, every day before it valued -1 |
| Performance.ScanBackwardFinds | src/stocks/model/StocksModelAbstract.java:1084-1088 | the backward scan stops at the latest valued day up to the start, every day after it valued -1 |
| Performance.DailyStep | src/stocks/model/StocksModelAbstract.java:1058-1073 | one pass of the daily loop keys the value of the first valued day by that day and goes on the day after it |
| Performance.DailyAppends | src/stocks/model/StocksModelAbstract.java:1066-1072 | each day the daily loop keys is later than every key already in the map, so every put appends |
| Performance.DailyFromCovers | src/stocks/model/StocksModelAbstract.java:1058-1073 | every valued day from the cursor to the end is among the daily samples |
| Performance.ChainIncreasing | src/stocks/model/StocksModelAbstract.java:1066-1067 | the daily samples are days from the cursor on, strictly increasing, each keyed by its own day |
| Performance.DailyFromWithin | src/stocks/model/StocksModelAbstract.java:1058-1065 | every daily sample but the last is for a day up to the end; only the last scan can run past it |
| Performance.DailySamples | src/stocks/model/StocksModelAbstract.java:1054-1073 | the daily loop collects every valued day from begin to finish once, in increasing order, each keyed by the day its value was taken on; only the last may lie after finish |
| Performance.WeekStepSampled | src/stocks/model/StocksModelAbstract.java:1083-1089 | when the probe is the cursor, a weekly pass keys its sample by the day its value comes from, no later than the cursor |
| Performance.FridayAfter | src/stocks/model/StocksModelAbstract.java:1079 | the first Friday after begin is one to seven days later |
| Performance.WeeklyValuedProbe | src/stocks/model/StocksModelAbstract.java:1083-1096 | a weekly pass whose probe has a value keys that value by the cursor and moves on a week |
| Performance.WeeklyFirstSampleMislabelled | src/stocks/model/StocksModelAbstract.java:1079-1090 | as written, when the Friday after begin has a value, the first sample carries that value keyed by begin, a different day |
| Performance.WeeklyKeepsKeys | src/stocks/model/StocksModelAbstract.java:1096 | a later put of the weekly loop changes values but never the keys already in place |
| Performance.WeeklySampled | src/stocks/model/StocksModelAbstract.java:1082-1097 | once the probe is the cursor, every sample the weekly loop adds is keyed by the day its value was taken on, so samples so keyed, together with one sample let through, stay so |
| Performance.WeeklyAsWrittenSampled | src/stocks/model/StocksModelAbstract.java:1076-1097 | as written, every weekly sample is keyed by the day its value was taken on, except a sample keyed by the start date that carries the value of the Friday after it; when that Friday has a value, this sample comes first |
| Performance.WeeklyFromFridaySampled | src/stocks/model/StocksModelAbstract.java:1076-1097 | with the first cursor on the probed Friday, every weekly sample is keyed by the day its value was taken on |
| Performance.ScanBackwardToRunStart | src/stocks/model/StocksModelAbstract.java:1083-1087 | a backward scan from inside a run of days valued -1 stops on the day before the run, or runs out of fuel |
| Performance.WeeklyStalls | src/stocks/model/StocksModelAbstract.java:1082-1090 | a week of days valued -1 after a valued day sends the cursor back to the same day on every pass, so no fuel is enough |
| Performance.WeeklyAsWrittenNeverEnds | src/stocks/model/StocksModelAbstract.java:1077-1090 | as written, the weekly loop never ends from a start whose next eight days are valued -1 and whose previous day has a value |
| Performance.WeeklySteadyEnds | src/stocks/model/StocksModelAbstract.java:1077-1090 | corrected, with the scan on a day of its own and the cursor moved a week on from where it stood: the loop ends, Done exactly when every week's pass finds a value, with at most one new sample per week, each keyed by the day of its value |
| Performance.MonthEndOf | src/stocks/model/StocksModelAbstract.java:1135-1138 | the month's probe is its last day |
| Performance.MonthlyAppends | src/stocks/model/StocksModelAbstract.java:1147-1153 | each month the monthly loop keys is later than every key already in the map, so every put appends |
| Performance.MonthlyFromSamples | src/stocks/model/StocksModelAbstract.java:1124-1154 | one monthly sample per month up to the last, the k-th being month i + k's |
| Performance.MonthlySamples | src/stocks/model/StocksModelAbstract.java:1099-1154 | the monthly loop collects exactly one sample per month from begin's month to finish's, in order, each valued on the month's latest valued day |
| Performance.YearlySampled | src/stocks/model/StocksModelAbstract.java:1156-1207 | no yearly sample looks past today: each comes from a valued day of its year up to today |
| Performance.SampledByDay | src/stocks/model/StocksModelAbstract.java:1054-1073 | a range of at most 30 days gets every valued day in it once, in order, each keyed by its own day |
| Performance.SampledByWeek | src/stocks/model/StocksModelAbstract.java:1076-1097 | a range of 31 to 200 days gets samples each keyed by the day its value was taken on, except that the sample keyed by the start date may carry the value of the Friday after it |
| Performance.SampledByMonth | src/stocks/model/StocksModelAbstract.java:1099-1154 | a range of 201 to 1600 days gets one sample per month from begin's month to finish's, in order |
| Performance.SampledByYear | src/stocks/model/StocksModelAbstract.java:1156-1207 | a longer range gets years, each valued on a day of that year no later than today |
| Strategy.Scaled | src/stocks/model/StocksModelAbstract.java:1254-1256 | every weight multiplied by the same factor, none added or dropped |
| Strategy.SumScaled | src/stocks/model/StocksModelAbstract.java:1252-1256 | scaling every weight scales their sum by the same factor |
| Strategy.NormalizedSum | src/stocks/model/StocksModelAbstract.java:1246-1257 | weights summing to zero all become NaN, and only those do; weights summing to less than 100 but not to zero come out summing to exactly 100, each scaled by 100 / sum and none made smaller when all are non-negative; weights summing to 100 or more are kept as they are |
| Strategy.AcceptedNormalizable | src/stocks/model/StocksModelAbstract.java:337-343 | weights accepted one by one by checkValidWeightage either have a non-zero sum or are all zero, so the run can normalise them |
| Strategy.Adjust | src/stocks/model/StocksModelAbstract.java:1273-1290 | the weekend step moves a Saturday two days and a Sunday one day; a weekday stays put; the loop breaks when the moved day passes the end, and otherwise the day is a weekday within range |
| Strategy.Step | src/stocks/model/StocksModelAbstract.java:1292-1310 | a pass that buys does so on the day the weekend step moved to, and the next pass starts an interval later |
| Strategy.Halt | src/stocks/model/StocksModelAbstract.java:1279-1281 | a weekend step past the end stops the loop there without buying |
| Strategy.CyclesSpec | src/stocks/model/StocksModelAbstract.java:1272-1311 | every pass buys on a weekday from start to end, each at least an interval after the one before; the loop stops with the cursor past the end and at least an interval after the last buying day; a weekday start within range is the first buying day |
| Strategy.ExitAfterEnd | src/stocks/model/StocksModelAbstract.java:1272 | the loop always stops with the cursor past the end |
| Strategy.CyclesIncreasing | src/stocks/model/StocksModelAbstract.java:1310 | the buying days are strictly increasing |
| Strategy.StopOnMonday | src/stocks/model/StocksModelAbstract.java:1274-1289 | a weekend step that stops the loop leaves the cursor on a Monday |
| Strategy.AdjustLater | src/stocks/model/StocksModelAbstract.java:1273-1290 | with a later end the weekend step moves to the same day, and buys there once that day is within range |
| Strategy.Resume | src/stocks/model/StocksModelAbstract.java:1313-1349 | a run resumed from the date an open-ended run recorded buys on exactly the days one run to the later end buys on after the earlier run's days, and both stop on the same day |
| Strategy.ResumeStopped | src/stocks/model/StocksModelAbstract.java:1279-1289 | resuming where a weekend step stopped the earlier run gives the same days as one run to the later end |
| Strategy.NothingAfterExit | src/stocks/model/StocksModelAbstract.java:1328 | resuming an open-ended run on the day it stopped, with no later end, buys nothing and records the same date again |
| Checkpoint.FindInFirst | src/stocks/model/StocksModelAbstract.java:1383-1389 | the search answers the fields of the first line whose field 0 is the portfolio, and the empty array exactly when no line is |
| CheckpointLoops.FindRecord | src/stocks/model/StocksModelAbstract.java:1378-1394 | the loop answers the fields of the portfolio's first record or the empty array; it throws exactly when a line read before that record has no field 0 |
| Checkpoint.RewriteLines | src/stocks/model/StocksModelAbstract.java:1324-1342 | every line is written back in place, with the portfolio's record given the new date as field 4 |
| Checkpoint.RecordFields | src/stocks/model/StocksModelAbstract.java:1344-1348 | the record appended for a new portfolio has nine fields, the portfolio's name first and the new date as field 4 |
| Checkpoint.ListTextPlain | src/stocks/model/StocksModelAbstract.java:1347-1348 | an `Arrays.toString` list of pieces free of ';' and newlines is itself free of both and not empty |
| Checkpoint.IntTextPlain | src/stocks/model/StocksModelAbstract.java:1345 | the decimal text of the interval holds neither separator |
| Checkpoint.RecordTextFields | src/stocks/model/StocksModelAbstract.java:1344-1348 | the appended record is one line, the portfolio's record, and splits back into exactly its nine fields |
| Checkpoint.FieldsLast | src/stocks/model/StocksModelAbstract.java:1326 | `split(";")` never ends with an empty field unless that field is the only one |
| Checkpoint.RewrittenLine | src/stocks/model/StocksModelAbstract.java:1326-1339 | a line written back splits into its new fields and holds no newline |
| Checkpoint.LinesShape | src/stocks/model/StocksModelAbstract.java:1322 | no line of `split("\n")` holds a newline, and the last is empty only for the empty text |
| Checkpoint.RewrittenLines | src/stocks/model/StocksModelAbstract.java:1324-1342 | the lines written back hold no newline, split into their new fields, and the last is not empty |
| Checkpoint.LinesOfRewrite | src/stocks/model/StocksModelAbstract.java:1320-1349 | the new file's lines are the lines written back, then the new record when no line was the portfolio's |
| Checkpoint.FindInRewritten | src/stocks/model/StocksModelAbstract.java:1327-1329 | the search over the lines written back finds the old record with the new date as field 4 |
| Checkpoint.FindInPast | src/stocks/model/StocksModelAbstract.java:1384-1389 | when no line is the portfolio's, the search passes them and finds what follows them |
| Checkpoint.OngoingAfterRewrite | src/stocks/model/StocksModelAbstract.java:1313-1394 | after the rewrite, isStrategyOngoing finds the portfolio's record with the new date as field 4, or the appended record for a portfolio the file did not mention |
| Checkpoint.OngoingAfterRewriteMentioned | src/stocks/model/StocksModelAbstract.java:1327-1343 | when the file already has the portfolio's record nothing is appended, and the record found afterwards is the old one with the new date |
| Checkpoint.RewriteAgainFits | src/stocks/model/StocksModelAbstract.java:1324-1342 | the lines written back can be written back again and still hold the portfolio's record |
| Checkpoint.RewriteLineAgain | src/stocks/model/StocksModelAbstract.java:1326-1339 | writing a written-back line back again with the same date gives it unchanged |
| Checkpoint.RewriteIdempotent | src/stocks/model/StocksModelAbstract.java:1313-1359 | once the file has the portfolio's record, a second rewrite with the same date leaves the text unchanged |
| Checkpoint.RewriteSettles | src/stocks/model/StocksModelAbstract.java:1313-1359 | whatever the file held, after a rewrite a second one with the same date reaches a text that further rewrites keep |
| CheckpointLoops.JoinFields | src/stocks/model/StocksModelAbstract.java:1332-1338 | the inner loop joins the fields with ';' between consecutive ones |
| CheckpointLoops.RewriteOne | src/stocks/model/StocksModelAbstract.java:1325-1341 | one line written back; it throws exactly when the line has no field 0, or is the portfolio's record and has no field 4 |
| CheckpointLoops.RewriteAll | src/stocks/model/StocksModelAbstract.java:1322-1342 | the loop writes every line back followed by a newline and says whether one was the portfolio's record; it throws exactly when some line cannot be written back |
| CheckpointLoops.RewriteFile | src/stocks/model/StocksModelAbstract.java:1313-1359 | the new file text: the lines written back, then the new record when no line was the portfolio's; the empty text when the file cannot be read |
| Model.NewRecords | src/stocks/model/StocksModelAbstract.java:478-494 | the loop writes one record per entry, or stops at the first lookup that throws |
| Model.NewRecordsSpec | src/stocks/model/StocksModelAbstract.java:478-494 | no records at all when some lookup throws; otherwise record i carries entry i's symbol, date and quantity, the price found (null when none was) and, for BUY and SELL only, its commission |
| Model.NewRecordsStep | src/stocks/model/StocksModelAbstract.java:479-493 | an entry whose lookup answered appends the record built from it |
| Model.NewRecordsStop | src/stocks/model/StocksModelAbstract.java:486-489 | once a lookup has thrown, nothing is written |
| Model.WrittenSpec | src/stocks/model/StocksModelAbstract.java:466-512 | nothing is written when some lookup throws; otherwise record i holds entry i and the price found on its own date |
| Model.WrittenCacheIndependent | src/stocks/model/StocksModelAbstract.java:485 | the records written do not depend on which consistent cache the lookups start from |
| Model.SentinelStepBack | src/stocks/model/StocksModelAbstract.java:798-802 | a sentinel on the day after a day extends the run of sentinels back to that day |
| Model.LastValidAt | src/stocks/model/StocksModelAbstract.java:791-808 | the first day back from today without the sentinel gives the answer: its price, or -1 when its lookup throws |
| Model.Dates | src/stocks/model/StocksModelAbstract.java:1294-1306 | every entry of a pass is dated on the pass's day |
| Model.QuotesPositive | src/stocks/model/StocksModelAbstract.java:1297 | every price a pass finds is positive, a consequence of the assumed positive closes (see `Prices.ValidMarket` under "## Left out"), so the division by the price is defined |
| Model.PassQuantities | src/stocks/model/StocksModelAbstract.java:1295-1307 | a pass that goes through gives one quantity per symbol |
| Model.NaNWeightsBuyNothing | src/stocks/model/StocksModelAbstract.java:1297-1301 | with NaN weights every quantity of a pass that goes through is 0, since `Math.round` of NaN is 0 |
| Model.PassQuantitiesSpec | src/stocks/model/StocksModelAbstract.java:1295-1307 | a pass goes through exactly when no lookup answers null or a refused call; each symbol then gets its share of the amount less its commission divided by the price, rounded to cents, and 0 where the lookup threw an IOException |
| Model.PassQuantitiesStop | src/stocks/model/StocksModelAbstract.java:1297-1300 | once a lookup of a pass has thrown an uncaught exception, the whole pass throws |
| Model.Pass | src/stocks/model/StocksModelAbstract.java:1292-1307 | the pass on a day gives one quantity per symbol when it goes through |
| Model.InvestStep | src/stocks/model/StocksModelAbstract.java:1272-1311 | one turn that buys runs its pass, then the turns from an interval later, unless the pass threw |
| Model.Shown | src/stocks/model/StocksModelAbstract.java:1346-1348 | each number is printed in its place |
| Model.StrategyEffectWithoutPasses | src/stocks/model/StocksModelAbstract.java:1272 | a run whose end comes before its start writes no record |
| Model.OpenEndedEffect | src/stocks/model/StocksModelAbstract.java:1313-1360 | an open-ended run that ends well is a dollar-cost-averaging run and rewrites the user's file with the day its loop stopped on, which is after today |
| Model.StocksModel.constructor | src/stocks/model/StocksModelAbstract.java:57-61 | a new model over valid data starts with an empty cache, no stored ledgers or ongoing strategies and no symbols to sell |
| Model.StocksModel.CallApi | src/stocks/model/StocksModelAbstract.java:755-780 | the parse of the response, and the symbol's cache replaced by it when it succeeds |
| Model.StocksModel.ReadResponse | src/stocks/model/StocksModelAbstract.java:757-767 | the refused call for a three-line answer; otherwise the series every row after the header makes |
| Model.StocksModel.ReadStep | src/stocks/model/StocksModelAbstract.java:764-767 | one pass of the loop adds one row, or fails when its close is not a number |
| Model.StocksModel.ReadLine | src/stocks/model/StocksModelAbstract.java:765-766 | a row's column 4 read as a number and keyed by its column 0 |
| Model.StocksModel.GetPriceHelper | src/stocks/model/StocksModelAbstract.java:718-743 | the fetch's error, or the day's price, the sentinel when asked for, or the forward scan's price; the cache gains the fetched series |
| Model.StocksModel.ScanForward | src/stocks/model/StocksModelAbstract.java:737-742 | the loop gives the price of the first priced day from the day on, no later than tomorrow, or null |
| Model.StocksModel.GetPrice | src/stocks/model/StocksModelAbstract.java:657-704 | the bundled price up to 2022-10-31, then the cached one, then the fetch's answer; the cache afterwards as that fetch leaves it, still consistent |
| Model.StocksModel.LookUp | src/stocks/model/StocksModelAbstract.java:657-704 | a lookup answers what it would have answered with the cache an earlier caller started from |
| Model.StocksModel.GetLastValidPrice | src/stocks/model/StocksModelAbstract.java:791-808 | the price of the latest day up to today that is not the sentinel, or -1 when a lookup throws first; requires such a day to exist (see the member under "## Left out") |
| Model.StocksModel.StepBack | src/stocks/model/StocksModelAbstract.java:799-801 | one step of the loop: the day before, its quote, and the run of sentinels extended to it |
| Model.StocksModel.GetPortfolioFromJson | src/stocks/model/StocksModelAbstract.java:525-542 | the stored ledger of this model's kind, or the empty array when there is none |
| Model.StocksModel.WritePortfolioToJson | src/stocks/model/StocksModelAbstract.java:466-512 | true exactly when no lookup throws; the ledger stored is then the new records alone for PORTFOLIO, or the ledger read before with the new records appended for BUY and SELL, filed by the operation |
| Model.StocksModel.PriceEntries | src/stocks/model/StocksModelAbstract.java:478-494 | the loop's records: one per entry priced on its own date, none when a lookup throws |
| Model.StocksModel.PriceEntry | src/stocks/model/StocksModelAbstract.java:479-493 | one pass of the loop: the record built from entry i appended, or the stop when its lookup throws |
| Model.StocksModel.GetPortfolioValue | src/stocks/model/StocksModelAbstract.java:821-854 | the signed sum of the records dated on or before the day, each priced on that day; -1 when a lookup answers -1 or throws; the null-price crash otherwise marked |
| Model.StocksModel.ValueEntry | src/stocks/model/StocksModelAbstract.java:828-851 | one pass of the loop: record i, when dated on or before the day, priced on it and added with its sign |
| Model.StocksModel.StopsAt | src/stocks/model/StocksModelAbstract.java:839-849 | once the loop returns, later records change nothing |
| Model.StocksModel.ValueOn | src/stocks/model/StocksModelAbstract.java:1060 | the value on a day, as the valuation the sampler uses gives it |
| Model.StocksModel.ScanForwardOn | src/stocks/model/StocksModelAbstract.java:1061-1065 | the daily inner loop ends where the forward scan does |
| Model.StocksModel.ScanBackwardOn | src/stocks/model/StocksModelAbstract.java:1141-1145 | the backward inner loops end where the backward scan does |
| Model.StocksModel.WeekStepOn | src/stocks/model/StocksModelAbstract.java:1083-1089 | one weekly or yearly pass gives the probe's value or the backward scan's from the day before the cursor |
| Model.StocksModel.PortfolioPerformance | src/stocks/model/StocksModelAbstract.java:1035-1208 | the samples are exactly what the sampler collects for the range's granularity, valued with the cache the call started from; the weekly sampler is the one as written, whose first cursor is the start date and first probe the Friday after it |
| Model.StocksModel.DailyLoop | src/stocks/model/StocksModelAbstract.java:1054-1073 | the daily loop collects what the daily sampler does |
| Model.StocksModel.WeeklyLoop | src/stocks/model/StocksModelAbstract.java:1076-1097 | the weekly loop, from a given cursor and first probe, collects what the weekly sampler does from them |
| Model.StocksModel.MonthlyLoop | src/stocks/model/StocksModelAbstract.java:1099-1154 | the monthly loop collects what the monthly sampler does |
| Model.StocksModel.YearlyLoop | src/stocks/model/StocksModelAbstract.java:1156-1207 | the yearly loop collects what the yearly sampler does |
| Model.StocksModel.GetCompositionHelper | src/stocks/model/StocksModelAbstract.java:556-644 | the composition the program computes from the stored ledger on the day, with the inner step as written (only BUY adds, dates compared with the anchor's), or the crash when a stored price is null |
| Model.StocksModel.SetValidSellSymbols | src/stocks/model/StocksModelAbstract.java:865-892 | the symbols that may be sold are those bought in the stored ledger, each once, and checkValidSellSymbols holds exactly for them |
| Model.StocksModel.ValidSellOrderQuantity | src/stocks/model/StocksModelAbstract.java:908-939 | true exactly when what is held of the symbol on the sale's date covers the quantity |
| Model.StocksModel.InvestmentStrategy | src/stocks/model/StocksModelAbstract.java:1237-1364 | the weights are normalised in place, NaN throughout when they summed to zero; the ledgers, the ongoing-strategies files and the answer are those of the run at the normalised weights |
| Model.StocksModel.RecordExit | src/stocks/model/StocksModelAbstract.java:1313-1360 | the user's file rewritten with the exit date, or a new record appended; it throws exactly when a line cannot be rewritten, and then no file changes |
| Model.StocksModel.NormalizeWeights | src/stocks/model/StocksModelAbstract.java:1246-1257 | `nan` is set exactly when the weights summed to zero; the array with that flag holds the normalised weights, rescaled when the sum was non-zero and below 100, unchanged otherwise |
| Model.StocksModel.WeightSum | src/stocks/model/StocksModelAbstract.java:1248-1250 | the sum of the weights |
| Model.StocksModel.ScaleWeights | src/stocks/model/StocksModelAbstract.java:1254-1256 | every weight multiplied by the factor |
| Model.StocksModel.RunPasses | src/stocks/model/StocksModelAbstract.java:1272-1311 | the ledgers after a BUY pass on every buying day, stopping at the first pass that throws, and the cursor where the loop stopped |
| Model.StocksModel.Turn | src/stocks/model/StocksModelAbstract.java:1273-1310 | one turn: the weekend step, then unless it passes the end the pass on the day it moved to; the turns left and the exit stay those of the whole run |
| Model.StocksModel.PassAt | src/stocks/model/StocksModelAbstract.java:1292-1309 | one buying day: the pass and the BUY records it writes |
| Model.StocksModel.PassQuantitiesOn | src/stocks/model/StocksModelAbstract.java:1293-1307 | the inner loop of a pass gives the pass's quantities |
| Model.StocksModel.IsStrategyOngoing | src/stocks/model/StocksModelAbstract.java:1378-1394 | the fields of the portfolio's record in the user's ongoing-strategies file, or the empty array; it throws exactly when a line read before the record has no field 0 |
| Controller.FirstAccepted | src/stocks/controller/StocksController.java:576-587 | a prompt loop that ends by taking a token takes one of the remaining tokens, and the check accepted that token |
| Controller.FirstAcceptedStops | src/stocks/controller/StocksController.java:576-587 | after tokens the check refuses, the loop takes the first token it accepts or throws at the first token whose check throws |
| Controller.FirstAcceptedExhausted | src/stocks/controller/StocksController.java:576-587 | when the check refuses every remaining token, the loop runs out of input |
| Controller.ScanFor | src/stocks/controller/StocksController.java:576-587 | the loop as a method ends exactly as the token-stream definition of the prompt loop says |
| Controller.TypedDate | src/stocks/controller/StocksController.java:619-655 | the year, month and day that passed their checks make a valid calendar date whose year is from 1999 to the current year |
| Controller.DateTextParses | src/stocks/controller/StocksController.java:618-657 | the text the builder holds, with month and day padded to two digits, parses as the typed date exactly when the year was typed without a sign, and does not parse otherwise |
| Controller.DateRoundSound | src/stocks/controller/StocksController.java:657-665 | a round returns a text naming the typed date, which unless the flag is set is a weekday no later than today; it throws exactly when the year has a sign; otherwise it returns exactly when the flag is set or the date is such a weekday |
| Controller.DateFrom | src/stocks/controller/StocksController.java:612-666 | a date read from the tokens consumes at least one of them and no more than there are |
| Controller.DateFromSound | src/stocks/controller/StocksController.java:612-666 | every date getDateHelper returns parses as a date with year from 1999 to today's year, and unless the flag is set it is a weekday no later than today |
| Controller.GetDateHelper | src/stocks/controller/StocksController.java:612-666 | the nested prompt loops as a method end exactly as the token-stream definition of getDateHelper |
| Controller.GetQuantityHelper | src/stocks/controller/StocksController.java:572-599 | the quantity comes from the first token the rule does not refuse; it is the value parsed from that token and positive, and for BUY and PORTFOLIO the token holds no '.' |
| Controller.SaleFrom | src/stocks/controller/StocksController.java:379-389 | a SELL order the loop accepts has a positive quantity no larger than the shares of the symbol held on its date, and its date is a weekday no later than today |
| Controller.SellLoop | src/stocks/controller/StocksController.java:379-389 | the SELL loop as a method, asking the model's validSellOrderQuantity, ends as the definition of the loop over the stored records says |
| Controller.RangeFrom | src/stocks/controller/StocksController.java:711-727 | a range the guard accepts has its start strictly before its end, both as calendar dates and as day numbers |
| Controller.ReadRange | src/stocks/controller/StocksController.java:711-727 | the guard as a method ends as the definition of the guard says |
| Controller.Trimmed | src/stocks/controller/StocksController.java:842-845 | one name per piece, each the piece with surrounding blanks removed |
| Controller.Numbers | src/stocks/controller/StocksController.java:849-852 | the pieces read as numbers exactly when every trimmed piece parses, and then the numbers are the parsed values in order |
| Controller.DecodeStart | src/stocks/controller/StocksController.java:861-862 | a record that decodes has at least nine fields and resumes from field 4 read as a date |
| Controller.DecodeFrom | src/stocks/controller/StocksController.java:840-864 | a record decodes to its name, strategy and user fields, the parsed interval, date and amount, the trimmed names and the parsed weights and commissions |
| Controller.LookUpRecord | src/stocks/controller/StocksController.java:838-839 | a record the catch-up resumes has a start date, one weight and one commission per symbol, weights that sum to something other than 0 or are all 0, and an interval of at least one day |
| Controller.LookUpFound | src/stocks/controller/StocksController.java:838-864 | the record found in an existing file is the first record for the portfolio there, decoded |
| Controller.JoinSpaced | src/stocks/controller/StocksController.java:840-841 | joining with ", " is joining the spaced pieces with ",", so splitting a written list at ',' gives every element after the first with its leading space |
| Controller.ListPieces | src/stocks/controller/StocksController.java:840-845 | the pieces of a written list field are its elements, spaced, and trimming gives back each element that had nothing to trim |
| Controller.NamesBack | src/stocks/controller/StocksController.java:840-845 | the symbol names written to a record come back unchanged from the name loop |
| Controller.NumbersBack | src/stocks/controller/StocksController.java:847-859 | numbers written to a list field with Double.toString come back unchanged from the parsing loop |
| Controller.DecodeRecord | src/stocks/model/StocksModelAbstract.java:1344-1348 | the record an open-ended run stores decodes to that run's own name, strategy, user, interval, exit day, amount, symbols, weights and commissions |
| Controller.ResumeAfterToday | src/stocks/controller/StocksController.java:837-866 | a record whose date is a day after today leaves the ledgers unchanged, however the catch-up ends |
| Controller.FoundLater | src/stocks/controller/StocksController.java:861-864 | the record found, with a date after today, is resumed without appending to the ledgers |
| Controller.FoundStart | src/stocks/controller/StocksController.java:861-862 | the record found resumes from the day its field 4 names |
| Controller.ResumedFromLater | src/stocks/controller/StocksController.java:861-864 | resuming from a start after today appends nothing to the ledgers |
| Controller.CatchUpAfterRun | src/stocks/controller/StocksController.java:837-866 | after an open-ended dollar-cost-averaging run has stored its exit day in an existing file, the next catch-up on the same day appends nothing |
| Controller.SecondCatchUp | src/stocks/controller/StocksController.java:837-866 | a catch-up that resumed and invested leaves a record whose date is after today, and a second catch-up on the same day appends nothing |
| Controller.TrimAll | src/stocks/controller/StocksController.java:842-845 | the name array holds each piece trimmed |
| Controller.ReadAll | src/stocks/controller/StocksController.java:849-852 | the loop succeeds exactly when every piece parses, and the array then holds the parsed values |
| Controller.DecodeFields | src/stocks/controller/StocksController.java:840-863 | the decoding steps in their order give the record decoding defines, throwing exactly when it does, and the weights array holds its weights |
| Controller.StocksController.constructor | src/stocks/controller/StocksController.java:837-838 | the controller uses the flexible model it is given |
| Controller.StocksController.GetOngoingStrategyUpToDate | src/stocks/controller/StocksController.java:837-866 | the ledgers, the ongoing-strategies files and the outcome are those of the catch-up: nothing changes when there is no record or the decoding throws, otherwise the resumed run's effect |
| Controller.StocksController.FindRecord | src/stocks/controller/StocksController.java:838-860 | what the method finds and decodes is the lookup the catch-up defines, with the weights array holding the found record's weights |
| Controller.StocksController.ResumeRun | src/stocks/controller/StocksController.java:861-864 | investmentStrategy on the decoded fields, from the recorded start with no end date, has the effect of the resumed run |

## Left out

- Floating point: prices, quantities and weights are exact reals. Rounding to two decimals is `Ledger.Round2`; the last-digit drift of `double` arithmetic (a cost basis of 946.5999999999999 where 946.6 is exact) is not represented.
- The display scale of portfolioPerformance (StocksModelAbstract.java:1209-1212) is left out, because it is floating-point formatting of the samples and has no logical content beyond them.
- `Double.parseDouble` and `Double.toString` are the parameters `read` and `show`. The round trip of a stored strategy is proved for numbers that `show` prints as a plain token that `read` reads back (`Controller.Readable`).
- `SimpleDateFormat` is modelled strictly: `Calendar.ParseDate` accepts only dates that exist, with a year, month and day of ASCII digits. The lenient parser would also roll over dates such as 2022-02-30.
- Controller.DateFrom: getDateHelper builds its text from the year as typed, so a year typed with leading zeros ("02022") passes checkValidYear and yields "02022-10-05". The source hands that text on. getPrice compares it as text with the bundled series, the cache and the API rows, finds no match, and its forward scan then returns the price of the first later day that has one. The model hands on the day the text parses to, 2022-10-05, and prices that day.
- Text.ParseInt: reads ASCII digits only, with an optional sign. `Integer.parseInt` also accepts the decimal digits of other scripts (such as "٢٠٢٢"), so the model refuses some tokens the source accepts.
- Prices.ReadRow: callAPI reads column 4 of a response row with the fixed decimal parser `Text.ParseDecimal` (blanks trimmed, then digits with an optional sign and decimal point), not with `read`. Bundled series are maps of numbers already read. `Double.valueOf` also accepts forms such as "1e2", "NaN", "Infinity" and "94.66d", which the model treats as rows that do not parse.
- Ledger.Bought: an average that `double` division would make infinite or NaN (a purchase that brings the total to 0) is `None`, and every later average stays `None`. The source's `Math.round(avgPrice * 100.0) / 100.0` (StocksModelAbstract.java:619-620) turns an infinite average into ±9.223372036854776E16 (`Long.MAX_VALUE` / 100) and NaN into 0.0, both finite, and a later BUY from a total of 0 gives a finite average again, since the old average is multiplied by a quantity of 0.
- File input and output are maps from a user's name to the file's text or records. The JSON ledger is kept as typed records, and the `Json` module models the parser on its own. Missing files and IO exceptions are the `None` cases of those maps, and encryption, decryption and login are outside the core.
- The quote API is the fixed `Prices.Market`, and network failure is its absent answer. An HTTP response that changes between calls is not modelled.
- The wall clock (`new Date()`, including the `lastValidDate` of the yearly sampler) is the parameter `today`.
- Model.StocksModel.PortfolioPerformance: the cache is not refreshed between samples. The samplers take the valuation as a function fixed before the first sample. Both the scans that walk over days valued -1 and the passes of the weekly and yearly outer loops (`decreases fuel` in `Performance.Weekly` and `Performance.Yearly`) carry a `fuel` bound, ending in `OutOfFuel` where the source would loop on. The weekly loop really does loop on: when a portfolio's first record is dated `begin` and every day from `begin` to `begin` + 7 is valued -1 (a held symbol whose lookups all fail), each pass scans back to `begin` - 1, valued 0, and moves its cursor to `begin` + 6 again (see "## Findings").
- Model.StocksModel.CallApi: every API response other than a three-line one is assumed to have at least five comma-separated columns in each data row (`Prices.ResponseReadable`, required through `Prices.WellFormedMarket`). The source reads `parts[4]` of every row after the header (StocksModelAbstract.java:765-766), so a row such as `2022-11-01,1.0,2.0` throws an ArrayIndexOutOfBoundsException. That exception is neither an IllegalArgumentException nor an IOException, so none of the catches in getLastValidPrice, getPortfolioValue, investmentStrategy or writePortfolioToJson stops it and the user's command crashes. The model does not represent that run.
- Model.StocksModel.ReadResponse: requires `Prices.ResponseReadable`, for the reason just given: the short row on which `parts[4]` throws is excluded.
- Model.StocksModel.ReadStep: requires every row to have a column 4 (`Prices.RowsHaveClose`), excluding the same short rows.
- Model.StocksModel.ReadLine: requires at least five columns, where the source's `parts[4]` throws on fewer.
- Prices.ValidMarket: every bundled and fetched close is assumed positive. The source takes whatever number `Double.valueOf` reads from the bundled CSV or from callAPI's column 4. With a close of 0, investmentStrategy's quantity is `Math.round(±Infinity * 100) / 100`, that is ±9.223372036854776E16 (`Long.MAX_VALUE` / 100) (StocksModelAbstract.java:1297-1301), which `Model.Quantity` does not represent (it requires a price other than 0). A stored close of -1 would be taken by getPortfolioValue for the missing-price sentinel (StocksModelAbstract.java:839).
- Model.StocksModel.GetLastValidPrice: requires some day up to today whose lookup is not the -1 sentinel, and its loop's termination rests on that. On a symbol every lookup of which gives -1 up to today, without failing, getLastValidPrice (StocksModelAbstract.java:797-801) steps back one day at a time without end; the model does not represent that run.
- Model.StocksModel.InvestmentStrategy: requires weights that can be normalised (`Strategy.Normalizable`: a non-zero sum, or all zero) and an interval of at least one day. Weights summing to 0 are modelled: the factor 100 / 0 is infinite, every weight becomes NaN and every purchase is of 0 shares. Weights of mixed sign summing to 0 would become infinities, which the model does not represent. No weights checkValidWeightage accepts are like that (`Strategy.AcceptedNormalizable`). With an interval below 1 the source never advances its cursor.
- Model.StocksModel.NormalizeWeights: the array is of reals, which have no NaN. After a zero sum the array is left as it was and the result `nan` says that it stands for NaN in every place (`Strategy.Held`).
- Controller.LookUpRecord: a stored record without a start date, with lists of different lengths, with weights of mixed sign summing to 0 or with an interval below 1 is classed `Outside` and not resumed, for the reasons just given. A record whose weights were stored as "NaN" (after a run with weights summing to 0) is read with `read`, which has no NaN, so the model classes it `Undecodable`. The source reads it back as NaN weights and resumes it, buying 0 shares on each day.
- Controller.SaleFrom: each SELL of a batch is checked against the ledger as stored before the batch, as the source does. Two sales in one batch are not checked against each other.
- The controller's input is the sequence of tokens `Scanner.next` returns. Running out of input stands for `NoSuchElementException`, and the text the view prints between prompts is not modelled.
- The menu loops of the controller, the text and graphical views, and the inflexible/flexible portfolio creation dialogues are outside the core. Only the loops named in the "## Model" table are modelled.
- The plain predicates that only name a check (such as `Validators.CheckValidQuantity` and `Controller.WholeShares`) carry no contract of their own. The members that use them carry the contract.
- The iteration order of a Java `HashMap` is a ghost enumeration, `order`, of its keys; no particular order is assumed.

## Findings

| source | as written | input that shows it | evidently intended | confidence | as-written member | corrected member |
|---|---|---|---|---|---|---|
| src/stocks/model/StocksModelAbstract.java:608-612 | the first and last dates of a holding are compared with the anchor record's date and never with the dates kept so far | three purchases of one symbol dated 10, 3 and 5 October 2022 give a first date of 5 October | the earliest and the latest date of the symbol's records | not executed | Ledger.FirstDateNotEarliest | Ledger.CompositionDates |
| src/stocks/model/StocksModelAbstract.java:614-623 | every record that is not a BUY subtracts from the holding, PORTFOLIO records included | two PORTFOLIO records of 10 and 5 shares of one symbol give a holding of 5 | only SELL subtracts, so the holding is 15 | not executed | Ledger.PortfolioRecordSubtracts | Ledger.TallyIsNet |
| src/stocks/model/StocksModelAbstract.java:1079-1090 | the weekly sampler probes the Friday after the start but stores the first sample under the start date | a start on a Monday whose following Friday has a value: that value is keyed by the Monday | the first sample is keyed by the Friday it was taken on; the corrected member starts the cursor on that Friday as well, which moves every later probe from the start date plus 7k days to the Friday plus 7k days | not executed | Performance.WeeklyFirstSampleMislabelled | Performance.WeeklyFromFridaySampled |
| src/stocks/model/StocksModelAbstract.java:1082-1090 | the backward scan moves the weekly cursor itself, and the next cursor is seven days after the day the scan stopped on | a portfolio whose first record is dated `begin`, with every day from `begin` to `begin` + 7 valued -1 and the range at least seven days long: every pass scans back to `begin` - 1 and moves the cursor to `begin` + 6 again, so the loop never ends | the scan walks a day of its own and the cursor moves a week on from where it stood, so each pass moves it forward and the loop ends | not executed | Performance.WeeklyAsWrittenNeverEnds | Performance.WeeklySteadyEnds |
