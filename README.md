# NYC taxi trip analysis — a Dafny model

A model of the data-processing core of the NYC taxi dashboard. Several
processors share one pattern:

1. Clean the yellow-taxi trip records with fixed range checks. The advanced
   Spark processor also derives duration, speed and tip-percentage columns
   and filters outliers.
2. Aggregate the cleaned trips into views. Each view groups by a key,
   counts, averages some columns, optionally keeps counts above a minimum,
   sorts by count descending or by key ascending, and keeps the first N.

A second, smaller core normalises the taxi-zone table. It classifies raw
column headers, projects onto the canonical columns, fills default ids and
coordinates, builds the id → zone mapping and lays out simulated zones.

Modules, one file each:

| file | module | models |
|---|---|---|
| stats.dfy | `Stats` | nullable values; null-skipping count, sum and mean |
| trips.dfy | `Trips` | the trip record, every column nullable |
| calendar.dfy | `Calendar` | hour, day of week (Sunday = 1), day of month and month of a UTC timestamp |
| text.dfy | `Text` | `str`/`int` of integers, ASCII lower-casing, substring search |
| grouping.dfy | `Grouping` | group-by, the count minimum, sort, limit, and the aggregate rows of a view |
| advanced.dfy | `AdvancedProcessor` | `preprocess_data` and `analyze_basic_metrics` of the advanced Spark processor |
| spark.dfy | `SparkProcessor` | `clean_data` and `analyze_hot_routes` of the plain Spark processor |
| gcp.dfy | `GcpProcessor` | the filter, top-1000 routes and success flag of `process_on_gcp`, and `main`'s exit code |
| pandas.dfy | `PandasProcessor` | `clean_data` and `analyze_data` of the pandas processor; `TripFrame` is the frame `analyze_data` writes into |
| sample.dfy | `SampleAnalysis` | the route label and the three tables of the sample analysis |
| scenario.dfy | `HotRouteScenario` | a worked example of the pandas hot_routes table on ten trips |
| sequences.dfy | `Sequences` | a run of one value, the in-order filter every cleaning step is, and subsequences |
| zones.dfy | `LocationUtils` | `_process_zones_data`, `create_location_mapping`, `_create_simulated_zones` and `load_taxi_zones`; `ZoneFrame` is the frame they change in place |

Modelling choices:

- A null is `None`. A Spark filter drops a row whose condition is null, and
  a pandas comparison with NaN is false, so `Within` fails on a null.
- Spark `avg` and pandas `mean` skip nulls and are null on an all-null
  group (`Stats.Avg`). pandas `count` of a column counts its non-null
  values. Spark `count("*")` counts rows (`Grouping.Size`).
- pandas `groupby` drops rows with a null key and sorts its keys. The key
  functions return `None` for a null key, and `Grouping.ByKey` orders
  groups by ascending key.
- Sorting by count is an insertion sort on groups. Only the non-increasing
  order is stated, not the order among equal counts.
- Timestamps are whole seconds since the epoch and are read in UTC.
- The random draws of the zone code are parameters:
  - `draws` is the stream of normal draws the seeded generator yields;
  - `simulate` gives the coordinates `_add_simulated_coordinates` computes
    for an id.
- Files are parameters too: `FileState` says whether each candidate file is
  absent, fails to read, or reads into a table.
- The run of the pandas processor follows the code as written
  (`PandasProcessor.Run`): an empty frame makes `clean_data` raise, and the
  run reports the failure with nothing analysed. The guarded clean of the
  finding below is proved separately (`PandasProcessor.CleanData`).

Where the specification and the code differ, the model follows the code:

- The specification says the tip percentage is 0 when the fare is not
  positive. The code also yields a null percentage for a positive fare with
  a null tip. The outlier filter then drops that row
  (`AdvancedProcessor.TipPercent`).
- The specification describes a stable sort. Spark's `orderBy` and pandas'
  `sort_values` make no such promise, so tie order is not modelled.

## Model

| member | source | states |
|---|---|---|
| AdvancedProcessor.Preprocess | src/spark_advanced_processor.py:168-223 | preprocessing only removes rows: never more rows out than in |
| AdvancedProcessor.DerivedColumns | src/spark_advanced_processor.py:189-206 | duration × 60 is the dropoff minus pickup in seconds; speed × hours is the distance when the duration is positive, else speed is 0; tip% × fare = tip × 100 for a positive fare and present tip, null for a positive fare and null tip, 0 for a null or non-positive fare; hour 0..23, day of week 1..7, month 1..12, day 1..31 |
| AdvancedProcessor.PreprocessBounds | src/spark_advanced_processor.py:175-214 | every returned row has total in (0,1000), distance in (0,100), passengers 1..6, duration in (0,180), speed < 100, a present tip% < 100, pickup before dropoff, hour 0..23 and day of week 1..7 |
| AdvancedProcessor.PreprocessKeepsExactly | src/spark_advanced_processor.py:175-214 | a trip is in the output, with its derived columns, exactly when it passes both filters; the raw trips behind the output are the input in order with the failing trips left out, each passing trip as many times as in the input |
| AdvancedProcessor.RawOfEnrich | src/spark_advanced_processor.py:186-206 | deriving the new columns keeps every original column: the trip can be read back from its cleaned row |
| AdvancedProcessor.ZeroLengthTripDropped | src/spark_advanced_processor.py:209-211 | a trip whose dropoff is not after its pickup is always dropped |
| AdvancedProcessor.RemovedPercentBounds | src/spark_advanced_processor.py:216-217 | the reported removed share lies in 0..100 and is 0 for an empty input |
| AdvancedProcessor.AvgOfIsMean | src/spark_advanced_processor.py:233-235 | on a non-empty group, `avg` of a non-null column is the arithmetic mean |
| AdvancedProcessor.RouteAveragesAreMeans | src/spark_advanced_processor.py:231-236 | a route's average distance, fare and duration are the means over its trips |
| AdvancedProcessor.HotRoutesRanked | src/spark_advanced_processor.py:230-241 | hot_routes: at most 100 rows, each count > 5, routes distinct, counts non-increasing, each count and average those of exactly that route's trips |
| AdvancedProcessor.HotRoutesComplete | src/spark_advanced_processor.py:239-241 | a route seen more than 5 times is listed unless 100 routes at least as busy fill the table |
| AdvancedProcessor.PickupHotspotsRanked | src/spark_advanced_processor.py:244-252 | pickup_hotspots: at most 50 rows, zones distinct, counts non-increasing, exact counts and averages |
| AdvancedProcessor.PickupHotspotsComplete | src/spark_advanced_processor.py:251-252 | a pickup zone is missing only when 50 zones at least as busy fill the table |
| AdvancedProcessor.DropoffHotspotsRanked | src/spark_advanced_processor.py:254-260 | dropoff_hotspots: at most 50 rows, zones distinct, counts non-increasing, exact counts and averages |
| AdvancedProcessor.DropoffHotspotsComplete | src/spark_advanced_processor.py:259-260 | a dropoff zone is missing only when 50 zones at least as busy fill the table |
| AdvancedProcessor.HourlyTrafficOrdered | src/spark_advanced_processor.py:263-270 | hourly_traffic: hours strictly ascending, exact counts and averages, a row for every hour present, counts summing to the row count |
| AdvancedProcessor.DailyTrafficOrdered | src/spark_advanced_processor.py:273-279 | daily_traffic: days strictly ascending, exact counts and averages, a row for every day present, counts summing to the row count |
| AdvancedProcessor.PassengerStatsOrdered | src/spark_advanced_processor.py:282-289 | passenger_stats: passenger counts strictly ascending, exact counts and averages, a row for every count present, counts summing to the row count |
| AdvancedProcessor.HourlyKeysAreHours | src/spark_advanced_processor.py:263-270 | on preprocessed trips every hourly key is in 0..23 |
| AdvancedProcessor.DailyKeysAreWeekdays | src/spark_advanced_processor.py:273-279 | on preprocessed trips every daily key is in 1..7 |
| AdvancedProcessor.PassengerKeysInRange | src/spark_advanced_processor.py:282-289 | on preprocessed trips every passenger key is in 1..6 |
| Calendar.Hour | src/spark_advanced_processor.py:189 | the hour of a timestamp is in 0..23, and the timestamp lies within that hour of its day |
| Calendar.HourOfSlice | src/spark_advanced_processor.py:189 | the hour is the h whose hour-long slice of its day holds the timestamp |
| Calendar.DayOfWeek | src/spark_advanced_processor.py:191 | the day of the week is in 1..7 |
| Calendar.DayOfWeekNext | src/spark_advanced_processor.py:191 | one day later the day of the week advances by one, Saturday wrapping to Sunday, and the hour is unchanged |
| Calendar.Month | src/spark_advanced_processor.py:192 | the month is in 1..12 |
| Calendar.DayOfMonth | src/spark_advanced_processor.py:190 | the day of the month is in 1..31 |
| Calendar.MonthAndDayLocateTheDay | src/spark_advanced_processor.py:190-192 | the day of the month fits its month, and the days of the earlier months plus it give back the day of the year |
| Calendar.MonthStartsPartitionYear | src/spark_advanced_processor.py:192 | each month starts where the previous one ends, and the months fill the year exactly |
| SparkProcessor.CleanData | src/spark_processor.py:27-45 | cleaning never adds rows |
| SparkProcessor.CleanDataExact | src/spark_processor.py:32-43 | the kept trips are exactly those with both zones, a pickup time and a total in (0,1000); hour, day of week and month come from the pickup time alone and are in range; the trips behind the cleaned rows are the input in order with the failing trips left out, each passing trip as many times as in the input |
| SparkProcessor.CleanRowsHaveZones | src/spark_processor.py:32-38 | every cleaned row has both zones |
| SparkProcessor.HotRoutesRanked | src/spark_processor.py:50-58 | hot_routes: at most 100 rows, routes distinct, counts non-increasing, exact counts and averages |
| SparkProcessor.HotRoutesHaveNoMinimum | src/spark_processor.py:50-58 | any cleaned trip's route, even one seen once, is listed unless 100 routes at least as busy fill the table |
| SparkProcessor.PickupHotspotsComplete | src/spark_processor.py:61-63 | pickup_hotspots is not truncated: one row per pickup zone present, distinct, busiest first, counts summing to the row count |
| SparkProcessor.DropoffHotspotsComplete | src/spark_processor.py:65-67 | dropoff_hotspots is not truncated: one row per dropoff zone present, distinct, busiest first, counts summing to the row count |
| SparkProcessor.HourlyTrafficOrdered | src/spark_processor.py:70-72 | hourly_traffic: hours strictly ascending, a row for every hour present, counts summing to the row count |
| GcpProcessor.CleanData | src/spark_gcp_processor.py:38-43 | the filter never adds rows |
| GcpProcessor.CleanDataExact | src/spark_gcp_processor.py:38-43 | the kept trips are exactly those with both zones and a total in (0,1000), in input order, each as many times as in the input |
| GcpProcessor.ProcessOnGcp | src/spark_gcp_processor.py:13-77 | the run reports success exactly when the read, the write and the steps after the write (count, show, stop) all succeed; the table is written exactly when the read and the write succeed, so a failure after the write reports failure with the table written |
| GcpProcessor.ExitCode | src/spark_gcp_processor.py:87-89 | the exit code is 0 exactly on success, 1 otherwise |
| GcpProcessor.SuccessfulRunWritesHotRoutes | src/spark_gcp_processor.py:46-89 | exit 0 exactly when read, write and the steps after it succeed; whenever a table was written, even on exit 1, it has at most 1000 distinct routes, busiest first, with exact counts and averages of the cleaned trips |
| GcpProcessor.HotRoutesComplete | src/spark_gcp_processor.py:46-54 | a cleaned trip's route is written unless 1000 routes at least as busy fill the table |
| PandasProcessor.CleanRows | src/pandas_processor.py:84-90 | the kept rows are exactly those with both zones and a total in (0,1000), and a distance in (0,100) only when the frame has that column; they keep their order, and each kept row occurs as many times as in the input |
| PandasProcessor.EmptyFrameRaises | src/pandas_processor.py:97 | clean_data as written fails on an empty frame |
| PandasProcessor.CleanData | src/pandas_processor.py:77-99 | with the empty frame guarded, clean_data never fails |
| PandasProcessor.CleanDataGuarded | src/pandas_processor.py:92-97 | the guarded version agrees with the code wherever that does not raise; the removed share lies in 0..100 and is 0 for an empty frame |
| PandasProcessor.RemovedShareBounds | src/pandas_processor.py:92-97 | when no more rows are kept than there were, the guarded removed share is a percentage, and 0 for no rows |
| PandasProcessor.TotalCountOfComplete | src/pandas_processor.py:108 | when every total is present, `count` of total_amount is the number of rows |
| PandasProcessor.HotRoutesRanked | src/pandas_processor.py:107-116 | hot_routes: at most 100 rows, each count > 5, routes distinct, counts non-increasing; each count is the number of non-null totals and each average the mean over exactly that route's trips |
| PandasProcessor.HotRoutesComplete | src/pandas_processor.py:107-116 | a route with more than 5 counted totals is listed unless 100 routes at least as busy fill the table |
| PandasProcessor.HotRouteCountsOnCleanRows | src/pandas_processor.py:84-116 | on cleaned rows each hot route's count is its number of trips |
| PandasProcessor.HourlyTrafficOrdered | src/pandas_processor.py:120-126 | hourly_traffic: hours strictly ascending, exact counts and averages, a row for every pickup hour present |
| PandasProcessor.HourlyCountsOnCleanRows | src/pandas_processor.py:120-126 | on cleaned rows the hourly counts add up to the rows with a pickup time |
| PandasProcessor.PickupHotspotsRanked | src/pandas_processor.py:137-141 | pickup_hotspots: at most 50 rows, zones distinct, counts non-increasing, no minimum, exact counts and averages |
| PandasProcessor.PickupHotspotsComplete | src/pandas_processor.py:137-141 | a pickup zone is missing only when 50 zones at least as busy fill the table |
| PandasProcessor.PassengerStatsOrdered | src/pandas_processor.py:145-149 | passenger_stats: passenger counts strictly ascending, exact counts and averages, a row for every count present |
| PandasProcessor.DefaultPassengerStats | src/pandas_processor.py:150-155 | without a passenger_count column the table is the five fixed rows keyed 1..5 |
| PandasProcessor.HourColumn | src/pandas_processor.py:121 | the written pickup_hour column has one entry per row, null exactly where the pickup time is null, otherwise the hour 0..23 of its day in which the pickup falls |
| PandasProcessor.TripFrame.AnalyzeData | src/pandas_processor.py:101-162 | without trip_distance it fails and writes nothing; otherwise it returns the four tables and, when the pickup column exists, writes pickup_hour into the frame; the rows are unchanged |
| PandasProcessor.Run | src/pandas_processor.py:77-221 | as written: an empty frame fails with the division by zero and is left as it was; otherwise the frame ends holding the cleaned rows, and the analysis of them is returned, or a failure without trip_distance |
| HotRouteScenario.ScenarioHotKeys | src/pandas_processor.py:107-116 | of six trips 5 -> 10 and four trips 7 -> 9, every hot route is 5 -> 10, since 7 -> 9 has only four trips |
| HotRouteScenario.ScenarioOneHotRoute | src/pandas_processor.py:107-116 | the same ten trips give exactly one hot route, 5 -> 10 |
| HotRouteScenario.ScenarioHotRoutes | src/pandas_processor.py:107-116 | the ten trips' hot_routes table is the single row 5 -> 10 with 6 trips, average fare 12.0 and average distance 2.0 |
| SampleAnalysis.RouteLabelRoundTrip | src/analyze_sample.py:22 | a route label reads back as its route |
| SampleAnalysis.RouteLabelInjective | src/analyze_sample.py:22-23 | two routes never share a label, so grouping by label as well changes nothing |
| SampleAnalysis.RouteFaresOfGroup | src/analyze_sample.py:22-27 | one route's aggregates: its label names it; the mean fare is missing exactly when no total is present, and otherwise times the count gives the total fare |
| SampleAnalysis.HotRoutesRanked | src/analyze_sample.py:23-28 | hot_routes: every route once, busiest first, uncut and without minimum, counts of exactly the route's non-null totals |
| SampleAnalysis.HotRouteFares | src/analyze_sample.py:23-28 | each hot_routes row's label reads back as its route, its mean is present exactly when its count is positive, and mean × count = total fare |
| SampleAnalysis.PickupHotspotsRanked | src/analyze_sample.py:31-36 | pickup_hotspots: every pickup zone once, busiest first, exact counts and mean distances |
| SampleAnalysis.HourlyTrafficOrdered | src/analyze_sample.py:39-44 | hourly_traffic: hours strictly ascending, each in 0..23, exact counts and mean distances, a row for every pickup hour present |
| Grouping.Select | src/spark_advanced_processor.py:230 | the rows of one key: exactly the input rows with that key |
| Grouping.GroupByGroups | src/spark_advanced_processor.py:230-238 | group-by: distinct keys, each group exactly its key's rows and non-empty, a group for every non-null key, and every keyed row counted once |
| Grouping.MoreThanSound | src/spark_advanced_processor.py:239 | the count minimum keeps only input groups above it |
| Grouping.MoreThanComplete | src/spark_advanced_processor.py:239 | the count minimum keeps every group above it |
| Grouping.SortSorted | src/spark_advanced_processor.py:240 | sorting by count leaves counts non-increasing |
| Grouping.SortKeepsGroups | src/spark_advanced_processor.py:240 | sorting keeps exactly the groups it was given |
| Grouping.SortTotal | src/spark_advanced_processor.py:240 | sorting keeps the number of rows held |
| Grouping.SortDistinct | src/spark_advanced_processor.py:240 | sorting keeps keys distinct |
| Grouping.TakeDropsOnlyLower | src/spark_advanced_processor.py:241 | `limit` drops a group only when all places went to groups ranked at least as high |
| Grouping.TopOrder | src/spark_advanced_processor.py:230-241 | a count-ranked view keeps only groups past the minimum, at most `limit`, counts non-increasing |
| Grouping.TopIsComplete | src/spark_advanced_processor.py:230-241 | a key past the minimum is missing only when `limit` groups at least as heavy fill the view |
| Grouping.TopRows | src/spark_advanced_processor.py:230-241 | the rows of a count-ranked view: distinct keys, exact counts and aggregates, all past the minimum, at most `limit`, counts non-increasing |
| Grouping.TopRowsComplete | src/spark_advanced_processor.py:230-241 | the same completeness, stated on the view's rows |
| Grouping.TopRowsTotal | src/spark_processor.py:61-63 | an uncut view that counts rows has counts summing to the keyed rows |
| Grouping.ByKeyOrdered | src/spark_advanced_processor.py:263-270 | a key-ordered view has strictly ascending keys and exact groups |
| Grouping.ByKeyComplete | src/spark_advanced_processor.py:263-270 | a key-ordered view has a group for every non-null key present |
| Grouping.ByKeyRows | src/spark_advanced_processor.py:263-270 | the rows of a key-ordered view: keys strictly ascending, exact counts and aggregates, a row for every key present |
| Grouping.ByKeyRowsTotal | src/spark_advanced_processor.py:263-270 | a key-ordered view that counts rows has counts summing to the keyed rows |
| Sequences.FilterExact | src/pandas_processor.py:87 | a row filter keeps the passing rows in their order, every copy of a passing row, and nothing else |
| Stats.Avg | src/spark_advanced_processor.py:233-236 | the null-skipping mean is null exactly when no value is present, and otherwise times the count of values gives their sum |
| Stats.AvgOfPresent | src/spark_advanced_processor.py:233-235 | on a column without nulls the null-skipping mean is the arithmetic mean |
| Text.ParseRendering | src/analyze_sample.py:22 | `int(str(n)) == n` for every integer |
| Text.RenderingInjective | src/analyze_sample.py:22 | distinct integers render differently |
| Text.Contains | src/location_utils.py:138-147 | `t in s` holds exactly when t occurs in s at some position |
| Text.LowerIdempotent | src/location_utils.py:132-137 | lower-casing twice is lower-casing once, so lower-casing the headers again at line 137 changes nothing |
| LocationUtils.Classify | src/location_utils.py:136-147 | a classified header maps to one of the five canonical names |
| LocationUtils.ClassifyIdFirst | src/location_utils.py:138-139 | "LocationID" becomes location_id |
| LocationUtils.ClassifyServiceZone | src/location_utils.py:142-143 | "service_zone" is not renamed, although it mentions "zone" |
| LocationUtils.ClassifyLookupHeaders | src/location_utils.py:140-143 | "Zone" becomes zone_name and "Borough" becomes borough |
| LocationUtils.OnlyLocationIsId | src/location_utils.py:138-139 | a header without "location" never becomes location_id |
| LocationUtils.NoLocationHeader | src/location_utils.py:131-150 | a non-empty frame with no header mentioning "location" has no location_id after renaming |
| LocationUtils.ZoneFrame.BuildColumnMapping | src/location_utils.py:135-147 | the loop builds the map from every classified header to its canonical name |
| LocationUtils.ZoneFrame.ProcessZones | src/location_utils.py:121-166 | the frame ends as the renamed, id-filled, coordinate-filled projection of what it held |
| LocationUtils.ProcessedShape | src/location_utils.py:153-163 | the result keeps every row and has location_id, latitude and longitude; only canonical columns, in canonical order |
| LocationUtils.CanonicalProjection | src/location_utils.py:160-163 | the projection of a table with the key columns keeps them and holds only canonical columns in canonical order |
| LocationUtils.ProjectionKeepsListed | src/location_utils.py:161-163 | the projection keeps exactly the columns whose names it lists |
| LocationUtils.ProjectionOrdered | src/location_utils.py:161-163 | the projection follows the order of the names it keeps |
| LocationUtils.ProcessedDefaultIds | src/location_utils.py:154-155 | an empty frame, or one without a header mentioning "location", gets the ids 1..n in row order |
| LocationUtils.WithIds | src/location_utils.py:154-155 | the id column exists afterwards, no other column is added or lost, and it holds 1..n when it was missing or the frame empty |
| LocationUtils.WithCoordinates | src/location_utils.py:157-158 | adding coordinates keeps the rows, adds latitude and longitude, and leaves every other column as it was |
| LocationUtils.WithColumn | src/location_utils.py:155 | assigning a column: the name exists afterwards with the given cells, no other name is added or lost, other columns are unchanged |
| LocationUtils.ZoneFrame.FillKeyColumns | src/location_utils.py:292-301 | the frame ends with its missing key columns filled |
| LocationUtils.Filled | src/location_utils.py:292-301 | after the repair all three key columns exist and every column has one cell per row |
| LocationUtils.FilledIds | src/location_utils.py:296-297 | a missing location_id column is filled with the row numbers from 1 |
| LocationUtils.FilledLatitude | src/location_utils.py:298-299 | a missing latitude column is filled with 40.7128 |
| LocationUtils.FilledLongitude | src/location_utils.py:300-301 | a missing longitude column is filled with -74.0060 |
| LocationUtils.FilledOthers | src/location_utils.py:292-301 | the repair adds or removes no column but the three key columns |
| LocationUtils.FilledLabels | src/location_utils.py:292-301 | the repair adds no borough or zone_name column |
| LocationUtils.FilledDefaults | src/location_utils.py:292-313 | without location_id a converted row is keyed by its row number from 1; without coordinates it sits at the city centre |
| LocationUtils.FilledDefaultLabels | src/location_utils.py:314-315 | without borough or zone_name a converted row gets "Unknown" and "Zone_<id>" |
| LocationUtils.Truncate | src/location_utils.py:310 | `int()` of a float rounds toward zero |
| LocationUtils.ZoneFrame.CreateLocationMapping | src/location_utils.py:278-319 | the frame ends repaired, and the returned mapping is the one filled from its rows in order |
| LocationUtils.MappingKeys | src/location_utils.py:307-319 | an id is mapped exactly when some row converted to it; rows whose conversion raises leave no trace |
| LocationUtils.LastWriterWins | src/location_utils.py:311-316 | the entry of an id is that of the last row converted to it |
| LocationUtils.ZoneFrame.LowerColumns | src/location_utils.py:132 | the frame ends with every header lower-cased |
| LocationUtils.ZoneFrame.Rename | src/location_utils.py:149-150 | the frame ends with its headers renamed by the map |
| LocationUtils.SimulatedZones | src/location_utils.py:225-241 | 263 records; record k is zone k+1 with its block's borough, name "Zone_k+1" and the borough centre moved by its two draws |
| LocationUtils.Boroughs | src/location_utils.py:212-213 | the borough list has one entry per zone, 263 |
| LocationUtils.BoroughCounts | src/location_utils.py:212 | 60 Manhattan, 60 Brooklyn, 60 Queens, 40 Bronx, 40 Staten Island and 3 EWR zones, and no other borough |
| LocationUtils.EveryBoroughHasCentre | src/location_utils.py:216-229 | every simulated zone's borough has a centre, so the city-centre fallback is never used |
| LocationUtils.SimulatedNamesDistinct | src/location_utils.py:238 | simulated zone names are distinct |
| LocationUtils.RecordsTable | src/location_utils.py:243 | the simulated table has one row per zone and all three key columns |
| LocationUtils.ProcessedChoiceIsFirstUsable | src/location_utils.py:62-93 | the first readable, non-empty processed file decides: it is used lower-cased when it has the key columns, and otherwise the loader falls back to simulated zones |
| LocationUtils.FirstFileLackingKeysGivesSimulated | src/location_utils.py:82-86 | when the first usable processed file lacks a key column, simulated zones are returned whatever the other files hold |
| LocationUtils.LookupHeaderLacksKeys | src/location_utils.py:79-86 | the lookup file's own header lacks location_id once lower-cased, so as a processed file it leads to simulated zones |
| LocationUtils.RawChoiceIsFirst | src/location_utils.py:103-112 | the raw file chosen is the first one that reads |
| LocationUtils.RawFileIsProcessed | src/location_utils.py:95-112 | a raw file is used only when no processed file is usable; the first readable one wins, and it is normalised first |
| LocationUtils.LoadTaxiZones | src/location_utils.py:50-119 | the loop over the files returns the source and table the file order decides |

## Left out

- The k-means clustering, scaling and feature assembly of `analyze_advanced_metrics` are library machine learning on floats and are not modelled. Neither is the fare standard deviation in the advanced hot_routes table, for the same reason.
- Float rounding: averages are exact `real`s. `str()` of a computed float has no modelled spelling: the simulated coordinates carry an empty one.
- The order among equal counts after sorting is not modelled, since neither library promises one.
- All file, Parquet, CSV, JSON and cloud-storage input and output, including `save_results`, the summary report and zip extraction, is left out. Their outcomes are parameters instead: the trips read, whether a write succeeds, and the state of each candidate zone file.
- The sample-data generators and the Spark session set-up are not modelled.
- Random numbers are parameters. The hourly table that `analyze_data` fills with random numbers when the pickup column is missing becomes `None`.
- Time zones: calendar fields are computed in UTC.
- `int()` of text accepts only an optional minus sign and digits, not surrounding whitespace or underscores. `float()` of text is modelled for integer spellings only.
- Lower-casing is ASCII only.
- A table whose headers repeat a name after renaming is read through its first column of that name.
- Row iteration with `iterrows` (which may upcast integer columns to float) is not modelled; each cell keeps its own type.
- `SampleAnalysis.RouteLabel` renders ids as integers. A CSV id column with a missing value is read as float by pandas and renders as "1.0->2.0"; that spelling is not modelled.
- A raw zone file whose processing raises is not modelled; the loader is taken to use the first raw file that reads.
- LocationUtils.ZoneFrame.CreateLocationMapping: starts from the frame `load_taxi_zones` returned, and returns the mapping rather than the path of the JSON file it is written to; chaining the two calls is not modelled.
- `get_zone_centroids` is not modelled: it only copies rows of the loaded table into a dictionary, as the mapping does.
- The `route` and `hour` columns the sample analysis adds to its own local frame are not modelled as state. Nothing outside the function can see that frame, so the tables are functions of the trips.
- The file names `save_results` pairs with the four tables of `analyze_hot_routes` are I/O. `SparkProcessor.Tables` keeps the tables in the order they are returned.
- The presentation layer, the cloud utilities and the path helpers are not part of this model.

## Findings

| source | as written | input that shows it | evidently intended | confidence | as-written member | corrected member |
|---|---|---|---|---|---|---|
| src/pandas_processor.py:97 | the removed share is printed as `removed/initial_count*100` with no guard | a frame with no rows: `initial_count` is 0 and the division raises `ZeroDivisionError` | report 0% for an empty frame, as the advanced processor does at src/spark_advanced_processor.py:217 | not executed | PandasProcessor.EmptyFrameRaises | PandasProcessor.CleanDataGuarded |
