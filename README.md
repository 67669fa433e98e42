# DroidMuni core, modelled in Dafny

DroidMuni is an Android client for San Francisco Muni arrival predictions
published by NextBus. This project models the sequential core of the app and
proves properties about it:

- **Entity store** (`Db`, `db.dfy`). Routes, directions, stops and predictions,
  each with its `compareTo` order. The route table is keyed by tag. The stop
  table is keyed by stop tag, with upsert-and-mark-serving-route.
- **Countdown view** (`PredictionView`, `prediction_view.dfy`). The minute
  arithmetic of `OnePredictionView.update()`, which truncates toward zero like
  Java. It renders "N minute(s)[ ago]" plus the small destination suffix. It
  also computes the instant at which the text next changes.
- **Query manager** (`QueryManager`, `query_manager.dfy`). The one current
  background query in front of a list adapter, as a sequential event model: a
  superseded query is cancelled, and its cursor is closed rather than shown.
- **Content provider** (`Provider`, `provider.dfy`):
  - the URI table and the MIME types;
  - the routes, directions, stops and predictions cursors (sorting, the
    `useForUI` filter, consecutive `_id`s);
  - the fetch-and-parse dispatch on the parser's result state, with the
    one-shot cookie request;
  - the numbering of routes scraped from the route list page.
- **Feed parsers** (`Parser`, `RouteListParser`, `RouteConfigParser`,
  `PredictionsParser`):
  - the parse-once state machine;
  - dispatch on the root element and the `<Error>` document;
  - each feed's assembly rules.

  The XML input is an element tree (`XmlPull`, `xml_pull.dfy`). Each parser
  loop over an element's children is proved against a left fold over those
  children (`ChildScan`, `child_scan.dfy`).
- **Small helpers**:
  - the request URIs as a base plus an ordered parameter list (`UriBuilder`);
  - the saved-line preference with its merge rule (`Preferences`);
  - the Java library behaviour the core relies on, such as `String.compareTo`,
    `Integer.parseInt`, `Boolean.parseBoolean` and `Collections.sort`
    (`JavaLang`, `Sorting`).

Each parser, the view, the query manager, the preference manager and the
provider is a class whose fields the methods update. Each such method is
proved against a specification function, and the lemmas state what the
source promises about those functions.

Some behaviour described for this system is not in the code. The model
follows the code in each case:

- The code has no single-flight coalescing of fetches.
- The code has no staleness tiers; `directions_updated_ms` is never read.
- After a missing-cookie answer, the code does not retry the original
  request.
- The code has no `Requery`.
- The predictions cursor is not sorted.
- The routes cursor names its tag column `name`, not `tag`.

## Model

Paths are relative to the repository root.

| member | source | states |
|---|---|---|
| JavaLang.CompareStringsZeroIff | src/info/yasskin/droidmuni/Db.java:49-52 | String.compareTo gives 0 exactly when the two strings are equal |
| JavaLang.CompareStringsAntisymmetric | src/info/yasskin/droidmuni/Db.java:49-52 | swapping the strings negates String.compareTo |
| JavaLang.CompareStringsTransitive | src/info/yasskin/droidmuni/Db.java:49-52 | "not after" and "before" under String.compareTo are transitive |
| JavaLang.CompareInts | src/info/yasskin/droidmuni/Db.java:45-48 | the -1/0/1 comparison of two numbers is 0 iff they are equal and negative iff the first is smaller |
| JavaLang.NatToStringDigits | src/info/yasskin/droidmuni/OnePredictionView.java:106 | the decimal rendering of a number is non-empty, all digits, and denotes the number |
| JavaLang.ParseDecimal | src/info/yasskin/droidmuni/RouteConfigParser.java:121-122 | a parsed integer lies inside the bounds of the Java type asked for |
| JavaLang.ParseInt | src/info/yasskin/droidmuni/RouteConfigParser.java:121-122 | Integer.parseInt yields only 32-bit values |
| JavaLang.ParseLong | src/info/yasskin/droidmuni/PredictionsParser.java:83 | Long.parseLong yields only 64-bit values |
| JavaLang.ParseIntOfNatToString | src/info/yasskin/droidmuni/RouteConfigParser.java:121 | parsing the decimal rendering of an int-range number gives the number back |
| JavaLang.ParseIntNegative | src/info/yasskin/droidmuni/RouteConfigParser.java:121 | a minus sign before the digits parses to the negated number |
| JavaLang.ParseBooleanCases | src/info/yasskin/droidmuni/RouteConfigParser.java:136 | Boolean.parseBoolean is true for "true", "TRUE" and "True", and false for null, "", "yes", "1" and "true " |
| JavaLang.ListOf | src/info/yasskin/droidmuni/Db.java:108-110 | copying a set into a list yields each member exactly once and nothing else |
| Sorting.Insert | src/info/yasskin/droidmuni/NextMuniProvider.java:169 | inserting into a sorted list keeps it sorted and adds exactly the new element |
| Sorting.InsertedSorted | src/info/yasskin/droidmuni/NextMuniProvider.java:169 | placing x after every element not greater than it, and before the greater ones, gives a sorted list |
| Sorting.InsertedPermutes | src/info/yasskin/droidmuni/NextMuniProvider.java:169 | the insertion adds exactly one x to the multiset of elements |
| Sorting.NotAfterInsertionPoint | src/info/yasskin/droidmuni/NextMuniProvider.java:169 | in a sorted list, everything up to the insertion point is not greater than x |
| Sorting.Sort | src/info/yasskin/droidmuni/NextMuniProvider.java:281 | Collections.sort under a comparator yields a sorted permutation of its input |
| Db.Route.constructor | src/info/yasskin/droidmuni/Db.java:22-37 | a new route has the given index, tag and description, no directions, and update time 0 |
| Db.Stop.constructor | src/info/yasskin/droidmuni/Db.java:93-98 | a new stop has the given fields and is served by no route |
| Db.Stop.RoutesThatStopHere | src/info/yasskin/droidmuni/Db.java:105-110 | the returned list holds each serving route exactly once and nothing else |
| Db.Stop.AddRoute | src/info/yasskin/droidmuni/Db.java:112-114 | the route joins the set of serving routes |
| Db.RouteOrderZeroIff | src/info/yasskin/droidmuni/Db.java:44-53 | Route.compareTo is 0 exactly when index, tag and description all agree |
| Db.RouteOrderAntisymmetric | src/info/yasskin/droidmuni/Db.java:44-53 | swapping two routes negates Route.compareTo |
| Db.RouteOrderTransitive | src/info/yasskin/droidmuni/Db.java:44-53 | Route.compareTo's "not after" is transitive |
| Db.RouteOrderIsComparator | src/info/yasskin/droidmuni/Db.java:44-53 | Route.compareTo meets what Collections.sort needs on any set of routes |
| Db.DirectionOrderZeroIff | src/info/yasskin/droidmuni/Db.java:83-89 | Direction.compareTo is 0 exactly when index and tag agree |
| Db.DirectionOrderAntisymmetric | src/info/yasskin/droidmuni/Db.java:83-89 | swapping two directions negates Direction.compareTo |
| Db.DirectionOrderTransitive | src/info/yasskin/droidmuni/Db.java:83-89 | Direction.compareTo's "not after" is transitive |
| Db.DirectionOrderIsComparator | src/info/yasskin/droidmuni/Db.java:83-89 | Direction.compareTo meets what Collections.sort needs on any set of directions |
| Db.PredictionOrderZeroIff | src/info/yasskin/droidmuni/Db.java:158-167 | Prediction.compareTo is 0 exactly when time, route tag and direction tag agree |
| Db.PredictionOrderAntisymmetric | src/info/yasskin/droidmuni/Db.java:158-167 | swapping two predictions negates Prediction.compareTo |
| Db.PredictionOrderTransitive | src/info/yasskin/droidmuni/Db.java:158-167 | Prediction.compareTo's "not after" is transitive |
| Db.PredictionOrderByTime | src/info/yasskin/droidmuni/Db.java:153-162 | an earlier predicted time always orders first, whatever the tags |
| Db.Db.constructor | src/info/yasskin/droidmuni/Db.java:170-174 | the database starts with no routes and no stops |
| Db.Db.AddRoute | src/info/yasskin/droidmuni/Db.java:177-179 | the route is filed under its tag, replacing any earlier one; getRoute then returns it; other tags and the stops are unchanged |
| Db.Db.GetRoute | src/info/yasskin/droidmuni/Db.java:181-183 | the route filed under the tag, which carries that tag, or null when none is filed |
| Db.Db.GetStop | src/info/yasskin/droidmuni/Db.java:190-192 | the stop filed under the stop tag, which carries that tag, or null when none is filed |
| Db.Db.AddStop | src/info/yasskin/droidmuni/Db.java:194-208 | an already-filed stop wins over the new one; the filed stop is returned and marked as served by the route; adding a stop and route already recorded changes nothing |
| PredictionView.TruncDiv | src/info/yasskin/droidmuni/OnePredictionView.java:79 | Java's long division: the quotient brackets the dividend from below for non-negative and from above for negative dividends |
| PredictionView.TruncDivUnique | src/info/yasskin/droidmuni/OnePredictionView.java:79 | the truncated quotient is the only one whose interval holds the dividend |
| PredictionView.NextVisibleChangeIsLater | src/info/yasskin/droidmuni/OnePredictionView.java:82-92 | the next visible change is strictly after now, so the scheduled delay is positive |
| PredictionView.MinutesConstantUntilChange | src/info/yasskin/droidmuni/OnePredictionView.java:79-91 | at every instant from now up to the next visible change the minute count is the one computed now |
| PredictionView.MinutesDropAtChange | src/info/yasskin/droidmuni/OnePredictionView.java:82-91 | at the next visible change the minute count is exactly one less |
| PredictionView.CountdownConstantUntilChange | src/info/yasskin/droidmuni/OnePredictionView.java:74-122 | the whole displayed text, suffix and span included, does not change before the next visible change |
| PredictionView.MinutesTextExamples | tests/src/info/yasskin/droidmuni/test/OnePredictionViewTest.java:35-63 | 600 s, 61 s and 1 s before arrival read "10 minutes", "1 minute" and "0 minutes"; 59 s, 60 s and 540 s after it read "0 minutes", "1 minute ago" and "9 minutes ago" |
| PredictionView.TenMinutesText | tests/src/info/yasskin/droidmuni/test/OnePredictionViewTest.java:36-40 | ten minutes before arrival the text is "10 minutes" |
| PredictionView.CountdownOtherDirection | src/info/yasskin/droidmuni/OnePredictionView.java:109-119 | for another direction the text is the minutes followed by the suffix, and the small span runs from the end of the minutes to the end of the text |
| PredictionView.SameRouteSuffix | src/info/yasskin/droidmuni/OnePredictionView.java:113-117 | on the queried route 71 the suffix is "  (Inbound to Van Ness)": the direction title only |
| PredictionView.OtherRouteSuffix | src/info/yasskin/droidmuni/OnePredictionView.java:113-117 | for route 6 seen from route 71 the suffix is "  (6 Inbound to Ferry)": the route, then the title |
| PredictionView.OtherDirectionExample | tests/src/info/yasskin/droidmuni/test/OnePredictionViewTest.java:65-79 | another direction of route 71 shows "10 minutes  (Inbound to Van Ness)" with the small span from 10 to 33 |
| PredictionView.OtherRouteExample | tests/src/info/yasskin/droidmuni/test/OnePredictionViewTest.java:81-96 | route 6 shows "10 minutes  (6 Inbound to Ferry)" with the small span from 10 to 32 |
| PredictionView.OnePredictionView.constructor | src/info/yasskin/droidmuni/OnePredictionView.java:27-55 | no no-prediction text, arrival and next change at 0, every tag unset |
| PredictionView.OnePredictionView.Update | src/info/yasskin/droidmuni/OnePredictionView.java:65-127 | a no-prediction text is shown as-is with nothing scheduled; otherwise the countdown is recomputed once the stored change time has come, the delay is the positive time to the next change, and, unless the clock went back, the text left in place is the one the countdown calls for at now |
| PredictionView.OnePredictionView.RenderCountdown | src/info/yasskin/droidmuni/OnePredictionView.java:94-119 | the text built for a minute count is the countdown at every instant with that count |
| PredictionView.OnePredictionView.SetNoPredictionText | src/info/yasskin/droidmuni/OnePredictionView.java:133-136 | stores the text and forces a recompute, nothing else changes |
| PredictionView.OnePredictionView.SetExpectedArrival | src/info/yasskin/droidmuni/OnePredictionView.java:138-141 | stores the arrival time and forces a recompute, nothing else changes |
| PredictionView.OnePredictionView.SetQueryRouteTag | src/info/yasskin/droidmuni/OnePredictionView.java:143-146 | stores the queried route and forces a recompute, nothing else changes |
| PredictionView.OnePredictionView.SetQueryDirectionTag | src/info/yasskin/droidmuni/OnePredictionView.java:148-151 | stores the queried direction and forces a recompute, nothing else changes |
| PredictionView.OnePredictionView.SetPredictionRouteTag | src/info/yasskin/droidmuni/OnePredictionView.java:153-156 | stores the prediction's route and forces a recompute, nothing else changes |
| PredictionView.OnePredictionView.SetPredictionDirectionTag | src/info/yasskin/droidmuni/OnePredictionView.java:158-161 | stores the prediction's direction and forces a recompute, nothing else changes |
| PredictionView.OnePredictionView.SetPredictionDirectionTitle | src/info/yasskin/droidmuni/OnePredictionView.java:163-167 | stores the direction title and forces a recompute, nothing else changes |
| PredictionView.SameDirectionVariousTimes | tests/src/info/yasskin/droidmuni/test/OnePredictionViewTest.java:35-63 | one view updated at 600 s, 61 s and 1 s before arrival and 59 s, 60 s and 540 s after shows "10 minutes", "1 minute", "0 minutes", "0 minutes", "1 minute ago", "9 minutes ago", none with a small span |
| QueryManager.InstalledIsResultUnlessFailed | src/info/yasskin/droidmuni/AdapterQueryManager.java:47-53 | unless the query returned the failed cursor object itself, the failed cursor is installed exactly when there was an exception or a null result; otherwise the result is installed |
| QueryManager.QueryTask.constructor | src/info/yasskin/droidmuni/AdapterQueryManager.java:27-33 | a new task has its URI, no result, no exception, and is neither cancelled nor run |
| QueryManager.QueryTask.Cancel | src/info/yasskin/droidmuni/AdapterQueryManager.java:79-81 | cancelling only marks the task; a result already recorded stays |
| QueryManager.QueryTask.DoInBackground | src/info/yasskin/droidmuni/AdapterQueryManager.java:36-44 | records the cursor the query returned, or the exception it threw |
| QueryManager.QueryTask.OnCancelled | src/info/yasskin/droidmuni/AdapterQueryManager.java:56-60 | a produced cursor is closed exactly once |
| QueryManager.AdapterQueryManager.constructor | src/info/yasskin/droidmuni/AdapterQueryManager.java:63-66 | keeps the loading and failed cursors; no adapter and no current query |
| QueryManager.AdapterQueryManager.SetAdapter | src/info/yasskin/droidmuni/AdapterQueryManager.java:102-110 | succeeds only the first time and only with an adapter; otherwise IllegalState or IllegalArgument, with the adapter unchanged |
| QueryManager.AdapterQueryManager.ResetCursor | src/info/yasskin/droidmuni/AdapterQueryManager.java:86-89 | the adapter sees changeCursor(null) and then changeCursor(new cursor) |
| QueryManager.AdapterQueryManager.StartQuery | src/info/yasskin/droidmuni/AdapterQueryManager.java:76-84 | shows the loading cursor, cancels the previous current task, and makes a fresh uncancelled task current, no task's outcome changing; before any adapter is set it throws NullPointerException and changes nothing |
| QueryManager.AdapterQueryManager.RunInBackground | src/info/yasskin/droidmuni/AdapterQueryManager.java:36-44 | the framework's background run records the outcome, even for a task cancelled meanwhile |
| QueryManager.AdapterQueryManager.OnQueryComplete | src/info/yasskin/droidmuni/AdapterQueryManager.java:120-127 | a null cursor installs the failed cursor; any other is installed and then reported as successful |
| QueryManager.AdapterQueryManager.OnException | src/info/yasskin/droidmuni/AdapterQueryManager.java:141-144 | installs the failed cursor |
| QueryManager.AdapterQueryManager.OnPostExecute | src/info/yasskin/droidmuni/AdapterQueryManager.java:47-53 | installs what InstalledIsResultUnlessFailed describes and reports exactly the non-null successes |
| QueryManager.AdapterQueryManager.Finish | src/info/yasskin/droidmuni/AdapterQueryManager.java:47-60 | a cancelled task never touches the adapter and closes its cursor once; a superseded task never touches the adapter; an uncancelled one installs its result, reports a non-null success to onSuccessfulQuery and nothing else, and leaves its cursor open |
| QueryManager.TwoQueriesStarted | tests/src/info/yasskin/droidmuni/test/AdapterQueryManagerTest.java:115-127 | after two startQuery calls the first task is cancelled and the second is current |
| QueryManager.CancelledCursorIsClosed | tests/src/info/yasskin/droidmuni/test/AdapterQueryManagerTest.java:47-133 | when the second query completes first and the first answer arrives afterwards, the adapter ends on the second cursor and the first cursor is closed exactly once |
| XmlPull.AttrIn | src/info/yasskin/droidmuni/Parser.java:119-121 | null exactly when no attribute has the name; otherwise the value of the first attribute with it |
| XmlPull.NextTag | src/info/yasskin/droidmuni/RouteConfigParser.java:95-100 | nextTag passes over white space only, and stops at the next child element, at the end tag, or with the exception of the first other content |
| XmlPull.TextContent | src/info/yasskin/droidmuni/Parser.java:94 | nextText succeeds exactly when the element holds only text |
| XmlPull.SkipToEndOfTag | src/info/yasskin/droidmuni/Parser.java:103-113 | returns the first end tag of the same name at the start depth, with no earlier such tag; fails on a fault or at the end of input |
| XmlPull.FlattenNodeNested | src/info/yasskin/droidmuni/Parser.java:103-113 | an element's events are balanced, and every end tag strictly inside closes a deeper element |
| XmlPull.FlattenAllNested | src/info/yasskin/droidmuni/Parser.java:103-113 | the events of any run of content are balanced and never close more than they open |
| XmlPull.NoFaultEvents | src/info/yasskin/droidmuni/Parser.java:103-113 | content without breaks produces no fault events |
| XmlPull.SkipStopsAtOwnEnd | src/info/yasskin/droidmuni/Parser.java:103-113 | from an element's start tag, whatever surrounds it, skipToEndOfTag stops at that element's own end tag and nowhere before |
| ChildScan.FoldBlank | src/info/yasskin/droidmuni/PredictionsParser.java:35 | white space between children changes nothing |
| ChildScan.FoldSticky | src/info/yasskin/droidmuni/PredictionsParser.java:35-41 | once an exception is thrown, no later child is read |
| ChildScan.FoldElement | src/info/yasskin/droidmuni/PredictionsParser.java:35-41 | one more child element applies the parser's step to the state so far |
| ChildScan.FoldThrows | src/info/yasskin/droidmuni/PredictionsParser.java:35 | non-blank text or a break where a child is expected throws the exception nextTag raises |
| ChildScan.FoldAtEnd | src/info/yasskin/droidmuni/RouteListParser.java:31-35 | reaching the end tag ends the loop with the state so far |
| ChildScan.FoldAtThrow | src/info/yasskin/droidmuni/RouteListParser.java:31 | a nextTag failure ends the loop with that exception and the state so far |
| ChildScan.FoldAtElement | src/info/yasskin/droidmuni/RouteListParser.java:31-49 | a child element found by nextTag is handled by the step, and the loop resumes after it |
| ChildScan.FoldNoThrowWhenClean | src/info/yasskin/droidmuni/PredictionsParser.java:35-43 | children that are elements or white space only, handled by a step that never throws, are read to the end |
| Parser.ErrorDocumentStates | src/info/yasskin/droidmuni/Parser.java:86-101 | an `<Error>` root gives RETRY iff shouldRetry is exactly "true", and otherwise MISSING_COOKIE whenever its text can be read, whatever the text says |
| Parser.Begin | src/info/yasskin/droidmuni/Parser.java:17-28 | parseBody is reached only for a document whose root is `<body>` |
| Parser.BeginDispatchesOnRoot | src/info/yasskin/droidmuni/Parser.java:13-35 | an unreadable input gives its caught state; `<Error>` goes to parseError and `<body>` to parseBody; any other root is PARSE_ERROR, and the dispatch never yields NOT_DONE or SUCCESS |
| Parser.Escaped | src/info/yasskin/droidmuni/Parser.java:29-35 | only runtime exceptions escape parse(); the checked parse and I/O exceptions are caught |
| Parser.StateAfterBodyCases | src/info/yasskin/droidmuni/Parser.java:24-35 | SUCCESS exactly when parseBody returns, and NOT_DONE exactly when an exception escapes |
| Parser.RenderTag | src/info/yasskin/droidmuni/Parser.java:67-76 | "<" and the name, then ` key="value"` per attribute in index order, then ">" |
| Parser.RenderedAttributesAppend | src/info/yasskin/droidmuni/Parser.java:70-73 | the attribute text of a list is the text of its parts, in order |
| RouteListParser.RowsOfUpdate | src/info/yasskin/droidmuni/RouteListParser.java:45-46 | putting a route under its tag replaces exactly that tag's row |
| RouteListParser.RouteIndexCountsElements | src/info/yasskin/droidmuni/RouteListParser.java:30-40 | a body read to its end leaves the index at the number of child elements, routes or not |
| RouteListParser.RouteTagsFiled | src/info/yasskin/droidmuni/RouteListParser.java:36-46 | a tag is filed exactly when it was filed before or some `<route>` child carries it; other children file nothing |
| RouteListParser.LastRouteWins | src/info/yasskin/droidmuni/RouteListParser.java:42-46 | the route filed under a tag is the last `<route>` with it: its title as description, and the number of elements before it as index |
| RouteListParser.RouteListParser.constructor | src/info/yasskin/droidmuni/RouteListParser.java:23 | state NOT_DONE, no copyright, no routes |
| RouteListParser.RouteListParser.Parse | src/info/yasskin/droidmuni/Parser.java:13-36 | a no-op unless NOT_DONE; otherwise the root dispatch, then the route table the fold over `<body>` gives, the state after the body, and the escaping exception |
| RouteListParser.RouteListParser.ParseBody | src/info/yasskin/droidmuni/RouteListParser.java:26-53 | the route table is the fold of RouteStep over the children of `<body>`; SUCCESS only when the end tag is reached |
| RouteListParser.RouteListParser.FileRoute | src/info/yasskin/droidmuni/RouteListParser.java:41-46 | a `<route>` child replaces its tag's row with the current index and its title; other children change nothing |
| RouteConfigParser.ColorHashIsOptional | src/info/yasskin/droidmuni/RouteConfigParser.java:60-72 | a color not already starting with "#" parses the same with or without one; a null or unparseable color gives the fallback, a parseable one its value |
| RouteConfigParser.StopTableUpdate | src/info/yasskin/droidmuni/RouteConfigParser.java:126 | putting a stop under its tag replaces exactly that tag's entry |
| RouteConfigParser.DirectionTableUpdate | src/info/yasskin/droidmuni/RouteConfigParser.java:169-170 | putting a direction under its tag replaces exactly that tag's entry |
| RouteConfigParser.DirectionTableSize | src/info/yasskin/droidmuni/RouteConfigParser.java:169 | the table of direction values has as many entries as the directions map |
| RouteConfigParser.WalkFindsParsedStops | src/info/yasskin/droidmuni/RouteConfigParser.java:153-165 | every stop a direction lists is one already parsed for the route |
| RouteConfigParser.WalkNodeFindsParsedStops | src/info/yasskin/droidmuni/RouteConfigParser.java:153-165 | the same, for one node of the direction's content |
| RouteConfigParser.WalkToleratesMalformed | src/info/yasskin/droidmuni/RouteConfigParser.java:140-151 | content with no unreadable stream and no break inside a `<stop>` is read to the direction's end; malformed content elsewhere is passed over |
| RouteConfigParser.WalkNodeToleratesMalformed | src/info/yasskin/droidmuni/RouteConfigParser.java:140-151 | the same, for one node of the direction's content |
| RouteConfigParser.DirectionIndexing | src/info/yasskin/droidmuni/RouteConfigParser.java:169-170 | a direction's index is the map size before the put; a new tag adds one entry and a repeated one replaces it; other directions are unchanged |
| RouteConfigParser.RouteElementOf | src/info/yasskin/droidmuni/RouteConfigParser.java:84-85 | the element parsed is a `<route>` child of `<body>` |
| RouteConfigParser.RestOfBodyIgnored | src/info/yasskin/droidmuni/RouteConfigParser.java:84-85 | content after the first child element of `<body>` does not change which element is read |
| RouteConfigParser.RouteConfigParser.constructor | src/info/yasskin/droidmuni/RouteConfigParser.java:51-58 | state NOT_DONE, no copyright, empty stop and direction tables |
| RouteConfigParser.RouteConfigParser.Parse | src/info/yasskin/droidmuni/Parser.java:13-36 | a no-op unless NOT_DONE; otherwise the root dispatch, then the route header, the tables the fold over `<route>` gives, the state after the body and the escaping exception |
| RouteConfigParser.RouteConfigParser.ParseBody | src/info/yasskin/droidmuni/RouteConfigParser.java:80-116 | without a leading `<route>` it throws and changes nothing but the copyright; otherwise the header comes from the `<route>` and the tables are the fold over its children; SUCCESS only after `</route>` |
| RouteConfigParser.RouteConfigParser.ParseRoute | src/info/yasskin/droidmuni/RouteConfigParser.java:86-115 | the header fields come from the `<route>` attributes; the tables are the fold over its children; SUCCESS only when it ends normally |
| RouteConfigParser.RouteConfigParser.SetHeader | src/info/yasskin/droidmuni/RouteConfigParser.java:86-92 | sets the six route-level fields and leaves the tables alone |
| RouteConfigParser.RouteConfigParser.ParseRouteChildren | src/info/yasskin/droidmuni/RouteConfigParser.java:94-113 | the loop's tables and exception are the fold of the child dispatch over the `<route>` children |
| RouteConfigParser.RouteConfigParser.ParseNextRouteChild | src/info/yasskin/droidmuni/RouteConfigParser.java:100-112 | handling the child nextTag found is one more step of that fold |
| RouteConfigParser.RouteConfigParser.ParseRouteChild | src/info/yasskin/droidmuni/RouteConfigParser.java:101-112 | `<stop>` goes to parseStop and `<direction>` to parseDirection; `<path>` and anything else is skipped |
| RouteConfigParser.RouteConfigParser.ParseStop | src/info/yasskin/droidmuni/RouteConfigParser.java:118-128 | a stop with a numeric tag and stop id and parseable lat/lon is filed under its tag, replacing any earlier one; otherwise the exception, in the source's order of checks |
| RouteConfigParser.RouteConfigParser.FileStop | src/info/yasskin/droidmuni/RouteConfigParser.java:126 | the stop table gains or replaces exactly that tag |
| RouteConfigParser.RouteConfigParser.FileDirection | src/info/yasskin/droidmuni/RouteConfigParser.java:169-170 | the direction table gains or replaces exactly that tag |
| RouteConfigParser.RouteConfigParser.ParseDirection | src/info/yasskin/droidmuni/RouteConfigParser.java:130-171 | the direction, with its walked stops, its index and its useForUI flag, is filed under its tag, unless a break escapes the walk |
| RouteConfigParser.RouteConfigParser.CollectStops | src/info/yasskin/droidmuni/RouteConfigParser.java:139-167 | the loop collects exactly the stops the walk over the direction's content resolves, in document order, all of them filed stops; a fault that escapes is the walk's |
| PredictionsParser.DirectionYieldsOnePerPrediction | src/info/yasskin/droidmuni/PredictionsParser.java:81-92 | a `<direction>` read to its end holds only `<prediction>` children with a numeric epochTime, and appends one prediction per child element, in order, built from the block's routeTag and that element; earlier predictions stay |
| PredictionsParser.DirectionTitlesRecorded | src/info/yasskin/droidmuni/PredictionsParser.java:90 | each prediction's dirTag maps to its direction's title |
| PredictionsParser.DirectionKeepsOtherTitles | src/info/yasskin/droidmuni/PredictionsParser.java:90 | titles of dirTags the direction does not carry are unchanged |
| PredictionsParser.SkippedBlocksContributeNothing | src/info/yasskin/droidmuni/PredictionsParser.java:35-66 | keyForNextTime, a no-predictions block and a non-direction child add nothing; any other child of `<body>` is a parse error |
| PredictionsParser.PredictionsParser.constructor | src/info/yasskin/droidmuni/PredictionsParser.java:25-28 | state NOT_DONE, no copyright, no predictions, no titles |
| PredictionsParser.PredictionsParser.Parse | src/info/yasskin/droidmuni/Parser.java:13-36 | a no-op unless NOT_DONE; otherwise the root dispatch, then what the fold over `<body>` collects, the state after the body and the escaping exception |
| PredictionsParser.PredictionsParser.ParseBody | src/info/yasskin/droidmuni/PredictionsParser.java:31-44 | the predictions and titles are the fold of the body step over the children of `<body>`; SUCCESS only at `</body>` |
| PredictionsParser.PredictionsParser.ParseBodyChild | src/info/yasskin/droidmuni/PredictionsParser.java:36-40 | keyForNextTime has its text read; anything else goes to parsePredictions |
| PredictionsParser.PredictionsParser.ParsePredictions | src/info/yasskin/droidmuni/PredictionsParser.java:50-66 | a non-`<predictions>` element is a parse error; a no-predictions block is skipped whole; otherwise its directions are read under its routeTag |
| PredictionsParser.PredictionsParser.ParseDirectionList | src/info/yasskin/droidmuni/PredictionsParser.java:56-61 | the loop's result is the fold of the direction step over the children of `<predictions>` |
| PredictionsParser.PredictionsParser.ParsePredictionsChild | src/info/yasskin/droidmuni/PredictionsParser.java:57-60 | a `<direction>` is parsed; any other child is skipped |
| PredictionsParser.PredictionsParser.ParseDirection | src/info/yasskin/droidmuni/PredictionsParser.java:73-95 | returns true exactly for a `<direction>`, reading its predictions; otherwise false, with nothing read |
| PredictionsParser.PredictionsParser.ParsePredictionList | src/info/yasskin/droidmuni/PredictionsParser.java:81-92 | the loop's result is the fold of the prediction step over the children of `<direction>` |
| PredictionsParser.PredictionsParser.ParsePrediction | src/info/yasskin/droidmuni/PredictionsParser.java:82-91 | a `<prediction>` with a numeric epochTime appends its prediction and maps its dirTag to the title before its text is read; otherwise a parse error or NumberFormatException |
| Provider.Match | src/info/yasskin/droidmuni/NextMuniProvider.java:51-58 | directions, stops and predictions URIs have 2, 3 and 4 path segments |
| Provider.GetTypeCases | src/info/yasskin/droidmuni/NextMuniProvider.java:61-76 | exactly the five match codes have a MIME type, no two share one, and anything else is IllegalArgumentException |
| Provider.QueryServesTypedUrisButRouteId | src/info/yasskin/droidmuni/NextMuniProvider.java:165-190 | query answers every URI getType answers except routes/#, which getType types and query rejects |
| Provider.Mutate | src/info/yasskin/droidmuni/NextMuniProvider.java:349-363 | insert, update and delete always throw UnsupportedOperationException |
| Provider.RoutesCursor | src/info/yasskin/droidmuni/NextMuniProvider.java:166-179 | every route exactly once, in Route order, numbered 0..n-1, with columns `_id`, `name`, `description` |
| Provider.RouteRows | src/info/yasskin/droidmuni/NextMuniProvider.java:172-178 | row i is route i with `_id` i |
| Provider.KeptMembers | src/info/yasskin/droidmuni/NextMuniProvider.java:285-288 | the directions kept are exactly those with useForUI |
| Provider.KeptSorted | src/info/yasskin/droidmuni/NextMuniProvider.java:281-288 | dropping directions keeps the remaining ones in Direction order |
| Provider.DirectionRowsOf | src/info/yasskin/droidmuni/NextMuniProvider.java:284-294 | the loop's rows are the kept directions, numbered consecutively from 0, each with the requested route tag |
| Provider.DirectionsCursor | src/info/yasskin/droidmuni/NextMuniProvider.java:279-295 | the directions sorted by Direction order, those without useForUI dropped, the rest numbered from 0 |
| Provider.StopsCursor | src/info/yasskin/droidmuni/NextMuniProvider.java:305-318 | one row per stop, in the direction's stop order, `_id` = position |
| Provider.PredictionsCursor | src/info/yasskin/droidmuni/NextMuniProvider.java:332-346 | one row per prediction in the parser's order, unsorted; direction_tag is the requested one and endpoint the prediction's own |
| Provider.MatchTableNumbersByPosition | src/info/yasskin/droidmuni/NextMuniProvider.java:155-160 | every scraped tag is filed; a match with no later match of its tag is filed with its position as index |
| Provider.MatchTableTags | src/info/yasskin/droidmuni/NextMuniProvider.java:155-160 | a tag is filed exactly when some match carries it |
| Provider.ParseRoutes | src/info/yasskin/droidmuni/NextMuniProvider.java:155-160 | the database gains the matches numbered 0, 1, 2, ... in page order, later matches replacing earlier ones; stops are untouched |
| Provider.NextMuniProvider.constructor | src/info/yasskin/droidmuni/NextMuniProvider.java:78-80 | no requests sent and an empty database |
| Provider.NextMuniProvider.AfterParse | src/info/yasskin/droidmuni/NextMuniProvider.java:248-270 | the parser is kept iff SUCCESS; MISSING_COOKIE sends exactly one route-list request and still gives up; RETRY is not retried |
| Provider.NextMuniProvider.GetAndParseRoute | src/info/yasskin/droidmuni/NextMuniProvider.java:202-271 | one route-config request; a failed fetch gives null; otherwise a fresh parser, returned exactly when its parse succeeded, holding what FreshParse describes |
| Provider.NextMuniProvider.GetAndParsePredictions | src/info/yasskin/droidmuni/NextMuniProvider.java:217-271 | one predictions request; a failed fetch gives null; otherwise a fresh parser, returned exactly when its parse succeeded, holding what FreshParse describes |
| Provider.NextMuniProvider.QueryDirections | src/info/yasskin/droidmuni/NextMuniProvider.java:273-296 | the parsed directions sorted, filtered and numbered, covering the parser's direction table exactly; null when the parse failed; a runtime exception escapes |
| Provider.NextMuniProvider.QueryStops | src/info/yasskin/droidmuni/NextMuniProvider.java:298-319 | the requested direction's stops in order with consecutive ids; an unknown direction throws NullPointerException; null when the parse failed |
| Provider.NextMuniProvider.QueryPredictions | src/info/yasskin/droidmuni/NextMuniProvider.java:321-347 | the parsed predictions in parser order with consecutive ids; null when the parse failed |
| Provider.NextMuniProvider.Query | src/info/yasskin/droidmuni/NextMuniProvider.java:163-191 | an unknown URI throws IllegalArgumentException without a request; the routes URI answers from the database, without a request, with every route once in Route order numbered from 0; the directions, stops and predictions URIs give what queryDirections, queryStops and queryPredictions give |
| Provider.CursorCoversTable | src/info/yasskin/droidmuni/NextMuniProvider.java:279-280 | the list built from the directions map's values holds each direction of the table exactly once |
| UriBuilder.RouteListQuery | src/info/yasskin/droidmuni/NextMuniUriBuilder.java:18-22 | the route list URI is its base with exactly one parameter, a=agency |
| UriBuilder.RouteDetailsQuery | src/info/yasskin/droidmuni/NextMuniUriBuilder.java:24-29 | the route details URI is its base with a=agency, then r=route |
| UriBuilder.BuildMultiPredictionUri | src/info/yasskin/droidmuni/NextMuniUriBuilder.java:31-39 | the loop builds a=agency, then one stops parameter (route tag, two bars, stop tag) per route tag, in argument order |
| UriBuilder.MultiPredictionQuery | src/info/yasskin/droidmuni/NextMuniUriBuilder.java:31-39 | that URI names the agency once and lists one stops value per route, in order; with no routes it carries only the agency |
| UriBuilder.StopsValueRoundTrip | src/info/yasskin/droidmuni/NextMuniUriBuilder.java:36 | a route tag without a bar character and the stop tag can be read back from a stops value |
| Preferences.AsString | src/info/yasskin/droidmuni/PreferenceManager.java:80-83 | the String instance test succeeds exactly for a stored string, and the cast gives it |
| Preferences.SafeGetString | src/info/yasskin/droidmuni/PreferenceManager.java:77-84 | safeGet gives the stored string when the key holds one, and the default when the key is missing or holds another type |
| Preferences.MergedLine | src/info/yasskin/droidmuni/PreferenceManager.java:64-69 | a line already selected wins; only an empty selection takes the stored line |
| Preferences.WrittenLineIsLoaded | src/info/yasskin/droidmuni/PreferenceManager.java:43 | the line written under "line" is the line a later load reads |
| Preferences.LoadIsIdempotent | src/info/yasskin/droidmuni/PreferenceManager.java:61-70 | loading the same preferences twice is loading them once |
| Preferences.PreferenceManager.constructor | src/info/yasskin/droidmuni/PreferenceManager.java:17 | the saved line starts as "" and no preferences are loaded |
| Preferences.PreferenceManager.SetSelectedLine | src/info/yasskin/droidmuni/PreferenceManager.java:27-33 | getSavedLine returns the line just set |
| Preferences.PreferenceManager.LoadPreferences | src/info/yasskin/droidmuni/PreferenceManager.java:61-70 | keeps the preferences, and sets the line MergedLine gives |
| Preferences.PreferenceManager.Apply | src/info/yasskin/droidmuni/PreferenceManager.java:35-58 | does nothing before the preferences are loaded; afterwards writes line = saved line and changes nothing else |

## Left out

- HTTP and cookies are not modelled: the client, the cookie handshake,
  `getCookieAndRoutes` and its response handler. What a request returns is the
  `Fetch` parameter. A route-list request made for the cookie is recorded, not
  performed. The "Cookie expired" Toast and all logging are left out.
- The request URIs that come from Android string resources are `Request` values
  (the kind of request and its arguments), not the resource strings.
- XmlPullParser is not modelled. A document is an element tree. A `Broken` node
  marks where the tokenizer (XmlPullParserException) or the stream
  (IOException) fails in document order. The tokenizer's state after a caught
  error is not modelled.
- RouteConfigParser.RouteConfigParser.CollectStops: content that the
  direction loop catches as malformed is passed over once.
- Provider.ParseRoutes: the route pattern on the route list page (a
  checkbox `id` followed by the text of the next cell) and `Matcher.find` are
  not modelled. The matches, in page order, are the `matches` parameter.
- UriMatcher and the provider's authority are not modelled: a URI is its path
  segments.
- Uri.Builder percent-encoding is not modelled; parameters are (key, value)
  pairs.
- Color.parseColor is the `parseColor` parameter, and Double.parseDouble's
  accept/reject decision is the `isDouble` parameter. Latitudes and longitudes
  are kept as their text: no floating point.
- JavaLang.CompareStrings: compares whole characters (Unicode scalar values),
  where String.compareTo compares UTF-16 code units. Only the sign matters to
  the sorts, and the two orders differ only between a character above U+FFFF
  and one in U+E000 to U+FFFF; the route, direction and stop tags compared are
  ASCII. The length difference is counted in characters, not code units.
- JavaLang.ParseDecimal: only ASCII digits are accepted; Java also accepts
  other Unicode digits.
- Numbers are unbounded integers. The 64-bit wrap-around of the view's long
  arithmetic is not modelled; it needs times near the ends of the long range.
- Threads, AsyncTask scheduling, Handler messages and synchronized blocks are
  not modelled; Globals' executor and PreferenceManager's background load are
  left out too. Each is an event that a caller sends in any order the
  framework allows.
- QueryManager.AdapterQueryManager.Finish: assumes what the framework
  guarantees: a finished task gets exactly one of onPostExecute or
  onCancelled, and onCancelled exactly when it was cancelled.
  QueryManager.AdapterQueryManager.RunInBackground likewise requires a task
  not yet finished: doInBackground never completes after the task's
  onCancelled or onPostExecute, and the cancelled-cursor scenario relies on
  that ordering.
- QueryManager.AdapterQueryManager.ResetCursor: requires an adapter, as do
  OnQueryComplete, OnException and OnPostExecute. These protected hooks are
  reached only through startQuery and a task's completion, and tasks exist
  only once an adapter is set (AdapterQueryManager.Valid); a subclass calling
  them earlier would meet a NullPointerException that is not modelled.
- QueryManager.AdapterQueryManager.OnQueryComplete: onSuccessfulQuery, a
  do-nothing hook, is recorded as a log of its arguments.
- QueryManager.CursorAdapter.ChangeCursor: the adapter's own closing of the
  cursor it replaces is not modelled; the adapter is the log of its calls.
- PredictionView.OnePredictionView.Update: reads the clock once. The source
  calls now() up to three times, and the delay uses a later reading. The
  Handler scheduling is left out; only the delay value is kept.
- PredictionView.OnePredictionView.Update: requires that the fields update()
  dereferences are set. The NullPointerException the source throws otherwise
  is not modelled.
- Preferences.PreferenceManager.Apply: the reflective choice between
  Editor.apply() and commit() is not modelled; both write the same value.
  Float preferences are not modelled either.
- Db.Route, Db.Stop: RouteListParser.java and RouteConfigParser.java call
  five-argument constructors that Db.java does not declare. Route keeps the
  three fields Db.java declares, and the route list parser's extra arguments
  are dropped. Stop gets an extra `id` field for the stop id.
- Db.Stop.RoutesThatStopHere: the order of the returned list is the hash set's
  and is left open.
- Db.Db: `getRoutes` (a read-only view of the route map) is the `routes` field,
  which the provider reads. Concurrency on the route's directions map and on
  `directions_updated_ms` is not modelled.
- A missing attribute that the source stores as a null String field is
  stored as "". This covers a route's tag and title, a stop's title, a route
  configuration direction's tag, title and name, a `<predictions>` block's
  routeTag, a predictions `<direction>`'s title, and a prediction's dirTag
  and block. The route header keeps its null-able fields as Option.
- XmlPull.SkipToEndOfTag: states skipping over the flat event stream. The
  parsers skip over the element tree (`SkipElement`), and
  XmlPull.SkipStopsAtOwnEnd connects the two. The source compares tag names
  with `==`; the model compares the strings.
- RouteConfigParser.RouteConfigParser.CollectStops: the depth counter of the
  source's loop is replaced by a stack of pending siblings, one level per open
  element.
- Provider.GetType: getType accepts routes/# while query rejects it; both are
  modelled as written (Provider.QueryServesTypedUrisButRouteId).
- Provider.NextMuniProvider.QueryStops: the requested route's tag is read from
  the URI as written; the route-config request is not checked against it.
- The UI (DroidMuni.java, MultiStopAdapter.java, ManageSpace.java), Compatibility.java
  and Globals.java are not part of this model, and neither are the test
  helper classes.
