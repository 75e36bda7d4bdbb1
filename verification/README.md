# Detroit pothole heatmap — a Dafny model of its core logic

This project models the three pieces of pure, sequential logic in the
Detroit pothole heatmap (an Express server plus a React/Leaflet front end)
and proves properties of them:

1. **The `/api/potholes` handler** (`server.js`). It pages through the
   city's feature service 1000 features at a time. It turns each feature's
   attributes into a pothole record and concatenates the pages in order. It
   stops on a short page or on a reply without a non-empty `features` array.
   Any throw becomes a fixed 500 response.
2. **The map's pure selections** (`src/components/Map.jsx`). It keeps the
   records that have both coordinates. Below zoom 15 it draws a heat layer,
   from zoom 15 it draws markers. The heat layer's style comes from one of
   four density tiers. At most 500 markers are drawn, coloured by status.
3. **The dashboard's filter and counters** (`src/App.jsx`). A status filter
   ("all" or one status) selects the records handed to the map, and two
   counters show the number of "Open" and "Closed" records.

Files and modules:

- `wrappers.dfy` (`Wrappers`): `Option`.
- `js.dfy` (`Js`): JavaScript values, truthiness and the value-returning `||`.
- `seqs.dfy` (`Seqs`): `filter`, `map` and counting over sequences. It also
  gives `Selected`, the ascending positions a filter keeps, and the lemmas
  that tie `Filter` to it.
- `potholes.dfy` (`Potholes`): the record shape.
- `server.dfy` (`Server`): the upstream model, normalisation, the reference
  recursion `Sweep`, the loop `CollectPages` and the handler `FetchPotholes`.
- `map_view.dfy` (`MapView`): points, layer toggle, tiers, heat layer,
  markers and colours.
- `app.dfy` (`Dashboard`): `filteredData`, `openCount` and `closedCount`.

The upstream service is a parameter. It is a finite sequence of `N` features
served as `features[offset .. min(offset + 1000, N)]`, plus a finite map of
offsets where it misbehaves instead. It can reject the request, omit
`features`, or send a non-array `features`. Under this model the loop
terminates with measure `N - offset`. A source that answered every offset
with a full page would make the handler loop forever; such a source is
outside the model. JavaScript values are the `JsValue` datatype, so
truthiness is exact: `0`, `""`, `NaN`, `null` and `undefined` are falsy.
Heat intensities are tenths (10, 7, 5, 3 for 1.0, 0.7, 0.5, 0.3).

Behaviour of the code worth knowing before reading the proofs:

- Every call to the handler pages through the upstream afresh, and the
  dashboard loads only the static `/potholes.json`, once.
- Pagination ends on a short or empty page, and also when `features` is
  missing or not an array. In that case the records gathered so far are
  returned with status 200 (`FaultEndsSweep`, `SweepShape`).
- Against an upstream without faults whose `N` features all carry
  `attributes`, the handler issues exactly `N / 1000 + 1` requests
  (integer division). When `N` is a multiple of 1000 the last request is
  an extra one that gets an empty page (`CompleteSweep`). A feature
  without `attributes` makes the request fail at the page that holds it
  (`MalformedFeatureFails`).
- `id` is whatever value `ObjectId || issue_id` yields. It is copied as is,
  not converted to a number.

## Model

| member | source | states |
|---|---|---|
| Js.Or | server.js:45 | the or-operator yields the left operand when truthy, else the right; the result is truthy iff either operand is |
| Server.Page | server.js:32-33 | the slice served at an offset has at most 1000 features, exactly 1000 iff `offset + 1000 <= N`, is empty iff `offset >= N`, and is the run of upstream features starting at the offset; a page shorter than 1000 runs to the end of the features |
| Server.Serve | server.js:26-37 | an offset without a fault gets its slice as a `features` array; a fault offset never yields an array |
| Server.Normalize | server.js:44-55 | the record's `id` is `ObjectId` when that is truthy and `issue_id` otherwise |
| Server.NormalizedFields | server.js:44-55 | `id` is `ObjectId` when truthy, else `issue_id`, and is falsy only when both are; every other field, `status` included, is the attribute of the same name, unchanged |
| Server.NormalizeFeatures | server.js:44-55 | mapping a page fails iff some feature has no attributes; otherwise it is length- and order-preserving, one normalised record per feature, whatever the status |
| Server.Step | server.js:39-72 | a loop pass aborts iff the request throws or a non-empty page has a feature without attributes; otherwise the page appended is the normalisation of the reply's features; it advances only on exactly 1000 features; a missing, non-array or empty `features` stops with nothing appended |
| Server.Sweep | server.js:23-73 | every sweep, failed or not, issues at least one request |
| Server.SweepRequestsBounded | server.js:23-73 | whatever the upstream does, faults included, the sweep from an offset issues at most `(N - offset) / 1000 + 1` requests |
| Server.SweepShape | server.js:23-73 | for any upstream, a successful sweep returns the in-order normalisation of a run of upstream features starting at the offset, after `records / 1000 + 1` requests |
| Server.HonestSweep | server.js:23-73 | without faults, the sweep fails iff some remaining feature lacks attributes, and otherwise returns all remaining records in order after `(N - offset) / 1000 + 1` requests |
| Server.CompleteSweep | server.js:18-73 | without faults and with well-formed features, the handler returns all `N` records in upstream order after `N / 1000 + 1` requests; the sweep's last request is answered with an empty `features` array iff `N` is a multiple of 1000 |
| Server.MalformedFeatureFails | server.js:44-81 | a feature without attributes anywhere in an upstream without faults makes the whole request fail |
| Server.FaultEndsSweep | server.js:39-72 | a reply without a usable `features` array ends the loop with nothing added; a rejected request fails it |
| Server.Respond | server.js:78-81 | status 500 iff the sweep failed, with the fixed error object; otherwise status 200 with exactly the gathered records |
| Server.CollectPages | server.js:18-73 | the `while (keepGoing)` loop computes the reference sweep; the i-th request is at offset `1000 * i`, so every offset is a multiple of 1000 |
| Server.FetchPotholes | server.js:12-82 | a 200 answer holds the in-order normalisation of an upstream prefix of at most `N` records after `records / 1000 + 1` requests; any other answer is the 500 error and never a partial list |
| MapView.Points | src/components/Map.jsx:167-177 | every point has truthy latitude and longitude; there are no more points than records |
| MapView.PointsAreLocatedRecords | src/components/Map.jsx:167-177 | the points are exactly the records with both coordinates truthy, at ascending positions, with the copied fields unchanged; their number is the count of located records |
| MapView.ZeroCoordinateDropped | src/components/Map.jsx:168 | a record at latitude 0 or longitude 0, or without a latitude, is not drawn |
| MapView.AllLocatedAllDrawn | src/components/Map.jsx:167-177 | when every record is located, every record becomes a point, in order |
| MapView.ExactlyOneLayerOn | src/components/Map.jsx:180-181 | at every zoom exactly one of heat layer and markers is switched on |
| MapView.SelectStyle | src/components/Map.jsx:25-44 | every tier has a positive intensity of at most 1.0 and a blur larger than its radius |
| MapView.StyleNonIncreasing | src/components/Map.jsx:28-44 | more points never raise radius, blur or intensity, and every tier change lowers all three |
| MapView.StyleBoundaries | src/components/Map.jsx:28-44 | the tier changes exactly between 99 and 100, 499 and 500, and 1999 and 2000 points |
| MapView.TierExamples | src/components/Map.jsx:32-44 | 300 points select (18, 20, 0.7); 1500 points select (12, 15, 0.5); 3000 points select (8, 10, 0.3) |
| MapView.Heatmap | src/components/Map.jsx:23-46 | no layer iff hidden or no points; otherwise the tier of the point count, and every point in order carrying that tier's intensity |
| MapView.StatusColor | src/components/Map.jsx:99-112 | the marker colour is one of four; the Open, Acknowledged and Archived colours are given exactly to those statuses |
| MapView.StatusColorsDistinguish | src/components/Map.jsx:99-112 | Open, Acknowledged and Archived have distinct colours; a status gets the default colour iff it is none of those three, so "Closed" and unknown values share it |
| MapView.Markers | src/components/Map.jsx:94-121 | nothing when hidden or empty; otherwise the first `min(n, 500)` points in order, each coloured by status and keyed by the id when truthy, else by the index |
| MapView.Render | src/components/Map.jsx:167-203 | never both layers; the heat layer has one point per located record; at most 500 markers |
| MapView.RenderModes | src/components/Map.jsx:179-203 | with at least one point, the heat layer is drawn iff zoom < 15, markers iff zoom >= 15, and the markers are a prefix of the points |
| MapView.TenThousandPoints | src/components/Map.jsx:167-203 | 10000 located records at zoom 16 give exactly 500 markers, the first 500 records, and no heat layer; at zoom 10 the last tier and no markers |
| MapView.FiftyPoints | src/components/Map.jsx:167-203 | 50 located records: 50 markers and no heat layer at zoom 16; the first tier and no markers at zoom 10 |
| Dashboard.FilteredData | src/App.jsx:23-26 | filter "all" returns the data unchanged; any other filter keeps exactly the records whose status equals it |
| Dashboard.FilterSelectsStatus | src/App.jsx:23-26 | under a filter other than "all", the result is the records with that status, at ascending positions, as an order-preserving subsequence |
| Dashboard.OpenCount | src/App.jsx:28 | `openCount` is the number of records whose status is "Open" |
| Dashboard.ClosedCount | src/App.jsx:29 | `closedCount` is the number of records whose status is "Closed" |
| Dashboard.OpenFilterMatchesOpenCount | src/App.jsx:23-28 | with the "Open" filter the map receives `openCount` records |
| Dashboard.CountersBounded | src/App.jsx:28-29 | `openCount + closedCount` never exceeds the number of records |

## Left out

- HTTP and framework plumbing: express, cors, axios, `console.log`,
  `app.listen`, and the query parameters (`request_type LIKE '%Pothole%'`,
  `outFields`, `outSR`, `f`). The upstream is a parameter, and its
  category filter is taken as already applied.
- Upstreams that serve anything other than offset slices at non-fault
  offsets, such as overlapping or over-long pages or a source with no end.
  The loop need not terminate against them.
- A feature whose `attributes` is a primitive value is not a case of its
  own. JavaScript reads every field of a primitive as `undefined`, so such
  a feature is encoded as `Feature(Some(map[]))`.
- Numbers are exact reals, with no floating-point rounding. Zoom is a real
  number supplied by the caller.
- The zoom-change subscription, the initial zoom of 12, map bounds and
  centre, and the tile layer are left out. So are the heat layer's fixed
  options (`maxZoom` 15, `minOpacity` 0.4, the gradient), the marker's
  radius, opacity and stroke, popups, and adding or removing Leaflet
  layers. These are rendering plumbing with no decision in them.
- `toLocaleDateString` and `toLocaleString`: locale-dependent formatting.
- The dashboard's `fetch("/potholes.json")` and its loading flag. This is
  I/O: the data is a parameter.
- `clean_potholes.py`, the offline CSV-to-JSON pipeline. Its core step is
  WKB decoding by a library that is not part of this model.
- Concurrency: the handler is one sequential chain of awaited requests.
