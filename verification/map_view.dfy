/**
 The pure selections inside the map component: which records become map
 points, which of the two layers is shown at a zoom level, the density tier
 of the heat layer, the 500-marker cap and the marker colour by status.
 */
module MapView {
  import opened Wrappers
  import opened Js
  import opened Potholes
  import Seqs

  /** The object built for each located record. */
  datatype Point = Point(
    lat: JsValue,
    lng: JsValue,
    id: JsValue,
    status: JsValue,
    address: JsValue,
    neighborhood: JsValue,
    createdAt: JsValue
  )

  /** `p.latitude && p.longitude`, used as a filter condition. */
  predicate HasCoordinates(p: Pothole) {
    Truthy(p.latitude) && Truthy(p.longitude)
  }

  function ToPoint(p: Pothole): Point {
    Point(p.latitude, p.longitude, p.id, p.status, p.address, p.neighborhood, p.createdAt)
  }

  /** `potholes.filter(...).map(...)`: the points the layers draw. */
  function Points(potholes: seq<Pothole>): (r: seq<Point>)
    ensures |r| <= |potholes|
    ensures forall i :: 0 <= i < |r| ==> Truthy(r[i].lat) && Truthy(r[i].lng)
  {
    Seqs.Map(ToPoint, Seqs.Filter(HasCoordinates, potholes))
  }

  /** The points are exactly the records with both coordinates truthy, in
      their original order, each carrying the record's `latitude`, `longitude`,
      `id`, `status`, `address`, `neighborhood` and `created_at` unchanged. */
  lemma PointsAreLocatedRecords(potholes: seq<Pothole>)
    ensures var idx := Seqs.Selected(HasCoordinates, potholes);
      && |Points(potholes)| == |idx|
      && (forall k :: 0 <= k < |idx| ==> Points(potholes)[k] == ToPoint(potholes[idx[k]]))
      && (forall k, l :: 0 <= k < l < |idx| ==> idx[k] < idx[l])
      && (forall j :: 0 <= j < |potholes| ==> (HasCoordinates(potholes[j]) <==> j in idx))
    ensures |Points(potholes)| == Seqs.Count(HasCoordinates, potholes)
  {
    Seqs.FilterSelects(HasCoordinates, potholes);
    Seqs.FilterLength(HasCoordinates, potholes);
  }

  /** A record at latitude or longitude 0 (or missing either) is not drawn. */
  lemma ZeroCoordinateDropped(p: Pothole)
    requires p.latitude == Num(0.0) || p.longitude == Num(0.0) || p.latitude == Undefined
    ensures Points([p]) == []
  {
  }

  /** When every record is located, every record becomes a point, in order. */
  lemma AllLocatedAllDrawn(potholes: seq<Pothole>)
    requires forall i :: 0 <= i < |potholes| ==> HasCoordinates(potholes[i])
    ensures |Points(potholes)| == |potholes|
    ensures forall i :: 0 <= i < |potholes| ==> Points(potholes)[i] == ToPoint(potholes[i])
  {
    Seqs.FilterKeepsAll(HasCoordinates, potholes);
  }

  /** Zoom level from which markers replace the heat layer. */
  const MarkerZoom: real := 15.0

  predicate ShowHeatmap(zoom: real) { zoom < MarkerZoom }

  predicate ShowMarkers(zoom: real) { zoom >= MarkerZoom }

  /** At every zoom level exactly one of the two layers is switched on. */
  lemma ExactlyOneLayerOn(zoom: real)
    ensures ShowHeatmap(zoom) != ShowMarkers(zoom)
  {
  }

  /** Heat-layer style; `intensity` is in tenths (10 stands for 1.0). */
  datatype HeatStyle = HeatStyle(radius: nat, blur: nat, intensity: nat)

  /** The four density tiers, chosen by the number of points. */
  function SelectStyle(count: nat): (s: HeatStyle)
    ensures 0 < s.intensity <= 10
    ensures s.blur > s.radius
  {
    if count < 100 then HeatStyle(25, 30, 10)
    else if count < 500 then HeatStyle(18, 20, 7)
    else if count < 2000 then HeatStyle(12, 15, 5)
    else HeatStyle(8, 10, 3)
  }

  /** More points never get a larger radius, blur or intensity, and every
      tier change lowers all three. */
  lemma StyleNonIncreasing(c1: nat, c2: nat)
    requires c1 <= c2
    ensures SelectStyle(c2).radius <= SelectStyle(c1).radius
    ensures SelectStyle(c2).blur <= SelectStyle(c1).blur
    ensures SelectStyle(c2).intensity <= SelectStyle(c1).intensity
    ensures SelectStyle(c2) != SelectStyle(c1) ==>
              && SelectStyle(c2).radius < SelectStyle(c1).radius
              && SelectStyle(c2).blur < SelectStyle(c1).blur
              && SelectStyle(c2).intensity < SelectStyle(c1).intensity
  {
  }

  /** The tier only changes at 100, 500 and 2000 points. */
  lemma StyleBoundaries(c: nat)
    ensures SelectStyle(c) == SelectStyle(c + 1) <==> c != 99 && c != 499 && c != 1999
  {
  }

  /** One `[lat, lng, intensity]` triple of the heat layer. */
  datatype HeatPoint = HeatPoint(lat: JsValue, lng: JsValue, intensity: nat)

  datatype HeatLayer = HeatLayer(style: HeatStyle, points: seq<HeatPoint>)

  /** The heat layer's effect: no layer when hidden or when there are no
      points, otherwise every point, in order, weighted by its tier. */
  function Heatmap(points: seq<Point>, visible: bool): (r: Option<HeatLayer>)
    ensures r.None? <==> !visible || |points| == 0
    ensures r.Some? ==> r.value.style == SelectStyle(|points|)
    ensures r.Some? ==> |r.value.points| == |points|
    ensures r.Some? ==> forall i :: 0 <= i < |points| ==>
              r.value.points[i] == HeatPoint(points[i].lat, points[i].lng, r.value.style.intensity)
  {
    if !visible || |points| == 0 then None
    else
      var style := SelectStyle(|points|);
      Some(HeatLayer(style, Seqs.Map((p: Point) => HeatPoint(p.lat, p.lng, style.intensity), points)))
  }

  /** Marker colours by status. */
  const OpenColor: string := "#22c55e"
  const AcknowledgedColor: string := "#3b82f6"
  const ClosedColor: string := "#fbbf24"
  const ArchivedColor: string := "#6b7280"
  const DefaultColor: string := "#fbbf24"

  function StatusColor(status: JsValue): (c: string)
    ensures c in {OpenColor, AcknowledgedColor, ArchivedColor, DefaultColor}
    ensures c == OpenColor <==> status == Str("Open")
    ensures c == AcknowledgedColor <==> status == Str("Acknowledged")
    ensures c == ArchivedColor <==> status == Str("Archived")
  {
    match status
    case Str("Open") => OpenColor
    case Str("Acknowledged") => AcknowledgedColor
    case Str("Closed") => ClosedColor
    case Str("Archived") => ArchivedColor
    case _ => DefaultColor
  }

  /** Open, Acknowledged and Archived have colours of their own, distinct
      from each other and from the default; "Closed" and any other value,
      string or not, share the default colour. */
  lemma StatusColorsDistinguish(status: JsValue)
    ensures StatusColor(Str("Open")) != StatusColor(Str("Acknowledged"))
    ensures StatusColor(Str("Open")) != StatusColor(Str("Archived"))
    ensures StatusColor(Str("Acknowledged")) != StatusColor(Str("Archived"))
    ensures StatusColor(Str("Closed")) == DefaultColor
    ensures StatusColor(status) == DefaultColor <==>
              status != Str("Open") && status != Str("Acknowledged") && status != Str("Archived")
  {
  }

  /** At most this many markers are drawn. */
  const MaxMarkers: nat := 500

  /** One circle marker: its React key (`point.id || index`), the point it
      stands for and its fill colour. */
  datatype Marker = Marker(key: JsValue, point: Point, fillColor: string)

  /** The markers layer: nothing when hidden or empty, otherwise the first
      `MaxMarkers` points in order, each coloured by its status. */
  function Markers(points: seq<Point>, visible: bool): (r: seq<Marker>)
    ensures !visible ==> r == []
    ensures visible ==> |r| == if |points| < MaxMarkers then |points| else MaxMarkers
    ensures forall i :: 0 <= i < |r| ==>
              && r[i].point == points[i]
              && r[i].fillColor == StatusColor(points[i].status)
              && (Truthy(points[i].id) ==> r[i].key == points[i].id)
              && (!Truthy(points[i].id) ==> r[i].key == Num(i as real))
  {
    if !visible || |points| == 0 then []
    else
      var shown := if |points| < MaxMarkers then points else points[..MaxMarkers];
      seq(|shown|, i requires 0 <= i < |shown| =>
        Marker(Or(shown[i].id, Num(i as real)), shown[i], StatusColor(shown[i].status)))
  }

  /** What the map draws for a zoom level and a list of records. */
  datatype Scene = Scene(heat: Option<HeatLayer>, markers: seq<Marker>)

  function Render(zoom: real, potholes: seq<Pothole>): (r: Scene)
    ensures r.heat.None? || r.markers == []
    ensures r.heat.Some? ==> |r.heat.value.points| == |Points(potholes)|
    ensures |r.markers| <= MaxMarkers
  {
    var points := Points(potholes);
    Scene(Heatmap(points, ShowHeatmap(zoom)), Markers(points, ShowMarkers(zoom)))
  }

  /** When there is at least one point, the heat layer is drawn exactly below
      zoom 15 and markers exactly from zoom 15; the markers are the first
      `min(n, 500)` points in filter order. */
  lemma RenderModes(zoom: real, potholes: seq<Pothole>)
    requires |Points(potholes)| > 0
    ensures Render(zoom, potholes).heat.Some? <==> zoom < MarkerZoom
    ensures |Render(zoom, potholes).markers| > 0 <==> zoom >= MarkerZoom
    ensures zoom >= MarkerZoom ==>
              forall i :: 0 <= i < |Render(zoom, potholes).markers| ==>
                Render(zoom, potholes).markers[i].point == Points(potholes)[i]
  {
  }

  /** Ten thousand located records at zoom 16 give exactly 500 markers, the
      first 500 records in order, and no heat layer; at zoom 10 they give
      the `>= 2000` tier and no markers. */
  lemma TenThousandPoints(potholes: seq<Pothole>)
    requires |potholes| == 10000
    requires forall i :: 0 <= i < |potholes| ==> HasCoordinates(potholes[i])
    ensures Render(16.0, potholes).heat.None?
    ensures |Render(16.0, potholes).markers| == 500
    ensures forall i :: 0 <= i < 500 ==> Render(16.0, potholes).markers[i].point == ToPoint(potholes[i])
    ensures Render(10.0, potholes).markers == []
    ensures Render(10.0, potholes).heat.Some?
    ensures Render(10.0, potholes).heat.value.style == HeatStyle(8, 10, 3)
  {
    AllLocatedAllDrawn(potholes);
  }

  /** Fifty located records: markers only at zoom 16, the `< 100` tier only
      at zoom 10. */
  lemma FiftyPoints(potholes: seq<Pothole>)
    requires |potholes| == 50
    requires forall i :: 0 <= i < |potholes| ==> HasCoordinates(potholes[i])
    ensures Render(16.0, potholes).heat.None? && |Render(16.0, potholes).markers| == 50
    ensures Render(10.0, potholes).markers == []
    ensures Render(10.0, potholes).heat.Some?
    ensures Render(10.0, potholes).heat.value.style == HeatStyle(25, 30, 10)
  {
    AllLocatedAllDrawn(potholes);
  }

  /** Three hundred points select the `< 500` tier, fifteen hundred the
      `< 2000` tier, three thousand the last. */
  lemma TierExamples()
    ensures SelectStyle(300) == HeatStyle(18, 20, 7)
    ensures SelectStyle(1500) == HeatStyle(12, 15, 5)
    ensures SelectStyle(3000) == HeatStyle(8, 10, 3)
  {
  }
}
