/**
 The `/api/potholes` handler: an offset-paginated sweep over the upstream
 feature service, normalising each feature into a `Pothole`, concatenating
 the pages in order, and answering either the whole array or a 500 error.

 The upstream is modelled as a finite sequence of features served in slices
 of `PageSize` at the requested offset, plus a finite set of offsets at which
 the request fails or the reply has no usable `features` array. Under that
 model the sweep terminates; a source that answered every offset with a full
 page would make the handler loop forever, and is outside the model.
 */
module Server {
  import opened Wrappers
  import opened Js
  import opened Potholes
  import Seqs

  /** `batchSize`: the `resultRecordCount` of every request. */
  const PageSize: nat := 1000

  /** The body sent with status 500 when anything in the sweep throws. */
  const FailureMessage: string := "Failed to fetch pothole data"

  /** One element of `data.features`. `None` stands for a feature whose
      `attributes` is null or undefined, so that reading a field throws. */
  datatype Feature = Feature(attributes: Option<JsObject>)

  /** The `features` property of a reply body. */
  datatype FeaturesField =
    | Missing                     // absent or falsy
    | NotArray                    // present but not an array
    | Array(items: seq<Feature>)

  /** What one pass yields up to reading `features`: the request rejects
      (transport failure, a non-2xx status), or the body is null so reading
      `features` throws, or it resolves with a body. */
  datatype Reply = Thrown | Payload(features: FeaturesField)

  /** The ways the upstream can deviate from serving a page at an offset. */
  datatype Fault = TransportFailure | FeaturesMissing | FeaturesNotArray

  /** The upstream service: its `N` matching features in service order, and
      the offsets at which it misbehaves instead of serving them. */
  datatype Upstream = Upstream(features: seq<Feature>, faults: map<nat, Fault>)

  /** The slice of the feature list served for `resultOffset = offset`. */
  function Page(fs: seq<Feature>, offset: nat): (page: seq<Feature>)
    ensures |page| <= PageSize
    ensures |page| == PageSize <==> offset + PageSize <= |fs|
    ensures offset >= |fs| <==> page == []
    ensures offset < |fs| ==> offset + |page| <= |fs| && page == fs[offset..offset + |page|]
    ensures |page| < PageSize ==> offset + |page| >= |fs|
  {
    var lo := if offset < |fs| then offset else |fs|;
    var hi := if offset + PageSize < |fs| then offset + PageSize else |fs|;
    fs[lo..hi]
  }

  /** The reply to the request at `offset`. */
  function Serve(up: Upstream, offset: nat): (r: Reply)
    ensures offset !in up.faults ==> r == Payload(Array(Page(up.features, offset)))
    ensures offset in up.faults ==> !(r.Payload? && r.features.Array?)
  {
    if offset in up.faults then
      match up.faults[offset]
      case TransportFailure => Thrown
      case FeaturesMissing => Payload(Missing)
      case FeaturesNotArray => Payload(NotArray)
    else
      Payload(Array(Page(up.features, offset)))
  }

  /** The object literal built from one feature's attributes: `id` is
      `ObjectId || issue_id`, every other field is copied from the attribute
      of the same name. */
  function Normalize(a: JsObject): (p: Pothole)
    ensures Truthy(Get(a, "ObjectId")) ==> p.id == Get(a, "ObjectId")
    ensures !Truthy(Get(a, "ObjectId")) ==> p.id == Get(a, "issue_id")
  {
    Pothole(
      id := Or(Get(a, "ObjectId"), Get(a, "issue_id")),
      status := Get(a, "status"),
      address := Get(a, "address"),
      neighborhood := Get(a, "neighborhood"),
      councilDistrict := Get(a, "council_district"),
      zipCode := Get(a, "zip_code"),
      createdAt := Get(a, "created_at"),
      closedAt := Get(a, "closed_at"),
      latitude := Get(a, "latitude"),
      longitude := Get(a, "longitude")
    )
  }

  /** No feature in `fs` lacks its attributes. */
  predicate AllHaveAttributes(fs: seq<Feature>) {
    forall i :: 0 <= i < |fs| ==> fs[i].attributes.Some?
  }

  /** `features.map(...)`: `None` when some feature has no attributes (the
      map throws), otherwise one record per feature, in order. */
  function NormalizeFeatures(fs: seq<Feature>): (r: Option<seq<Pothole>>)
    ensures r.Some? <==> AllHaveAttributes(fs)
    ensures r.Some? ==> |r.value| == |fs|
    ensures r.Some? ==> forall i :: 0 <= i < |fs| ==> r.value[i] == Normalize(fs[i].attributes.value)
  {
    if AllHaveAttributes(fs) then
      Some(seq(|fs|, i requires 0 <= i < |fs| && fs[i].attributes.Some? => Normalize(fs[i].attributes.value)))
    else
      None
  }

  /** Normalising a concatenation normalises each part; it fails when
      either part does. */
  lemma NormalizeAppend(a: seq<Feature>, b: seq<Feature>)
    ensures NormalizeFeatures(a + b) ==
              (if NormalizeFeatures(a).Some? && NormalizeFeatures(b).Some?
               then Some(NormalizeFeatures(a).value + NormalizeFeatures(b).value)
               else None)
  {
    var ab := a + b;
    if AllHaveAttributes(a) && AllHaveAttributes(b) {
      assert AllHaveAttributes(ab) by {
        forall i | 0 <= i < |ab| ensures ab[i].attributes.Some? {
          if i < |a| { assert ab[i] == a[i]; } else { assert ab[i] == b[i - |a|]; }
        }
      }
      var x, y, z := NormalizeFeatures(a).value, NormalizeFeatures(b).value, NormalizeFeatures(ab).value;
      assert z == x + y by {
        forall i | 0 <= i < |z| ensures z[i] == (x + y)[i] {
          if i < |a| { assert ab[i] == a[i]; } else { assert ab[i] == b[i - |a|]; }
        }
      }
    } else if !AllHaveAttributes(a) {
      var i :| 0 <= i < |a| && a[i].attributes.None?;
      assert ab[i] == a[i];
    } else {
      var i :| 0 <= i < |b| && b[i].attributes.None?;
      assert ab[|a| + i] == b[i];
    }
  }

  /** The `id` fallback: the record's id is `ObjectId` when that is truthy,
      else `issue_id`; it is falsy only when both are. Every other field,
      `status` included, is the attribute of the same name, unchanged. */
  lemma NormalizedFields(a: JsObject)
    ensures Truthy(Get(a, "ObjectId")) ==> Normalize(a).id == Get(a, "ObjectId")
    ensures !Truthy(Get(a, "ObjectId")) ==> Normalize(a).id == Get(a, "issue_id")
    ensures Truthy(Normalize(a).id) <==> Truthy(Get(a, "ObjectId")) || Truthy(Get(a, "issue_id"))
    ensures Normalize(a).status == Get(a, "status")
    ensures Normalize(a).address == Get(a, "address")
    ensures Normalize(a).neighborhood == Get(a, "neighborhood")
    ensures Normalize(a).councilDistrict == Get(a, "council_district")
    ensures Normalize(a).zipCode == Get(a, "zip_code")
    ensures Normalize(a).createdAt == Get(a, "created_at")
    ensures Normalize(a).closedAt == Get(a, "closed_at")
    ensures Normalize(a).latitude == Get(a, "latitude")
    ensures Normalize(a).longitude == Get(a, "longitude")
  {
  }

  /** What one pass of the loop body does with a reply. */
  datatype PageStep =
    | Abort                       // something threw
    | Full(page: seq<Pothole>)    // a full page: append it and advance
    | Last(page: seq<Pothole>)    // append it (possibly nothing) and stop

  function Step(reply: Reply): (s: PageStep)
    ensures s.Abort? <==> (reply.Thrown? ||
              (reply.Payload? && reply.features.Array? && |reply.features.items| > 0 &&
               !AllHaveAttributes(reply.features.items)))
    ensures !s.Abort? && reply.Payload? && reply.features.Array? ==>
              s.page == NormalizeFeatures(reply.features.items).value
    ensures s.Full? ==> reply.Payload? && reply.features.Array? && |reply.features.items| == PageSize
    ensures s.Full? || s.Last? ==>
              |s.page| <= (if reply.Payload? && reply.features.Array? then |reply.features.items| else 0)
    ensures s.Last? ==> |s.page| != PageSize
    ensures reply.Payload? && !(reply.features.Array? && |reply.features.items| > 0) ==> s == Last([])
  {
    match reply
    case Thrown => Abort
    case Payload(Array(items)) =>
      if |items| > 0 then
        match NormalizeFeatures(items)
        case None => Abort
        case Some(page) => if |page| == PageSize then Full(page) else Last(page)
      else Last([])
    case Payload(_) => Last([])
  }

  /** The result of a sweep: the accumulated records or a failure, and the
      number of requests issued either way. */
  datatype Outcome =
    | Fetched(records: seq<Pothole>, requests: nat)
    | Failed(requests: nat)

  /** Continue an outcome after `n` earlier requests accumulated `acc`. */
  function Resume(acc: seq<Pothole>, n: nat, o: Outcome): (r: Outcome)
    ensures r.requests == n + o.requests
    ensures r.Failed? <==> o.Failed?
  {
    match o
    case Fetched(rest, m) => Fetched(acc + rest, n + m)
    case Failed(m) => Failed(n + m)
  }

  lemma ResumeResume(a: seq<Pothole>, n: nat, b: seq<Pothole>, m: nat, o: Outcome)
    ensures Resume(a, n, Resume(b, m, o)) == Resume(a + b, n + m, o)
  {
    if o.Fetched? {
      assert a + (b + o.records) == (a + b) + o.records;
    }
  }

  /** Reference definition of the loop from `offset` onwards, as a recursion
      on the pages still to be served. */
  function Sweep(up: Upstream, offset: nat): (r: Outcome)
    ensures r.requests >= 1
    decreases |up.features| - offset
  {
    match Step(Serve(up, offset))
    case Abort => Failed(1)
    case Last(page) => Fetched(page, 1)
    case Full(page) => Resume(page, 1, Sweep(up, offset + PageSize))
  }

  /** A successful outcome of the sweep from `offset` holds the in-order
      normalisation of the features from `offset` on, up to its own length,
      and took one request per `PageSize` records plus one. */
  ghost predicate ServedPrefix(fs: seq<Feature>, offset: nat, o: Outcome) {
    o.Fetched? ==>
      && offset + |o.records| <= |fs|
      && NormalizeFeatures(fs[offset..offset + |o.records|]) == Some(o.records)
      && o.requests == |o.records| / PageSize + 1
  }

  lemma ServedPrefixAppend(fs: seq<Feature>, offset: nat, page: seq<Pothole>, rest: Outcome)
    requires offset + PageSize <= |fs|
    requires NormalizeFeatures(fs[offset..offset + PageSize]) == Some(page)
    requires ServedPrefix(fs, offset + PageSize, rest)
    ensures ServedPrefix(fs, offset, Resume(page, 1, rest))
  {
    if rest.Fetched? {
      var mid := offset + PageSize;
      var hi := mid + |rest.records|;
      assert fs[offset..hi] == fs[offset..mid] + fs[mid..hi];
      NormalizeAppend(fs[offset..mid], fs[mid..hi]);
    }
  }

  /** Whatever the upstream does, a successful sweep from `offset` returns the
      normalisation of a run of upstream features starting at `offset`, in
      upstream order, after one request per `PageSize` records plus one. */
  lemma {:induction false} SweepShape(up: Upstream, offset: nat)
    requires offset <= |up.features|
    ensures ServedPrefix(up.features, offset, Sweep(up, offset))
    decreases |up.features| - offset
  {
    var fs := up.features;
    var reply := Serve(up, offset);
    match Step(reply)
    case Abort =>
    case Last(page) =>
      if reply.Payload? && reply.features.Array? && |reply.features.items| > 0 {
        assert offset !in up.faults;
      } else {
        assert page == [];
        assert fs[offset..offset] == [];
      }
    case Full(page) =>
      assert offset !in up.faults;
      SweepShape(up, offset + PageSize);
      ServedPrefixAppend(fs, offset, page, Sweep(up, offset + PageSize));
  }

  /** Whatever the upstream does, including rejecting requests, the sweep
      from `offset` issues at most one request per full page of the features
      left plus one: the loop cannot run past the end of the data. */
  lemma {:induction false} SweepRequestsBounded(up: Upstream, offset: nat)
    requires offset <= |up.features|
    ensures Sweep(up, offset).requests <= (|up.features| - offset) / PageSize + 1
    decreases |up.features| - offset
  {
    match Step(Serve(up, offset))
    case Abort =>
    case Last(_) =>
    case Full(page) =>
      var left := |up.features| - offset;
      assert left >= PageSize;
      SweepRequestsBounded(up, offset + PageSize);
      assert (left - PageSize) / PageSize + 1 == left / PageSize;
  }

  lemma SuccessIsServedPrefix(up: Upstream, records: seq<Pothole>, n: nat)
    requires Sweep(up, 0) == Fetched(records, n)
    ensures |records| <= |up.features|
    ensures NormalizeFeatures(up.features[..|records|]) == Some(records)
    ensures n == |records| / PageSize + 1
  {
    SweepShape(up, 0);
    assert up.features[0..|records|] == up.features[..|records|];
  }

  /** Against an upstream without faults, the sweep from `offset` fails
      exactly when some remaining feature has no attributes; otherwise it
      returns every remaining feature's record in order, after
      `(N - offset) / PageSize + 1` requests. */
  lemma {:induction false} HonestSweep(up: Upstream, offset: nat)
    requires up.faults == map[]
    requires offset <= |up.features|
    ensures Sweep(up, offset).Failed? <==> NormalizeFeatures(up.features[offset..]).None?
    ensures Sweep(up, offset).Fetched? ==>
              && Some(Sweep(up, offset).records) == NormalizeFeatures(up.features[offset..])
              && Sweep(up, offset).requests == (|up.features| - offset) / PageSize + 1
    decreases |up.features| - offset
  {
    var fs := up.features;
    var page := Page(fs, offset);
    assert Serve(up, offset) == Payload(Array(page));
    if offset + PageSize <= |fs| {
      assert fs[offset..] == page + fs[offset + PageSize..];
      NormalizeAppend(page, fs[offset + PageSize..]);
      if NormalizeFeatures(page).Some? {
        assert Step(Serve(up, offset)) == Full(NormalizeFeatures(page).value);
        HonestSweep(up, offset + PageSize);
      }
    } else {
      assert page == fs[offset..];
    }
  }

  /** With no faults and every feature well formed, the handler returns all
      `N` records in upstream order after exactly `N / PageSize + 1` requests;
      the last request is at offset `PageSize * (N / PageSize)`, and it is the
      extra empty one exactly when `N` is a multiple of `PageSize`. */
  lemma CompleteSweep(up: Upstream)
    requires up.faults == map[]
    requires forall i :: 0 <= i < |up.features| ==> up.features[i].attributes.Some?
    ensures Sweep(up, 0).Fetched?
    ensures |Sweep(up, 0).records| == |up.features|
    ensures forall i :: 0 <= i < |up.features| ==>
              Sweep(up, 0).records[i] == Normalize(up.features[i].attributes.value)
    ensures Sweep(up, 0).requests == |up.features| / PageSize + 1
    ensures (Page(up.features, PageSize * (|up.features| / PageSize)) == [])
              <==> (|up.features| % PageSize == 0)
    ensures (Serve(up, PageSize * (Sweep(up, 0).requests - 1)) == Payload(Array([])))
              <==> (|up.features| % PageSize == 0)
  {
    assert up.features[0..] == up.features;
    HonestSweep(up, 0);
  }

  /** An upstream without faults in which some feature lacks attributes
      yields a failure, never part of the data. */
  lemma MalformedFeatureFails(up: Upstream, i: nat)
    requires up.faults == map[]
    requires i < |up.features| && up.features[i].attributes.None?
    ensures Sweep(up, 0).Failed?
  {
    assert up.features[0..] == up.features;
    HonestSweep(up, 0);
  }

  /** A reply without a usable `features` array ends the sweep at once with
      nothing added; a rejected request fails it. */
  lemma FaultEndsSweep(up: Upstream, offset: nat)
    requires offset in up.faults
    ensures up.faults[offset] == TransportFailure ==> Sweep(up, offset) == Failed(1)
    ensures up.faults[offset] != TransportFailure ==> Sweep(up, offset) == Fetched([], 1)
  {
  }

  /** The loop invariant: the sweep from 0 is what the first `n` requests
      gathered (`acc`), continued by the sweep from `offset`. */
  ghost predicate Continues(up: Upstream, offset: nat, acc: seq<Pothole>, n: nat) {
    Sweep(up, 0) == Resume(acc, n, Sweep(up, offset))
  }

  lemma StartContinues(up: Upstream)
    ensures Continues(up, 0, [], 0)
  {
    if Sweep(up, 0).Fetched? {
      assert [] + Sweep(up, 0).records == Sweep(up, 0).records;
    }
  }

  lemma AdvanceKeeps(up: Upstream, offset: nat, acc: seq<Pothole>, n: nat, page: seq<Pothole>)
    requires Step(Serve(up, offset)) == Full(page)
    requires Continues(up, offset, acc, n)
    ensures offset + PageSize <= |up.features|
    ensures Continues(up, offset + PageSize, acc + page, n + 1)
  {
    ResumeResume(acc, n, page, 1, Sweep(up, offset + PageSize));
  }

  lemma StopKeeps(up: Upstream, offset: nat, acc: seq<Pothole>, n: nat, page: seq<Pothole>)
    requires Step(Serve(up, offset)) == Last(page)
    requires Continues(up, offset, acc, n)
    ensures Sweep(up, 0) == Fetched(acc + page, n + 1)
  {
  }

  lemma AbortFails(up: Upstream, offset: nat, acc: seq<Pothole>, n: nat)
    requires Step(Serve(up, offset)) == Abort
    requires Continues(up, offset, acc, n)
    ensures Sweep(up, 0) == Failed(n + 1)
  {
  }

  /** The HTTP response: `res.json(allPotholes)` with the default status 200,
      or status 500 with a fixed error object. */
  datatype Body = Records(records: seq<Pothole>) | Error(error: string)
  datatype Response = Response(status: nat, body: Body)

  function Respond(o: Outcome): (r: Response)
    ensures r.status == 500 <==> o.Failed?
    ensures o.Failed? ==> r.body == Error(FailureMessage)
    ensures o.Fetched? ==> r == Response(200, Records(o.records))
  {
    match o
    case Fetched(records, _) => Response(200, Records(records))
    case Failed(_) => Response(500, Error(FailureMessage))
  }

  /** The first `n` request offsets, `0, PageSize, 2 * PageSize, ...`. */
  function Offsets(n: nat): (r: seq<nat>)
    ensures |r| == n
    ensures forall i :: 0 <= i < n ==> r[i] == PageSize * i
  {
    seq(n, i requires 0 <= i < n => PageSize * i)
  }

  lemma OffsetsSnoc(n: nat)
    ensures Offsets(n + 1) == Offsets(n) + [PageSize * n]
  {
  }

  /** The handler's `while (keepGoing)` loop. A throw inside the loop is
      reported as `None`; the offsets requested are returned in order. The
      loop stops (`keepGoing = false`) exactly on a `Last` pass, so that
      pass returns directly. */
  method CollectPages(up: Upstream) returns (all: Option<seq<Pothole>>, requested: seq<nat>)
    ensures Sweep(up, 0) == if all.Some? then Fetched(all.value, |requested|) else Failed(|requested|)
    ensures requested == Offsets(|requested|)
  {
    var allPotholes: seq<Pothole> := [];
    var offset: nat := 0;
    requested := [];
    StartContinues(up);
    while true
      invariant requested == Offsets(|requested|)
      invariant offset == PageSize * |requested|
      invariant Continues(up, offset, allPotholes, |requested|)
      decreases |up.features| - offset
    {
      OffsetsSnoc(|requested|);
      requested := requested + [offset];
      match Step(Serve(up, offset))
      case Abort =>
        AbortFails(up, offset, allPotholes, |requested| - 1);
        return None, requested;
      case Last(potholes) =>
        StopKeeps(up, offset, allPotholes, |requested| - 1, potholes);
        return Some(allPotholes + potholes), requested;
      case Full(potholes) =>
        AdvanceKeeps(up, offset, allPotholes, |requested| - 1, potholes);
        allPotholes := allPotholes + potholes;
        offset := offset + PageSize;
    }
  }

  /** The whole handler: the loop inside `try`, and the `catch` that turns
      any throw into the fixed 500 response, discarding what was gathered. */
  method FetchPotholes(up: Upstream) returns (resp: Response, requested: seq<nat>)
    ensures resp == Respond(Sweep(up, 0))
    ensures |requested| == Sweep(up, 0).requests
    ensures forall i :: 0 <= i < |requested| ==> requested[i] == PageSize * i
    ensures resp.status == 200 ==>
              && resp.body.Records?
              && |resp.body.records| <= |up.features|
              && NormalizeFeatures(up.features[..|resp.body.records|]) == Some(resp.body.records)
              && |requested| == |resp.body.records| / PageSize + 1
    ensures resp.status != 200 ==> resp == Response(500, Error(FailureMessage))
  {
    var all;
    all, requested := CollectPages(up);
    match all
    case None =>
      resp := Response(500, Error(FailureMessage));
    case Some(allPotholes) =>
      SuccessIsServedPrefix(up, allPotholes, |requested|);
      resp := Response(200, Records(allPotholes));
  }
}
