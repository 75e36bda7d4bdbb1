/**
 The dashboard's derived values: the records handed to the map under the
 current status filter, and the "Open" and "Closed" counters.
 */
module Dashboard {
  import opened Js
  import opened Potholes
  import Seqs

  /** The filter value that shows every record. */
  const ShowAll: string := "all"

  /** `p => p.status === status`: strict equality, so only a string status
      equal to `status` matches. */
  function StatusIs(status: string): Pothole -> bool {
    (p: Pothole) => p.status == Str(status)
  }

  /** The callback passed to `filter`: everything under "all", otherwise
      the records whose status is the filter value. */
  function Keeps(filter: string): Pothole -> bool {
    (p: Pothole) => filter == ShowAll || p.status == Str(filter)
  }

  /** `filteredData`. */
  function FilteredData(data: seq<Pothole>, filter: string): (r: seq<Pothole>)
    ensures filter == ShowAll ==> r == data
    ensures filter != ShowAll ==> forall i :: 0 <= i < |r| ==> r[i].status == Str(filter)
    ensures filter != ShowAll ==> |r| == Seqs.Count(StatusIs(filter), data)
  {
    if filter == ShowAll then
      Seqs.FilterKeepsAll(Keeps(filter), data);
      Seqs.Filter(Keeps(filter), data)
    else
      SameFilter(Keeps(filter), StatusIs(filter), data);
      Seqs.FilterLength(StatusIs(filter), data);
      Seqs.Filter(Keeps(filter), data)
  }

  /** `openCount`. */
  function OpenCount(data: seq<Pothole>): (n: nat)
    ensures n == Seqs.Count(StatusIs("Open"), data)
  {
    Seqs.FilterLength(StatusIs("Open"), data);
    |Seqs.Filter(StatusIs("Open"), data)|
  }

  /** `closedCount`. */
  function ClosedCount(data: seq<Pothole>): (n: nat)
    ensures n == Seqs.Count(StatusIs("Closed"), data)
  {
    Seqs.FilterLength(StatusIs("Closed"), data);
    |Seqs.Filter(StatusIs("Closed"), data)|
  }

  /** Under any filter other than "all", the map receives exactly the
      records with that status, as an order-preserving subsequence. */
  lemma FilterSelectsStatus(data: seq<Pothole>, filter: string)
    requires filter != ShowAll
    ensures var idx := Seqs.Selected(StatusIs(filter), data);
      && |FilteredData(data, filter)| == |idx|
      && (forall k :: 0 <= k < |idx| ==> FilteredData(data, filter)[k] == data[idx[k]])
      && (forall k, l :: 0 <= k < l < |idx| ==> idx[k] < idx[l])
      && (forall j :: 0 <= j < |data| ==> (data[j].status == Str(filter) <==> j in idx))
  {
    SameFilter(Keeps(filter), StatusIs(filter), data);
    Seqs.FilterSelects(StatusIs(filter), data);
  }

  /** Two extensionally equal conditions filter alike. */
  lemma {:induction false} SameFilter(p: Pothole -> bool, q: Pothole -> bool, s: seq<Pothole>)
    requires forall x :: p(x) == q(x)
    ensures Seqs.Filter(p, s) == Seqs.Filter(q, s)
    decreases |s|
  {
    if |s| > 0 {
      SameFilter(p, q, s[1..]);
    }
  }

  /** With the "Open" filter the map shows `openCount` records. */
  lemma OpenFilterMatchesOpenCount(data: seq<Pothole>)
    ensures |FilteredData(data, "Open")| == OpenCount(data)
  {
    SameFilter(Keeps("Open"), StatusIs("Open"), data);
  }

  /** No record is both open and closed, so the two counters never exceed
      the number of records. */
  lemma CountersBounded(data: seq<Pothole>)
    ensures OpenCount(data) + ClosedCount(data) <= |data|
  {
    Seqs.CountDisjoint(StatusIs("Open"), StatusIs("Closed"), data);
  }
}
