/** Locating a Parquet row by its file row number: cumulative boundaries and a right bisection. */
module RowLocation {

  function Start(sizes: seq<nat>, group: nat): nat
    requires group <= |sizes|
  {
    if group == 0 then 0 else Start(sizes, group - 1) + sizes[group - 1]
  }

  function FileRows(sizes: seq<nat>): nat { Start(sizes, |sizes|) }

  /** boundaries[g] is the file row number just after group g. */
  function Boundaries(sizes: seq<nat>): seq<nat> {
    seq(|sizes|, g requires 0 <= g < |sizes| => Start(sizes, g + 1))
  }

  method BuildBoundaries(sizes: seq<nat>) returns (boundaries: seq<nat>)
    ensures boundaries == Boundaries(sizes)
  {
    boundaries := [];
    var cumulative := 0;
    for g := 0 to |sizes|
      invariant cumulative == Start(sizes, g) && |boundaries| == g
      invariant forall k :: 0 <= k < g ==> boundaries[k] == Start(sizes, k + 1)
    {
      cumulative := cumulative + sizes[g];
      boundaries := boundaries + [cumulative];
    }
  }

  /** bisect_right on an ascending sequence: the number of entries at or below x. */
  function BisectRight(s: seq<nat>, x: nat): (i: nat)
    ensures i <= |s|
    ensures i < |s| ==> s[i] > x
    ensures forall k :: 0 <= k < i ==> s[k] <= x
  {
    if s == [] || s[0] > x then 0 else 1 + BisectRight(s[1..], x)
  }

  datatype Place = Place(group: nat, ordinal: int)

  function Locate(sizes: seq<nat>, fileRow: nat): Place {
    var group := BisectRight(Boundaries(sizes), fileRow);
    Place(group, fileRow - if group == 0 then 0 else Boundaries(sizes)[group - 1])
  }

  function FileRowOf(sizes: seq<nat>, p: Place): int
    requires p.group <= |sizes|
  {
    Start(sizes, p.group) + p.ordinal
  }

  ghost predicate Exists(sizes: seq<nat>, p: Place) { p.group < |sizes| && 0 <= p.ordinal < sizes[p.group] }

  lemma {:induction false} StartMonotone(sizes: seq<nat>, g: nat, h: nat)
    requires g <= h <= |sizes|
    ensures Start(sizes, g) <= Start(sizes, h)
  {
    if g < h { StartMonotone(sizes, g, h - 1); }
  }

  /** Every file row has a place, also past empty row groups, and the place leads back to it. */
  lemma LocateFinds(sizes: seq<nat>, fileRow: nat)
    requires fileRow < FileRows(sizes)
    ensures Exists(sizes, Locate(sizes, fileRow)) && FileRowOf(sizes, Locate(sizes, fileRow)) == fileRow
  {
    var boundaries := Boundaries(sizes);
    var group := BisectRight(boundaries, fileRow);
    assert |sizes| > 0 ==> boundaries[|sizes| - 1] == FileRows(sizes);
    assert group < |sizes|;
    assert boundaries[group] == Start(sizes, group + 1);
    if group > 0 { assert boundaries[group - 1] == Start(sizes, group); }
  }

  /** Every place is found again: with LocateFinds, a bijection. */
  lemma PlaceLocates(sizes: seq<nat>, p: Place)
    requires Exists(sizes, p)
    ensures 0 <= FileRowOf(sizes, p) < FileRows(sizes) && Locate(sizes, FileRowOf(sizes, p)) == p
  {
    var x := FileRowOf(sizes, p);
    StartMonotone(sizes, p.group + 1, |sizes|);
    LocateFinds(sizes, x);
    var q := Locate(sizes, x);
    if q.group < p.group {
      StartMonotone(sizes, q.group + 1, p.group);
    } else if p.group < q.group {
      StartMonotone(sizes, p.group + 1, q.group);
    }
  }

  /** The builder's reading of one row's place, from the boundaries it has built. */
  method LocateRow(sizes: seq<nat>, boundaries: seq<nat>, fileRow: nat) returns (p: Place)
    requires boundaries == Boundaries(sizes) && fileRow < FileRows(sizes)
    ensures p == Locate(sizes, fileRow) && Exists(sizes, p) && FileRowOf(sizes, p) == fileRow
  {
    var group := BisectRight(boundaries, fileRow);
    var start := if group == 0 then 0 else boundaries[group - 1];
    p := Place(group, fileRow - start);
    LocateFinds(sizes, fileRow);
  }
}
