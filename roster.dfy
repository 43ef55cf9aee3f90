/**
 * Raw rows and the building roster (`extractBuildingList` in
 * src/utils/dataProcessor.js).
 *
 * A raw row is one hour of the CSV after numeric typing: its columns in header
 * order, each with the number read from it (`None` when absent).  The roster is
 * the set of building ids `b_<digits>` named by the first row's column headers,
 * sorted by their numeric suffix.
 */
module Roster {
  import opened Common
  import opened Text
  import opened Collections

  datatype Column = Column(name: string, cell: Option<real>)

  /** One CSV row: its columns in header order, as `Object.keys` lists them. */
  type RawRow = seq<Column>

  /**
   * `row[name]`: the cell of the last column with that header (a repeated
   * header overwrites the earlier value), `None` when there is none.
   */
  function Cell(row: RawRow, name: string): (r: Option<real>)
    ensures r.Some? ==> exists k :: 0 <= k < |row| && row[k].name == name && row[k].cell == r
    ensures (forall k :: 0 <= k < |row| ==> row[k].name != name) ==> r.None?
    ensures forall k :: 0 <= k < |row| && row[k].name == name && IsLastNamed(row, name, k) ==> r == row[k].cell
    decreases |row|
  {
    if row == [] then None
    else if row[|row| - 1].name == name then row[|row| - 1].cell
    else
      var init := row[..|row| - 1];
      var r := Cell(init, name);
      assert forall k :: 0 <= k < |init| ==> init[k] == row[k];
      assert forall k :: 0 <= k < |init| && IsLastNamed(row, name, k) ==> IsLastNamed(init, name, k);
      r
  }

  /** No column after position `k` has the header `name`. */
  predicate IsLastNamed(row: RawRow, name: string, k: nat)
  {
    forall j :: k < j < |row| ==> row[j].name != name
  }

  function Names(row: RawRow): (names: seq<string>)
    ensures |names| == |row| && forall k :: 0 <= k < |row| ==> names[k] == row[k].name
  {
    seq(|row|, k requires 0 <= k < |row| => row[k].name)
  }

  /** The capture group of `/^b_(\d+)_/` applied to a column header, if the header matches. */
  function MatchBuildingColumn(column: string): Option<string>
  {
    if |column| >= 2 && column[..2] == "b_" then
      var d := DigitPrefix(column[2..]);
      if |d| > 0 && 2 + |d| < |column| && column[2 + |d|] == '_' then Some(d) else None
    else None
  }

  /**
   * The matcher accepts exactly the headers that start with `b_`, a non-empty
   * run of digits and `_`, and captures that run.
   */
  lemma MatchBuildingColumnIff(column: string, d: string)
    ensures MatchBuildingColumn(column) == Some(d) <==> |d| > 0 && AllDigits(d) && "b_" + d + "_" <= column
  {
    var p := "b_" + d + "_";
    if |d| > 0 && AllDigits(d) && p <= column {
      assert column[..2] == "b_";
      var rest := column[2..];
      assert rest[..|d|] == d by {
        forall k | 0 <= k < |d| ensures rest[k] == d[k] {
          assert rest[k] == column[k + 2] == p[k + 2] == d[k];
        }
      }
      assert rest[|d|] == column[2 + |d|] == p[2 + |d|] == '_';
      DigitPrefixIs(rest, d);
    }
    if MatchBuildingColumn(column) == Some(d) {
      var rest := column[2..];
      assert d == DigitPrefix(rest) == rest[..|d|];
      assert p == column[..|p|] by {
        forall k | 0 <= k < |p| ensures p[k] == column[k] {
          if 2 <= k < 2 + |d| {
            assert p[k] == d[k - 2] == rest[k - 2] == column[k];
          }
        }
      }
    }
  }

  /** The roster id a header contributes: `` `b_${match[1]}` ``. */
  function BuildingIdOf(column: string): Option<string>
  {
    match MatchBuildingColumn(column)
    case Some(d) => Some("b_" + d)
    case None => None
  }

  /** A building id as the roster spells it: `b_` followed by a non-empty run of digits. */
  predicate IsBuildingId(id: string)
  {
    |id| > 2 && id[..2] == "b_" && AllDigits(id[2..])
  }

  /** `parseInt(id.split('_')[1])`: the digits after `b_`. */
  function IdNumber(id: string): nat
  {
    if |id| >= 2 then DecimalValue(DigitPrefix(id[2..])) else 0
  }

  lemma IdNumberOfBuildingId(id: string)
    requires IsBuildingId(id)
    ensures IdNumber(id) == DecimalValue(id[2..])
  {
    DigitPrefixWhole(id[2..]);
  }

  /** The sort key: the comparator `numA - numB` orders by increasing number, i.e. by decreasing `-number`. */
  function RosterKey(id: string): real
  {
    -(IdNumber(id) as real)
  }

  /** The ids the headers name, in header order, with repeats. */
  function ColumnBuildingIds(names: seq<string>): (ids: seq<string>)
    ensures forall id :: id in ids <==> exists k :: 0 <= k < |names| && BuildingIdOf(names[k]) == Some(id)
    decreases |names|
  {
    if names == [] then []
    else
      var init := ColumnBuildingIds(names[..|names| - 1]);
      assert forall k :: 0 <= k < |names| - 1 ==> names[..|names| - 1][k] == names[k];
      match BuildingIdOf(names[|names| - 1])
      case Some(id) => init + [id]
      case None => init
  }

  /** The roster `extractBuildingList` returns for a first row (specification of the method below). */
  function BuildingRoster(firstRow: RawRow): seq<string>
  {
    SortByKey(Dedup(ColumnBuildingIds(Names(firstRow))), RosterKey)
  }

  /**
   * `extractBuildingList`: fills a `Set` with the ids the first row's headers
   * name, then sorts `Array.from` of it numerically.
   */
  method ExtractBuildingList(firstRow: RawRow) returns (roster: seq<string>)
    ensures roster == BuildingRoster(firstRow)
  {
    var seen: seq<string> := [];
    var i := 0;
    while i < |firstRow|
      invariant 0 <= i <= |firstRow|
      invariant seen == Dedup(ColumnBuildingIds(Names(firstRow[..i])))
    {
      assert Names(firstRow[..i + 1])[..i] == Names(firstRow[..i]);
      var m := MatchBuildingColumn(firstRow[i].name);
      if m.Some? {
        var id := "b_" + m.value;
        if id !in seen {
          seen := seen + [id];
        }
      }
      i := i + 1;
    }
    assert firstRow[..i] == firstRow;
    roster := SortByKey(seen, RosterKey);
  }

  /** The roster has no duplicates. */
  lemma RosterDistinct(firstRow: RawRow)
    ensures Distinct(BuildingRoster(firstRow))
  {
    SortByKeyDistinct(Dedup(ColumnBuildingIds(Names(firstRow))), RosterKey);
  }

  /** The roster holds exactly the ids named by some header of the first row that matches `^b_(\d+)_`. */
  lemma RosterMembers(firstRow: RawRow, id: string)
    ensures id in BuildingRoster(firstRow) <==> exists k :: 0 <= k < |firstRow| && BuildingIdOf(firstRow[k].name) == Some(id)
  {
    var ids := ColumnBuildingIds(Names(firstRow));
    SortByKeyDistinct(Dedup(ids), RosterKey);
    assert id in Dedup(ids) <==> id in ids;
  }

  /** Every roster entry is `b_` followed by digits, and its sort number is the value of those digits. */
  lemma RosterIdsWellFormed(firstRow: RawRow, id: string)
    requires id in BuildingRoster(firstRow)
    ensures IsBuildingId(id) && IdNumber(id) == DecimalValue(id[2..])
  {
    RosterMembers(firstRow, id);
    var k :| 0 <= k < |firstRow| && BuildingIdOf(firstRow[k].name) == Some(id);
    var d := MatchBuildingColumn(firstRow[k].name).value;
    MatchBuildingColumnIff(firstRow[k].name, d);
    assert id == "b_" + d && id[2..] == d;
    IdNumberOfBuildingId(id);
  }

  /** The roster is sorted by increasing numeric suffix. */
  lemma RosterSorted(firstRow: RawRow)
    ensures forall i, j :: 0 <= i < j < |BuildingRoster(firstRow)| ==>
              IdNumber(BuildingRoster(firstRow)[i]) <= IdNumber(BuildingRoster(firstRow)[j])
  {
  }

  /** Numeric, not lexicographic, order: `b_2` comes before `b_10`. */
  lemma RosterNumericOrder(firstRow: RawRow, i: nat, j: nat)
    requires i < |BuildingRoster(firstRow)| && j < |BuildingRoster(firstRow)|
    requires BuildingRoster(firstRow)[i] == "b_2" && BuildingRoster(firstRow)[j] == "b_10"
    ensures i < j
  {
    RosterSorted(firstRow);
    TwoBeforeTen(BuildingRoster(firstRow), i, j);
  }

  /** In any list sorted by id number, `b_2` sits before `b_10`. */
  lemma TwoBeforeTen(r: seq<string>, i: nat, j: nat)
    requires forall p, q :: 0 <= p < q < |r| ==> IdNumber(r[p]) <= IdNumber(r[q])
    requires i < |r| && j < |r| && r[i] == "b_2" && r[j] == "b_10"
    ensures i < j
  {
    assert r[i][2..] == "2" && r[j][2..] == "10";
    IdNumberOfBuildingId(r[i]);
    IdNumberOfBuildingId(r[j]);
    assert IdNumber(r[i]) == 2 && IdNumber(r[j]) == 10;
  }

  /** For a roster id `b_<digits>` the second `_`-field is the digits. */
  lemma SplitSecondOfBuildingId(id: string)
    requires IsBuildingId(id)
    ensures SplitSecond(id) == Some(id[2..])
  {
    assert id[1..][0] == '_' && id[1..][1..] == id[2..];
    UpToUnderscoreDigits(id[2..]);
  }
}
