/**
 * The region-by-voter cross tabulation. Rows are the regions of the
 * destinations in the standings (looked up in the location-to-country table,
 * capitalised, sorted, each once); columns are the counted ballots. A cell
 * holds 3, 2 or 1 points for each choice of the ballot that falls in the
 * region, whatever point scheme is active. The view keeps a focus (one row or
 * one column) and sets of collapsed rows and columns.
 */
module CrossTab {
  import opened PollTypes
  import opened Text
  import opened Seqs
  import MapResults

  // ----- Rows -----

  /** `Array.prototype.sort()` order: code unit by code unit, a proper prefix first. */
  predicate StrLt(a: string, b: string)
    decreases |a|
  {
    b != [] && (a == [] || a[0] < b[0] || (a[0] == b[0] && StrLt(a[1..], b[1..])))
  }

  lemma {:induction false} StrLtIrreflexive(a: string)
    ensures !StrLt(a, a)
    decreases |a|
  {
    if a != [] {
      StrLtIrreflexive(a[1..]);
    }
  }

  lemma {:induction false} StrLtTransitive(a: string, b: string, c: string)
    requires StrLt(a, b) && StrLt(b, c)
    ensures StrLt(a, c)
    decreases |a|
  {
    if a != [] && a[0] == b[0] && b[0] == c[0] {
      StrLtTransitive(a[1..], b[1..], c[1..]);
    }
  }

  lemma {:induction false} StrLtTotal(a: string, b: string)
    requires a != b
    ensures StrLt(a, b) || StrLt(b, a)
    decreases |a|
  {
    if a != [] && b != [] && a[0] == b[0] {
      assert a == [a[0]] + a[1..] && b == [b[0]] + b[1..];
      StrLtTotal(a[1..], b[1..]);
    }
  }

  /** Strictly increasing: sorted, with no repetitions. */
  predicate Ascending(s: seq<string>) {
    forall i, j :: 0 <= i < j < |s| ==> StrLt(s[i], s[j])
  }

  /** Adds `x` to an ascending list unless it is there already. */
  function InsertStr(x: string, s: seq<string>): (r: seq<string>)
    ensures forall y :: y in r <==> y == x || y in s
  {
    if s == [] then [x]
    else if x == s[0] then s
    else if StrLt(x, s[0]) then [x] + s
    else [s[0]] + InsertStr(x, s[1..])
  }

  lemma AscendingCons(h: string, t: seq<string>)
    requires Ascending(t)
    requires forall y | y in t :: StrLt(h, y)
    ensures Ascending([h] + t)
  {
    var r := [h] + t;
    forall i, j | 0 <= i < j < |r| ensures StrLt(r[i], r[j]) {
      assert r[j] == t[j - 1];
      if i > 0 {
        assert r[i] == t[i - 1];
      }
    }
  }

  lemma {:induction false} InsertStrAscending(x: string, s: seq<string>)
    requires Ascending(s)
    ensures Ascending(InsertStr(x, s))
  {
    if s != [] && x != s[0] {
      forall y | y in s[1..] ensures StrLt(s[0], y) {
        var j :| 0 <= j < |s[1..]| && s[1..][j] == y;
        assert s[j + 1] == y;
      }
      if StrLt(x, s[0]) {
        forall y | y in s ensures StrLt(x, y) {
          if y != s[0] {
            StrLtTransitive(x, s[0], y);
          }
        }
        AscendingCons(x, s);
      } else {
        StrLtTotal(x, s[0]);
        assert Ascending(s[1..]);
        InsertStrAscending(x, s[1..]);
        AscendingCons(s[0], InsertStr(x, s[1..]));
      }
    }
  }

  /** The row label of a destination or choice: `LOCATION_TO_COUNTRY[name.toLowerCase()] || name`, capitalised. */
  function Region(locations: map<string, string>, name: string): string {
    Capitalize(if ToLower(name) in locations && locations[ToLower(name)] != "" then locations[ToLower(name)] else name)
  }

  /** `regions`: the row label of every destination, each once, in ascending order. */
  function Regions(results: seq<DestinationResult>, locations: map<string, string>): (r: seq<string>)
    ensures Ascending(r)
    ensures forall y :: y in r <==> exists i :: 0 <= i < |results| && Region(locations, results[i].name) == y
  {
    if results == [] then []
    else
      var p := results[..|results| - 1];
      var x := Region(locations, results[|results| - 1].name);
      InsertStrAscending(x, Regions(p, locations));
      assert forall i :: 0 <= i < |p| ==> p[i] == results[i];
      InsertStr(x, Regions(p, locations))
  }

  /** Ascending lists have no repetitions. */
  lemma AscendingNoDup(s: seq<string>)
    requires Ascending(s)
    ensures NoDup(s)
  {
    forall i, j | 0 <= i < j < |s| ensures s[i] != s[j] {
      if s[i] == s[j] {
        StrLtIrreflexive(s[i]);
      }
    }
  }

  // ----- Columns and cells -----

  /** `votes.filter(v => !v.excluded)`. */
  function ActiveVotes(votes: seq<Vote>): (r: seq<Vote>)
    ensures forall v | v in r :: v in votes && !IsExcluded(v)
    ensures forall v | v in votes && !IsExcluded(v) :: v in r
  {
    if votes == [] then []
    else
      var p := votes[..|votes| - 1];
      var v := votes[|votes| - 1];
      assert forall w | w in votes :: w in p || w == v;
      ActiveVotes(p) + (if IsExcluded(v) then [] else [v])
  }

  /** Points of the choice at `index`: 3, 2, 1. */
  function RankPoints(index: nat): int {
    if index == 0 then 3 else if index == 1 then 2 else 1
  }

  function Choice(v: Vote, index: nat): string {
    if index == 0 then v.firstChoice else if index == 1 then v.secondChoice else v.thirdChoice
  }

  /** What one choice adds to row `r`: its rank's points when it is not empty and falls in `r`. */
  function ChoicePoints(locations: map<string, string>, v: Vote, index: nat, r: string): int {
    if Choice(v, index) != "" && Region(locations, Choice(v, index)) == r then RankPoints(index) else 0
  }

  /** What the first `n` choices of a ballot add to row `r`. */
  function BallotPoints(locations: map<string, string>, v: Vote, r: string, n: nat): int {
    if n == 0 then 0 else BallotPoints(locations, v, r, n - 1) + ChoicePoints(locations, v, n - 1, r)
  }

  /** The cell of row `r` and column `id`: every counted ballot with that id adds its points. */
  function CellPoints(locations: map<string, string>, votes: seq<Vote>, r: string, id: string): int {
    if votes == [] then 0
    else CellPoints(locations, votes[..|votes| - 1], r, id)
         + (if votes[|votes| - 1].id == id then BallotPoints(locations, votes[|votes| - 1], r, 3) else 0)
  }

  function Ids(votes: seq<Vote>): set<string> {
    set i | 0 <= i < |votes| :: votes[i].id
  }

  /** `matrix[region][voterId]`. */
  type Matrix = map<string, map<string, int>>

  /** The matrix the component builds: a row per region, a column per ballot id, each cell its points. */
  function MatrixOf(locations: map<string, string>, regions: seq<string>, active: seq<Vote>): Matrix {
    map r | r in regions :: map id | id in Ids(active) :: CellPoints(locations, active, r, id)
  }

  /** `matrix[r][id]`, where a missing entry compares as not positive. */
  function Cell(m: Matrix, r: string, id: string): int {
    if r in m && id in m[r] then m[r][id] else 0
  }

  lemma {:induction false} BallotPointsBounds(locations: map<string, string>, v: Vote, r: string, n: nat)
    ensures 0 <= BallotPoints(locations, v, r, n) <= 3 * n
  {
    if n > 0 {
      BallotPointsBounds(locations, v, r, n - 1);
    }
  }

  lemma {:induction false} CellPointsNonNegative(locations: map<string, string>, votes: seq<Vote>, r: string, id: string)
    ensures CellPoints(locations, votes, r, id) >= 0
  {
    if votes != [] {
      CellPointsNonNegative(locations, votes[..|votes| - 1], r, id);
      BallotPointsBounds(locations, votes[|votes| - 1], r, 3);
    }
  }

  /**
   * Every cell is non-negative; there is a cell exactly for each region and
   * each counted ballot id, and no column for an excluded ballot whose id no
   * counted ballot shares.
   */
  lemma MatrixCells(locations: map<string, string>, regions: seq<string>, votes: seq<Vote>, r: string, id: string)
    ensures var m := MatrixOf(locations, regions, ActiveVotes(votes));
      Cell(m, r, id) >= 0
      && (r in m && id in m[r] <==> r in regions && exists v :: v in votes && !IsExcluded(v) && v.id == id)
  {
    var active := ActiveVotes(votes);
    CellPointsNonNegative(locations, active, r, id);
    if exists v :: v in votes && !IsExcluded(v) && v.id == id {
      var v :| v in votes && !IsExcluded(v) && v.id == id;
      var i :| 0 <= i < |active| && active[i] == v;
      assert id in Ids(active);
    }
  }

  /** A choice padded with spaces is not trimmed, so it does not reach the row of its trimmed spelling. */
  lemma PaddedChoiceMissesRow(v: Vote)
    requires v.firstChoice == " Paris"
    ensures ChoicePoints(map[], v, 0, "Paris") == 0
  {
    assert ToLower(" Paris")[0] == ' ';
  }

  // ----- Building the matrix -----

  /** Rows exactly for the regions, and in each row a cell exactly for each counted ballot id. */
  ghost predicate Shaped(data: Matrix, regions: seq<string>, active: seq<Vote>) {
    (forall r :: r in data <==> r in regions)
    && forall r | r in data :: forall id :: id in data[r] <==> id in Ids(active)
  }

  /** Every cell holds what the ballots in `done` put there. */
  ghost predicate Filled(data: Matrix, locations: map<string, string>, done: seq<Vote>) {
    forall r, id | r in data && id in data[r] :: data[r][id] == CellPoints(locations, done, r, id)
  }

  /** Every cell holds what the ballots in `done` put there, plus the first `n` choices of `v` in its column. */
  ghost predicate Scoring(data: Matrix, locations: map<string, string>, done: seq<Vote>, v: Vote, n: nat) {
    forall r, id | r in data && id in data[r] ::
      data[r][id] == CellPoints(locations, done, r, id) + (if id == v.id then BallotPoints(locations, v, r, n) else 0)
  }

  /** `data[r][id] += p`. */
  function Bump(data: Matrix, r: string, id: string, p: int): Matrix
    requires r in data && id in data[r]
  {
    data[r := data[r][id := data[r][id] + p]]
  }

  /** The matrix after the choice at `index` of `v` has been scored. */
  function AfterChoice(data: Matrix, locations: map<string, string>, v: Vote, index: nat): Matrix
    requires forall r | r in data :: v.id in data[r]
  {
    var c := Choice(v, index);
    if c != "" && Region(locations, c) in data then Bump(data, Region(locations, c), v.id, RankPoints(index)) else data
  }

  /** Scoring a choice keeps the rows and the columns. */
  lemma ShapeKept(data: Matrix, locations: map<string, string>, regions: seq<string>,
                  v: Vote, index: nat, active: seq<Vote>)
    requires Shaped(data, regions, active) && v.id in Ids(active)
    ensures Shaped(AfterChoice(data, locations, v, index), regions, active)
  {
  }

  /** A choice that names a row adds its points to that row's cell in the ballot's column, and only there. */
  lemma ScoreHit(data: Matrix, locations: map<string, string>, done: seq<Vote>, v: Vote, index: nat)
    requires forall r | r in data :: v.id in data[r]
    requires Choice(v, index) != "" && Region(locations, Choice(v, index)) in data
    requires Scoring(data, locations, done, v, index)
    ensures Scoring(AfterChoice(data, locations, v, index), locations, done, v, index + 1)
  {
    var hit := Region(locations, Choice(v, index));
    var next := AfterChoice(data, locations, v, index);
    assert next == data[hit := data[hit][v.id := data[hit][v.id] + RankPoints(index)]];
    forall r, id | r in next && id in next[r]
      ensures next[r][id] == CellPoints(locations, done, r, id) + (if id == v.id then BallotPoints(locations, v, r, index + 1) else 0)
    {
      assert ChoicePoints(locations, v, index, r) == if r == hit then RankPoints(index) else 0;
    }
  }

  /** A choice that is empty or names no row changes nothing. */
  lemma ScoreMiss(data: Matrix, locations: map<string, string>, done: seq<Vote>, v: Vote, index: nat)
    requires forall r | r in data :: v.id in data[r]
    requires !(Choice(v, index) != "" && Region(locations, Choice(v, index)) in data)
    requires Scoring(data, locations, done, v, index)
    ensures Scoring(AfterChoice(data, locations, v, index), locations, done, v, index + 1)
  {
    forall r, id | r in data && id in data[r]
      ensures data[r][id] == CellPoints(locations, done, r, id) + (if id == v.id then BallotPoints(locations, v, r, index + 1) else 0)
    {
      assert ChoicePoints(locations, v, index, r) == 0;
    }
  }

  /** One pass of the inner `forEach`: the choice at `index` adds its points when it names a row. */
  lemma ScoreStep(data: Matrix, locations: map<string, string>, regions: seq<string>,
                  done: seq<Vote>, v: Vote, index: nat, active: seq<Vote>)
    requires Shaped(data, regions, active) && v.id in Ids(active)
    requires Scoring(data, locations, done, v, index)
    ensures Shaped(AfterChoice(data, locations, v, index), regions, active)
    ensures Scoring(AfterChoice(data, locations, v, index), locations, done, v, index + 1)
  {
    ShapeKept(data, locations, regions, v, index, active);
    if Choice(v, index) != "" && Region(locations, Choice(v, index)) in data {
      ScoreHit(data, locations, done, v, index);
    } else {
      ScoreMiss(data, locations, done, v, index);
    }
  }

  /** After the three choices the ballot has been added to the counted ones. */
  lemma ScoredBallot(data: Matrix, locations: map<string, string>, done: seq<Vote>, v: Vote)
    requires Scoring(data, locations, done, v, 3)
    ensures Filled(data, locations, done + [v])
  {
    assert (done + [v])[..|done|] == done;
  }

  /** A matrix of the right shape filled with every counted ballot is the matrix of those ballots. */
  lemma FilledIsMatrix(data: Matrix, locations: map<string, string>, regions: seq<string>, active: seq<Vote>)
    requires Shaped(data, regions, active) && Filled(data, locations, active)
    ensures data == MatrixOf(locations, regions, active)
  {
    var m := MatrixOf(locations, regions, active);
    forall r | r in data ensures data[r] == m[r] {
    }
  }

  /** The zero-filled row for the given ballots. */
  method ZeroRow(active: seq<Vote>) returns (row: map<string, int>)
    ensures forall id :: id in row <==> id in Ids(active)
    ensures forall id | id in row :: row[id] == 0
  {
    row := map[];
    for j := 0 to |active|
      invariant forall id :: id in row <==> exists i :: 0 <= i < j && active[i].id == id
      invariant forall id | id in row :: row[id] == 0
    {
      row := row[active[j].id := 0];
    }
  }

  /** The first `forEach`: a zero-filled row for every region. */
  method ZeroMatrix(locations: map<string, string>, regions: seq<string>, active: seq<Vote>) returns (data: Matrix)
    ensures Shaped(data, regions, active) && Filled(data, locations, [])
  {
    data := map[];
    for i := 0 to |regions|
      invariant forall r :: r in data <==> exists k :: 0 <= k < i && regions[k] == r
      invariant forall r | r in data :: forall id :: id in data[r] <==> id in Ids(active)
      invariant forall r, id | r in data && id in data[r] :: data[r][id] == 0
    {
      var row := ZeroRow(active);
      data := data[regions[i] := row];
    }
  }

  /** The inner `forEach` for one ballot: each non-empty choice that names a row adds its points to the ballot's cell. */
  method ScoreBallot(data: Matrix, locations: map<string, string>, ghost regions: seq<string>,
                     ghost done: seq<Vote>, v: Vote, ghost active: seq<Vote>)
    returns (data': Matrix)
    requires Shaped(data, regions, active) && v.id in Ids(active)
    requires Filled(data, locations, done)
    ensures Shaped(data', regions, active) && Filled(data', locations, done + [v])
  {
    data' := data;
    for index := 0 to 3
      invariant Shaped(data', regions, active) && Scoring(data', locations, done, v, index)
    {
      ScoreStep(data', locations, regions, done, v, index, active);
      ghost var expected := AfterChoice(data', locations, v, index);
      var choice := Choice(v, index);
      if choice != "" && Region(locations, choice) in data' {
        var formattedRegion := Region(locations, choice);
        assert expected == Bump(data', formattedRegion, v.id, RankPoints(index));
        data' := Bump(data', formattedRegion, v.id, RankPoints(index));
      } else {
        assert expected == data';
      }
    }
    ScoredBallot(data', locations, done, v);
  }

  /** `matrix`: zero-filled rows for every region, then each counted ballot's choices scored into its column. */
  method BuildMatrix(locations: map<string, string>, regions: seq<string>, active: seq<Vote>) returns (data: Matrix)
    ensures data == MatrixOf(locations, regions, active)
  {
    data := ZeroMatrix(locations, regions, active);
    for i := 0 to |active|
      invariant Shaped(data, regions, active) && Filled(data, locations, active[..i])
    {
      assert active[i].id in Ids(active);
      data := ScoreBallot(data, locations, regions, active[..i], active[i], active);
      assert active[..i] + [active[i]] == active[..i + 1];
    }
    assert active[..|active|] == active;
    FilledIsMatrix(data, locations, regions, active);
  }

  // ----- Totals -----

  /** `rowTotals[r]`: the sum of the row's cells over the listed columns. */
  function RowTotal(m: Matrix, r: string, ids: seq<string>): int {
    if ids == [] then 0 else RowTotal(m, r, ids[..|ids| - 1]) + Cell(m, r, ids[|ids| - 1])
  }

  /** `colTotals[id]`: the sum of the column's cells over the rows. */
  function ColTotal(m: Matrix, regions: seq<string>, id: string): int {
    if regions == [] then 0 else ColTotal(m, regions[..|regions| - 1], id) + Cell(m, regions[|regions| - 1], id)
  }

  /** The grand total shown: the sum of the row totals. */
  function GrandTotal(m: Matrix, regions: seq<string>, ids: seq<string>): int {
    if regions == [] then 0 else GrandTotal(m, regions[..|regions| - 1], ids) + RowTotal(m, regions[|regions| - 1], ids)
  }

  /** The sum of the column totals. */
  function ColumnsTotal(m: Matrix, regions: seq<string>, ids: seq<string>): int {
    if ids == [] then 0 else ColumnsTotal(m, regions, ids[..|ids| - 1]) + ColTotal(m, regions, ids[|ids| - 1])
  }

  lemma {:induction false} ColumnsTotalNoRows(m: Matrix, ids: seq<string>)
    ensures ColumnsTotal(m, [], ids) == 0
  {
    if ids != [] {
      ColumnsTotalNoRows(m, ids[..|ids| - 1]);
    }
  }

  lemma {:induction false} ColumnsTotalSnoc(m: Matrix, regions: seq<string>, r: string, ids: seq<string>)
    ensures ColumnsTotal(m, regions + [r], ids) == ColumnsTotal(m, regions, ids) + RowTotal(m, r, ids)
  {
    if ids != [] {
      ColumnsTotalSnoc(m, regions, r, ids[..|ids| - 1]);
      assert (regions + [r])[..|regions|] == regions;
    }
  }

  /** The row totals and the column totals add up to the same grand total. */
  lemma {:induction false} TotalsAgree(m: Matrix, regions: seq<string>, ids: seq<string>)
    ensures GrandTotal(m, regions, ids) == ColumnsTotal(m, regions, ids)
  {
    if regions != [] {
      var p := regions[..|regions| - 1];
      assert p + [regions[|regions| - 1]] == regions;
      TotalsAgree(m, p, ids);
      ColumnsTotalSnoc(m, p, regions[|regions| - 1], ids);
      assert GrandTotal(m, regions, ids) == GrandTotal(m, p, ids) + RowTotal(m, regions[|regions| - 1], ids);
    } else {
      ColumnsTotalNoRows(m, ids);
    }
  }

  /** The sum over the rows of what one ballot puts in its column. */
  function BallotSpread(locations: map<string, string>, v: Vote, regions: seq<string>): int {
    if regions == [] then 0
    else BallotSpread(locations, v, regions[..|regions| - 1]) + BallotPoints(locations, v, regions[|regions| - 1], 3)
  }

  /** The points of the choice at `index` when it is not empty and its row is listed. */
  function ReachedBy(locations: map<string, string>, v: Vote, index: nat, regions: seq<string>): int {
    if Choice(v, index) != "" && Region(locations, Choice(v, index)) in regions then RankPoints(index) else 0
  }

  /** What a ballot's choices can reach: the points of each non-empty choice whose row is listed. */
  function Reached(locations: map<string, string>, v: Vote, regions: seq<string>): int {
    ReachedBy(locations, v, 0, regions) + ReachedBy(locations, v, 1, regions) + ReachedBy(locations, v, 2, regions)
  }

  lemma BallotPointsThree(locations: map<string, string>, v: Vote, r: string)
    ensures BallotPoints(locations, v, r, 3)
      == ChoicePoints(locations, v, 0, r) + ChoicePoints(locations, v, 1, r) + ChoicePoints(locations, v, 2, r)
  {
    assert BallotPoints(locations, v, r, 1) == ChoicePoints(locations, v, 0, r);
  }

  /** Adding a row that is not listed yet adds what the choice puts in that row. */
  lemma ReachedBySnoc(locations: map<string, string>, v: Vote, index: nat, p: seq<string>, r: string)
    requires r !in p
    ensures ReachedBy(locations, v, index, p + [r]) == ReachedBy(locations, v, index, p) + ChoicePoints(locations, v, index, r)
  {
    assert forall x :: x in p + [r] <==> x in p || x == r;
  }

  lemma {:induction false} SpreadReached(locations: map<string, string>, v: Vote, regions: seq<string>)
    requires NoDup(regions)
    ensures BallotSpread(locations, v, regions) == Reached(locations, v, regions)
  {
    if regions != [] {
      var p := regions[..|regions| - 1];
      var r := regions[|regions| - 1];
      assert NoDup(p);
      SpreadReached(locations, v, p);
      assert r !in p;
      assert regions == p + [r];
      BallotPointsThree(locations, v, r);
      ReachedBySnoc(locations, v, 0, p, r);
      ReachedBySnoc(locations, v, 1, p, r);
      ReachedBySnoc(locations, v, 2, p, r);
    }
  }

  /** A ballot puts at most 3 + 2 + 1 points into its column, since each choice falls in at most one row. */
  lemma BallotColumnBound(locations: map<string, string>, v: Vote, regions: seq<string>)
    requires NoDup(regions)
    ensures 0 <= BallotSpread(locations, v, regions) <= 6
  {
    SpreadReached(locations, v, regions);
  }

  /** The column of id `id` sums the spread of each counted ballot with that id. */
  function ColumnPoints(locations: map<string, string>, active: seq<Vote>, regions: seq<string>, id: string): int {
    if active == [] then 0
    else ColumnPoints(locations, active[..|active| - 1], regions, id)
         + (if active[|active| - 1].id == id then BallotSpread(locations, active[|active| - 1], regions) else 0)
  }

  function CountId(active: seq<Vote>, id: string): nat {
    if active == [] then 0 else CountId(active[..|active| - 1], id) + (if active[|active| - 1].id == id then 1 else 0)
  }

  lemma {:induction false} ColumnPointsBound(locations: map<string, string>, active: seq<Vote>, regions: seq<string>, id: string)
    requires NoDup(regions)
    ensures 0 <= ColumnPoints(locations, active, regions, id) <= 6 * CountId(active, id)
  {
    if active != [] {
      ColumnPointsBound(locations, active[..|active| - 1], regions, id);
      BallotColumnBound(locations, active[|active| - 1], regions);
    }
  }

  lemma {:induction false} ColumnPointsNoRows(locations: map<string, string>, active: seq<Vote>, id: string)
    ensures ColumnPoints(locations, active, [], id) == 0
  {
    if active != [] {
      ColumnPointsNoRows(locations, active[..|active| - 1], id);
    }
  }

  lemma {:induction false} ColumnPointsSnoc(locations: map<string, string>, active: seq<Vote>, regions: seq<string>,
                                            r: string, id: string)
    ensures ColumnPoints(locations, active, regions + [r], id)
            == ColumnPoints(locations, active, regions, id) + CellPoints(locations, active, r, id)
  {
    if active != [] {
      ColumnPointsSnoc(locations, active[..|active| - 1], regions, r, id);
      assert (regions + [r])[..|regions|] == regions;
    }
  }

  /** The column total of the built matrix is the sum of the spreads of the ballots with that id. */
  lemma {:induction false} ColTotalOfMatrix(locations: map<string, string>, regions: seq<string>, active: seq<Vote>,
                                            rows: seq<string>, id: string)
    requires forall r | r in rows :: r in regions
    requires id in Ids(active)
    ensures ColTotal(MatrixOf(locations, regions, active), rows, id) == ColumnPoints(locations, active, rows, id)
  {
    if rows != [] {
      var p := rows[..|rows| - 1];
      ColTotalOfMatrix(locations, regions, active, p, id);
      ColumnPointsSnoc(locations, active, p, rows[|rows| - 1], id);
      assert p + [rows[|rows| - 1]] == rows;
      assert Cell(MatrixOf(locations, regions, active), rows[|rows| - 1], id)
        == CellPoints(locations, active, rows[|rows| - 1], id);
    } else {
      ColumnPointsNoRows(locations, active, id);
    }
  }

  /** A counted ballot whose id is its own has a column total of at most 6. */
  lemma ColumnTotalBound(locations: map<string, string>, regions: seq<string>, active: seq<Vote>, id: string)
    requires Ascending(regions)
    requires id in Ids(active) && CountId(active, id) == 1
    ensures 0 <= ColTotal(MatrixOf(locations, regions, active), regions, id) <= 6
  {
    AscendingNoDup(regions);
    ColTotalOfMatrix(locations, regions, active, regions, id);
    ColumnPointsBound(locations, active, regions, id);
  }

  /** What the counted ballots give row `r` in all. */
  function RegionPoints(locations: map<string, string>, active: seq<Vote>, r: string): int {
    if active == [] then 0
    else RegionPoints(locations, active[..|active| - 1], r) + BallotPoints(locations, active[|active| - 1], r, 3)
  }

  /** The cells of row `r` over the listed ids, as the ballots fill them. */
  function RowPoints(locations: map<string, string>, active: seq<Vote>, r: string, ids: seq<string>): int {
    if ids == [] then 0 else RowPoints(locations, active, r, ids[..|ids| - 1]) + CellPoints(locations, active, r, ids[|ids| - 1])
  }

  lemma {:induction false} RowPointsNoVotes(locations: map<string, string>, r: string, ids: seq<string>)
    ensures RowPoints(locations, [], r, ids) == 0
  {
    if ids != [] {
      RowPointsNoVotes(locations, r, ids[..|ids| - 1]);
    }
  }

  /** One more ballot adds its points to the row once, in its own column, when that column is listed. */
  lemma {:induction false} RowPointsSnoc(locations: map<string, string>, active: seq<Vote>, v: Vote, r: string, ids: seq<string>)
    requires NoDup(ids)
    ensures RowPoints(locations, active + [v], r, ids)
            == RowPoints(locations, active, r, ids) + (if v.id in ids then BallotPoints(locations, v, r, 3) else 0)
  {
    if ids != [] {
      var p := ids[..|ids| - 1];
      var x := ids[|ids| - 1];
      assert NoDup(p);
      assert x !in p;
      RowPointsSnoc(locations, active, v, r, p);
      assert ids == p + [x];
      assert (active + [v])[..|active|] == active;
    }
  }

  lemma {:induction false} RowPointsAll(locations: map<string, string>, active: seq<Vote>, r: string, ids: seq<string>)
    requires NoDup(ids)
    requires forall i :: 0 <= i < |active| ==> active[i].id in ids
    ensures RowPoints(locations, active, r, ids) == RegionPoints(locations, active, r)
  {
    if active == [] {
      RowPointsNoVotes(locations, r, ids);
    } else {
      var p := active[..|active| - 1];
      RowPointsAll(locations, p, r, ids);
      RowPointsSnoc(locations, p, active[|active| - 1], r, ids);
      assert p + [active[|active| - 1]] == active;
    }
  }

  lemma {:induction false} RowTotalOfMatrix(locations: map<string, string>, regions: seq<string>, active: seq<Vote>,
                                            r: string, ids: seq<string>)
    requires r in regions
    requires forall id | id in ids :: id in Ids(active)
    ensures RowTotal(MatrixOf(locations, regions, active), r, ids) == RowPoints(locations, active, r, ids)
  {
    if ids != [] {
      RowTotalOfMatrix(locations, regions, active, r, ids[..|ids| - 1]);
      assert ids[|ids| - 1] in ids;
    }
  }

  /**
   * Summing a row over each column once gives every point the counted ballots
   * give that region: the row total is the region's share of the ballots.
   */
  lemma RowTotalMeaning(locations: map<string, string>, regions: seq<string>, active: seq<Vote>, r: string, ids: seq<string>)
    requires r in regions && NoDup(ids)
    requires forall id :: id in ids <==> id in Ids(active)
    ensures RowTotal(MatrixOf(locations, regions, active), r, ids) == RegionPoints(locations, active, r)
  {
    RowTotalOfMatrix(locations, regions, active, r, ids);
    assert forall i :: 0 <= i < |active| ==> active[i].id in Ids(active);
    RowPointsAll(locations, active, r, ids);
  }

  // ----- What is shown -----

  /** `if (key)`: a focus is set when it is present and not the empty string. */
  predicate Focused(key: Option<string>) {
    key.Some? && key.value != ""
  }

  /** `visibleRegions`: with a column in focus, the rows with points in it; otherwise the rows not collapsed. */
  function VisibleRegions(regions: seq<string>, m: Matrix, collapsedRows: set<string>, activeCol: Option<string>): (rs: seq<string>)
    ensures forall r :: r in rs <==>
      r in regions && (if Focused(activeCol) then Cell(m, r, activeCol.value) > 0 else r !in collapsedRows)
    ensures |rs| <= |regions|
  {
    if regions == [] then []
    else
      var p := regions[..|regions| - 1];
      var r := regions[|regions| - 1];
      assert forall x :: x in regions <==> x in p || x == r by {
        assert regions == p + [r];
      }
      var keep := if Focused(activeCol) then Cell(m, r, activeCol.value) > 0 else r !in collapsedRows;
      VisibleRegions(p, m, collapsedRows, activeCol) + (if keep then [r] else [])
  }

  /**
   * `visibleVotes`: with a row in focus, the ballots with points in it;
   * otherwise those whose column is not collapsed. A focused row that is no
   * longer a row of the matrix has no cells to read: `None`.
   */
  function VisibleVotes(active: seq<Vote>, m: Matrix, collapsedCols: set<string>, activeRow: Option<string>): (vs: Option<seq<Vote>>)
    ensures vs.None? <==> Focused(activeRow) && activeRow.value !in m
    ensures vs.Some? ==> forall v :: v in vs.value <==>
      v in active && (if Focused(activeRow) then Cell(m, activeRow.value, v.id) > 0 else v.id !in collapsedCols)
  {
    if Focused(activeRow) && activeRow.value !in m then None
    else Some(FilterVotes(active, m, collapsedCols, activeRow))
  }

  function FilterVotes(active: seq<Vote>, m: Matrix, collapsedCols: set<string>, activeRow: Option<string>): (vs: seq<Vote>)
    ensures forall v :: v in vs <==>
      v in active && (if Focused(activeRow) then Cell(m, activeRow.value, v.id) > 0 else v.id !in collapsedCols)
  {
    if active == [] then []
    else
      var p := active[..|active| - 1];
      var v := active[|active| - 1];
      assert forall x :: x in active <==> x in p || x == v by {
        assert active == p + [v];
      }
      var keep := if Focused(activeRow) then Cell(m, activeRow.value, v.id) > 0 else v.id !in collapsedCols;
      FilterVotes(p, m, collapsedCols, activeRow) + (if keep then [v] else [])
  }

  // ----- Focus and collapse state -----

  /** `key === current ? null : key`. */
  function Toggle(current: Option<string>, key: string): Option<string> {
    if current == Some(key) then None else Some(key)
  }

  /** Toggling the same key twice clears the focus, unless it was on that key to begin with. */
  lemma ToggleTwice(current: Option<string>, key: string)
    ensures Toggle(Toggle(current, key), key) == if current == Some(key) then Some(key) else None
    ensures Toggle(current, key) == Some(key) <==> current != Some(key)
  {
  }

  class CrossTabView {
    var activeRow: Option<string>
    var activeCol: Option<string>
    var collapsedRows: set<string>
    var collapsedCols: set<string>

    /** A row and a column are never in focus at the same time. */
    predicate AtMostOneFocus()
      reads this
    {
      activeRow.None? || activeCol.None?
    }

    constructor ()
      ensures activeRow == None && activeCol == None && collapsedRows == {} && collapsedCols == {}
      ensures AtMostOneFocus()
    {
      activeRow, activeCol := None, None;
      collapsedRows, collapsedCols := {}, {};
    }

    /** `toggleAllRows`: collapse every row or none, and drop the column focus. */
    method ToggleAllRows(collapse: bool, regions: seq<string>)
      modifies this
      ensures collapsedRows == (if collapse then set r | r in regions else {})
      ensures activeCol == None && activeRow == old(activeRow) && collapsedCols == old(collapsedCols)
      ensures AtMostOneFocus()
    {
      if collapse {
        collapsedRows := set r | r in regions;
      } else {
        collapsedRows := {};
      }
      activeCol := None;
    }

    /** `toggleAllCols`: collapse every counted ballot's column or none, and drop the row focus. */
    method ToggleAllCols(collapse: bool, active: seq<Vote>)
      modifies this
      ensures collapsedCols == (if collapse then Ids(active) else {})
      ensures activeRow == None && activeCol == old(activeCol) && collapsedRows == old(collapsedRows)
      ensures AtMostOneFocus()
    {
      if collapse {
        collapsedCols := set i | 0 <= i < |active| :: active[i].id;
      } else {
        collapsedCols := {};
      }
      activeRow := None;
    }

    /** `toggleRow`: focus the row, or clear the focus when it is already on it; the column focus is dropped. */
    method ToggleRow(region: string)
      modifies this
      ensures activeRow == Toggle(old(activeRow), region) && activeCol == None
      ensures collapsedRows == old(collapsedRows) && collapsedCols == old(collapsedCols)
      ensures AtMostOneFocus()
    {
      activeCol := None;
      if activeRow == Some(region) {
        activeRow := None;
      } else {
        activeRow := Some(region);
      }
    }

    /** `toggleCol`: focus the column, or clear the focus when it is already on it; the row focus is dropped. */
    method ToggleCol(voterId: string)
      modifies this
      ensures activeCol == Toggle(old(activeCol), voterId) && activeRow == None
      ensures collapsedRows == old(collapsedRows) && collapsedCols == old(collapsedCols)
      ensures AtMostOneFocus()
    {
      activeRow := None;
      if activeCol == Some(voterId) {
        activeCol := None;
      } else {
        activeCol := Some(voterId);
      }
    }
  }
}
