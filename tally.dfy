/**
 * `calculateResults`: ranked ballots and a point scheme turned into
 * destination standings. Choices are merged case-insensitively under the key
 * `choice.toLowerCase().trim()`, in a JavaScript `Map` that keeps its keys in
 * insertion order; the standings are that map's values, sorted stably by
 * points, largest first.
 *
 * The method `CalculateResults` fills the map in place as the source does.
 * `Fold` is the same accumulation written as a function; `Expected` is an
 * independent description of each merged destination, and
 * `FoldIsReference` proves the two agree.
 */
module Tally {
  import opened PollTypes
  import opened Text
  import opened Seqs
  import Ranking

  /** Position of a choice on the ballot: 0, 1 or 2. */
  type RankIndex = i: nat | i < 3

  /**
   * One non-blank choice of one counted ballot: the voter's name, the choice
   * as it will be displayed (`dest.trim()`), its merge key
   * (`dest.toLowerCase().trim()`) and its rank.
   */
  datatype Mark = Mark(voter: string, name: string, key: string, rank: RankIndex)

  function Choices(v: Vote): seq<string> {
    [v.firstChoice, v.secondChoice, v.thirdChoice]
  }

  /** The merge key: `choice.toLowerCase().trim()`. */
  function Key(choice: string): string {
    Trim(ToLower(choice))
  }

  /** The mark of choice `rank` of `v`. */
  function MarkOf(v: Vote, rank: RankIndex): Mark {
    var c := Choices(v)[rank];
    Mark(v.name, Trim(c), Key(c), rank)
  }

  /** The marks of the first `n` choices of `v`; blank choices give none. */
  function ChoiceMarks(v: Vote, n: nat): seq<Mark>
    requires n <= 3
  {
    if n == 0 then []
    else ChoiceMarks(v, n - 1) + (if IsBlank(Choices(v)[n - 1]) then [] else [MarkOf(v, n - 1)])
  }

  /** The marks one ballot contributes: none when it is excluded. */
  function VoteMarks(v: Vote): seq<Mark> {
    if IsExcluded(v) then [] else ChoiceMarks(v, 3)
  }

  /** All marks, ballot by ballot and, within a ballot, in rank order. */
  function Marks(votes: seq<Vote>): seq<Mark> {
    FlatMap(votes, VoteMarks)
  }

  /** The marks of a ballot depend only on its voter's name and its choices. */
  lemma {:induction false} ChoiceMarksSame(a: Vote, b: Vote, n: nat)
    requires n <= 3
    requires a.name == b.name && Choices(a) == Choices(b)
    ensures ChoiceMarks(a, n) == ChoiceMarks(b, n)
  {
    if n > 0 {
      ChoiceMarksSame(a, b, n - 1);
    }
  }

  /** The displayed spelling of a mark lower-cases and trims to the mark's key. */
  predicate Keyed(m: Mark) {
    Key(m.name) == m.key
  }

  lemma MarkOfKeyed(v: Vote, rank: RankIndex)
    ensures Keyed(MarkOf(v, rank))
  {
    var c := Choices(v)[rank];
    TrimToLowerCommute(c);
    TrimIdempotent(ToLower(c));
  }

  lemma VoteMarksKeyed(v: Vote)
    ensures forall m | m in VoteMarks(v) :: Keyed(m)
  {
    MarkOfKeyed(v, 0);
    MarkOfKeyed(v, 1);
    MarkOfKeyed(v, 2);
    assert forall m | m in ChoiceMarks(v, 1) :: Keyed(m);
    assert forall m | m in ChoiceMarks(v, 2) :: Keyed(m);
  }

  lemma {:induction false} MarksKeyed(votes: seq<Vote>)
    ensures forall m | m in Marks(votes) :: Keyed(m)
  {
    if votes != [] {
      var p, v := votes[..|votes| - 1], votes[|votes| - 1];
      MarksKeyed(p);
      VoteMarksKeyed(v);
      assert Marks(votes) == Marks(p) + VoteMarks(v);
    }
  }

  /** The points a rank earns under `w`. */
  function Weight(w: WeightConfig, rank: RankIndex): int {
    if rank == 0 then w.first else if rank == 1 then w.second else w.third
  }

  function Points(r: DestinationResult): int {
    r.totalPoints
  }

  /** The insertion-ordered `Map<string, DestinationResult>` of the source. */
  datatype Table = Table(keys: seq<string>, entries: map<string, DestinationResult>)

  /** The keys are listed once each and are exactly the map's keys. */
  ghost predicate WellFormed(t: Table) {
    NoDup(t.keys) && forall k :: k in t.entries <==> k in t.keys
  }

  function Fresh(name: string): DestinationResult {
    DestinationResult(name, 0, 0, 0, 0, [])
  }

  /** Bumps the counter of `rank` and adds its weight. */
  function Score(r: DestinationResult, rank: RankIndex, w: WeightConfig): DestinationResult {
    if rank == 0 then r.(firstVotes := r.firstVotes + 1, totalPoints := r.totalPoints + w.first)
    else if rank == 1 then r.(secondVotes := r.secondVotes + 1, totalPoints := r.totalPoints + w.second)
    else r.(thirdVotes := r.thirdVotes + 1, totalPoints := r.totalPoints + w.third)
  }

  /** The entry a mark updates: the existing one, or a fresh one under the mark's spelling. */
  function Entry(t: Table, m: Mark): DestinationResult {
    if m.key in t.entries then t.entries[m.key] else Fresh(m.name)
  }

  /** One pass of the inner `forEach`: create the entry on first sight, record the voter once, score the rank. */
  function Record(t: Table, m: Mark, w: WeightConfig): Table {
    var r := Entry(t, m);
    Table(AppendNew(t.keys, m.key), t.entries[m.key := Score(r.(voters := AppendNew(r.voters, m.voter)), m.rank, w)])
  }

  /** The map after all marks have been recorded. */
  function Fold(ms: seq<Mark>, w: WeightConfig): (t: Table)
    ensures WellFormed(t)
  {
    if ms == [] then Table([], map[]) else Record(Fold(ms[..|ms| - 1], w), ms[|ms| - 1], w)
  }

  /** `Array.from(destinations.values())`. */
  function Values(t: Table): (rs: seq<DestinationResult>)
    requires WellFormed(t)
    ensures |rs| == |t.keys|
    ensures forall i :: 0 <= i < |t.keys| ==> rs[i] == t.entries[t.keys[i]]
  {
    seq(|t.keys|, i requires 0 <= i < |t.keys| => t.entries[t.keys[i]])
  }

  /** The merged destinations, in first-seen order, before sorting. */
  function Merged(votes: seq<Vote>, w: WeightConfig): seq<DestinationResult> {
    Values(Fold(Marks(votes), w))
  }

  /** What `calculateResults` returns. */
  function Results(votes: seq<Vote>, w: WeightConfig): seq<DestinationResult> {
    Ranking.SortDesc(Merged(votes, w), Points)
  }

  // ----- An independent description of each merged destination -----

  function KeysOf(ms: seq<Mark>): seq<string> {
    if ms == [] then [] else KeysOf(ms[..|ms| - 1]) + [ms[|ms| - 1].key]
  }

  /** How many marks of rank `rank` name destination `k`. */
  function CountRank(ms: seq<Mark>, k: string, rank: RankIndex): nat {
    if ms == [] then 0
    else CountRank(ms[..|ms| - 1], k, rank) + (if ms[|ms| - 1].key == k && ms[|ms| - 1].rank == rank then 1 else 0)
  }

  /** The weights of all marks naming `k`. */
  function PointsFor(ms: seq<Mark>, k: string, w: WeightConfig): int {
    if ms == [] then 0
    else PointsFor(ms[..|ms| - 1], k, w) + (if ms[|ms| - 1].key == k then Weight(w, ms[|ms| - 1].rank) else 0)
  }

  /** The voters of all marks naming `k`, repetitions included. */
  function VotersFor(ms: seq<Mark>, k: string): seq<string> {
    if ms == [] then []
    else VotersFor(ms[..|ms| - 1], k) + (if ms[|ms| - 1].key == k then [ms[|ms| - 1].voter] else [])
  }

  /** The spelling of the first mark naming `k` ("" when there is none). */
  function FirstName(ms: seq<Mark>, k: string): string {
    if ms == [] then ""
    else if k in KeysOf(ms[..|ms| - 1]) then FirstName(ms[..|ms| - 1], k)
    else if ms[|ms| - 1].key == k then ms[|ms| - 1].name
    else ""
  }

  /** The standing of destination `k`, described mark by mark. */
  function Expected(ms: seq<Mark>, k: string, w: WeightConfig): DestinationResult {
    DestinationResult(FirstName(ms, k), PointsFor(ms, k, w),
                      CountRank(ms, k, 0), CountRank(ms, k, 1), CountRank(ms, k, 2),
                      Distinct(VotersFor(ms, k)))
  }

  lemma {:induction false} AbsentKey(ms: seq<Mark>, k: string, w: WeightConfig)
    requires k !in KeysOf(ms)
    ensures Expected(ms, k, w) == Fresh("")
  {
    if ms != [] {
      AbsentKey(ms[..|ms| - 1], k, w);
    }
  }

  lemma RecordSnoc(ms: seq<Mark>, m: Mark, w: WeightConfig)
    ensures Fold(ms + [m], w) == Record(Fold(ms, w), m, w)
  {
    assert (ms + [m])[..|ms|] == ms;
  }

  lemma VotersStep(ms: seq<Mark>, k: string)
    requires ms != []
    ensures var p, m := ms[..|ms| - 1], ms[|ms| - 1];
      Distinct(VotersFor(ms, k))
      == if m.key == k then AppendNew(Distinct(VotersFor(p, k)), m.voter) else Distinct(VotersFor(p, k))
  {
    var p, m := ms[..|ms| - 1], ms[|ms| - 1];
    if m.key == k {
      DistinctSnoc(VotersFor(p, k), m.voter);
    } else {
      assert VotersFor(ms, k) == VotersFor(p, k);
    }
  }

  /** A mark naming another destination leaves the description of `k` as it was. */
  lemma OtherKeyStep(ms: seq<Mark>, k: string, w: WeightConfig)
    requires ms != [] && ms[|ms| - 1].key != k
    ensures Expected(ms, k, w) == Expected(ms[..|ms| - 1], k, w)
  {
    var p := ms[..|ms| - 1];
    VotersStep(ms, k);
    if k !in KeysOf(p) {
      AbsentKey(p, k, w);
    }
  }

  /** A mark naming `k` scores its rank on the description so far, or on a fresh one under its spelling. */
  lemma SameKeyStep(ms: seq<Mark>, w: WeightConfig)
    requires ms != []
    ensures var p, m := ms[..|ms| - 1], ms[|ms| - 1];
      var e := if m.key in KeysOf(p) then Expected(p, m.key, w) else Fresh(m.name);
      Expected(ms, m.key, w) == Score(e.(voters := AppendNew(e.voters, m.voter)), m.rank, w)
  {
    var p, m := ms[..|ms| - 1], ms[|ms| - 1];
    VotersStep(ms, m.key);
    if m.key !in KeysOf(p) {
      AbsentKey(p, m.key, w);
    }
  }

  /** The map built by `calculateResults` holds exactly the keys of the marks, in first-seen order. */
  lemma {:induction false} FoldKeys(ms: seq<Mark>, w: WeightConfig)
    ensures Fold(ms, w).keys == Distinct(KeysOf(ms))
    ensures forall k :: k in Fold(ms, w).entries <==> k in KeysOf(ms)
  {
    if ms != [] {
      var p, m := ms[..|ms| - 1], ms[|ms| - 1];
      FoldKeys(p, w);
      DistinctSnoc(KeysOf(p), m.key);
    }
  }

  /** Each entry of that map is the destination `Expected` describes. */
  lemma {:induction false} FoldEntry(ms: seq<Mark>, k: string, w: WeightConfig)
    requires k in KeysOf(ms)
    ensures k in Fold(ms, w).entries && Fold(ms, w).entries[k] == Expected(ms, k, w)
  {
    FoldKeys(ms, w);
    var p, m := ms[..|ms| - 1], ms[|ms| - 1];
    FoldKeys(p, w);
    if m.key == k {
      SameKeyStep(ms, w);
    } else {
      OtherKeyStep(ms, k, w);
    }
    if k in KeysOf(p) {
      FoldEntry(p, k, w);
    }
  }

  /** Every merged destination scores its rank counters times the weights. */
  lemma {:induction false} PointsForFormula(ms: seq<Mark>, k: string, w: WeightConfig)
    ensures PointsFor(ms, k, w)
            == w.first * CountRank(ms, k, 0) + w.second * CountRank(ms, k, 1) + w.third * CountRank(ms, k, 2)
  {
    if ms != [] {
      var p, m := ms[..|ms| - 1], ms[|ms| - 1];
      PointsForFormula(p, k, w);
      if m.key == k {
        if m.rank == 0 {
          MulSucc(w.first, CountRank(p, k, 0));
        } else if m.rank == 1 {
          MulSucc(w.second, CountRank(p, k, 1));
        } else {
          MulSucc(w.third, CountRank(p, k, 2));
        }
      }
    }
  }

  lemma MulSucc(a: int, c: int)
    ensures a * (c + 1) == a * c + a
  {
  }

  // ----- Points conservation -----

  /** The weight of every mark. */
  function MarkPoints(ms: seq<Mark>, w: WeightConfig): int {
    if ms == [] then 0 else MarkPoints(ms[..|ms| - 1], w) + Weight(w, ms[|ms| - 1].rank)
  }

  /** The weight one ballot hands out: its non-blank ranks, or nothing when excluded. */
  function BallotPoints(v: Vote, w: WeightConfig): int {
    if IsExcluded(v) then 0
    else (if IsBlank(v.firstChoice) then 0 else w.first)
         + (if IsBlank(v.secondChoice) then 0 else w.second)
         + (if IsBlank(v.thirdChoice) then 0 else w.third)
  }

  function VotesPoints(votes: seq<Vote>, w: WeightConfig): int {
    if votes == [] then 0 else VotesPoints(votes[..|votes| - 1], w) + BallotPoints(votes[|votes| - 1], w)
  }

  lemma {:induction false} MarkPointsAppend(a: seq<Mark>, b: seq<Mark>, w: WeightConfig)
    ensures MarkPoints(a + b, w) == MarkPoints(a, w) + MarkPoints(b, w)
  {
    if b == [] {
      assert a + b == a;
    } else {
      assert (a + b)[..|a + b| - 1] == a + b[..|b| - 1];
      MarkPointsAppend(a, b[..|b| - 1], w);
    }
  }

  /** The marks of the first `n` choices carry the weights of the non-blank ones among them. */
  lemma ChoiceMarksPoints(v: Vote, n: nat, w: WeightConfig)
    requires 0 < n <= 3
    ensures MarkPoints(ChoiceMarks(v, n), w)
            == MarkPoints(ChoiceMarks(v, n - 1), w) + (if IsBlank(Choices(v)[n - 1]) then 0 else Weight(w, n - 1))
  {
    var tail := if IsBlank(Choices(v)[n - 1]) then [] else [MarkOf(v, n - 1)];
    MarkPointsAppend(ChoiceMarks(v, n - 1), tail, w);
    if tail != [] {
      assert tail[..0] == [];
    }
  }

  lemma VoteMarksPoints(v: Vote, w: WeightConfig)
    ensures MarkPoints(VoteMarks(v), w) == BallotPoints(v, w)
  {
    if !IsExcluded(v) {
      ChoiceMarksPoints(v, 1, w);
      ChoiceMarksPoints(v, 2, w);
      ChoiceMarksPoints(v, 3, w);
    }
  }

  lemma {:induction false} MarksPoints(votes: seq<Vote>, w: WeightConfig)
    ensures MarkPoints(Marks(votes), w) == VotesPoints(votes, w)
  {
    if votes != [] {
      var p, v := votes[..|votes| - 1], votes[|votes| - 1];
      MarksPoints(p, w);
      MarkPointsAppend(Marks(p), VoteMarks(v), w);
      VoteMarksPoints(v, w);
    }
  }

  lemma RecordPoints(t: Table, m: Mark, w: WeightConfig)
    requires WellFormed(t)
    ensures WellFormed(Record(t, m, w))
    ensures Ranking.SumBy(Values(Record(t, m, w)), Points) == Ranking.SumBy(Values(t), Points) + Weight(w, m.rank)
  {
    var t' := Record(t, m, w);
    var x := t'.entries[m.key];
    assert Points(x) == Points(Entry(t, m)) + Weight(w, m.rank);
    if m.key in t.entries {
      var j :| 0 <= j < |t.keys| && t.keys[j] == m.key;
      assert Values(t') == Values(t)[j := x];
      Ranking.SumByUpdate(Values(t), j, x, Points);
    } else {
      assert Values(t') == Values(t) + [x];
      Ranking.SumByAppend(Values(t), [x], Points);
      assert [x][1..] == [];
    }
  }

  lemma {:induction false} FoldPoints(ms: seq<Mark>, w: WeightConfig)
    ensures Ranking.SumBy(Values(Fold(ms, w)), Points) == MarkPoints(ms, w)
  {
    if ms != [] {
      FoldPoints(ms[..|ms| - 1], w);
      RecordPoints(Fold(ms[..|ms| - 1], w), ms[|ms| - 1], w);
    }
  }

  /**
   * Points conservation: the standings share out exactly the weights of the
   * non-blank choices of the counted ballots.
   */
  lemma PointsConserved(votes: seq<Vote>, w: WeightConfig)
    ensures Ranking.SumBy(Results(votes, w), Points) == VotesPoints(votes, w)
  {
    Ranking.SortDescSum(Merged(votes, w), Points);
    FoldPoints(Marks(votes), w);
    MarksPoints(votes, w);
  }

  // ----- The standings -----

  /** The first spelling of a key lower-cases and trims to that key. */
  lemma {:induction false} FirstNameKey(ms: seq<Mark>, k: string)
    requires forall m | m in ms :: Keyed(m)
    requires k in KeysOf(ms)
    ensures Key(FirstName(ms, k)) == k
  {
    var p := ms[..|ms| - 1];
    if k in KeysOf(p) {
      FirstNameKey(p, k);
    } else {
      assert ms[|ms| - 1] in ms;
    }
  }

  /**
   * The merged destinations, before sorting: one per distinct key, in
   * first-seen order, each as `Expected` describes it.
   */
  lemma MergedIsReference(votes: seq<Vote>, w: WeightConfig)
    ensures var ms := Marks(votes); var ks := Distinct(KeysOf(ms));
      |Merged(votes, w)| == |ks|
      && forall i :: 0 <= i < |ks| ==> Merged(votes, w)[i] == Expected(ms, ks[i], w)
  {
    var ms := Marks(votes);
    FoldKeys(ms, w);
    var ks := Distinct(KeysOf(ms));
    forall i | 0 <= i < |ks| ensures Merged(votes, w)[i] == Expected(ms, ks[i], w) {
      FoldEntry(ms, ks[i], w);
    }
  }

  /** The key of a destination's displayed name. */
  function NameKey(r: DestinationResult): string {
    Key(r.name)
  }

  /** Each merged destination: a distinct key, voters listed once, points equal to counters times weights. */
  lemma MergedFacts(votes: seq<Vote>, w: WeightConfig)
    ensures var vs := Merged(votes, w);
      && Ranking.DistinctBy(vs, NameKey)
      && (forall i :: 0 <= i < |vs| ==> NoDup(vs[i].voters))
      && (forall i :: 0 <= i < |vs| ==>
            vs[i].totalPoints == w.first * vs[i].firstVotes + w.second * vs[i].secondVotes + w.third * vs[i].thirdVotes)
  {
    var ms := Marks(votes);
    var vs := Merged(votes, w);
    var ks := Distinct(KeysOf(ms));
    MergedIsReference(votes, w);
    MarksKeyed(votes);
    forall i | 0 <= i < |vs| ensures NameKey(vs[i]) == ks[i] {
      FirstNameKey(ms, ks[i]);
    }
    forall i | 0 <= i < |vs|
      ensures vs[i].totalPoints == w.first * vs[i].firstVotes + w.second * vs[i].secondVotes + w.third * vs[i].thirdVotes
    {
      PointsForFormula(ms, ks[i], w);
    }
  }

  /**
   * The standings are the merged destinations, sorted by points (largest
   * first, ties in first-seen order); no two share a key, each lists its
   * voters once and scores its counters times the weights.
   */
  lemma ResultsSpec(votes: seq<Vote>, w: WeightConfig)
    ensures var rs := Results(votes, w);
      && multiset(rs) == multiset(Merged(votes, w))
      && Ranking.SortedDesc(rs, Points)
      && (forall p :: Ranking.TiesOf(rs, Points, p) == Ranking.TiesOf(Merged(votes, w), Points, p))
      && (forall i, j :: 0 <= i < j < |rs| ==> Key(rs[i].name) != Key(rs[j].name))
      && (forall i :: 0 <= i < |rs| ==> NoDup(rs[i].voters))
      && (forall i :: 0 <= i < |rs| ==>
            rs[i].totalPoints == w.first * rs[i].firstVotes + w.second * rs[i].secondVotes + w.third * rs[i].thirdVotes)
  {
    var vs := Merged(votes, w);
    var rs := Results(votes, w);
    MergedFacts(votes, w);
    Ranking.SortDescDistinctBy(vs, Points, NameKey);
    forall p ensures Ranking.TiesOf(rs, Points, p) == Ranking.TiesOf(vs, Points, p) {
      Ranking.SortDescStable(vs, Points, p);
    }
    forall i | 0 <= i < |rs|
      ensures NoDup(rs[i].voters)
      ensures rs[i].totalPoints == w.first * rs[i].firstVotes + w.second * rs[i].secondVotes + w.third * rs[i].thirdVotes
    {
      assert rs[i] in multiset(vs);
      var j :| 0 <= j < |vs| && vs[j] == rs[i];
    }
    forall i, j | 0 <= i < j < |rs| ensures Key(rs[i].name) != Key(rs[j].name) {
      assert NameKey(rs[i]) != NameKey(rs[j]);
    }
  }

  // ----- Exclusion -----

  /** An excluded ballot, wherever it stands, changes nothing in the standings. */
  lemma ExcludedVoteIgnored(before: seq<Vote>, v: Vote, after: seq<Vote>, w: WeightConfig)
    requires IsExcluded(v)
    ensures Results(before + [v] + after, w) == Results(before + after, w)
  {
    assert Marks(before + [v] + after) == Marks(before + after) by {
      FlatMapAppend(before + [v], after, VoteMarks);
      FlatMapAppend(before, after, VoteMarks);
      assert (before + [v])[..|before|] == before;
      assert Marks(before + [v]) == Marks(before);
    }
  }

  // ----- The imperative computation -----

  /**
   * The body of the inner `forEach` for one non-blank choice: find or create
   * the entry under the choice's key, add the voter unless already listed,
   * and score the rank.
   */
  method RecordChoice(keys: seq<string>, destinations: map<string, DestinationResult>,
                      voter: string, dest: string, index: RankIndex, weightConfig: WeightConfig)
    returns (keys': seq<string>, destinations': map<string, DestinationResult>)
    requires WellFormed(Table(keys, destinations))
    ensures Table(keys', destinations')
            == Record(Table(keys, destinations), Mark(voter, Trim(dest), Key(dest), index), weightConfig)
  {
    ghost var t, m := Table(keys, destinations), Mark(voter, Trim(dest), Key(dest), index);
    keys', destinations' := keys, destinations;
    var key := Trim(ToLower(dest));
    if key !in destinations' {
      destinations' := destinations'[key := DestinationResult(Trim(dest), 0, 0, 0, 0, [])];
      keys' := keys' + [key];
    }
    assert keys' == AppendNew(keys, m.key);
    var result := destinations'[key];
    assert result == Entry(t, m);
    if voter !in result.voters {
      result := result.(voters := result.voters + [voter]);
    }
    assert result == Entry(t, m).(voters := AppendNew(Entry(t, m).voters, voter));
    if index == 0 {
      result := result.(firstVotes := result.firstVotes + 1, totalPoints := result.totalPoints + weightConfig.first);
    } else if index == 1 {
      result := result.(secondVotes := result.secondVotes + 1, totalPoints := result.totalPoints + weightConfig.second);
    } else {
      result := result.(thirdVotes := result.thirdVotes + 1, totalPoints := result.totalPoints + weightConfig.third);
    }
    destinations' := destinations'[key := result];
  }

  /** Recording choice `index` of a ballot: nothing when it is blank, its mark otherwise. */
  lemma ChoiceStep(done: seq<Mark>, vote: Vote, index: RankIndex, w: WeightConfig)
    ensures var before := done + ChoiceMarks(vote, index);
      Fold(done + ChoiceMarks(vote, index + 1), w)
      == if IsBlank(Choices(vote)[index]) then Fold(before, w) else Record(Fold(before, w), MarkOf(vote, index), w)
  {
    var before := done + ChoiceMarks(vote, index);
    if IsBlank(Choices(vote)[index]) {
      assert done + ChoiceMarks(vote, index + 1) == before;
    } else {
      assert done + ChoiceMarks(vote, index + 1) == before + [MarkOf(vote, index)];
      RecordSnoc(before, MarkOf(vote, index), w);
    }
  }

  /** The body of the outer `forEach`: the choices of one counted ballot, in rank order. */
  method RecordVote(keys: seq<string>, destinations: map<string, DestinationResult>,
                    ghost done: seq<Mark>, vote: Vote, weightConfig: WeightConfig)
    returns (keys': seq<string>, destinations': map<string, DestinationResult>)
    requires Table(keys, destinations) == Fold(done, weightConfig)
    ensures Table(keys', destinations') == Fold(done + ChoiceMarks(vote, 3), weightConfig)
  {
    keys', destinations' := keys, destinations;
    var choices := [vote.firstChoice, vote.secondChoice, vote.thirdChoice];
    assert done + ChoiceMarks(vote, 0) == done;
    for index := 0 to 3
      invariant Table(keys', destinations') == Fold(done + ChoiceMarks(vote, index), weightConfig)
    {
      var dest := choices[index];
      ChoiceStep(done, vote, index, weightConfig);
      if !IsBlank(dest) {
        keys', destinations' := RecordChoice(keys', destinations', vote.name, dest, index, weightConfig);
      }
    }
  }

  /**
   * `calculateResults`: the destinations map is filled in place, one choice
   * at a time, and its values are then sorted by points.
   */
  method CalculateResults(votes: seq<Vote>, weightConfig: WeightConfig) returns (results: seq<DestinationResult>)
    ensures results == Results(votes, weightConfig)
    ensures Ranking.SortedDesc(results, Points)
    ensures Ranking.SumBy(results, Points) == VotesPoints(votes, weightConfig)
  {
    var keys: seq<string> := [];
    var destinations: map<string, DestinationResult> := map[];
    for i := 0 to |votes|
      invariant Table(keys, destinations) == Fold(Marks(votes[..i]), weightConfig)
    {
      var vote := votes[i];
      assert Marks(votes[..i + 1]) == Marks(votes[..i]) + VoteMarks(vote) by {
        assert votes[..i + 1][..i] == votes[..i];
      }
      if !IsExcluded(vote) {
        keys, destinations := RecordVote(keys, destinations, Marks(votes[..i]), vote, weightConfig);
      } else {
        assert Marks(votes[..i]) + VoteMarks(vote) == Marks(votes[..i]);
      }
    }
    assert votes[..|votes|] == votes;
    results := Ranking.SortDesc(Values(Table(keys, destinations)), Points);
    PointsConserved(votes, weightConfig);
  }
}
