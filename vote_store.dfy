/**
 * The poll's live state (`useVotes`): the current ballots, the archived
 * rounds and the active point scheme, with the operations that replace them.
 * Each operation builds the new `votes` or `rounds` array from the old one
 * (spread, `filter`, `map`) and stores it, so the state is a class whose
 * methods reassign its fields. Identifiers and timestamps, which the source
 * draws from `crypto.randomUUID()` and `new Date()`, are parameters.
 */
module VoteStore {
  import opened PollTypes
  import opened Seqs
  import Tally
  import Ranking

  // ----- The new arrays, as values -----

  /** `votes.filter(v => v.id !== id)`. */
  function Without(votes: seq<Vote>, id: string): seq<Vote> {
    if votes == [] then []
    else Without(votes[..|votes| - 1], id) + (if votes[|votes| - 1].id == id then [] else [votes[|votes| - 1]])
  }

  /** `{ ...v, excluded: !v.excluded, updatedAt: now }`: an absent flag reads as not excluded. */
  function Flip(v: Vote, now: string): Vote {
    v.(excluded := Some(!IsSet(v.excluded)), updatedAt := now)
  }

  /** `votes.map(v => v.id === id ? Flip(v) : v)`. */
  function Toggled(votes: seq<Vote>, id: string, now: string): (r: seq<Vote>)
    ensures |r| == |votes|
  {
    seq(|votes|, i requires 0 <= i < |votes| => if votes[i].id == id then Flip(votes[i], now) else votes[i])
  }

  /** Removing an id leaves no ballot with it and keeps every other ballot, in order. */
  lemma {:induction false} WithoutSpec(votes: seq<Vote>, id: string)
    ensures forall v | v in Without(votes, id) :: v.id != id && v in votes
    ensures forall v | v in votes && v.id != id :: v in Without(votes, id)
    ensures |Without(votes, id)| <= |votes|
  {
    if votes != [] {
      WithoutSpec(votes[..|votes| - 1], id);
      forall v | v in votes && v.id != id ensures v in Without(votes, id) {
        var j :| 0 <= j < |votes| && votes[j] == v;
        if j < |votes| - 1 {
          assert v in votes[..|votes| - 1];
        }
      }
    }
  }

  /** Filtering distributes over concatenation, so the survivors keep their relative order. */
  lemma {:induction false} WithoutAppend(a: seq<Vote>, b: seq<Vote>, id: string)
    ensures Without(a + b, id) == Without(a, id) + Without(b, id)
  {
    if b == [] {
      assert a + b == a;
    } else {
      assert (a + b)[..|a + b| - 1] == a + b[..|b| - 1];
      WithoutAppend(a, b[..|b| - 1], id);
    }
  }

  /** Deleting an id no ballot carries changes nothing. */
  lemma {:induction false} WithoutMissing(votes: seq<Vote>, id: string)
    requires forall v | v in votes :: v.id != id
    ensures Without(votes, id) == votes
  {
    if votes != [] {
      WithoutMissing(votes[..|votes| - 1], id);
      assert votes[..|votes| - 1] + [votes[|votes| - 1]] == votes;
    }
  }

  /** Deleting twice is deleting once. */
  lemma WithoutIdempotent(votes: seq<Vote>, id: string)
    ensures Without(Without(votes, id), id) == Without(votes, id)
  {
    WithoutSpec(votes, id);
    WithoutMissing(Without(votes, id), id);
  }

  /** Toggling flips the flag of the matching ballots only and stamps them; nothing else moves. */
  lemma ToggledSpec(votes: seq<Vote>, id: string, now: string)
    ensures var r := Toggled(votes, id, now);
      forall i :: 0 <= i < |votes| ==>
        if votes[i].id == id then
          r[i].excluded == Some(!IsSet(votes[i].excluded)) && r[i].updatedAt == now
          && r[i].(excluded := votes[i].excluded, updatedAt := votes[i].updatedAt) == votes[i]
          && (IsExcluded(r[i]) <==> !IsExcluded(votes[i]))
        else r[i] == votes[i]
  {
  }

  /** Toggling a ballot twice gives back its contribution to the standings. */
  lemma ToggleTwiceSameResults(votes: seq<Vote>, id: string, t1: string, t2: string, w: WeightConfig)
    ensures Tally.Results(Toggled(Toggled(votes, id, t1), id, t2), w) == Tally.Results(votes, w)
  {
    var r := Toggled(Toggled(votes, id, t1), id, t2);
    forall i | 0 <= i < |votes| ensures Tally.VoteMarks(r[i]) == Tally.VoteMarks(votes[i]) {
      if votes[i].id == id {
        assert IsExcluded(r[i]) == IsExcluded(votes[i]);
        Tally.ChoiceMarksSame(r[i], votes[i], 3);
      }
    }
    FlatMapPointwise(r, votes, Tally.VoteMarks);
  }

  /** A new ballot adds exactly its own non-blank weights to the points handed out. */
  lemma AddVotePoints(votes: seq<Vote>, v: Vote, w: WeightConfig)
    ensures Ranking.SumBy(Tally.Results(votes + [v], w), Tally.Points)
            == Ranking.SumBy(Tally.Results(votes, w), Tally.Points) + Tally.BallotPoints(v, w)
  {
    Tally.PointsConserved(votes + [v], w);
    Tally.PointsConserved(votes, w);
    assert (votes + [v])[..|votes|] == votes;
  }

  /** Every archived round is numbered by its position and holds the standings of its own ballots and scheme. */
  predicate RoundsValid(rounds: seq<PollRound>) {
    forall i :: 0 <= i < |rounds| ==>
      rounds[i].roundNumber == i + 1 && rounds[i].results == Tally.Results(rounds[i].votes, rounds[i].weightConfig)
  }

  // ----- Import and export -----

  /** The parsed import file: each part may be missing. */
  datatype ImportDocument = ImportDocument(votes: Option<seq<Vote>>, weightConfig: Option<WeightConfig>)

  /** The export file `exportData` writes (rendered as JSON and downloaded). */
  datatype ExportDocument = ExportDocument(votes: seq<Vote>, weightConfig: WeightConfig, exportedAt: string)

  function Export(votes: seq<Vote>, weightConfig: WeightConfig, now: string): (d: ExportDocument) {
    ExportDocument(votes, weightConfig, now)
  }

  /** Reading an export file back: both parts are present. */
  function Reread(d: ExportDocument): ImportDocument {
    ImportDocument(Some(d.votes), Some(d.weightConfig))
  }

  /** The votes and scheme after `importData`: each part present in the file replaces the current one. */
  function Imported(votes: seq<Vote>, weightConfig: WeightConfig, doc: ImportDocument): (seq<Vote>, WeightConfig) {
    (if doc.votes.Some? then doc.votes.value else votes,
     if doc.weightConfig.Some? then doc.weightConfig.value else weightConfig)
  }

  /** Importing an export restores its ballots and scheme, whatever the state before. */
  lemma ExportImportRoundTrip(votes: seq<Vote>, weightConfig: WeightConfig, now: string,
                              votes0: seq<Vote>, weightConfig0: WeightConfig)
    ensures Imported(votes0, weightConfig0, Reread(Export(votes, weightConfig, now))) == (votes, weightConfig)
  {
  }

  /** An import with neither part leaves the state as it was. */
  lemma EmptyImportNoop(votes: seq<Vote>, weightConfig: WeightConfig)
    ensures Imported(votes, weightConfig, ImportDocument(None, None)) == (votes, weightConfig)
  {
  }

  // ----- The state -----

  class PollStore {
    var votes: seq<Vote>
    var rounds: seq<PollRound>
    var weightConfig: WeightConfig

    /** An empty poll with the 3-2-1 scheme active. */
    constructor ()
      ensures votes == [] && rounds == [] && weightConfig == DefaultWeightConfigs()[0]
      ensures RoundsValid(rounds)
    {
      votes := [];
      rounds := [];
      weightConfig := DefaultWeightConfigs()[0];
    }

    /** `addVote`: appends the ballot with a fresh id and equal creation and update stamps. */
    method AddVote(name: string, firstChoice: string, secondChoice: string, thirdChoice: string,
                   excluded: Option<bool>, id: string, now: string) returns (newVote: Vote)
      modifies this
      ensures newVote == Vote(id, name, firstChoice, secondChoice, thirdChoice, now, now, excluded)
      ensures newVote.createdAt == newVote.updatedAt
      ensures votes == old(votes) + [newVote]
      ensures rounds == old(rounds) && weightConfig == old(weightConfig)
    {
      newVote := Vote(id, name, firstChoice, secondChoice, thirdChoice, now, now, excluded);
      votes := votes + [newVote];
    }

    /** `deleteVote`: keeps the ballots with another id, in order. */
    method DeleteVote(id: string)
      modifies this
      ensures votes == Without(old(votes), id)
      ensures forall v | v in votes :: v.id != id
      ensures forall v | v in old(votes) && v.id != id :: v in votes
      ensures rounds == old(rounds) && weightConfig == old(weightConfig)
    {
      WithoutSpec(votes, id);
      votes := Without(votes, id);
    }

    /** `toggleExcludeVote`: flips the flag of the ballots with this id and stamps them. */
    method ToggleExcludeVote(id: string, now: string)
      modifies this
      ensures votes == Toggled(old(votes), id, now)
      ensures rounds == old(rounds) && weightConfig == old(weightConfig)
    {
      votes := Toggled(votes, id, now);
    }

    /**
     * `archiveAndResetPoll`: appends one round holding every ballot (excluded
     * ones too), the standings computed from them and a copy of the scheme,
     * then clears the ballots.
     */
    method ArchiveAndResetPoll(roundId: string, now: string) returns (newRound: PollRound)
      modifies this
      ensures newRound == PollRound(roundId, |old(rounds)| + 1, now, old(votes),
                                    Tally.Results(old(votes), old(weightConfig)), old(weightConfig))
      ensures rounds == old(rounds) + [newRound]
      ensures votes == [] && weightConfig == old(weightConfig)
      ensures RoundsValid(old(rounds)) ==> RoundsValid(rounds)
    {
      ghost var before := rounds;
      var results := Tally.CalculateResults(votes, weightConfig);
      newRound := PollRound(roundId, |rounds| + 1, now, votes, results, weightConfig);
      rounds := rounds + [newRound];
      votes := [];
      if RoundsValid(before) {
        forall i | 0 <= i < |rounds|
          ensures rounds[i].roundNumber == i + 1
          ensures rounds[i].results == Tally.Results(rounds[i].votes, rounds[i].weightConfig)
        {
          if i < |before| {
            assert rounds[i] == before[i];
          }
        }
      }
    }

    /** `setWeightConfig`: the scheme is replaced as given. */
    method SetWeightConfig(config: WeightConfig)
      modifies this
      ensures weightConfig == config
      ensures votes == old(votes) && rounds == old(rounds)
    {
      weightConfig := config;
    }

    /** `importData` on a parsed file: the parts present replace the current ones; no schema is applied. */
    method ImportData(doc: ImportDocument)
      modifies this
      ensures (votes, weightConfig) == Imported(old(votes), old(weightConfig), doc)
      ensures rounds == old(rounds)
    {
      if doc.votes.Some? {
        votes := doc.votes.value;
      }
      if doc.weightConfig.Some? {
        weightConfig := doc.weightConfig.value;
      }
    }

    /** `exportData`: the current ballots and scheme with the export time. */
    method ExportData(now: string) returns (d: ExportDocument)
      ensures d == Export(votes, weightConfig, now)
      ensures Imported([], weightConfig, Reread(d)) == (votes, weightConfig)
    {
      d := ExportDocument(votes, weightConfig, now);
    }
  }
}
