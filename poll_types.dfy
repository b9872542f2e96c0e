/**
 * The poll's records: a ballot (`Vote`), a point scheme (`WeightConfig`), one
 * row of the standings (`DestinationResult`) and an archived round
 * (`PollRound`), plus the three built-in point schemes.
 */
module PollTypes {

  datatype Option<T> = None | Some(value: T)

  /**
   * One participant's ballot. `excluded` is optional in the source: an absent
   * flag and `false` both mean the ballot is counted.
   */
  datatype Vote = Vote(
    id: string,
    name: string,
    firstChoice: string,
    secondChoice: string,
    thirdChoice: string,
    createdAt: string,
    updatedAt: string,
    excluded: Option<bool>)

  /** The truth value of an optional flag: only an explicit `true` counts. */
  predicate IsSet(flag: Option<bool>) {
    flag == Some(true)
  }

  /** `!v.excluded` is false only for an explicit `true`. */
  predicate IsExcluded(v: Vote) {
    IsSet(v.excluded)
  }

  /** Points per rank. Plain integers: a custom edit may store a negative value. */
  datatype WeightConfig = WeightConfig(id: string, name: string, first: int, second: int, third: int)

  /** One destination of the standings. */
  datatype DestinationResult = DestinationResult(
    name: string,
    totalPoints: int,
    firstVotes: nat,
    secondVotes: nat,
    thirdVotes: nat,
    voters: seq<string>)

  /** An archived round: the ballots, the standings computed from them and the scheme used. */
  datatype PollRound = PollRound(
    id: string,
    roundNumber: nat,
    timestamp: string,
    votes: seq<Vote>,
    results: seq<DestinationResult>,
    weightConfig: WeightConfig)

  /** The custom scheme's id, written by every manual edit of the points. */
  const CustomId: string := "custom"

  /** `DEFAULT_WEIGHT_CONFIGS`: 3-2-1, 5-3-1 and 10-5-2. */
  function DefaultWeightConfigs(): (r: seq<WeightConfig>)
    ensures |r| == 3
    ensures forall i, j :: 0 <= i < j < |r| ==> r[i].id != r[j].id
    ensures forall i :: 0 <= i < |r| ==> r[i].id != CustomId
    ensures forall i :: 0 <= i < |r| ==> r[i].first > r[i].second > r[i].third >= 1
    ensures forall i :: 0 <= i < |r| ==> 1 <= |r[i].id| <= 100 && 1 <= |r[i].name| <= 100
    ensures forall i :: 0 <= i < |r| ==> 0 <= r[i].third && r[i].first <= 1000
    ensures r[0].first == 3 && r[0].second == 2 && r[0].third == 1
  {
    [ WeightConfig("default", "Default (3-2-1)", 3, 2, 1),
      WeightConfig("light", "Lightly Skewed (5-3-1)", 5, 3, 1),
      WeightConfig("heavy", "Heavily Skewed (10-5-2)", 10, 5, 2) ]
  }
}
