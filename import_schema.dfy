/**
 * The schemas an import file is checked against (`VoteSchema`,
 * `WeightConfigSchema`, `ImportDataSchema`), stated on a JSON value, and the
 * JSON the export writes. A schema either accepts a value and yields the
 * typed record, with unknown keys dropped, or rejects it whole. The store's
 * own import reads the parsed file without applying these schemas; they say
 * which files are well formed.
 */
module ImportSchema {
  import opened PollTypes
  import VoteStore

  /** A parsed JSON value. Numbers are exact reals; JSON has no `undefined`, so an absent key is simply missing. */
  datatype Json =
    | JNull
    | JBool(b: bool)
    | JNum(n: real)
    | JStr(s: string)
    | JArr(items: seq<Json>)
    | JObj(fields: map<string, Json>)

  type Fields = map<string, Json>

  // ----- Field rules -----

  /** `z.string().min(lo).max(hi)`. */
  predicate StringIn(m: Fields, key: string, lo: nat, hi: nat) {
    key in m && m[key].JStr? && lo <= |m[key].s| <= hi
  }

  /** `z.string()`. */
  predicate IsString(m: Fields, key: string) {
    key in m && m[key].JStr?
  }

  /** `z.number().int().min(0).max(1000)`. */
  predicate PointsIn(m: Fields, key: string) {
    key in m && m[key].JNum? && m[key].n.Floor as real == m[key].n && 0.0 <= m[key].n <= 1000.0
  }

  /** `z.boolean().optional()`. */
  predicate OptionalBool(m: Fields, key: string) {
    key !in m || m[key].JBool?
  }

  function BoolField(m: Fields, key: string): Option<bool> {
    if key in m && m[key].JBool? then Some(m[key].b) else None
  }

  // ----- VoteSchema -----

  /** `VoteSchema.safeParse`: the ballot, or `None` when any field breaks its rule. */
  function ParseVote(j: Json): (r: Option<Vote>)
    ensures r.Some? ==> 1 <= |r.value.id| <= 100 && 1 <= |r.value.name| <= 200
    ensures r.Some? ==> |r.value.firstChoice| <= 200 && |r.value.secondChoice| <= 200 && |r.value.thirdChoice| <= 200
  {
    if !j.JObj? then None
    else
      var m := j.fields;
      if StringIn(m, "id", 1, 100) && StringIn(m, "name", 1, 200)
         && StringIn(m, "firstChoice", 0, 200) && StringIn(m, "secondChoice", 0, 200) && StringIn(m, "thirdChoice", 0, 200)
         && IsString(m, "createdAt") && IsString(m, "updatedAt") && OptionalBool(m, "excluded")
      then Some(Vote(m["id"].s, m["name"].s, m["firstChoice"].s, m["secondChoice"].s, m["thirdChoice"].s,
                     m["createdAt"].s, m["updatedAt"].s, BoolField(m, "excluded")))
      else None
  }

  /** The bounds a ballot must meet to pass `VoteSchema`. */
  predicate VoteFits(v: Vote) {
    1 <= |v.id| <= 100 && 1 <= |v.name| <= 200
    && |v.firstChoice| <= 200 && |v.secondChoice| <= 200 && |v.thirdChoice| <= 200
  }

  /** `z.array(VoteSchema)`: every element must pass, or the whole array is rejected. */
  function ParseVotes(items: seq<Json>): (r: Option<seq<Vote>>)
    ensures r.Some? <==> forall i :: 0 <= i < |items| ==> ParseVote(items[i]).Some?
    ensures r.Some? ==> |r.value| == |items| && forall i :: 0 <= i < |items| ==> ParseVote(items[i]) == Some(r.value[i])
  {
    if items == [] then Some([])
    else
      match ParseVote(items[0])
      case None => None
      case Some(v) =>
        match ParseVotes(items[1..])
        case None =>
          assert !forall i :: 0 <= i < |items| ==> ParseVote(items[i]).Some? by {
            var k :| 0 <= k < |items[1..]| && ParseVote(items[1..][k]).None?;
            assert items[k + 1] == items[1..][k];
          }
          None
        case Some(vs) =>
          assert forall i :: 1 <= i < |items| ==> items[i] == items[1..][i - 1];
          Some([v] + vs)
  }

  // ----- WeightConfigSchema -----

  /** `WeightConfigSchema.safeParse`. */
  function ParseWeightConfig(j: Json): (r: Option<WeightConfig>)
    ensures r.Some? ==> 1 <= |r.value.id| <= 100 && 1 <= |r.value.name| <= 100
    ensures r.Some? ==> 0 <= r.value.first <= 1000 && 0 <= r.value.second <= 1000 && 0 <= r.value.third <= 1000
  {
    if !j.JObj? then None
    else
      var m := j.fields;
      if StringIn(m, "id", 1, 100) && StringIn(m, "name", 1, 100)
         && PointsIn(m, "first") && PointsIn(m, "second") && PointsIn(m, "third")
      then Some(WeightConfig(m["id"].s, m["name"].s, m["first"].n.Floor, m["second"].n.Floor, m["third"].n.Floor))
      else None
  }

  /** The bounds a point scheme must meet to pass `WeightConfigSchema`. */
  predicate ConfigFits(c: WeightConfig) {
    1 <= |c.id| <= 100 && 1 <= |c.name| <= 100
    && 0 <= c.first <= 1000 && 0 <= c.second <= 1000 && 0 <= c.third <= 1000
  }

  // ----- ImportDataSchema -----

  /** What `ImportDataSchema` yields: each part may be absent. */
  datatype ValidatedImport = ValidatedImport(votes: Option<seq<Vote>>, weightConfig: Option<WeightConfig>,
                                             exportedAt: Option<string>)

  /** `ImportDataSchema.safeParse`: every part present must pass; an absent part is fine. */
  function ParseImport(j: Json): Option<ValidatedImport> {
    if !j.JObj? then None
    else
      var m := j.fields;
      var votes := if "votes" !in m then Some(None)
                   else if !m["votes"].JArr? then None
                   else match ParseVotes(m["votes"].items)
                        case None => None
                        case Some(vs) => Some(Some(vs));
      var config := if "weightConfig" !in m then Some(None)
                    else match ParseWeightConfig(m["weightConfig"])
                         case None => None
                         case Some(c) => Some(Some(c));
      var exportedAt := if "exportedAt" !in m then Some(None)
                        else if m["exportedAt"].JStr? then Some(Some(m["exportedAt"].s))
                        else None;
      if votes.Some? && config.Some? && exportedAt.Some? then
        Some(ValidatedImport(votes.value, config.value, exportedAt.value))
      else None
  }

  /** All or nothing: a file is accepted exactly when every part it has is valid, down to each ballot. */
  lemma ImportAllOrNothing(m: Fields)
    ensures ParseImport(JObj(m)).Some? <==>
      ("votes" in m ==> m["votes"].JArr? && forall i :: 0 <= i < |m["votes"].items| ==> ParseVote(m["votes"].items[i]).Some?)
      && ("weightConfig" in m ==> ParseWeightConfig(m["weightConfig"]).Some?)
      && ("exportedAt" in m ==> m["exportedAt"].JStr?)
    ensures ParseImport(JObj(m)).Some? ==>
      var d := ParseImport(JObj(m)).value;
      (d.votes.Some? <==> "votes" in m) && (d.weightConfig.Some? <==> "weightConfig" in m)
      && (d.exportedAt.Some? <==> "exportedAt" in m)
  {
  }

  /** Keys the ballot schema does not name are dropped and do not affect acceptance. */
  lemma UnknownKeysIgnored(m: Fields, key: string, x: Json)
    requires key !in {"id", "name", "firstChoice", "secondChoice", "thirdChoice", "createdAt", "updatedAt", "excluded"}
    ensures ParseVote(JObj(m[key := x])) == ParseVote(JObj(m))
  {
  }

  // ----- The export file -----

  /** A ballot as `JSON.stringify` writes it: an absent `excluded` is left out. */
  function EncodeVote(v: Vote): Json {
    var fields := map["id" := JStr(v.id), "name" := JStr(v.name), "firstChoice" := JStr(v.firstChoice),
                      "secondChoice" := JStr(v.secondChoice), "thirdChoice" := JStr(v.thirdChoice),
                      "createdAt" := JStr(v.createdAt), "updatedAt" := JStr(v.updatedAt)];
    JObj(if v.excluded.Some? then fields["excluded" := JBool(v.excluded.value)] else fields)
  }

  function EncodeWeightConfig(c: WeightConfig): Json {
    JObj(map["id" := JStr(c.id), "name" := JStr(c.name),
             "first" := JNum(c.first as real), "second" := JNum(c.second as real), "third" := JNum(c.third as real)])
  }

  function EncodeVotes(votes: seq<Vote>): (r: seq<Json>)
    ensures |r| == |votes|
  {
    seq(|votes|, i requires 0 <= i < |votes| => EncodeVote(votes[i]))
  }

  /** The JSON text of an export file. */
  function EncodeExport(d: VoteStore.ExportDocument): Json {
    JObj(map["votes" := JArr(EncodeVotes(d.votes)), "weightConfig" := EncodeWeightConfig(d.weightConfig),
             "exportedAt" := JStr(d.exportedAt)])
  }

  /** A written ballot reads back as itself exactly when it meets the ballot bounds. */
  lemma VoteRoundTrip(v: Vote)
    ensures ParseVote(EncodeVote(v)) == if VoteFits(v) then Some(v) else None
  {
  }

  /** A written scheme reads back as itself exactly when it meets the scheme bounds. */
  lemma WeightConfigRoundTrip(c: WeightConfig)
    ensures ParseWeightConfig(EncodeWeightConfig(c)) == if ConfigFits(c) then Some(c) else None
  {
  }

  lemma {:induction false} VotesRoundTrip(votes: seq<Vote>)
    requires forall i :: 0 <= i < |votes| ==> VoteFits(votes[i])
    ensures ParseVotes(EncodeVotes(votes)) == Some(votes)
  {
    var r := ParseVotes(EncodeVotes(votes));
    forall i | 0 <= i < |votes| ensures ParseVote(EncodeVotes(votes)[i]) == Some(votes[i]) {
      VoteRoundTrip(votes[i]);
    }
    assert r.Some?;
    assert r.value == votes;
  }

  /** The export file is read part by part: each of the three parts is present and read on its own. */
  lemma ImportOfExport(d: VoteStore.ExportDocument)
    ensures var vs := ParseVotes(EncodeVotes(d.votes));
      var c := ParseWeightConfig(EncodeWeightConfig(d.weightConfig));
      ParseImport(EncodeExport(d))
        == if vs.Some? && c.Some? then Some(ValidatedImport(Some(vs.value), Some(c.value), Some(d.exportedAt))) else None
  {
    var m := EncodeExport(d).fields;
    assert "votes" in m && m["votes"] == JArr(EncodeVotes(d.votes));
    assert "weightConfig" in m && m["weightConfig"] == EncodeWeightConfig(d.weightConfig);
    assert "exportedAt" in m && m["exportedAt"] == JStr(d.exportedAt);
  }

  /**
   * An export file passes the import schema exactly when every ballot and the
   * scheme meet their bounds, and then yields the exported ballots and scheme,
   * the same parts the store's import puts back.
   */
  lemma ExportPassesSchema(d: VoteStore.ExportDocument)
    ensures ParseImport(EncodeExport(d)).Some? <==>
      (forall i :: 0 <= i < |d.votes| ==> VoteFits(d.votes[i])) && ConfigFits(d.weightConfig)
    ensures ParseImport(EncodeExport(d)).Some? ==>
      ParseImport(EncodeExport(d)) == Some(ValidatedImport(Some(d.votes), Some(d.weightConfig), Some(d.exportedAt)))
      && VoteStore.Reread(d) == VoteStore.ImportDocument(Some(d.votes), Some(d.weightConfig))
  {
    ImportOfExport(d);
    WeightConfigRoundTrip(d.weightConfig);
    var items := EncodeVotes(d.votes);
    forall i | 0 <= i < |d.votes| ensures ParseVote(items[i]).Some? <==> VoteFits(d.votes[i]) {
      VoteRoundTrip(d.votes[i]);
    }
    if forall i :: 0 <= i < |d.votes| ==> VoteFits(d.votes[i]) {
      VotesRoundTrip(d.votes);
    }
  }

  /** Every built-in scheme passes the scheme schema once written out. */
  lemma PresetsImportable()
    ensures forall i :: 0 <= i < |DefaultWeightConfigs()| ==>
      ParseWeightConfig(EncodeWeightConfig(DefaultWeightConfigs()[i])) == Some(DefaultWeightConfigs()[i])
  {
    var presets := DefaultWeightConfigs();
    forall i | 0 <= i < |presets|
      ensures ParseWeightConfig(EncodeWeightConfig(presets[i])) == Some(presets[i])
    {
      WeightConfigRoundTrip(presets[i]);
    }
  }

  /** A scheme with a negative point value, which the editor stores, fails the scheme schema once written out. */
  lemma NegativePointsRefused(c: WeightConfig)
    requires c.first < 0 || c.second < 0 || c.third < 0
    ensures ParseWeightConfig(EncodeWeightConfig(c)) == None
  {
    WeightConfigRoundTrip(c);
  }

  /** A ballot with an empty name fails the ballot schema, and with it the whole export file fails the import schema. */
  lemma EmptyNameRefused(d: VoteStore.ExportDocument, i: nat)
    requires i < |d.votes| && d.votes[i].name == ""
    ensures ParseVote(EncodeVote(d.votes[i])) == None
    ensures ParseImport(EncodeExport(d)) == None
  {
    ExportPassesSchema(d);
  }
}
