/**
 * The map view of the standings. Each destination is looked up as a country
 * (through the location-to-country table, falling back to its own lower-cased
 * trimmed name); destinations with no country entry are dropped. The rest are
 * rolled up into one marker per country and one per continent, adding points
 * and rank counters and merging voter lists; countries are sorted by points
 * and coloured by their place. The geography tables are parameters.
 */
module MapResults {
  import opened PollTypes
  import opened Text
  import opened Seqs
  import Tally
  import Ranking

  /**
   * The geography tables: `LOCATION_TO_COUNTRY`, and the continent of each
   * country of `COUNTRY_DATA` (coordinates are not modelled).
   */
  datatype Geo = Geo(locations: map<string, string>, continentOf: map<string, string>)

  /** `table[k] || k`: a missing or empty entry falls back to the key itself. */
  function Lookup(table: map<string, string>, k: string): string {
    if k in table && table[k] != "" then table[k] else k
  }

  function CountryKey(geo: Geo, r: DestinationResult): string {
    Lookup(geo.locations, Tally.Key(r.name))
  }

  /** `if (geo)`: the destination has a country entry. */
  predicate Located(geo: Geo, r: DestinationResult) {
    CountryKey(geo, r) in geo.continentOf
  }

  /** The country a destination rolls up into, if any. */
  function CountryGroup(geo: Geo): DestinationResult -> Option<string> {
    r => if Located(geo, r) then Some(CountryKey(geo, r)) else None
  }

  /** The continent a destination rolls up into, if any. */
  function ContinentGroup(geo: Geo): DestinationResult -> Option<string> {
    r => if Located(geo, r) then Some(geo.continentOf[CountryKey(geo, r)]) else None
  }

  function AsIs(s: string): string {
    s
  }

  function FirstVotes(r: DestinationResult): int {
    r.firstVotes
  }

  function SecondVotes(r: DestinationResult): int {
    r.secondVotes
  }

  function ThirdVotes(r: DestinationResult): int {
    r.thirdVotes
  }

  // ----- The roll-up, as a function -----

  /** A later destination of the same group: counters and points add up, new voters are appended. */
  function Absorb(e: DestinationResult, r: DestinationResult): DestinationResult {
    e.(totalPoints := e.totalPoints + r.totalPoints, firstVotes := e.firstVotes + r.firstVotes,
       secondVotes := e.secondVotes + r.secondVotes, thirdVotes := e.thirdVotes + r.thirdVotes,
       voters := UnionInto(e.voters, r.voters))
  }

  /** One destination added to its group: a copy under the group's label on first sight, absorbed afterwards. */
  function Add(t: Tally.Table, k: string, title: string, r: DestinationResult): Tally.Table {
    if k in t.entries then Tally.Table(t.keys, t.entries[k := Absorb(t.entries[k], r)])
    else Tally.Table(t.keys + [k], t.entries[k := r.(name := title)])
  }

  /** The groups after every destination has been added, in first-seen order. */
  function GroupBy(rs: seq<DestinationResult>, group: DestinationResult -> Option<string>,
                   naming: string -> string): (t: Tally.Table)
    ensures Tally.WellFormed(t)
  {
    if rs == [] then Tally.Table([], map[])
    else
      var t := GroupBy(rs[..|rs| - 1], group, naming);
      var r := rs[|rs| - 1];
      match group(r)
      case None => t
      case Some(k) => Add(t, k, naming(k), r)
  }

  // ----- The reference description of a group -----

  /** The groups some destination falls into. */
  function GroupKeys(rs: seq<DestinationResult>, group: DestinationResult -> Option<string>): set<string> {
    if rs == [] then {}
    else GroupKeys(rs[..|rs| - 1], group) + (match group(rs[|rs| - 1]) case None => {} case Some(k) => {k})
  }

  /** The sum of `f` over the destinations of group `k`. */
  function ShareOf(rs: seq<DestinationResult>, group: DestinationResult -> Option<string>, k: string,
                   f: DestinationResult -> int): int {
    if rs == [] then 0
    else ShareOf(rs[..|rs| - 1], group, k, f) + (if group(rs[|rs| - 1]) == Some(k) then f(rs[|rs| - 1]) else 0)
  }

  function AsSet(s: seq<string>): set<string> {
    set v | v in s
  }

  /** Everyone who voted for some destination of group `k`. */
  function MembersOf(rs: seq<DestinationResult>, group: DestinationResult -> Option<string>, k: string): set<string> {
    if rs == [] then {}
    else MembersOf(rs[..|rs| - 1], group, k)
         + (if group(rs[|rs| - 1]) == Some(k) then AsSet(rs[|rs| - 1].voters) else {})
  }

  /** The points of every destination that falls into some group. */
  function Total(rs: seq<DestinationResult>, group: DestinationResult -> Option<string>): int {
    if rs == [] then 0 else Total(rs[..|rs| - 1], group) + (if group(rs[|rs| - 1]).Some? then rs[|rs| - 1].totalPoints else 0)
  }

  lemma {:induction false} AbsentGroup(rs: seq<DestinationResult>, group: DestinationResult -> Option<string>, k: string)
    requires k !in GroupKeys(rs, group)
    ensures ShareOf(rs, group, k, Tally.Points) == 0 && ShareOf(rs, group, k, FirstVotes) == 0
    ensures ShareOf(rs, group, k, SecondVotes) == 0 && ShareOf(rs, group, k, ThirdVotes) == 0
    ensures MembersOf(rs, group, k) == {}
  {
    if rs != [] {
      AbsentGroup(rs[..|rs| - 1], group, k);
    }
  }

  /** The entry of a group holds the sums over its destinations, under the group's label. */
  predicate EntryMatches(t: Tally.Table, rs: seq<DestinationResult>, group: DestinationResult -> Option<string>,
                         naming: string -> string, k: string)
    requires k in t.entries
  {
    var e := t.entries[k];
    e.name == naming(k)
    && e.totalPoints == ShareOf(rs, group, k, Tally.Points) && e.firstVotes == ShareOf(rs, group, k, FirstVotes)
    && e.secondVotes == ShareOf(rs, group, k, SecondVotes) && e.thirdVotes == ShareOf(rs, group, k, ThirdVotes)
    && AsSet(e.voters) == MembersOf(rs, group, k)
  }

  /**
   * There is one entry per group some destination falls into; it is labelled
   * after the group and holds the sums of the points and rank counters of the
   * group's destinations and the union of their voters.
   */
  lemma {:induction false} GroupEntry(rs: seq<DestinationResult>, group: DestinationResult -> Option<string>,
                                      naming: string -> string, k: string)
    ensures k in GroupBy(rs, group, naming).entries <==> k in GroupKeys(rs, group)
    ensures k in GroupBy(rs, group, naming).entries ==> EntryMatches(GroupBy(rs, group, naming), rs, group, naming, k)
  {
    if rs != [] {
      var p := rs[..|rs| - 1];
      var r := rs[|rs| - 1];
      GroupEntry(p, group, naming, k);
      if group(r) == Some(k) && k !in GroupBy(p, group, naming).entries {
        AbsentGroup(p, group, k);
      }
    }
  }

  /** Adding a destination to its group adds its points to the sum over all entries. */
  lemma AddPoints(t: Tally.Table, k: string, title: string, r: DestinationResult)
    requires Tally.WellFormed(t)
    ensures Tally.WellFormed(Add(t, k, title, r))
    ensures Ranking.SumBy(Tally.Values(Add(t, k, title, r)), Tally.Points)
            == Ranking.SumBy(Tally.Values(t), Tally.Points) + r.totalPoints
  {
    if k in t.entries {
      AbsorbPoints(t, k, r);
    } else {
      var t' := Add(t, k, title, r);
      var x := t'.entries[k];
      assert Tally.Values(t') == Tally.Values(t) + [x];
      Ranking.SumByAppend(Tally.Values(t), [x], Tally.Points);
      assert [x][1..] == [];
    }
  }

  lemma AbsorbPoints(t: Tally.Table, k: string, r: DestinationResult)
    requires Tally.WellFormed(t) && k in t.entries
    ensures Tally.WellFormed(Tally.Table(t.keys, t.entries[k := Absorb(t.entries[k], r)]))
    ensures Ranking.SumBy(Tally.Values(Tally.Table(t.keys, t.entries[k := Absorb(t.entries[k], r)])), Tally.Points)
            == Ranking.SumBy(Tally.Values(t), Tally.Points) + r.totalPoints
  {
    var x := Absorb(t.entries[k], r);
    var t' := Tally.Table(t.keys, t.entries[k := x]);
    var j :| 0 <= j < |t.keys| && t.keys[j] == k;
    assert Tally.Values(t') == Tally.Values(t)[j := x];
    Ranking.SumByUpdate(Tally.Values(t), j, x, Tally.Points);
  }

  /** The entries together hold the points of every destination that falls into a group. */
  lemma {:induction false} GroupPoints(rs: seq<DestinationResult>, group: DestinationResult -> Option<string>,
                                       naming: string -> string)
    ensures Ranking.SumBy(Tally.Values(GroupBy(rs, group, naming)), Tally.Points) == Total(rs, group)
  {
    if rs != [] {
      var p := rs[..|rs| - 1];
      GroupPoints(p, group, naming);
      var r := rs[|rs| - 1];
      if group(r).Some? {
        AddPoints(GroupBy(p, group, naming), group(r).value, naming(group(r).value), r);
      }
    }
  }

  /** Voter lists stay free of repetitions when each destination's list is. */
  lemma {:induction false} GroupNoDup(rs: seq<DestinationResult>, group: DestinationResult -> Option<string>,
                                      naming: string -> string)
    requires forall i :: 0 <= i < |rs| ==> NoDup(rs[i].voters)
    ensures forall k | k in GroupBy(rs, group, naming).entries :: NoDup(GroupBy(rs, group, naming).entries[k].voters)
  {
    if rs != [] {
      GroupNoDup(rs[..|rs| - 1], group, naming);
    }
  }

  /** A destination with a country entry falls into a country and a continent, or into neither. */
  lemma {:induction false} TotalsAgree(geo: Geo, rs: seq<DestinationResult>)
    ensures Total(rs, CountryGroup(geo)) == Total(rs, ContinentGroup(geo))
  {
    if rs != [] {
      TotalsAgree(geo, rs[..|rs| - 1]);
    }
  }

  /** Every country that gets a marker has a country entry. */
  lemma {:induction false} CountryKeysLocated(geo: Geo, rs: seq<DestinationResult>)
    ensures forall k | k in GroupKeys(rs, CountryGroup(geo)) :: k in geo.continentOf
  {
    if rs != [] {
      CountryKeysLocated(geo, rs[..|rs| - 1]);
    }
  }

  /** A destination with no country entry changes neither roll-up. */
  lemma UnlocatedIgnored(geo: Geo, rs: seq<DestinationResult>, r: DestinationResult)
    requires !Located(geo, r)
    ensures GroupBy(rs + [r], CountryGroup(geo), Capitalize) == GroupBy(rs, CountryGroup(geo), Capitalize)
    ensures GroupBy(rs + [r], ContinentGroup(geo), AsIs) == GroupBy(rs, ContinentGroup(geo), AsIs)
  {
    assert (rs + [r])[..|rs|] == rs;
  }

  // ----- Colours and markers -----

  datatype Color = Green | Orange | Red

  /** `getColor(index, total)`: the top three green, the rest of the upper half orange, the others red. */
  function GetColor(index: nat, total: nat): Color {
    if index < 3 && total > 0 then Green
    else if 2 * index < total then Orange
    else Red
  }

  function Tier(c: Color): nat {
    match c
    case Green => 0
    case Orange => 1
    case Red => 2
  }

  /** Down the list, colours only move from green to orange to red, and the first min(3, n) places are green. */
  lemma ColorTiers(n: nat)
    ensures forall i, j :: 0 <= i <= j < n ==> Tier(GetColor(i, n)) <= Tier(GetColor(j, n))
    ensures forall i :: 0 <= i < n ==> (GetColor(i, n) == Green <==> i < 3)
    ensures forall i :: 3 <= i < n ==> (GetColor(i, n) == Orange <==> 2 * i < n)
  {
  }

  /** A country marker: the rolled-up standings row, its continent and its colour. */
  datatype CountryMarker = CountryMarker(result: DestinationResult, continent: string, color: Color)

  /** A country entry with the continent it was created with. */
  datatype Country = Country(result: DestinationResult, continent: string)

  function CountryPoints(c: Country): int {
    c.result.totalPoints
  }

  /** `Object.values(countries)`, each with its continent. */
  function Countries(geo: Geo, t: Tally.Table): (cs: seq<Country>)
    requires Tally.WellFormed(t)
    requires forall k | k in t.entries :: k in geo.continentOf
    ensures |cs| == |t.keys|
    ensures forall i :: 0 <= i < |t.keys| ==> cs[i] == Country(t.entries[t.keys[i]], geo.continentOf[t.keys[i]])
  {
    seq(|t.keys|, i requires 0 <= i < |t.keys| => Country(t.entries[t.keys[i]], geo.continentOf[t.keys[i]]))
  }

  lemma CountriesPoints(geo: Geo, t: Tally.Table)
    requires Tally.WellFormed(t)
    requires forall k | k in t.entries :: k in geo.continentOf
    ensures Ranking.SumBy(Countries(geo, t), CountryPoints) == Ranking.SumBy(Tally.Values(t), Tally.Points)
  {
    SumByPair(Countries(geo, t), Tally.Values(t));
  }

  lemma {:induction false} SumByPair(cs: seq<Country>, rs: seq<DestinationResult>)
    requires |cs| == |rs| && forall i :: 0 <= i < |cs| ==> cs[i].result == rs[i]
    ensures Ranking.SumBy(cs, CountryPoints) == Ranking.SumBy(rs, Tally.Points)
  {
    if cs != [] {
      SumByPair(cs[1..], rs[1..]);
    }
  }

  /** The country markers, sorted by points, coloured by place. */
  function Colored(sorted: seq<Country>): (ms: seq<CountryMarker>)
    ensures |ms| == |sorted|
  {
    seq(|sorted|, i requires 0 <= i < |sorted| =>
      CountryMarker(sorted[i].result, sorted[i].continent, GetColor(i, |sorted|)))
  }

  /** A marker without its colour. */
  function Uncolored(ms: seq<CountryMarker>): (cs: seq<Country>)
    ensures |cs| == |ms|
  {
    seq(|ms|, i requires 0 <= i < |ms| => Country(ms[i].result, ms[i].continent))
  }

  function MarkerPoints(m: CountryMarker): int {
    m.result.totalPoints
  }

  /** Colouring keeps the order and the points of the countries. */
  lemma {:induction false} ColoredPoints(sorted: seq<Country>)
    ensures forall i :: 0 <= i < |sorted| ==> Colored(sorted)[i].result == sorted[i].result
    ensures Ranking.SumBy(Colored(sorted), MarkerPoints) == Ranking.SumBy(sorted, CountryPoints)
  {
    var ms := Colored(sorted);
    SumByMarkers(ms, sorted);
  }

  lemma {:induction false} SumByMarkers(ms: seq<CountryMarker>, cs: seq<Country>)
    requires |ms| == |cs| && forall i :: 0 <= i < |ms| ==> ms[i].result == cs[i].result
    ensures Ranking.SumBy(ms, MarkerPoints) == Ranking.SumBy(cs, CountryPoints)
  {
    if ms != [] {
      SumByMarkers(ms[1..], cs[1..]);
    }
  }

  /** Every country entry has a country entry in the geography tables. */
  lemma CountryEntriesLocated(geo: Geo, rs: seq<DestinationResult>)
    ensures forall k | k in GroupBy(rs, CountryGroup(geo), Capitalize).entries :: k in geo.continentOf
  {
    CountryKeysLocated(geo, rs);
    forall k | k in GroupBy(rs, CountryGroup(geo), Capitalize).entries ensures k in geo.continentOf {
      GroupEntry(rs, CountryGroup(geo), Capitalize, k);
    }
  }

  /** The country markers of `mapData`: the country entries sorted by points, then coloured by place. */
  function CountryMarkers(results: seq<DestinationResult>, geo: Geo): seq<CountryMarker> {
    var t := GroupBy(results, CountryGroup(geo), Capitalize);
    CountryEntriesLocated(geo, results);
    Colored(Ranking.SortDesc(Countries(geo, t), CountryPoints))
  }

  /**
   * The country markers are ordered by non-increasing points, coloured by
   * place, and are the country entries with their continents, each once; together
   * they hold the points of every destination that has a country entry.
   */
  lemma CountryMarkersSpec(results: seq<DestinationResult>, geo: Geo)
    ensures var ms := CountryMarkers(results, geo);
      Ranking.SortedDesc(ms, MarkerPoints)
      && (forall i :: 0 <= i < |ms| ==> ms[i].color == GetColor(i, |ms|))
      && |ms| == |GroupBy(results, CountryGroup(geo), Capitalize).keys|
      && Ranking.SumBy(ms, MarkerPoints) == Total(results, CountryGroup(geo))
    ensures var t := GroupBy(results, CountryGroup(geo), Capitalize);
      (forall k | k in t.entries :: k in geo.continentOf)
      && multiset(Uncolored(CountryMarkers(results, geo))) == multiset(Countries(geo, t))
  {
    var t := GroupBy(results, CountryGroup(geo), Capitalize);
    CountryEntriesLocated(geo, results);
    var sorted := Ranking.SortDesc(Countries(geo, t), CountryPoints);
    var ms := Colored(sorted);
    ColoredPoints(sorted);
    assert Uncolored(ms) == sorted;
    forall i, j | 0 <= i < j < |ms| ensures MarkerPoints(ms[i]) >= MarkerPoints(ms[j]) {
      assert CountryPoints(sorted[i]) >= CountryPoints(sorted[j]);
    }
    Ranking.SortDescSum(Countries(geo, t), CountryPoints);
    CountriesPoints(geo, t);
    GroupPoints(results, CountryGroup(geo), Capitalize);
  }

  /** `showContinents`: continent markers below zoom level 3. */
  function ShowContinents(zoom: real): bool {
    zoom < 3.0
  }

  /** The map opens at zoom 2 on the continent markers; zooming out never switches back to countries. */
  lemma ZoomLevels(zoom: real, zoom': real)
    requires zoom' <= zoom
    ensures ShowContinents(2.0)
    ensures ShowContinents(zoom) ==> ShowContinents(zoom')
    ensures !ShowContinents(3.0)
  {
  }

  // ----- `mapData`, as the component computes it -----

  /** `res.voters.forEach(v => { if (!voters.includes(v)) voters.push(v) })`. */
  method PushNew(voters: seq<string>, more: seq<string>) returns (r: seq<string>)
    ensures r == UnionInto(voters, more)
  {
    r := voters;
    for j := 0 to |more|
      invariant r == UnionInto(voters, more[..j])
    {
      assert more[..j + 1][..j] == more[..j];
      if more[j] !in r {
        r := r + [more[j]];
      }
    }
    assert more[..|more|] == more;
  }

  /** The body of the loop for one group: create the entry on first sight, otherwise add to it. */
  method AddTo(keys: seq<string>, entries: map<string, DestinationResult>, k: string, title: string, res: DestinationResult)
    returns (keys': seq<string>, entries': map<string, DestinationResult>)
    ensures Tally.Table(keys', entries') == Add(Tally.Table(keys, entries), k, title, res)
  {
    keys', entries' := keys, entries;
    if k !in entries' {
      entries' := entries'[k := res.(name := title)];
      keys' := keys' + [k];
    } else {
      var e := entries'[k];
      e := e.(totalPoints := e.totalPoints + res.totalPoints, firstVotes := e.firstVotes + res.firstVotes,
              secondVotes := e.secondVotes + res.secondVotes, thirdVotes := e.thirdVotes + res.thirdVotes);
      var voters := PushNew(e.voters, res.voters);
      entries' := entries'[k := e.(voters := voters)];
    }
  }

  /**
   * `mapData`: the country and continent dictionaries are filled in one pass
   * over the standings; the countries are then sorted by points and coloured.
   */
  method MapData(results: seq<DestinationResult>, geo: Geo)
    returns (countries: seq<CountryMarker>, continents: seq<DestinationResult>)
    ensures countries == CountryMarkers(results, geo)
    ensures Ranking.SortedDesc(countries, MarkerPoints)
    ensures forall i :: 0 <= i < |countries| ==> countries[i].color == GetColor(i, |countries|)
    ensures |countries| == |GroupBy(results, CountryGroup(geo), Capitalize).keys|
    ensures Ranking.SumBy(countries, MarkerPoints) == Total(results, CountryGroup(geo))
    ensures continents == Tally.Values(GroupBy(results, ContinentGroup(geo), AsIs))
    ensures Ranking.SumBy(continents, Tally.Points) == Total(results, ContinentGroup(geo))
    ensures Ranking.SumBy(continents, Tally.Points) == Total(results, CountryGroup(geo))
  {
    var countryKeys: seq<string> := [];
    var countryEntries: map<string, DestinationResult> := map[];
    var continentKeys: seq<string> := [];
    var continentEntries: map<string, DestinationResult> := map[];
    for i := 0 to |results|
      invariant Tally.Table(countryKeys, countryEntries) == GroupBy(results[..i], CountryGroup(geo), Capitalize)
      invariant Tally.Table(continentKeys, continentEntries) == GroupBy(results[..i], ContinentGroup(geo), AsIs)
    {
      var res := results[i];
      assert results[..i + 1][..i] == results[..i];
      var originalName := Trim(ToLower(res.name));
      var countryKey := if originalName in geo.locations && geo.locations[originalName] != "" then geo.locations[originalName] else originalName;
      if countryKey in geo.continentOf {
        countryKeys, countryEntries := AddTo(countryKeys, countryEntries, countryKey, Capitalize(countryKey), res);
        var continent := geo.continentOf[countryKey];
        continentKeys, continentEntries := AddTo(continentKeys, continentEntries, continent, continent, res);
      }
    }
    assert results[..|results|] == results;
    CountryEntriesLocated(geo, results);
    var sorted := Ranking.SortDesc(Countries(geo, Tally.Table(countryKeys, countryEntries)), CountryPoints);
    countries := Colored(sorted);
    continents := Tally.Values(Tally.Table(continentKeys, continentEntries));
    CountryMarkersSpec(results, geo);
    GroupPoints(results, ContinentGroup(geo), AsIs);
    TotalsAgree(geo, results);
  }
}
