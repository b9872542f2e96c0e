/**
 * The point-scheme editor: choosing a preset forwards it unchanged; editing
 * one of the three point values stores `parseInt(value) || 0` in that field
 * and renames the scheme "Custom". A preset is shown as selected when its id
 * is the active scheme's id.
 */
module WeightEditor {
  import opened PollTypes
  import opened Text

  // ----- parseInt -----

  /** The value of an alphanumeric character as a digit (0-35); 36 for anything else. */
  function DigitOf(c: char): (d: nat)
    ensures d <= 36
  {
    if '0' <= c <= '9' then c as int - '0' as int
    else if 'a' <= c <= 'z' then c as int - 'a' as int + 10
    else if 'A' <= c <= 'Z' then c as int - 'A' as int + 10
    else 36
  }

  predicate IsDigit(c: char, radix: nat) {
    DigitOf(c) < radix
  }

  /** Length of the run of digits `s` starts with. */
  function DigitRun(s: string, radix: nat): (n: nat)
    ensures n <= |s|
  {
    if s != [] && IsDigit(s[0], radix) then 1 + DigitRun(s[1..], radix) else 0
  }

  /** The number a run of digits spells, most significant first. */
  function Value(ds: string, radix: nat): nat {
    if ds == [] then 0 else Value(ds[..|ds| - 1], radix) * radix + DigitOf(ds[|ds| - 1])
  }

  /**
   * The unsigned part of `parseInt`: a `0x`/`0X` prefix selects base 16, and
   * the longest run of digits that follows is converted; no digits at all is
   * `NaN` (here `None`).
   */
  function ParseDigits(u: string): Option<nat> {
    var hex := |u| >= 2 && u[0] == '0' && (u[1] == 'x' || u[1] == 'X');
    var radix := if hex then 16 else 10;
    var v := if hex then u[2..] else u;
    var n := DigitRun(v, radix);
    if n == 0 then None else Some(Value(v[..n], radix))
  }

  /** `parseInt(s)` with no radix: leading white space is skipped and one sign is read. */
  function ParseInt(s: string): Option<int> {
    var t := TrimStart(s);
    var negative := t != [] && t[0] == '-';
    var u := if t != [] && (t[0] == '-' || t[0] == '+') then t[1..] else t;
    match ParseDigits(u)
    case None => None
    case Some(k) => Some(if negative then 0 - k else k)
  }

  /** `parseInt(value) || 0`: `NaN` and `-0` are both falsy, so they read as 0. */
  function ParseIntOrZero(value: string): int {
    match ParseInt(value)
    case None => 0
    case Some(n) => n
  }

  /** Decimal rendering of an integer, with a leading `-` when negative. */
  function ShowInt(n: int): string {
    if n < 0 then "-" + ShowNat(-n) else ShowNat(n)
  }

  lemma {:induction false} ValueShowNat(n: nat)
    ensures Value(ShowNat(n), 10) == n
  {
    if n >= 10 {
      var s := ShowNat(n);
      ValueShowNat(n / 10);
      assert s[..|s| - 1] == ShowNat(n / 10);
    }
  }

  lemma {:induction false} DigitRunPrefix(ds: string, rest: string, radix: nat)
    requires forall i :: 0 <= i < |ds| ==> IsDigit(ds[i], radix)
    requires rest == [] || !IsDigit(rest[0], radix)
    ensures DigitRun(ds + rest, radix) == |ds|
  {
    if ds != [] {
      assert (ds + rest)[1..] == ds[1..] + rest;
      DigitRunPrefix(ds[1..], rest, radix);
    } else {
      assert ds + rest == rest;
    }
  }

  /** A run of decimal digits, followed by no letter or digit, reads as its value. */
  lemma ParseDecimal(d: string, rest: string)
    requires d != [] && forall i :: 0 <= i < |d| ==> IsDigit(d[i], 10)
    requires rest == [] || DigitOf(rest[0]) == 36
    ensures ParseDigits(d + rest) == Some(Value(d, 10))
  {
    DigitRunPrefix(d, rest, 10);
    assert (d + rest)[..|d|] == d;
    assert |d + rest| >= 2 ==> (d + rest)[1] != 'x' && (d + rest)[1] != 'X' by {
      if |d| >= 2 {
        assert (d + rest)[1] == d[1];
      } else if |d + rest| >= 2 {
        assert (d + rest)[1] == rest[0];
      }
    }
  }

  /** Text that starts with a digit is read unsigned; behind a `-` it is read negated. */
  lemma ParseSign(e: string, k: nat)
    requires e != [] && IsDigit(e[0], 10)
    requires ParseDigits(e) == Some(k)
    ensures ParseInt(e) == Some(k)
    ensures ParseInt(['-'] + e) == Some(0 - k)
  {
    assert TrimStart(e) == e;
    assert TrimStart(['-'] + e) == ['-'] + e;
    assert (['-'] + e)[1..] == e;
  }

  /** `parseInt` reads back any decimal rendering, whatever non-alphanumeric text follows it. */
  lemma ParseShowInt(n: int, rest: string)
    requires rest == [] || DigitOf(rest[0]) == 36
    ensures ParseInt(ShowInt(n) + rest) == Some(n)
  {
    var m: nat := if n < 0 then -n else n;
    var d := ShowNat(m);
    ValueShowNat(m);
    ParseDecimal(d, rest);
    assert (d + rest)[0] == d[0];
    ParseSign(d + rest, m);
    if n < 0 {
      assert ShowInt(n) + rest == ['-'] + (d + rest);
    }
  }

  /** Leading white space is ignored. */
  lemma ParseIntSkipsSpace(s: string)
    ensures ParseInt(s) == ParseInt(TrimStart(s))
  {
    TrimStartFacts(s);
  }

  /** Text with no digits where a number should start reads as 0. */
  lemma NoDigitsIsZero(value: string)
    requires var t := TrimStart(value); t == [] || (t[0] != '-' && t[0] != '+' && !IsDigit(t[0], 10))
    ensures ParseIntOrZero(value) == 0
  {
  }

  // ----- The editor -----

  /** The three editable point values. */
  datatype Field = First | Second | Third

  function Get(c: WeightConfig, field: Field): int {
    match field
    case First => c.first
    case Second => c.second
    case Third => c.third
  }

  /** `handlePresetSelect`: the preset is passed on as it is. */
  function PresetSelect(preset: WeightConfig): (r: WeightConfig)
    ensures r == preset
  {
    preset
  }

  /** `handleCustomChange`: the edited field takes `parseInt(value) || 0`; id and name become the custom ones. */
  function CustomChange(config: WeightConfig, field: Field, value: string): (r: WeightConfig)
    ensures r.id == CustomId && r.name == "Custom"
    ensures Get(r, field) == ParseIntOrZero(value)
    ensures forall f :: f != field ==> Get(r, f) == Get(config, f)
  {
    var n := ParseIntOrZero(value);
    match field
    case First => config.(id := CustomId, name := "Custom", first := n)
    case Second => config.(id := CustomId, name := "Custom", second := n)
    case Third => config.(id := CustomId, name := "Custom", third := n)
  }

  /** The radio mark of a preset: `config.id === preset.id`. */
  predicate IsSelected(config: WeightConfig, preset: WeightConfig) {
    config.id == preset.id
  }

  /** Choosing a preset marks exactly that preset. */
  lemma SelectMarksOnePreset(i: nat)
    requires i < |DefaultWeightConfigs()|
    ensures var presets := DefaultWeightConfigs();
      forall j :: 0 <= j < |presets| ==> (IsSelected(PresetSelect(presets[i]), presets[j]) <==> i == j)
  {
  }

  /** After any custom edit no preset is marked. */
  lemma CustomMarksNoPreset(config: WeightConfig, field: Field, value: string)
    ensures var presets := DefaultWeightConfigs();
      forall j :: 0 <= j < |presets| ==> !IsSelected(CustomChange(config, field, value), presets[j])
  {
  }

  /** Values are not clamped: a negative entry is stored as typed. */
  lemma NegativeKept(config: WeightConfig, field: Field, n: int)
    requires n < 0
    ensures Get(CustomChange(config, field, ShowInt(n)), field) == n
  {
    ParseShowInt(n, []);
    assert ShowInt(n) + [] == ShowInt(n);
  }

  /** Text that is not a number stores 0. */
  lemma NotANumberIsZero(config: WeightConfig, field: Field)
    ensures Get(CustomChange(config, field, ""), field) == 0
    ensures Get(CustomChange(config, field, "abc"), field) == 0
  {
    assert TrimStart("abc") == "abc";
  }
}
