/**
 * The poll form's schema. A field is checked for length and for text that
 * looks like markup or script injection
 * (`/<script|<\/script|javascript:|on\w+\s*=/i`); every failed check adds its
 * message, field by field in declaration order; when no check fails, every
 * field is returned trimmed and a missing optional choice becomes "".
 */
module Validation {
  import opened PollTypes
  import opened Text

  // ----- The injection pattern -----

  /** `\w` without the `u` flag: ASCII letters, digits and `_`. */
  predicate IsWordChar(c: char) {
    'a' <= c <= 'z' || 'A' <= c <= 'Z' || '0' <= c <= '9' || c == '_'
  }

  predicate StartsWith(t: string, p: string) {
    |p| <= |t| && t[..|p|] == p
  }

  /** `\s*=` at the start of `v`. */
  predicate SpacesThenEq(v: string) {
    v != [] && (v[0] == '=' || (IsSpace(v[0]) && SpacesThenEq(v[1..])))
  }

  /** `\w*\s*=` at the start of `v`, trying every split the regex engine may backtrack to. */
  predicate WordsThenEq(v: string) {
    SpacesThenEq(v) || (v != [] && IsWordChar(v[0]) && WordsThenEq(v[1..]))
  }

  /** `on\w+\s*=` at the start of `t` (already lower-cased). */
  predicate HandlerAt(t: string) {
    |t| >= 3 && t[..2] == "on" && IsWordChar(t[2]) && WordsThenEq(t[3..])
  }

  /** One of the four alternatives matches at the start of `t` (already lower-cased). */
  predicate PatternAt(t: string) {
    StartsWith(t, "<script") || StartsWith(t, "</script") || StartsWith(t, "javascript:") || HandlerAt(t)
  }

  /** The pattern matches somewhere in `t`, trying each start position in turn. */
  predicate MatchesFrom(t: string) {
    PatternAt(t) || (t != [] && MatchesFrom(t[1..]))
  }

  /**
   * The `i` flag without `u` folds ASCII letters only, and every letter of the
   * pattern is lower-case, so matching the lower-cased text is the same test.
   */
  predicate Suspicious(s: string) {
    MatchesFrom(ToLower(s))
  }

  /** The search finds a match exactly when the pattern matches at some position. */
  lemma {:induction false} MatchesFromSpec(t: string)
    ensures MatchesFrom(t) <==> exists i :: 0 <= i <= |t| && PatternAt(t[i..])
  {
    if t == [] {
      assert forall i :: 0 <= i <= |t| ==> t[i..] == t;
    } else {
      MatchesFromSpec(t[1..]);
      if MatchesFrom(t) {
        if PatternAt(t) {
          assert t[0..] == t;
          assert PatternAt(t[0..]);
        } else {
          var i :| 0 <= i <= |t[1..]| && PatternAt(t[1..][i..]);
          assert t[1..][i..] == t[i + 1..];
          assert 0 <= i + 1 <= |t| && PatternAt(t[i + 1..]);
        }
      }
      if exists i :: 0 <= i <= |t| && PatternAt(t[i..]) {
        var i :| 0 <= i <= |t| && PatternAt(t[i..]);
        if i == 0 {
          assert t[i..] == t;
        } else {
          assert t[1..][i - 1..] == t[i..];
          assert 0 <= i - 1 <= |t[1..]| && PatternAt(t[1..][i - 1..]);
          assert MatchesFrom(t[1..]);
        }
      }
    }
  }

  /** Upper- and lower-case spellings are rejected alike. */
  lemma SuspiciousIgnoresCase(s: string)
    ensures Suspicious(ToLower(s)) == Suspicious(s)
  {
    ToLowerIdempotent(s);
  }

  /** Surrounding text never hides a match. */
  lemma {:induction false} SuspiciousInside(a: string, s: string, b: string)
    requires Suspicious(s)
    ensures Suspicious(a + s + b)
  {
    var t := ToLower(s);
    var u := ToLower(a + s + b);
    MatchesFromSpec(t);
    var i :| 0 <= i <= |t| && PatternAt(t[i..]);
    assert u == ToLower(a) + t + ToLower(b);
    PatternExtends(t[i..], ToLower(b));
    assert u[|a| + i..] == t[i..] + ToLower(b);
    MatchesFromSpec(u);
  }

  /** A match at the start of a text is still a match when more text follows. */
  lemma PatternExtends(t: string, b: string)
    requires PatternAt(t)
    ensures PatternAt(t + b)
  {
    if HandlerAt(t) {
      assert (t + b)[..2] == t[..2] && (t + b)[2] == t[2];
      assert (t + b)[3..] == t[3..] + b;
      WordsThenEqExtends(t[3..], b);
    } else {
      assert (t + b)[..|t|] == t;
    }
  }

  lemma {:induction false} WordsThenEqExtends(v: string, b: string)
    requires WordsThenEq(v)
    ensures WordsThenEq(v + b)
  {
    if SpacesThenEq(v) {
      SpacesThenEqExtends(v, b);
    } else {
      assert (v + b)[1..] == v[1..] + b;
      WordsThenEqExtends(v[1..], b);
    }
  }

  lemma {:induction false} SpacesThenEqExtends(v: string, b: string)
    requires SpacesThenEq(v)
    ensures SpacesThenEq(v + b)
  {
    if v[0] != '=' {
      assert (v + b)[1..] == v[1..] + b;
      SpacesThenEqExtends(v[1..], b);
    }
  }

  /** A character the pattern cannot match without: every alternative holds `<`, `:` or `=`. */
  predicate IsMark(c: char) {
    c == '<' || c == ':' || c == '='
  }

  lemma {:induction false} SpacesThenEqHasMark(v: string)
    requires SpacesThenEq(v)
    ensures exists k :: 0 <= k < |v| && IsMark(v[k])
  {
    if v[0] != '=' {
      SpacesThenEqHasMark(v[1..]);
      var k :| 0 <= k < |v[1..]| && IsMark(v[1..][k]);
      assert v[k + 1] == v[1..][k];
    }
  }

  lemma {:induction false} WordsThenEqHasMark(v: string)
    requires WordsThenEq(v)
    ensures exists k :: 0 <= k < |v| && IsMark(v[k])
  {
    if SpacesThenEq(v) {
      SpacesThenEqHasMark(v);
    } else {
      WordsThenEqHasMark(v[1..]);
      var k :| 0 <= k < |v[1..]| && IsMark(v[1..][k]);
      assert v[k + 1] == v[1..][k];
    }
  }

  lemma PatternHasMark(t: string)
    requires PatternAt(t)
    ensures exists k :: 0 <= k < |t| && IsMark(t[k])
  {
    if HandlerAt(t) {
      WordsThenEqHasMark(t[3..]);
      var k :| 0 <= k < |t[3..]| && IsMark(t[3..][k]);
      assert t[k + 3] == t[3..][k];
    } else if StartsWith(t, "javascript:") {
      assert t[10] == "javascript:"[10];
    } else if StartsWith(t, "<script") {
      assert t[0] == "<script"[0];
    } else {
      assert t[0] == "</script"[0];
    }
  }

  /** Text with no `<`, `:` or `=` is never rejected as an injection. */
  lemma PlainNeverSuspicious(s: string)
    requires forall i :: 0 <= i < |s| ==> !IsMark(s[i])
    ensures !Suspicious(s)
  {
    var t := ToLower(s);
    MatchesFromSpec(t);
    forall i | 0 <= i <= |t| ensures !PatternAt(t[i..]) {
      if PatternAt(t[i..]) {
        PatternHasMark(t[i..]);
      }
    }
  }

  /** A match at any position of the lower-cased text rejects it. */
  lemma MatchAt(s: string, i: nat)
    requires i <= |s| && PatternAt(ToLower(s)[i..])
    ensures Suspicious(s)
  {
    MatchesFromSpec(ToLower(s));
  }

  /** Example: a script tag is rejected in any case. */
  lemma ScriptTagExample()
    ensures Suspicious("<SCRIPT>")
  {
    assert ToLower("<SCRIPT>")[0..] == "<script>";
    assert "<script>"[..7] == "<script";
    MatchAt("<SCRIPT>", 0);
  }

  /** Example: an inline handler is rejected. */
  lemma HandlerExample()
    ensures Suspicious("x onclick =y")
  {
    HandlerAtOnclick();
    assert ToLower("x onclick =y")[2..] == "onclick =y";
    MatchAt("x onclick =y", 2);
  }

  lemma HandlerAtOnclick()
    ensures HandlerAt("onclick =y")
  {
    var t := "onclick =y";
    assert t[..2] == "on" && t[3..] == "lick =y";
    assert SpacesThenEq(" =y") by { assert " =y"[1..] == "=y"; }
    assert "lick =y"[1..] == "ick =y" && "ick =y"[1..] == "ck =y" && "ck =y"[1..] == "k =y" && "k =y"[1..] == " =y";
  }

  /** Example: an ordinary phrase containing a word starting with "on" and an `=` is rejected too. */
  lemma EqualsSignExample()
    ensures Suspicious("London = great")
  {
    HandlerAtOndon();
    assert ToLower("London = great")[1..] == "ondon = great";
    MatchAt("London = great", 1);
  }

  lemma HandlerAtOndon()
    ensures HandlerAt("ondon = great")
  {
    var t := "ondon = great";
    assert t[..2] == "on" && t[3..] == "on = great";
    assert SpacesThenEq(" = great") by { assert " = great"[1..] == "= great"; }
    assert "on = great"[1..] == "n = great" && "n = great"[1..] == " = great";
  }

  /** Example: a plain place name is accepted. */
  lemma PlainNameExample()
    ensures !Suspicious("Paris")
  {
    PlainNeverSuspicious("Paris");
  }

  // ----- The submission schema -----

  /** One check of a field: no message when it holds. */
  function Check(holds: bool, message: string): seq<string> {
    if holds then [] else [message]
  }

  function NameErrors(v: string): seq<string> {
    Check(|v| >= 1, "Name is required")
    + Check(|v| <= 100, "Name must be 100 characters or less")
    + Check(!Suspicious(v), "Invalid characters in name")
  }

  function FirstChoiceErrors(v: string): seq<string> {
    Check(|v| >= 1, "First choice is required")
    + Check(|v| <= 200, "Destination must be 200 characters or less")
    + Check(!Suspicious(v), "Invalid characters in first choice")
  }

  /** `sanitizedString(maxLength)`: a length cap and the injection test. */
  function SanitizedErrors(v: string, maxLength: nat): seq<string> {
    Check(|v| <= maxLength, "Maximum " + ShowNat(maxLength) + " characters allowed")
    + Check(!Suspicious(v), "Invalid characters detected")
  }

  /** `.optional().default('')`. */
  function OrEmpty(v: Option<string>): string {
    if v.Some? then v.value else ""
  }

  /** The object given to the schema; the later choices may be missing. */
  datatype SubmissionInput = SubmissionInput(name: string, firstChoice: string,
                                             secondChoice: Option<string>, thirdChoice: Option<string>)

  /** `PollSubmission`: what the schema hands back. */
  datatype PollSubmission = PollSubmission(name: string, firstChoice: string, secondChoice: string, thirdChoice: string)

  datatype Parsed = Success(data: PollSubmission) | Failure(errors: seq<string>)

  /** Every message of every field, in the schema's field order. */
  function SubmissionErrors(input: SubmissionInput): seq<string> {
    NameErrors(input.name) + FirstChoiceErrors(input.firstChoice)
    + SanitizedErrors(OrEmpty(input.secondChoice), 200) + SanitizedErrors(OrEmpty(input.thirdChoice), 200)
  }

  /** `PollSubmissionSchema.safeParse`. */
  function SafeParse(input: SubmissionInput): (r: Parsed)
    ensures r.Failure? ==> |r.errors| > 0
  {
    var errors := SubmissionErrors(input);
    if errors == [] then
      Success(PollSubmission(Trim(input.name), Trim(input.firstChoice),
                             Trim(OrEmpty(input.secondChoice)), Trim(OrEmpty(input.thirdChoice))))
    else Failure(errors)
  }

  /** The rule the schema enforces, field by field. Lengths are those of the text as typed. */
  predicate Acceptable(input: SubmissionInput) {
    1 <= |input.name| <= 100 && !Suspicious(input.name)
    && 1 <= |input.firstChoice| <= 200 && !Suspicious(input.firstChoice)
    && |OrEmpty(input.secondChoice)| <= 200 && !Suspicious(OrEmpty(input.secondChoice))
    && |OrEmpty(input.thirdChoice)| <= 200 && !Suspicious(OrEmpty(input.thirdChoice))
  }

  /** The schema accepts exactly the inputs that meet every rule; what it accepts comes back trimmed. */
  lemma SafeParseSpec(input: SubmissionInput)
    ensures SafeParse(input).Success? <==> Acceptable(input)
    ensures SafeParse(input).Success? ==>
      var d := SafeParse(input).data;
      d.name == Trim(input.name) && d.firstChoice == Trim(input.firstChoice)
      && d.secondChoice == Trim(OrEmpty(input.secondChoice)) && d.thirdChoice == Trim(OrEmpty(input.thirdChoice))
      && Trim(d.name) == d.name && Trim(d.firstChoice) == d.firstChoice
      && Trim(d.secondChoice) == d.secondChoice && Trim(d.thirdChoice) == d.thirdChoice
  {
    TrimIdempotent(input.name);
    TrimIdempotent(input.firstChoice);
    TrimIdempotent(OrEmpty(input.secondChoice));
    TrimIdempotent(OrEmpty(input.thirdChoice));
  }

  /** The messages of one field all come from that field's checks: a name that fails only its length reports exactly that. */
  lemma NameMessages(v: string)
    ensures |v| == 0 ==> NameErrors(v) == ["Name is required"]
    ensures |v| > 100 && !Suspicious(v) ==> NameErrors(v) == ["Name must be 100 characters or less"]
    ensures |v| > 100 && Suspicious(v)
            ==> NameErrors(v) == ["Name must be 100 characters or less", "Invalid characters in name"]
  {
    if |v| == 0 {
      assert ToLower(v) == [];
    }
  }

  /** Missing later choices are accepted as empty. */
  lemma MissingChoicesDefault(name: string, firstChoice: string)
    requires 1 <= |name| <= 100 && !Suspicious(name) && 1 <= |firstChoice| <= 200 && !Suspicious(firstChoice)
    ensures SafeParse(SubmissionInput(name, firstChoice, None, None))
            == Success(PollSubmission(Trim(name), Trim(firstChoice), "", ""))
  {
    assert Trim("") == "" && !Suspicious("");
    SafeParseSpec(SubmissionInput(name, firstChoice, None, None));
  }

  // ----- Blank names -----

  /** As written, a name made of 1 to 100 spaces passes every check and is stored as "". */
  lemma BlankNameAccepted(input: SubmissionInput)
    requires 1 <= |input.name| <= 100 && AllSpace(input.name)
    requires Acceptable(input.(name := "x"))
    ensures SafeParse(input).Success? && SafeParse(input).data.name == ""
  {
    PlainNeverSuspicious(input.name);
    BlankIsAllSpace(input.name);
  }

  /** The name rule checked on the trimmed name, as the "Name is required" message intends. */
  function NameErrorsTrimmed(v: string): seq<string> {
    var t := Trim(v);
    Check(|t| >= 1, "Name is required")
    + Check(|t| <= 100, "Name must be 100 characters or less")
    + Check(!Suspicious(v), "Invalid characters in name")
  }

  /** The schema with the name rule checked after trimming. */
  function SafeParseTrimmed(input: SubmissionInput): (r: Parsed)
    ensures r.Failure? ==> |r.errors| > 0
  {
    var errors := NameErrorsTrimmed(input.name) + FirstChoiceErrors(input.firstChoice)
                  + SanitizedErrors(OrEmpty(input.secondChoice), 200) + SanitizedErrors(OrEmpty(input.thirdChoice), 200);
    if errors == [] then
      Success(PollSubmission(Trim(input.name), Trim(input.firstChoice),
                             Trim(OrEmpty(input.secondChoice)), Trim(OrEmpty(input.thirdChoice))))
    else Failure(errors)
  }

  /** The rule with the name checked after trimming. */
  predicate Admissible(input: SubmissionInput) {
    1 <= |Trim(input.name)| <= 100 && !Suspicious(input.name)
    && 1 <= |input.firstChoice| <= 200 && !Suspicious(input.firstChoice)
    && |OrEmpty(input.secondChoice)| <= 200 && !Suspicious(OrEmpty(input.secondChoice))
    && |OrEmpty(input.thirdChoice)| <= 200 && !Suspicious(OrEmpty(input.thirdChoice))
  }

  /** With the name trimmed first, an accepted name is never empty and fits 1..100, as the import schema requires of names. */
  lemma TrimmedNameNeverBlank(input: SubmissionInput)
    ensures SafeParseTrimmed(input).Success? <==> Admissible(input)
    ensures SafeParseTrimmed(input).Success? ==>
      1 <= |SafeParseTrimmed(input).data.name| <= 100 && !IsBlank(SafeParseTrimmed(input).data.name)
  {
    TrimIdempotent(input.name);
  }

  /** The correction changes nothing for a name typed without surrounding white space. */
  lemma TrimmedAgreesOnTrimmedNames(input: SubmissionInput)
    requires Trim(input.name) == input.name
    ensures SafeParseTrimmed(input) == SafeParse(input)
  {
  }

  // ----- validatePollSubmission -----

  /** The form's four text fields. */
  datatype Form = Form(name: string, firstChoice: string, secondChoice: string, thirdChoice: string)

  /** `ValidationResult<PollSubmission>`. */
  datatype ValidationResult = ValidationResult(success: bool, data: Option<PollSubmission>, errors: Option<seq<string>>)

  function Input(form: Form): SubmissionInput {
    SubmissionInput(form.name, form.firstChoice, Some(form.secondChoice), Some(form.thirdChoice))
  }

  /**
   * `validatePollSubmission`: success with the parsed data, or failure with
   * every message. It runs the schema as written, so lengths are those of the
   * text as typed and a name of spaces passes.
   */
  function ValidatePollSubmission(form: Form): (r: ValidationResult)
    ensures r.success <==> Acceptable(Input(form))
    ensures r.success ==> r.errors == None && r.data.Some?
    ensures r.success ==>
      r.data.value == PollSubmission(Trim(form.name), Trim(form.firstChoice), Trim(form.secondChoice), Trim(form.thirdChoice))
    ensures !r.success ==> r.data == None && r.errors == Some(SubmissionErrors(Input(form))) && |r.errors.value| > 0
  {
    SafeParseSpec(Input(form));
    match SafeParse(Input(form))
    case Success(data) => ValidationResult(true, Some(data), None)
    case Failure(errors) => ValidationResult(false, None, Some(errors))
  }

  /** The form accepts a name of three spaces and passes it on as "". */
  lemma BlankFormAccepted()
    ensures var r := ValidatePollSubmission(Form("   ", "Paris", "", ""));
      r.success && r.data == Some(PollSubmission("", "Paris", "", ""))
  {
    var form := Form("   ", "Paris", "", "");
    PlainNeverSuspicious(form.name);
    PlainNeverSuspicious(form.firstChoice);
    PlainNeverSuspicious("");
    assert Trim(form.name) == "" by { BlankIsAllSpace(form.name); }
    assert Trim("Paris") == "Paris" && Trim("") == "";
  }

  /**
   * `validatePollSubmission` with the name checked after trimming: success
   * exactly for the admissible forms, and then the name is never blank.
   */
  function ValidatePollSubmissionIntended(form: Form): (r: ValidationResult)
    ensures r.success <==> Admissible(Input(form))
    ensures r.success ==> r.errors == None && r.data.Some?
    ensures r.success ==>
      r.data.value == PollSubmission(Trim(form.name), Trim(form.firstChoice), Trim(form.secondChoice), Trim(form.thirdChoice))
    ensures r.success ==> 1 <= |r.data.value.name| <= 100 && !IsBlank(r.data.value.name)
    ensures !r.success ==> r.data == None && r.errors.Some? && |r.errors.value| > 0
  {
    TrimmedNameNeverBlank(Input(form));
    match SafeParseTrimmed(Input(form))
    case Success(data) => ValidationResult(true, Some(data), None)
    case Failure(errors) => ValidationResult(false, None, Some(errors))
  }

  /** The intended form refuses the blank name the form as written lets through. */
  lemma BlankFormRefusedIntended()
    ensures !ValidatePollSubmissionIntended(Form("   ", "Paris", "", "")).success
  {
    BlankIsAllSpace("   ");
  }
}
