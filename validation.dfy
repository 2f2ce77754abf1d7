/**
  The request validator of the PHP server (server/common/validation.php): rule factories that
  return closures, `validate`, which runs each key's rules in order and keeps the first error per
  key, the merge of the request sources in `get_request`, `require_method` and `optional_user`.
  A rule or a `validate` that ends the request (`exit`) returns a verdict saying so.
 */
module Validation {
  import opened Wrappers
  import opened PhpValues
  import Decimal

  /** What a rule returns: passed (and whether the key's remaining rules are skipped), or an error. */
  datatype Check = Pass(stop: bool) | Error(msg: string) | Threw

  type Rule = Value -> Check

  // ---------------------------------------------------------------------------------------------
  // Messages

  /** The longest of the pairs' patterns that `s` starts with, if any. */
  function LongestPrefix(s: string, pairs: seq<(string, string)>): (r: Option<(string, string)>)
    ensures r.Some? ==> r.value in pairs && |r.value.0| > 0 && r.value.0 <= s
    ensures r.None? ==> forall p :: p in pairs && |p.0| > 0 ==> !(p.0 <= s)
  {
    if |pairs| == 0 then None
    else
      var rest := LongestPrefix(s, pairs[1..]);
      var p := pairs[0];
      if |p.0| > 0 && p.0 <= s && (rest.None? || |rest.value.0| < |p.0|) then Some(p) else rest
  }

  /**
    strtr with an array of pairs: scanning left to right, the longest pattern found at each place
    is replaced and the scan goes on after it, so a replacement is never scanned again.
   */
  function StrTr(s: string, pairs: seq<(string, string)>): string
    decreases |s|
  {
    if |s| == 0 then ""
    else match LongestPrefix(s, pairs)
      case Some(p) => p.1 + StrTr(s[|p.0|..], pairs)
      case None => [s[0]] + StrTr(s[1..], pairs)
  }

  /** strtr with a single pair is the left-to-right replacement of that pattern. */
  lemma {:induction false} StrTrSingle(s: string, pat: string, rep: string)
    requires |pat| > 0
    ensures StrTr(s, [(pat, rep)]) == ReplaceAll(s, pat, rep)
    decreases |s|
  {
    if |s| > 0 {
      if pat <= s {
        assert s[..|pat|] == pat;
        StrTrSingle(s[|pat|..], pat, rep);
      } else {
        if |s| >= |pat| {
          assert s[..|pat|] != pat;
        }
        StrTrSingle(s[1..], pat, rep);
      }
    }
  }

  /** The message of a failed rule with the key's name put in for `%name%`. */
  function Named(msg: string, key: string): string {
    StrTr(msg, [("%name%", key)])
  }

  /** A default message names the key it is about. */
  lemma NamedRequired(key: string)
    ensures Named("%name% is required", key) == key + " is required"
  {
    assert "%name% is required" == "%name%" + " is required";
    StrTrSingle("%name% is required", "%name%", key);
    ReplaceFront("%name%", " is required", key);
    ReplaceWithoutFirst(" is required", "%name%", key);
  }

  // ---------------------------------------------------------------------------------------------
  // Rule factories

  /** required: an error exactly when the value is null (or the key is missing). */
  function Required(msg: Option<string>): (rule: Rule)
    ensures forall v :: rule(v).Error? <==> v.Null?
    ensures forall v :: rule(v) != Threw && rule(v) != Pass(true)
    ensures rule(Null) == Error(msg.GetOr("%name% is required"))
  {
    (v: Value) => if v.Null? then Error(msg.GetOr("%name% is required")) else Pass(false)
  }

  /** optional: never an error; a null value passes and skips the key's other rules. */
  function Optional(): (rule: Rule)
    ensures forall v :: rule(v).Pass? && (rule(v).stop <==> v.Null?)
  {
    (v: Value) => Pass(v.Null?)
  }

  /** vis_string: passes exactly the strings. */
  function IsString(msg: Option<string>): (rule: Rule)
    ensures forall v :: rule(v) == Pass(false) <==> v.Str?
    ensures forall v :: rule(v) != Threw && rule(v) != Pass(true)
  {
    (v: Value) => if v.Str? then Pass(false) else Error(msg.GetOr("%name% must be string"))
  }

  /** vis_number: passes exactly what is_numeric accepts. */
  function IsNumber(msg: Option<string>): (rule: Rule)
    ensures forall v :: rule(v) == Pass(false) <==> IsNumeric(v)
    ensures forall v :: rule(v) != Threw && rule(v) != Pass(true)
  {
    (v: Value) => if IsNumeric(v) then Pass(false) else Error(msg.GetOr("%name% must be number"))
  }

  predicate HexDigit(c: char) {
    '0' <= c <= '9' || 'a' <= c <= 'f' || 'A' <= c <= 'F'
  }

  predicate AllHex(s: string) {
    forall i :: 0 <= i < |s| ==> HexDigit(s[i])
  }

  /**
    `preg_match('/^[0-9A-Fa-f]*$/', s)` as PCRE reads it: without the D modifier `$` also matches
    just before a final newline, so a hex string followed by "\n" matches too.
   */
  predicate HexPatternAsWritten(s: string) {
    AllHex(s) || (|s| > 0 && s[|s| - 1] == '\n' && AllHex(s[..|s| - 1]))
  }

  /** vis_hex as written: the text of the value against the pattern above. */
  function IsHexAsWritten(msg: Option<string>): (rule: Rule)
    ensures forall v :: rule(v) == Threw <==> Text(v).None?
    ensures forall v :: rule(v) == Pass(false) <==> Text(v).Some? && HexPatternAsWritten(Text(v).value)
  {
    (v: Value) => match Text(v)
      case None => Threw
      case Some(t) => if HexPatternAsWritten(t) then Pass(false) else Error(msg.GetOr("%name% must be a hex"))
  }

  /** vis_hex as meant: the text is hex digits and nothing else; the empty string passes. */
  function IsHex(msg: Option<string>): (rule: Rule)
    ensures forall v :: rule(v) == Threw <==> Text(v).None?
    ensures forall v :: rule(v) == Pass(false) <==> Text(v).Some? && AllHex(Text(v).value)
    ensures rule(Str("")) == Pass(false) && rule(Null) == Pass(false)
  {
    (v: Value) => match Text(v)
      case None => Threw
      case Some(t) => if AllHex(t) then Pass(false) else Error(msg.GetOr("%name% must be a hex"))
  }

  /** Five hex digits and a newline pass vis_hex as written, though they are not hex. */
  lemma HexAcceptsNewline()
    ensures IsHexAsWritten(None)(Str("abcde\n")) == Pass(false)
    ensures IsHex(None)(Str("abcde\n")).Error?
  {
    assert !HexDigit("abcde\n"[5]);
    assert "abcde\n"[..5] == "abcde";
  }

  /** vin_enum: passes exactly the values strictly equal to one listed. */
  function InEnum(values: seq<Value>, msg: Option<string>): (rule: Rule)
    ensures forall v :: rule(v) == Pass(false) <==> v in values
    ensures forall v :: rule(v) != Threw && rule(v) != Pass(true)
  {
    (v: Value) => if v in values then Pass(false) else Error(msg.GetOr("invalid value of %name%"))
  }

  /** The bound and the measured length put into a length rule's message. */
  function LengthMessage(msg: string, bound: (string, int), length: (string, int)): string {
    StrTr(msg, [(bound.0, Decimal.IntToString(bound.1)), (length.0, Decimal.IntToString(length.1))])
  }

  /** exact_length: an error exactly when strlen of the value differs from `length`. */
  function ExactLength(length: int, msg: Option<string>): (rule: Rule)
    ensures forall v :: rule(v) == Threw <==> Text(v).None?
    ensures forall v :: rule(v) == Pass(false) <==> Text(v).Some? && |Text(v).value| == length
  {
    (v: Value) => match Text(v)
      case None => Threw
      case Some(t) =>
        if |t| != length then
          Error(LengthMessage(msg.GetOr("length of %name% (=%input_length%) must be %length%"), ("%length%", length), ("%input_length%", |t|)))
        else Pass(false)
  }

  /** min_length: an error exactly when strlen of the value is below `min`. */
  function MinLength(min: int, msg: Option<string>): (rule: Rule)
    ensures forall v :: rule(v) == Threw <==> Text(v).None?
    ensures forall v :: rule(v) == Pass(false) <==> Text(v).Some? && |Text(v).value| >= min
  {
    (v: Value) => match Text(v)
      case None => Threw
      case Some(t) =>
        if |t| < min then
          Error(LengthMessage(msg.GetOr("length of %name% (=%length%) is grater than %min%"), ("%min%", min), ("%length%", |t|)))
        else Pass(false)
  }

  /** max_length: an error exactly when strlen of the value is above `max`. */
  function MaxLength(max: int, msg: Option<string>): (rule: Rule)
    ensures forall v :: rule(v) == Threw <==> Text(v).None?
    ensures forall v :: rule(v) == Pass(false) <==> Text(v).Some? && |Text(v).value| <= max
  {
    (v: Value) => match Text(v)
      case None => Threw
      case Some(t) =>
        if |t| > max then
          Error(LengthMessage(msg.GetOr("length of %name% (=%length%) is greater than %max%"), ("%max%", max), ("%length%", |t|)))
        else Pass(false)
  }

  // ---------------------------------------------------------------------------------------------
  // validate

  /** What the rules of one key decide: whether the key entered the result, its error, a throw. */
  datatype KeyCheck = KeyCheck(entered: bool, error: Option<string>, threw: bool)

  /** The rules of one key, in order, up to the first error, stop or throw. */
  function CheckKey(v: Value, rules: seq<Rule>): (r: KeyCheck)
    ensures !(r.error.Some? && r.threw)
    decreases |rules|
  {
    if |rules| == 0 then KeyCheck(false, None, false)
    else match rules[0](v)
      case Pass(stop) => if stop then KeyCheck(true, None, false) else CheckKey(v, rules[1..]).(entered := true)
      case Error(m) => KeyCheck(false, Some(m), false)
      case Threw => KeyCheck(false, None, true)
  }

  /** The first rule that does not simply pass, or the number of rules. */
  function Decisive(v: Value, rules: seq<Rule>): (t: nat)
    ensures t <= |rules|
    ensures forall s :: 0 <= s < t ==> rules[s](v) == Pass(false)
    ensures t < |rules| ==> rules[t](v) != Pass(false)
    decreases |rules|
  {
    if |rules| == 0 || rules[0](v) != Pass(false) then 0 else 1 + Decisive(v, rules[1..])
  }

  /**
    What CheckKey decides, read off the first decisive rule: an error is that rule's message, the
    key enters when some rule passed, and nothing after the decisive rule is consulted.
   */
  lemma {:induction false} CheckKeyDecisive(v: Value, rules: seq<Rule>)
    ensures var t := Decisive(v, rules);
      && CheckKey(v, rules).entered == (t > 0 || (t < |rules| && rules[t](v).Pass?))
      && CheckKey(v, rules).error == (if t < |rules| && rules[t](v).Error? then Some(rules[t](v).msg) else None)
      && CheckKey(v, rules).threw == (t < |rules| && rules[t](v).Threw?)
    decreases |rules|
  {
    if |rules| > 0 && rules[0](v) == Pass(false) {
      CheckKeyDecisive(v, rules[1..]);
    }
  }

  /** The key's value as validate reads it: null when missing; None when the input is no array. */
  function ValueOf(input: Value, key: string): Option<Value> {
    if input.Arr? then Some(Read(input, key)) else None
  }

  /** validated and errors so far, or a throw. */
  datatype Progress = Progress(validated: Value, errors: map<string, string>) | Thrown

  /** One key's rules applied to the progress so far. */
  function Step(p: Progress, input: Value, key: string, rules: seq<Rule>): (r: Progress)
    requires p.Progress? ==> p.validated.Arr?
    ensures r.Progress? ==> r.validated.Arr?
  {
    if p.Thrown? || |rules| == 0 then p
    else match ValueOf(input, key)
      case None => Thrown
      case Some(v) =>
        var c := CheckKey(v, rules);
        if c.threw then Thrown
        else
          var validated := if c.entered then Put(p.validated, key, v) else p.validated;
          var errors := if c.error.Some? then p.errors[key := Named(c.error.value, key)] else p.errors;
          Progress(validated, errors)
  }

  /** The keys' rules applied in order. */
  function Run(input: Value, rules: seq<(string, seq<Rule>)>): (r: Progress)
    ensures r.Progress? ==> r.validated.Arr?
    decreases |rules|
  {
    if |rules| == 0 then Progress(EmptyArray, map[])
    else
      var last := rules[|rules| - 1];
      Step(Run(input, rules[..|rules| - 1]), input, last.0, last.1)
  }

  /** The outcome of validate: the validated array, the errors (answered with 400), or a throw. */
  datatype Verdict = Validated(values: Value) | Invalid(errors: map<string, string>) | Crashed

  const BadRequest := 400

  function Outcome(p: Progress): Verdict {
    match p
    case Thrown => Crashed
    case Progress(validated, errors) => if errors == map[] then Validated(validated) else Invalid(errors)
  }

  /** The rules of one key, run in order as validate's inner loop does. */
  method CheckRules(v: Value, rules: seq<Rule>) returns (c: KeyCheck)
    ensures c == CheckKey(v, rules)
  {
    var entered := false;
    var j := 0;
    while j < |rules|
      invariant 0 <= j <= |rules|
      invariant entered == (j > 0)
      invariant CheckKey(v, rules) == if entered then CheckKey(v, rules[j..]).(entered := true) else CheckKey(v, rules[j..])
    {
      assert rules[j..][1..] == rules[j + 1..];
      var result := rules[j](v);
      match result
      case Error(m) =>
        return KeyCheck(entered, Some(m), false);
      case Threw =>
        return KeyCheck(entered, None, true);
      case Pass(stop) =>
        entered := true;
        if stop {
          return KeyCheck(true, None, false);
        }
      j := j + 1;
    }
    c := KeyCheck(entered, None, false);
  }

  /**
    validate: each key's rules in order; a passing rule enters the key's value (null when the key
    is missing), the first error is kept with `%name%` replaced by the key, and any error rejects
    the whole input.
   */
  method Validate(input: Value, rules: seq<(string, seq<Rule>)>) returns (r: Verdict)
    ensures r == Outcome(Run(input, rules))
  {
    var validated := EmptyArray;
    var errors: map<string, string> := map[];
    var k := 0;
    while k < |rules|
      invariant 0 <= k <= |rules|
      invariant Run(input, rules[..k]) == Progress(validated, errors)
    {
      assert rules[..k + 1][..k] == rules[..k];
      var key := rules[k].0;
      if |rules[k].1| > 0 {
        if !input.Arr? {
          assert Run(input, rules[..k + 1]) == Thrown;
          Unthrown(input, rules, k + 1);
          return Crashed;
        }
        var value := Read(input, key);
        var c := CheckRules(value, rules[k].1);
        if c.threw {
          Unthrown(input, rules, k + 1);
          return Crashed;
        }
        if c.entered {
          validated := Put(validated, key, value);
        }
        if c.error.Some? {
          errors := errors[key := Named(c.error.value, key)];
        }
      }
      k := k + 1;
    }
    assert rules[..|rules|] == rules;
    r := if errors == map[] then Validated(validated) else Invalid(errors);
  }

  /** A throw stops validate: no key after it changes the outcome. */
  lemma {:induction false} Unthrown(input: Value, rules: seq<(string, seq<Rule>)>, k: nat)
    requires k <= |rules| && Run(input, rules[..k]) == Thrown
    ensures Run(input, rules) == Thrown
    decreases |rules| - k
  {
    if k < |rules| {
      assert rules[..k + 1][..k] == rules[..k];
      Unthrown(input, rules, k + 1);
    } else {
      assert rules[..k] == rules;
    }
  }

  /** Keys with distinct names, as a PHP array of rules has. */
  predicate DistinctKeys(rules: seq<(string, seq<Rule>)>) {
    forall i, j :: 0 <= i < j < |rules| ==> rules[i].0 != rules[j].0
  }

  /**
    What validate returns, in three parts: a key whose rules passed maps to the input's value
    under it, or to null when the input has none; nothing but the rules' keys is there; and
    without errors every key with rules is.
   */
  lemma {:induction false} ValidatedRead(input: Value, rules: seq<(string, seq<Rule>)>)
    requires Run(input, rules).Progress?
    ensures forall key :: key in Run(input, rules).validated.at ==>
      input.Arr? && Run(input, rules).validated.at[key] == Read(input, key)
    decreases |rules|
  {
    if |rules| > 0 {
      ValidatedRead(input, rules[..|rules| - 1]);
    }
  }

  /** Every validated key is one of the rules' keys. */
  lemma {:induction false} ValidatedNamed(input: Value, rules: seq<(string, seq<Rule>)>)
    requires Run(input, rules).Progress?
    ensures forall key :: key in Run(input, rules).validated.at ==> exists i :: 0 <= i < |rules| && rules[i].0 == key
    decreases |rules|
  {
    if |rules| > 0 {
      var init := rules[..|rules| - 1];
      ValidatedNamed(input, init);
      var p := Run(input, init);
      forall key | key in Run(input, rules).validated.at
        ensures exists i :: 0 <= i < |rules| && rules[i].0 == key
      {
        if key in p.validated.at {
          var i :| 0 <= i < |init| && init[i].0 == key;
          assert rules[i].0 == key;
        } else {
          assert rules[|rules| - 1].0 == key;
        }
      }
    }
  }

  /** Without errors, every key that has rules is validated. */
  lemma {:induction false} ValidatedComplete(input: Value, rules: seq<(string, seq<Rule>)>)
    requires Run(input, rules).Progress? && Run(input, rules).errors == map[]
    ensures forall i :: 0 <= i < |rules| && |rules[i].1| > 0 ==> rules[i].0 in Run(input, rules).validated.at
    decreases |rules|
  {
    if |rules| > 0 {
      var init := rules[..|rules| - 1];
      ValidatedComplete(input, init);
      var last := rules[|rules| - 1];
      if |last.1| > 0 {
        CheckKeyDecisive(Read(input, last.0), last.1);
      }
      forall i | 0 <= i < |rules| && |rules[i].1| > 0
        ensures rules[i].0 in Run(input, rules).validated.at
      {
        if i < |init| {
          assert init[i] == rules[i];
        }
      }
    }
  }

  /**
    The error kept for a key is the message of its first failing rule, named after the key, and
    a key gets an error exactly when one of its rules fails before any stop.
   */
  lemma {:induction false} FirstErrorKept(input: Value, rules: seq<(string, seq<Rule>)>, i: nat)
    requires DistinctKeys(rules) && input.Arr? && i < |rules|
    requires Run(input, rules).Progress?
    ensures var p := Run(input, rules);
      var c := CheckKey(Read(input, rules[i].0), rules[i].1);
      && (rules[i].0 in p.errors <==> c.error.Some?)
      && (c.error.Some? ==> p.errors[rules[i].0] == Named(c.error.value, rules[i].0))
    decreases |rules|
  {
    var init := rules[..|rules| - 1];
    assert DistinctKeys(init);
    if i < |rules| - 1 {
      assert init[i] == rules[i];
      FirstErrorKept(input, init, i);
    } else {
      ErrorsFromKeys(input, init);
    }
  }

  /** Only keys with rules have errors. */
  lemma {:induction false} ErrorsFromKeys(input: Value, rules: seq<(string, seq<Rule>)>)
    requires Run(input, rules).Progress?
    ensures forall key :: key in Run(input, rules).errors ==> exists i :: 0 <= i < |rules| && rules[i].0 == key
    decreases |rules|
  {
    if |rules| > 0 {
      var init := rules[..|rules| - 1];
      ErrorsFromKeys(input, init);
      forall key | key in Run(input, rules).errors
        ensures exists i :: 0 <= i < |rules| && rules[i].0 == key
      {
        if key in Run(input, init).errors {
          var i :| 0 <= i < |init| && init[i].0 == key;
          assert rules[i].0 == key;
        } else {
          assert rules[|rules| - 1].0 == key;
        }
      }
    }
  }

  /** An absent key whose first rule is optional enters as null and gets no error. */
  lemma OptionalAbsent(rules: seq<Rule>)
    requires |rules| > 0 && rules[0] == Optional()
    ensures CheckKey(Null, rules) == KeyCheck(true, None, false)
  {
  }

  // ---------------------------------------------------------------------------------------------
  // get_request

  /** A query or form field: a string, or an array when its name ends in `[]` (`?a[]=1`). */
  datatype Field = Plain(s: string) | Nested(entries: Value)

  /**
    The request as PHP hands it over: the query and form fields, the uploaded files, the content
    type, and the decoded JSON body (None when it is malformed).
   */
  datatype Request = Request(
    get: seq<(string, Field)>,
    post: seq<(string, Field)>,
    files: seq<(string, Value)>,
    contentType: Option<string>,
    body: Option<Value>)

  const Json := "application/json"

  /** The array after writing each pair in order. */
  function Absorbed(a: Value, pairs: seq<(string, Value)>): (r: Value)
    requires a.Arr?
    ensures r.Arr?
    decreases |pairs|
  {
    if |pairs| == 0 then a
    else
      var last := pairs[|pairs| - 1];
      Put(Absorbed(a, pairs[..|pairs| - 1]), last.0, last.1)
  }

  /** Every field is a string, so `trim` accepts each one. */
  predicate AllPlain(pairs: seq<(string, Field)>) {
    forall i :: 0 <= i < |pairs| ==> pairs[i].1.Plain?
  }

  /** The string fields with each value trimmed. */
  function TrimmedPairs(pairs: seq<(string, Field)>): (r: seq<(string, Value)>)
    requires AllPlain(pairs)
    ensures |r| == |pairs|
    ensures forall i :: 0 <= i < |pairs| ==> r[i] == (pairs[i].0, Str(Trim(pairs[i].1.s)))
  {
    seq(|pairs|, i requires 0 <= i < |pairs| => (pairs[i].0, Str(Trim(pairs[i].1.s))))
  }

  /** An array's entries in foreach order; nothing for a value that is not an array. */
  function Entries(v: Value): (r: seq<(string, Value)>)
    decreases if v.Arr? then |v.keys| else 0
  {
    if !v.Arr? || |v.keys| == 0 then []
    else
      var k := v.keys[|v.keys| - 1];
      var rest := Entries(Arr(v.keys[..|v.keys| - 1], v.at));
      if k in v.at then rest + [(k, v.at[k])] else rest
  }

  /**
    What get_request ends with: the merged array; a malformed JSON body, answered with 400; or
    the TypeError `trim` throws on an array field, which ends the request before the body is read.
   */
  datatype Gathered = Gathered(value: Value) | Malformed | TrimFailed

  /** The merged request: GET, POST, FILES, then a JSON body. */
  function RequestSpec(req: Request): (r: Gathered)
    ensures r.TrimFailed? <==> !AllPlain(req.get) || !AllPlain(req.post)
    ensures r.Malformed? <==> AllPlain(req.get) && AllPlain(req.post) && req.contentType == Some(Json) && req.body.None?
    ensures r.Gathered? ==> r.value.Arr?
  {
    if !AllPlain(req.get) || !AllPlain(req.post) then TrimFailed
    else
      var a := Absorbed(Absorbed(Absorbed(EmptyArray, TrimmedPairs(req.get)), TrimmedPairs(req.post)), req.files);
      if req.contentType == Some(Json) then
        match req.body
        case None => Malformed
        case Some(j) => Gathered(Absorbed(a, Entries(j)))
      else Gathered(a)
  }

  /** The last value paired with `k`, if any. */
  function LastValue(pairs: seq<(string, Value)>, k: string): Option<Value>
    decreases |pairs|
  {
    if |pairs| == 0 then None
    else if pairs[|pairs| - 1].0 == k then Some(pairs[|pairs| - 1].1)
    else LastValue(pairs[..|pairs| - 1], k)
  }

  /** A key written by some pair reads as its last write; any other key reads as before. */
  lemma {:induction false} AbsorbedRead(a: Value, pairs: seq<(string, Value)>, k: string)
    requires a.Arr?
    ensures Read(Absorbed(a, pairs), k) == if LastValue(pairs, k).Some? then LastValue(pairs, k).value else Read(a, k)
    decreases |pairs|
  {
    if |pairs| > 0 {
      AbsorbedRead(a, pairs[..|pairs| - 1], k);
    }
  }

  /**
    get_request's precedence: a key takes its value from the JSON body when the body has it, else
    from FILES, else from POST, else from GET, trimmed for the last two; null when none has it.
   */
  lemma RequestPrecedence(req: Request, k: string)
    requires RequestSpec(req).Gathered?
    ensures var j := if req.contentType == Some(Json) then LastValue(Entries(req.body.value), k) else None;
      var f := LastValue(req.files, k);
      var p := LastValue(TrimmedPairs(req.post), k);
      var g := LastValue(TrimmedPairs(req.get), k);
      Read(RequestSpec(req).value, k) ==
        if j.Some? then j.value else if f.Some? then f.value else if p.Some? then p.value else if g.Some? then g.value else Null
  {
    var a1 := Absorbed(EmptyArray, TrimmedPairs(req.get));
    var a2 := Absorbed(a1, TrimmedPairs(req.post));
    var a3 := Absorbed(a2, req.files);
    AbsorbedRead(EmptyArray, TrimmedPairs(req.get), k);
    AbsorbedRead(a1, TrimmedPairs(req.post), k);
    AbsorbedRead(a2, req.files, k);
    if req.contentType == Some(Json) {
      AbsorbedRead(a3, Entries(req.body.value), k);
    }
  }

  /** One of get_request's loops: each pair written in order. */
  method Absorb(a: Value, pairs: seq<(string, Value)>) returns (r: Value)
    requires a.Arr?
    ensures r == Absorbed(a, pairs)
  {
    r := a;
    var i := 0;
    while i < |pairs|
      invariant 0 <= i <= |pairs|
      invariant r == Absorbed(a, pairs[..i])
    {
      assert pairs[..i + 1][..i] == pairs[..i];
      r := Put(r, pairs[i].0, pairs[i].1);
      i := i + 1;
    }
    assert pairs[..i] == pairs;
  }

  lemma TrimmedStep(a: Value, pairs: seq<(string, Field)>, i: nat)
    requires a.Arr? && i < |pairs| && AllPlain(pairs[..i]) && pairs[i].1.Plain?
    ensures AllPlain(pairs[..i + 1])
    ensures Absorbed(a, TrimmedPairs(pairs[..i + 1]))
         == Put(Absorbed(a, TrimmedPairs(pairs[..i])), pairs[i].0, Str(Trim(pairs[i].1.s)))
  {
    assert pairs[..i + 1] == pairs[..i] + [pairs[i]];
    assert pairs[..i + 1][..i] == pairs[..i];
    assert TrimmedPairs(pairs[..i + 1])[..i] == TrimmedPairs(pairs[..i]);
  }

  /**
    The GET and POST loops: each value trimmed, then written. None when a field is an array, on
    which `trim` throws a TypeError.
   */
  method AbsorbTrimmed(a: Value, pairs: seq<(string, Field)>) returns (r: Option<Value>)
    requires a.Arr?
    ensures r.None? <==> !AllPlain(pairs)
    ensures r.Some? ==> r.value == Absorbed(a, TrimmedPairs(pairs))
  {
    var v := a;
    var i := 0;
    while i < |pairs|
      invariant 0 <= i <= |pairs|
      invariant AllPlain(pairs[..i])
      invariant v == Absorbed(a, TrimmedPairs(pairs[..i]))
    {
      if pairs[i].1.Nested? {
        return None;
      }
      TrimmedStep(a, pairs, i);
      v := Put(v, pairs[i].0, Str(Trim(pairs[i].1.s)));
      i := i + 1;
    }
    assert pairs[..i] == pairs;
    r := Some(v);
  }

  /** get_request: the merged array, a malformed body (answered with 400), or a TypeError. */
  method GetRequest(req: Request) returns (r: Gathered)
    ensures r == RequestSpec(req)
  {
    var g := AbsorbTrimmed(EmptyArray, req.get);
    if g.None? {
      return TrimFailed;
    }
    var p := AbsorbTrimmed(g.value, req.post);
    if p.None? {
      return TrimFailed;
    }
    var a := Absorb(p.value, req.files);
    if req.contentType == Some(Json) {
      if req.body.None? {
        return Malformed;
      }
      a := Absorb(a, Entries(req.body.value));
    }
    r := Gathered(a);
  }

  /**
    validate_request: validate over get_request. None when the body is malformed; a crash when a
    GET or POST field is an array.
   */
  method ValidateRequest(req: Request, rules: seq<(string, seq<Rule>)>) returns (r: Option<Verdict>)
    ensures r.None? <==> RequestSpec(req).Malformed?
    ensures RequestSpec(req).TrimFailed? ==> r == Some(Crashed)
    ensures RequestSpec(req).Gathered? ==> r == Some(Outcome(Run(RequestSpec(req).value, rules)))
  {
    var input := GetRequest(req);
    match input
    case Malformed => r := None;
    case TrimFailed => r := Some(Crashed);
    case Gathered(v) =>
      var verdict := Validate(v, rules);
      r := Some(verdict);
  }

  // ---------------------------------------------------------------------------------------------
  // require_method, optional_user

  const MethodNotAllowed := 405

  /** require_method: the matching method, or None, which is answered with 405. */
  method RequireMethod(requestMethod: string, methods: seq<string>) returns (r: Option<string>)
    ensures r.Some? <==> requestMethod in methods
    ensures r.Some? ==> r.value == requestMethod
  {
    var i := 0;
    while i < |methods|
      invariant 0 <= i <= |methods|
      invariant requestMethod !in methods[..i]
    {
      if methods[i] == requestMethod {
        return Some(methods[i]);
      }
      i := i + 1;
    }
    assert methods[..i] == methods;
    r := None;
  }

  /**
    optional_user: a user id already set is kept; otherwise the session's, or 0 for a visitor
    without a session.
   */
  function OptionalUser(userId: Value, session: map<string, Value>): (r: Value)
    ensures !Empty(userId) ==> r == userId
    ensures Empty(userId) && "user_id" in session ==> r == session["user_id"]
    ensures Empty(userId) && "user_id" !in session ==> r == Int(0)
  {
    if !Empty(userId) then userId
    else if "user_id" in session then session["user_id"]
    else Int(0)
  }

  /** Calling optional_user again changes nothing. */
  lemma OptionalUserIdempotent(userId: Value, session: map<string, Value>)
    ensures OptionalUser(OptionalUser(userId, session), session) == OptionalUser(userId, session)
  {
  }
}
