/**
  The older request helpers of server/common/session.php: a `required` that rejects every
  PHP-empty value, a `min_length` with a fixed message, a `validate_request` that answers errors
  without setting a status, a `require_method` that returns no value, and `generate_random`.
  `get_request` is the same as in server/common/validation.php and is taken from there.
 */
module SessionHelpers {
  import opened Wrappers
  import opened PhpValues
  import opened Validation

  /** required: an error exactly when the value is PHP-empty (null, false, 0, "", "0", []). */
  function RequiredNonEmpty(msg: Option<string>): (rule: Rule)
    ensures forall v :: rule(v).Error? <==> Empty(v)
    ensures forall v :: rule(v) != Threw && rule(v) != Pass(true)
  {
    (v: Value) => if Empty(v) then Error(msg.GetOr("%name% is required")) else Pass(false)
  }

  /** This required rejects more than validation.php's: "0" and 0 are missing values here. */
  lemma RequiredStricter(msg: Option<string>)
    ensures RequiredNonEmpty(msg)(Str("0")).Error? && Required(msg)(Str("0")) == Pass(false)
    ensures forall v :: Required(msg)(v).Error? ==> RequiredNonEmpty(msg)(v).Error?
  {
  }

  /** min_length: an error exactly when strlen of the value is below `min`; the message is fixed. */
  function MinLengthRequired(min: int, msg: Option<string>): (rule: Rule)
    ensures forall v :: rule(v) == Threw <==> Text(v).None?
    ensures forall v :: rule(v) == Pass(false) <==> Text(v).Some? && |Text(v).value| >= min
    ensures forall v :: rule(v).Error? ==> rule(v).msg == msg.GetOr("%name% is required")
  {
    (v: Value) => match Text(v)
      case None => Threw
      case Some(t) => if |t| < min then Error(msg.GetOr("%name% is required")) else Pass(false)
  }

  /**
    require_method: the request passes exactly when its method is listed. Unlike validation.php's,
    a passing request gets no value back; a refused one is answered with 405.
   */
  method RequireMethodSession(requestMethod: string, methods: seq<string>) returns (allowed: bool)
    ensures allowed <==> requestMethod in methods
  {
    allowed := false;
    var i := 0;
    while i < |methods|
      invariant 0 <= i <= |methods|
      invariant requestMethod !in methods[..i]
    {
      if methods[i] == requestMethod {
        return true;
      }
      i := i + 1;
    }
    assert methods[..i] == methods;
  }

  /** require_method_post: only POST passes. */
  method RequireMethodPost(requestMethod: string) returns (allowed: bool)
    ensures allowed <==> requestMethod == "POST"
  {
    allowed := RequireMethodSession(requestMethod, ["POST"]);
  }

  /** require_method_get: only GET passes. */
  method RequireMethodGet(requestMethod: string) returns (allowed: bool)
    ensures allowed <==> requestMethod == "GET"
  {
    allowed := RequireMethodSession(requestMethod, ["GET"]);
  }

  const Ok := 200
  const ServerError := 500

  /**
    validate_request: the request merged and validated. A malformed body is answered with 400 by
    get_request, and an array field's TypeError with 500; errors are echoed and the request ends
    with the default status 200.
   */
  method ValidateRequestOld(req: Request, rules: seq<(string, seq<Rule>)>) returns (r: Option<Verdict>, status: int)
    ensures r.None? <==> RequestSpec(req).Malformed?
    ensures RequestSpec(req).TrimFailed? ==> r == Some(Crashed)
    ensures RequestSpec(req).Gathered? ==> r == Some(Outcome(Run(RequestSpec(req).value, rules)))
    ensures status == if r.None? then BadRequest else if r == Some(Crashed) then ServerError else Ok
  {
    r := ValidateRequest(req, rules);
    status := if r.None? then BadRequest else if r == Some(Crashed) then ServerError else Ok;
  }

  /** The characters generate_random draws from. */
  const Alphabet := "ABCDEFGHIJKLMNOPQRSTUVWXYZabcdefghijklmnopqrstuvwxyz0123456789"

  /** The string that the draws `picks` (each the result of `rand(0, 61)`) spell. */
  function Spelled(picks: seq<int>): (s: string)
    requires forall i :: 0 <= i < |picks| ==> 0 <= picks[i] < |Alphabet|
    ensures |s| == |picks|
    ensures forall i :: 0 <= i < |s| ==> s[i] in Alphabet
  {
    seq(|picks|, i requires 0 <= i < |picks| => Alphabet[picks[i]])
  }

  /**
    generate_random: `len` characters, each drawn from the alphabet by `rand`; the draws are a
    parameter, one per character.
   */
  method GenerateRandom(len: int, picks: seq<int>) returns (s: string)
    requires |picks| >= len
    requires forall i :: 0 <= i < |picks| ==> 0 <= picks[i] < |Alphabet|
    ensures |s| == if len < 0 then 0 else len
    ensures forall i :: 0 <= i < |s| ==> s[i] in Alphabet
    ensures s == Spelled(picks[..|s|])
  {
    s := "";
    var i := 0;
    while i < len
      invariant 0 <= i <= (if len < 0 then 0 else len) && i == |s|
      invariant s == Spelled(picks[..i])
    {
      s := s + [Alphabet[picks[i]]];
      i := i + 1;
    }
  }

  /** The draws that spell a given string of alphabet characters. */
  function Draws(s: string): (picks: seq<int>)
    requires forall i :: 0 <= i < |s| ==> s[i] in Alphabet
    ensures |picks| == |s|
    ensures forall i :: 0 <= i < |s| ==> 0 <= picks[i] < |Alphabet| && Alphabet[picks[i]] == s[i]
  {
    seq(|s|, i requires 0 <= i < |s| => IndexIn(Alphabet, s[i]))
  }

  function IndexIn(a: string, c: char): (k: int)
    requires c in a
    ensures 0 <= k < |a| && a[k] == c
  {
    if a[0] == c then 0 else 1 + IndexIn(a[1..], c)
  }

  /** Every string of alphabet characters is a possible result: some draws spell it. */
  lemma EveryStringPossible(s: string)
    requires forall i :: 0 <= i < |s| ==> s[i] in Alphabet
    ensures Spelled(Draws(s)) == s
  {
  }
}
