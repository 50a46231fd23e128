/** Values, results and replies shared by the task API, its validators and
    its authentication routes. */
module Common {

  datatype Option<+T> = None | Some(value: T) {
    function GetOr(default: T): T {
      match this
      case Some(v) => v
      case None => default
    }
  }

  /** A JSON value as it arrives in a request body or leaves in a response.
      `VTimestamp` stands for a serialized `created_at`, whose clock value is
      not modelled. */
  datatype Value = VStr(s: string) | VBool(b: bool) | VInt(i: int) | VNull | VTimestamp

  /** A JSON object: a request body (a missing body is the empty map) or a
      serialized record. */
  type Payload = map<string, Value>

  /** Field-keyed validation messages, one per offending key. */
  type Errors = map<string, string>

  /** The outcome of loading a payload through a schema. */
  datatype Result<+T> = Ok(value: T) | Invalid(errors: Errors)

  /** The client-visible failures of the API, each with its status code. */
  datatype ApiError =
    | BadRequest(message: string)
    | Unauthorized
    | NotFound
    | ValidationFailed(errors: Errors)
    | InternalError
  {
    function Status(): int {
      match this
      case BadRequest(_) => 400
      case Unauthorized => 401
      case NotFound => 404
      case ValidationFailed(_) => 422
      case InternalError => 500
    }
  }

  /** What a route hands back: a success status with its value, or a failure. */
  datatype Reply<+T> = Success(status: int, value: T) | Failure(error: ApiError) {
    function Status(): int {
      match this
      case Success(code, _) => code
      case Failure(e) => e.Status()
    }
  }
}

/** Decimal text of non-negative integers: `str(n)` in Python, and its
    inverse, the numeric reading SQLite applies when a decimal string is
    compared with an integer column. */
module Decimal {
  import opened Common

  function DigitChar(d: nat): char
    requires d < 10
  {
    "0123456789"[d]
  }

  predicate IsDigit(c: char) {
    '0' <= c <= '9'
  }

  function DigitValue(c: char): nat
    requires IsDigit(c)
  {
    (c as int - '0' as int) as nat
  }

  /** `str(n)` for a non-negative integer: no sign, no leading zeros. */
  function Show(n: nat): (r: string)
    ensures |r| >= 1
    ensures forall i :: 0 <= i < |r| ==> IsDigit(r[i])
    ensures |r| > 1 ==> r[0] != '0'
  {
    if n < 10 then [DigitChar(n)] else Show(n / 10) + [DigitChar(n % 10)]
  }

  /** The integer a non-empty string of decimal digits denotes, or None. */
  function Parse(s: string): (r: Option<nat>)
    ensures r.Some? <==> |s| >= 1 && forall i :: 0 <= i < |s| ==> IsDigit(s[i])
  {
    if |s| == 0 then None
    else if !IsDigit(s[|s| - 1]) then None
    else if |s| == 1 then Some(DigitValue(s[0]))
    else match Parse(s[..|s| - 1])
      case None => None
      case Some(v) => Some(v * 10 + DigitValue(s[|s| - 1]))
  }

  /** Reading back the decimal text of n gives n. */
  lemma {:induction false} ParseShow(n: nat)
    ensures Parse(Show(n)) == Some(n)
  {
    if n >= 10 {
      var s := Show(n);
      assert s[..|s| - 1] == Show(n / 10);
      assert s[|s| - 1] == DigitChar(n % 10);
      ParseShow(n / 10);
    }
  }

  /** Different integers have different decimal texts. */
  lemma ShowInjective(m: nat, n: nat)
    requires Show(m) == Show(n)
    ensures m == n
  {
    ParseShow(m);
    ParseShow(n);
  }
}
