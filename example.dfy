/** The example benchmark the CLI is shipped with (example/helper.js,
    example/utils.js, example/main.js): a validated sum of 1..n. JavaScript's
    dynamic values are modelled by `Value`. Integers up to
    Number.MAX_SAFE_INTEGER in magnitude are exact and print as their digits;
    larger integer-valued numbers are known by their sign and printed text. */
module Example {
  import opened Wrappers

  /** Number.MAX_SAFE_INTEGER, 2^53 - 1. */
  const MaxSafe: int := 9_007_199_254_740_991

  /** 2^53, the first integer whose successor is not a double. */
  const Pow53: nat := MaxSafe + 1

  /** The integers a double holds exactly, each with its neighbours. */
  type SafeInt = n: int | -MaxSafe <= n <= MaxSafe

  /** A JavaScript value as `validatePositiveInteger` sees it. */
  datatype Value =
    | Integer(n: SafeInt)                        // Number.isInteger holds, within MAX_SAFE_INTEGER
    | LargeInteger(negative: bool, text: string) // Number.isInteger holds beyond it: its sign, and how it prints
    | NonInteger(text: string)                   // any other number (a fraction, NaN, an infinity), as it prints
    | NotNumber(text: string)                    // typeof is not "number" and it converts to a string, as it prints
    | Unprintable                                // a Symbol, or an object without a primitive conversion
    | Throwing(exception: string)                // an object whose toString, valueOf or Symbol.toPrimitive throws `exception`

  // ---------------------------------------------------------------------
  // Printing an integer in decimal, as a template literal does.

  function DigitChar(d: nat): char
    requires d < 10
  {
    "0123456789"[d]
  }

  function NatToString(n: nat): (s: string)
    ensures |s| > 0
    ensures forall i :: 0 <= i < |s| ==> '0' <= s[i] <= '9'
    decreases n
  {
    if n < 10 then [DigitChar(n)] else NatToString(n / 10) + [DigitChar(n % 10)]
  }

  function IntToString(n: int): string {
    if n < 0 then "-" + NatToString(-n) else NatToString(n)
  }

  /** The value of a string of decimal digits. */
  function DigitsValue(s: string): nat
    requires forall i :: 0 <= i < |s| ==> '0' <= s[i] <= '9'
    decreases |s|
  {
    if |s| == 0 then 0 else 10 * DigitsValue(s[..|s| - 1]) + (s[|s| - 1] - '0') as nat
  }

  /** Printing a natural number loses nothing: reading the digits back gives
      the number. */
  lemma {:induction false} NatToStringRoundTrip(n: nat)
    ensures DigitsValue(NatToString(n)) == n
    decreases n
  {
    var s := NatToString(n);
    if n >= 10 {
      NatToStringRoundTrip(n / 10);
      assert s[..|s| - 1] == NatToString(n / 10);
    }
  }

  /** What `${value}` produces; `None` when the conversion throws a
      TypeError. */
  function Show(v: Value): Option<string> {
    match v
    case Integer(n) => Some(IntToString(n))
    case LargeInteger(_, text) => Some(text)
    case NonInteger(text) => Some(text)
    case NotNumber(text) => Some(text)
    case Unprintable => None
    case Throwing(_) => None
  }

  // ---------------------------------------------------------------------
  // utils.js

  const Expected: string := "Expected a positive integer, got "

  /** What `validatePositiveInteger` throws: its own Error; the TypeError
      raised while building the Error's message from a Symbol or from an
      object without a primitive conversion; or, passed on, the exception the
      value's own conversion throws. */
  datatype Thrown = Error(message: string) | TypeError | Rethrown(exception: string)

  /** `validatePositiveInteger` (example/utils.js:7-11): `None` when it
      returns, `Some(thrown)` when it throws. */
  function ValidatePositiveInteger(v: Value): (r: Option<Thrown>)
    ensures r.None? <==> (v.Integer? && v.n > 0) || (v.LargeInteger? && !v.negative)
    ensures r == Some(TypeError) <==> v.Unprintable?
    ensures v.Throwing? ==> r == Some(Rethrown(v.exception))
    ensures r.Some? && r.value.Rethrown? ==> v.Throwing?
    ensures r.Some? && r.value.Error? ==> Show(v).Some? && r.value.message == Expected + Show(v).value
  {
    if (v.Integer? && v.n > 0) || (v.LargeInteger? && !v.negative) then None
    else
      match v
      case Unprintable => Some(TypeError)
      case Throwing(e) => Some(Rethrown(e))
      case _ => Some(Error(Expected + Show(v).value))
  }

  /** A safe integer prints as its decimal digits, after a minus sign when it
      is negative: reading the text back gives the integer. */
  lemma ShowIntegerRoundTrip(n: SafeInt)
    ensures Show(Integer(n)).Some?
    ensures var s := Show(Integer(n)).value;
      && (n >= 0 ==> (forall i :: 0 <= i < |s| ==> '0' <= s[i] <= '9') && DigitsValue(s) == n)
      && (n < 0 ==> |s| > 1 && s[0] == '-' && (forall i :: 1 <= i < |s| ==> '0' <= s[i] <= '9')
                    && DigitsValue(s[1..]) == -n)
  {
    if n >= 0 {
      NatToStringRoundTrip(n);
    } else {
      NatToStringRoundTrip(-n);
      assert Show(Integer(n)).value[1..] == NatToString(-n);
    }
  }

  // ---------------------------------------------------------------------
  // helper.js

  /** 1 + 2 + ... + n. */
  function SumTo(n: nat): nat
    decreases n
  {
    if n == 0 then 0 else SumTo(n - 1) + n
  }

  /** Gauss's closed form. */
  lemma {:induction false} SumToClosedForm(n: nat)
    ensures 2 * SumTo(n) == n * (n + 1)
    decreases n
  {
    if n > 0 {
      SumToClosedForm(n - 1);
    }
  }

  /** `i++` on a double holding a counter from 0 to 2^53: exact below 2^53;
      at 2^53 the sum 2^53 + 1 lies halfway between two doubles and rounds to
      the one with the even significand, 2^53 itself. */
  function Increment(i: nat): (r: nat)
    requires i <= Pow53
    ensures r <= Pow53
  {
    if i < Pow53 then i + 1 else i
  }

  /** The counter of `calculate`'s loop after `k` increments from 1. */
  function CounterAfter(k: nat): (r: nat)
    ensures r <= Pow53
    decreases k
  {
    if k == 0 then 1 else Increment(CounterAfter(k - 1))
  }

  /** Below 2^53 the counter counts exactly, so for `n` up to
      MAX_SAFE_INTEGER the test `i <= n` fails after `n` iterations. */
  lemma {:induction false} CounterExact(k: nat)
    requires k < Pow53
    ensures CounterAfter(k) == k + 1
    decreases k
  {
    if k > 0 {
      CounterExact(k - 1);
    }
  }

  /** From then on the counter stays at 2^53, so for `n` of 2^53 or more the
      test `i <= n` never fails and the loop does not end. */
  lemma {:induction false} CounterStalls(k: nat)
    requires k >= MaxSafe
    ensures CounterAfter(k) == Pow53
    decreases k
  {
    if k == MaxSafe {
      CounterExact(k);
    } else {
      CounterStalls(k - 1);
    }
  }

  /** How a call of `calculate` ends. */
  datatype Completion = Returns(value: nat) | Throws(thrown: Thrown) | Diverges

  /** `calculate` (example/helper.js:9-18): validation first, then the sum
      of 1..n by a counting loop. A positive integer beyond MAX_SAFE_INTEGER
      passes validation, and then the loop runs forever (`CounterStalls`). */
  method Calculate(v: Value) returns (r: Completion)
    ensures r.Throws? <==> ValidatePositiveInteger(v).Some?
    ensures r.Throws? ==> r.thrown == ValidatePositiveInteger(v).value
    ensures r.Diverges? <==> v.LargeInteger? && !v.negative
    ensures r.Returns? ==> v.Integer? && r.value == SumTo(v.n) && 2 * r.value == v.n * (v.n + 1)
  {
    var err := ValidatePositiveInteger(v);
    if err.Some? {
      return Throws(err.value);
    }
    if v.LargeInteger? {
      return Diverges;
    }
    var n: nat := v.n;
    var sum: nat := 0;
    var i: nat := 1;
    while i <= n
      invariant 1 <= i <= n + 1
      invariant sum == SumTo(i - 1)
      decreases n - i
    {
      sum := sum + i;
      i := Increment(i);
    }
    SumToClosedForm(n);
    return Returns(sum);
  }

  /** example/main.js:9-10: the benchmark computes `calculate(10)` and
      asserts that it is 55. */
  method Benchmark() returns (result: int)
    ensures result == 55
  {
    var r := Calculate(Integer(10));
    SumToClosedForm(10);
    result := r.value;
  }
}
