/**
 The parser combinators that the image name grammar is built from, with `combine`'s notion of
 commitment: a parser that fails after consuming input ends the alternatives, one that fails
 before does not, unless it is wrapped in `Attempt`.
 */
module Parsers {
  import opened Wrappers

  /** `Panic` is an `unwrap` that fails inside the parser. */
  datatype Reply<+T> = Okay(value: T, rest: string) | Fail(committed: bool) | Panic {
    predicate IsFailure() { !Okay? }

    function PropagateFailure<U>(): Reply<U>
      requires !Okay?
    {
      if Panic? then Panic else Fail(committed)
    }

    function Extract(): (T, string)
      requires Okay?
    {
      (value, rest)
    }
  }

  function Attempt<T>(r: Reply<T>): Reply<T> {
    if r.Fail? then Fail(false) else r
  }

  function Optional<T>(r: Reply<T>, s: string): Reply<Option<T>> {
    match r
    case Okay(value, rest) => Okay(Some(value), rest)
    case Fail(committed) => if committed then Fail(true) else Okay(None, s)
    case Panic => Panic
  }

  function Or<T>(r: Reply<T>, alternative: Reply<T>): Reply<T> {
    if r.Fail? && !r.committed then alternative else r
  }

  /** The reply of a parser that runs after others: they read from `start` and left off at `at`. */
  function Following<T>(r: Reply<T>, start: string, at: string): Reply<T> {
    if r.Fail? then Fail(r.committed || |at| < |start|) else r
  }

  function Token(c: char, s: string): Reply<()> {
    if s != [] && s[0] == c then Okay((), s[1..]) else Fail(false)
  }

  function Text(text: string, s: string): Reply<()> {
    if text <= s then Okay((), s[|text|..]) else Fail(text != [] && s != [] && s[0] == text[0])
  }

  predicate All(allowed: char -> bool, s: string) {
    forall i :: 0 <= i < |s| ==> allowed(s[i])
  }

  /** The length of the longest prefix of allowed characters. */
  function Run(allowed: char -> bool, s: string): (n: nat)
    ensures n <= |s| && All(allowed, s[..n])
    ensures n < |s| ==> !allowed(s[n])
  {
    if s == [] || !allowed(s[0]) then 0
    else
      var n := 1 + Run(allowed, s[1..]);
      assert s[..n] == [s[0]] + s[1..][..n - 1];
      n
  }

  function Many1(allowed: char -> bool, s: string): Reply<string> {
    var n := Run(allowed, s);
    if n == 0 then Fail(false) else Okay(s[..n], s[n..])
  }

  /** A run ends where its characters end. */
  lemma {:induction false} RunOfAll(allowed: char -> bool, s: string, t: string)
    requires All(allowed, s) && (t == [] || !allowed(t[0]))
    ensures Run(allowed, s + t) == |s|
    ensures (s + t)[..|s|] == s && (s + t)[|s|..] == t
  {
    assert forall i :: 0 <= i < |s| ==> (s + t)[i] == s[i];
    assert t != [] ==> (s + t)[|s|] == t[0];
  }

  /** A run that stops inside a string stops there whatever follows. */
  lemma {:induction false} RunStops(allowed: char -> bool, s: string, t: string)
    requires Run(allowed, s) < |s|
    ensures Run(allowed, s + t) == Run(allowed, s)
  {
    var n := Run(allowed, s);
    var m := Run(allowed, s + t);
    assert forall i :: 0 <= i <= n ==> (s + t)[i] == s[i];
  }

  predicate NonEmptyRun(allowed: char -> bool, s: string) { s != [] && All(allowed, s) }

  /** `t` does not go on with an allowed character. */
  predicate StopsBefore(allowed: char -> bool, t: string) { t == [] || !allowed(t[0]) }

  lemma Many1Reads(allowed: char -> bool, a: string, t: string)
    requires NonEmptyRun(allowed, a) && StopsBefore(allowed, t)
    ensures Many1(allowed, a + t) == Okay(a, t)
  {
    RunOfAll(allowed, a, t);
  }

  lemma Many1Read(allowed: char -> bool, s: string, a: string, t: string)
    requires Many1(allowed, s) == Okay(a, t)
    ensures s == a + t && NonEmptyRun(allowed, a) && StopsBefore(allowed, t)
  {
  }

  lemma TokenReads(c: char, t: string)
    ensures Token(c, [c] + t) == Okay((), t)
  {
    assert ([c] + t)[1..] == t;
  }

  lemma TokenRead(c: char, s: string)
    requires Token(c, s).Okay?
    ensures s == [c] + Token(c, s).rest
  {
  }

  // ----- Decimal numbers

  predicate IsDigit(c: char) { '0' <= c <= '9' }

  function DigitValue(c: char): (n: nat)
    requires IsDigit(c)
    ensures n < 10
  {
    c as int - '0' as int
  }

  function Number(s: string): nat
    requires All(IsDigit, s)
  {
    if s == [] then 0 else 10 * Number(s[..|s| - 1]) + DigitValue(s[|s| - 1])
  }

  function Decimal(n: nat): (s: string)
    ensures s != [] && All(IsDigit, s)
  {
    (if n < 10 then [] else Decimal(n / 10)) + [(n % 10 + '0' as int) as char]
  }

  lemma {:induction false} DecimalRoundTrip(n: nat)
    ensures Number(Decimal(n)) == n
  {
    var s := Decimal(n);
    if n < 10 {
      assert s[..|s| - 1] == [] && Number([]) == 0;
    } else {
      assert s[..|s| - 1] == Decimal(n / 10);
      DecimalRoundTrip(n / 10);
    }
  }

  function TenTo(k: nat): (n: nat)
    ensures n > 0
  {
    if k == 0 then 1 else 10 * TenTo(k - 1)
  }

  lemma {:induction false} DecimalLength(n: nat, k: nat)
    requires n < TenTo(k) && k > 0
    ensures |Decimal(n)| <= k
  {
    if n < 10 {
    } else {
      DecimalLength(n / 10, k - 1);
    }
  }
}
