/**
  Text helpers shared by the schema serialisers and the column lookups:
  optional attributes, Python truthiness, an ASCII case fold, sequence
  concatenation and joining, Python's negative-index slice, and decimal
  rendering of natural numbers.
 */
module Strings {

  /** An XML attribute or dictionary entry that may be missing (Python's None). */
  datatype Option<+T> = None | Some(value: T)

  /** Python truthiness of an optional string: present and non-empty. */
  predicate Truthy(v: Option<string>) {
    v.Some? && |v.value| > 0
  }

  /** The text of a truthy attribute, or the empty string otherwise. */
  function TextOr(v: Option<string>): string {
    if v.Some? then v.value else ""
  }

  /* ---------------------------------------------------------------- */
  /* Case folding (ASCII)                                              */
  /* ---------------------------------------------------------------- */

  function LowerChar(c: char): (r: char)
    ensures 'A' <= c <= 'Z' ==> 'a' <= r <= 'z'
    ensures !('A' <= c <= 'Z') ==> r == c
  {
    if 'A' <= c <= 'Z' then (c as int + 32) as char else c
  }

  function Lower(s: string): (r: string)
    ensures |r| == |s|
    ensures forall i :: 0 <= i < |s| ==> r[i] == LowerChar(s[i])
  {
    seq(|s|, i requires 0 <= i < |s| => LowerChar(s[i]))
  }

  lemma {:induction false} LowerIdempotent(s: string)
    ensures Lower(Lower(s)) == Lower(s)
  {
    assert forall i :: 0 <= i < |s| ==> LowerChar(LowerChar(s[i])) == LowerChar(s[i]);
  }

  /** Case-insensitive comparison (Qt::CaseInsensitive, restricted to ASCII). */
  predicate EqualsIgnoreCase(a: string, b: string) {
    Lower(a) == Lower(b)
  }

  /* ---------------------------------------------------------------- */
  /* Concatenation and joining                                         */
  /* ---------------------------------------------------------------- */

  /** All pieces appended left to right, as an accumulator `+=` loop does. */
  function Concat(pieces: seq<string>): string {
    if |pieces| == 0 then "" else Concat(pieces[..|pieces| - 1]) + pieces[|pieces| - 1]
  }

  lemma {:induction false} ConcatAppend(a: seq<string>, b: seq<string>)
    ensures Concat(a + b) == Concat(a) + Concat(b)
    decreases |b|
  {
    if |b| == 0 {
      assert a + b == a;
    } else {
      var b' := b[..|b| - 1];
      assert (a + b)[..|a + b| - 1] == a + b';
      ConcatAppend(a, b');
    }
  }

  /** `[f(x) for x in xs]`. */
  function Map<A, B>(f: A -> B, xs: seq<A>): (r: seq<B>)
    ensures |r| == |xs|
    ensures forall i :: 0 <= i < |xs| ==> r[i] == f(xs[i])
  {
    seq(|xs|, i requires 0 <= i < |xs| => f(xs[i]))
  }

  /** The pieces separated by `sep`, with no separator before the first or after the last. */
  function Join(pieces: seq<string>, sep: string): string {
    if |pieces| == 0 then ""
    else if |pieces| == 1 then pieces[0]
    else Join(pieces[..|pieces| - 1], sep) + sep + pieces[|pieces| - 1]
  }

  lemma {:induction false} JoinThree(pieces: seq<string>, sep: string)
    requires |pieces| == 3
    ensures Join(pieces, sep) == pieces[0] + sep + pieces[1] + sep + pieces[2]
  {
    var two := pieces[..2];
    assert two[..1] == [pieces[0]];
    assert Join(two, sep) == pieces[0] + sep + pieces[1];
    assert Join(pieces, sep) == Join(two, sep) + sep + pieces[2];
  }

  /** Each piece followed by `term`. */
  function Terminated(pieces: seq<string>, term: string): (r: seq<string>)
    ensures |r| == |pieces|
    ensures forall i :: 0 <= i < |pieces| ==> r[i] == pieces[i] + term
  {
    seq(|pieces|, i requires 0 <= i < |pieces| => pieces[i] + term)
  }

  /** Terminating every piece equals joining them with the terminator and adding one more. */
  lemma {:induction false} ConcatTerminatedIsJoin(pieces: seq<string>, term: string)
    requires |pieces| > 0
    ensures Concat(Terminated(pieces, term)) == Join(pieces, term) + term
    decreases |pieces|
  {
    var t := Terminated(pieces, term);
    if |pieces| > 1 {
      var p := pieces[..|pieces| - 1];
      assert t[..|t| - 1] == Terminated(p, term);
      ConcatTerminatedIsJoin(p, term);
    }
  }

  /* ---------------------------------------------------------------- */
  /* Python slices                                                     */
  /* ---------------------------------------------------------------- */

  predicate StartsWith(s: string, prefix: string) {
    |prefix| <= |s| && s[..|prefix|] == prefix
  }

  predicate EndsWith(s: string, suffix: string) {
    |suffix| <= |s| && s[|s| - |suffix|..] == suffix
  }

  lemma {:induction false} AppendEnds(a: string, b: string)
    ensures StartsWith(a + b, a) && EndsWith(a + b, b)
  {
  }

  lemma {:induction false} AppendAssoc(a: string, b: string, c: string)
    ensures a + b + c == a + (b + c)
  {
  }

  /** Python's `s[:-k]` for k > 0: all but the last k characters, or "" when s is shorter. */
  function DropLast(s: string, k: nat): (r: string)
    requires k > 0
    ensures |s| >= k ==> |r| == |s| - k && r == s[..|s| - k]
    ensures |s| < k ==> r == ""
  {
    if |s| >= k then s[..|s| - k] else ""
  }

  lemma {:induction false} DropLastOfSuffix(s: string, suffix: string)
    requires |suffix| > 0
    ensures DropLast(s + suffix, |suffix|) == s
  {
  }

  /* ---------------------------------------------------------------- */
  /* Decimal numerals (Python's str() of a non-negative int)           */
  /* ---------------------------------------------------------------- */

  predicate IsDigit(c: char) {
    '0' <= c <= '9'
  }

  function DigitChar(d: nat): (c: char)
    requires d < 10
    ensures IsDigit(c)
  {
    ('0' as int + d) as char
  }

  function DigitValue(c: char): nat
    requires IsDigit(c)
  {
    c as int - '0' as int
  }

  function NatToDecimal(n: nat): (r: string)
    ensures |r| >= 1
    ensures forall i :: 0 <= i < |r| ==> IsDigit(r[i])
    ensures n > 0 ==> r[0] != '0'
  {
    if n < 10 then [DigitChar(n)] else NatToDecimal(n / 10) + [DigitChar(n % 10)]
  }

  /** The value of a string of decimal digits. */
  function DecimalValue(s: string): nat
    requires forall i :: 0 <= i < |s| ==> IsDigit(s[i])
  {
    if |s| == 0 then 0 else 10 * DecimalValue(s[..|s| - 1]) + DigitValue(s[|s| - 1])
  }

  /** Reading back a rendered number gives the number. */
  lemma {:induction false} DecimalRoundTrip(n: nat)
    ensures DecimalValue(NatToDecimal(n)) == n
  {
    var r := NatToDecimal(n);
    if n >= 10 {
      assert r[..|r| - 1] == NatToDecimal(n / 10);
      DecimalRoundTrip(n / 10);
    }
  }
}
