/** String vocabulary: substring search (`String.prototype.includes`),
    decimal digits, the decimal rendering of integers, `parseInt` on a run of
    digits, the first-digit-run match `/\d+/`, and ASCII lower-casing. */
module Text {
  import opened Seqs

  /** `s.includes(k)`: `k` occurs in `s` as a contiguous block. */
  predicate Contains(s: string, k: string) {
    exists i :: 0 <= i <= |s| - |k| && OccursAt(s, k, i)
  }

  /** `k` occurs in `s` starting at index `i`. */
  predicate OccursAt(s: string, k: string, i: int) {
    0 <= i <= |s| - |k| && s[i..i + |k|] == k
  }

  /** The regular-expression class `\d`: ASCII digits only. */
  predicate IsDigit(c: char) {
    '0' <= c <= '9'
  }

  predicate AllDigits(s: string) {
    forall i :: 0 <= i < |s| ==> IsDigit(s[i])
  }

  predicate HasDigit(s: string) {
    exists i :: 0 <= i < |s| && IsDigit(s[i])
  }

  function DigitChar(d: nat): (c: char)
    requires d < 10
    ensures IsDigit(c)
  {
    (48 + d) as char
  }

  function DigitValue(c: char): (d: nat)
    requires IsDigit(c)
    ensures d < 10
    ensures DigitChar(d) == c
  {
    (c as int) - 48
  }

  /** `parseInt` applied to a string made of decimal digits only. */
  function ParseDigits(s: string): nat
    requires AllDigits(s)
  {
    if |s| == 0 then 0
    else 10 * ParseDigits(s[..|s| - 1]) + DigitValue(s[|s| - 1])
  }

  /** The decimal rendering of a natural number, as JavaScript's
      number-to-string conversion produces it for integers below 2^53 (larger
      numbers are doubles there and may round or use exponent form). Parsing
      it back gives the number again. */
  function NatToString(n: nat): (r: string)
    ensures |r| > 0 && AllDigits(r)
    ensures ParseDigits(r) == n
    ensures r[0] == '0' ==> n == 0
  {
    if n < 10 then [DigitChar(n)]
    else
      var prefix := NatToString(n / 10);
      var r := prefix + [DigitChar(n % 10)];
      assert r[..|r| - 1] == prefix;
      r
  }

  /** Appending a digit to a positive number appends its character. */
  lemma NatToStringSnoc(q: nat, d: nat)
    requires q > 0 && d < 10
    ensures NatToString(10 * q + d) == NatToString(q) + [DigitChar(d)]
  {
    assert (10 * q + d) / 10 == q && (10 * q + d) % 10 == d;
  }

  /** The decimal rendering of an integer, with a leading minus sign when
      negative: what `(x) + '年'` puts in front of the unit. */
  function IntToString(i: int): (r: string)
    ensures |r| > 0
  {
    if i < 0 then "-" + NatToString(-i) else NatToString(i)
  }

  /** Different integers are rendered differently. */
  lemma IntToStringInjective(a: int, b: int)
    ensures IntToString(a) == IntToString(b) ==> a == b
  {
    assert IntToString(a)[0] == '-' <==> a < 0;
    assert IntToString(b)[0] == '-' <==> b < 0;
    if a < 0 && b < 0 && IntToString(a) == IntToString(b) {
      assert NatToString(-a) == IntToString(a)[1..] == IntToString(b)[1..] == NatToString(-b);
    }
  }

  /** The longest prefix of `s` made of digits. */
  function DigitPrefix(s: string): (r: string)
    ensures r <= s && AllDigits(r)
    ensures |r| == |s| || !IsDigit(s[|r|])
  {
    if |s| == 0 || !IsDigit(s[0]) then []
    else [s[0]] + DigitPrefix(s[1..])
  }

  /** `s.match(/\d+/)`: the first maximal run of digits, or `None` when `s`
      holds no digit. The run starts at `RunStart(s)`, nothing before it is a
      digit. */
  function FirstDigitRun(s: string): (r: Option<string>)
    ensures r.None? <==> !HasDigit(s)
    ensures r.Some? ==> |r.value| > 0 && AllDigits(r.value)
    ensures r.Some? ==> RunAt(s, r.value, RunStart(s))
  {
    if |s| == 0 then None
    else if IsDigit(s[0]) then
      var p := DigitPrefix(s);
      assert RunStart(s) == 0 && s[0..|p|] == p;
      Some(p)
    else
      var rest := FirstDigitRun(s[1..]);
      assert rest.Some? ==> RunAt(s, rest.value, RunStart(s)) by {
        if rest.Some? {
          RunAtShift(s, rest.value, RunStart(s[1..]));
        }
      }
      assert HasDigit(s) <==> HasDigit(s[1..]) by {
        if HasDigit(s) {
          var i :| 0 <= i < |s| && IsDigit(s[i]);
          assert s[1..][i - 1] == s[i];
        }
        if HasDigit(s[1..]) {
          var i :| 0 <= i < |s[1..]| && IsDigit(s[1..][i]);
          assert s[i + 1] == s[1..][i];
        }
      }
      rest
  }

  /** A run of the tail is a run of the whole, one position later. */
  lemma RunAtShift(s: string, run: string, i: int)
    requires |s| > 0 && RunAt(s[1..], run, i)
    ensures RunAt(s, run, i + 1)
  {
    assert s[i + 1..i + 1 + |run|] == s[1..][i..i + |run|];
  }

  /** Index of the first digit of `s` (or `|s|` when there is none). */
  function RunStart(s: string): (i: nat)
    ensures i <= |s|
    ensures !HasDigit(s[..i])
    ensures i < |s| ==> IsDigit(s[i])
  {
    if |s| == 0 then 0
    else if IsDigit(s[0]) then 0
    else
      var j := RunStart(s[1..]);
      assert s[..j + 1] == [s[0]] + s[1..][..j];
      j + 1
  }

  /** `run` is a maximal digit run of `s` starting at index `i`. */
  predicate RunAt(s: string, run: string, i: int) {
    0 <= i && i + |run| <= |s| && s[i..i + |run|] == run
    && (i + |run| == |s| || !IsDigit(s[i + |run|]))
  }

  function LowerChar(c: char): char {
    if 'A' <= c <= 'Z' then (c as int + 32) as char else c
  }

  /** `toLowerCase` restricted to the ASCII letters. */
  function Lower(s: string): (r: string)
    ensures |r| == |s|
    ensures forall i :: 0 <= i < |s| ==> r[i] == LowerChar(s[i])
  {
    seq(|s|, i requires 0 <= i < |s| => LowerChar(s[i]))
  }
}
