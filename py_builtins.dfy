/**
 * The few Python built-ins the ledger relies on, with Python's semantics
 * written out: slices clamp at the end of the sequence instead of failing,
 * and str() of a non-negative integer is its decimal spelling.
 */
module PyBuiltins {

  /** s[:n] -- a prefix of at most n elements (Python clamps n to len(s)). */
  function Prefix<T>(s: seq<T>, n: nat): (r: seq<T>)
    ensures |r| == if n <= |s| then n else |s|
    ensures r <= s
  {
    if n <= |s| then s[..n] else s
  }

  /** s[:-1] -- everything but the last element; [] for an empty list. */
  function DropLast<T>(s: seq<T>): (r: seq<T>)
    ensures |s| == 0 ==> r == []
    ensures |s| > 0 ==> r + [s[|s| - 1]] == s
  {
    if |s| == 0 then [] else s[..|s| - 1]
  }

  lemma DropLastOfAppend<T>(s: seq<T>, x: T)
    ensures DropLast(s + [x]) == s
  {
    assert (s + [x])[..|s|] == s;
  }

  function DigitChar(d: nat): (c: char)
    requires d < 10
    ensures '0' <= c <= '9'
  {
    ('0' as int + d) as char
  }

  /** The number a string of decimal digits spells, most significant first. */
  function DigitsValue(s: string): nat
    requires forall i :: 0 <= i < |s| ==> '0' <= s[i] <= '9'
  {
    if s == [] then 0 else DigitsValue(s[..|s| - 1]) * 10 + (s[|s| - 1] - '0') as nat
  }

  /** str(n) for a natural number n: its decimal digits, most significant first. */
  function Str(n: nat): (r: string)
    ensures 1 <= |r|
    ensures forall i :: 0 <= i < |r| ==> '0' <= r[i] <= '9'
    ensures n < 10 <==> |r| == 1
  {
    if n < 10 then [DigitChar(n)] else Str(n / 10) + [DigitChar(n % 10)]
  }

  /** The digits of str(n) spell n back. */
  lemma {:induction false} StrValue(n: nat)
    ensures DigitsValue(Str(n)) == n
  {
    if n < 10 {
      assert Str(n)[..0] == [];
    } else {
      var high := Str(n / 10);
      StrValue(n / 10);
      assert Str(n)[..|Str(n)| - 1] == high;
      assert DigitsValue(Str(n)) == DigitsValue(high) * 10 + n % 10;
    }
  }

  /** Like Python's str(), the spelling never starts with '0' unless n is 0. */
  lemma {:induction false} StrNoLeadingZero(n: nat)
    ensures Str(n)[0] == '0' ==> n == 0
  {
    if n >= 10 {
      StrNoLeadingZero(n / 10);
      assert Str(n)[0] == Str(n / 10)[0];
    }
  }
}
