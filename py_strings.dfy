/** The Python built-ins on strings that both core files lean on:
    slicing, single-character `str.replace`, `"%s" % n` for a
    non-negative int and `int()` of a digit string, and `os.path.join`. */
module PyStrings {

  /** Where a slice bound `i` lands in a sequence of length `n`: a negative
      bound counts from the end, then the bound is clamped to `[0, n]`. */
  function SliceIndex(i: int, n: nat): (k: nat)
    ensures k <= n
    ensures 0 <= i ==> k == if i <= n then i else n
    ensures i < 0 ==> k == if -i <= n then n + i else 0
  {
    if i < 0 then (if i + n < 0 then 0 else i + n)
    else if i > n then n
    else i
  }

  /** Python's `s[lo:hi]`: empty when the normalised bounds cross. */
  function Slice<T>(s: seq<T>, lo: int, hi: int): (r: seq<T>)
    ensures |r| <= |s|
    ensures SliceIndex(lo, |s|) <= SliceIndex(hi, |s|) ==>
      r == s[SliceIndex(lo, |s|)..SliceIndex(hi, |s|)]
    ensures SliceIndex(hi, |s|) <= SliceIndex(lo, |s|) ==> r == []
  {
    var a := SliceIndex(lo, |s|);
    var b := SliceIndex(hi, |s|);
    if a < b then s[a..b] else []
  }

  /** Cutting at two non-negative points and gluing the three slices back
      gives the original sequence. */
  lemma SliceThreeWay<T>(s: seq<T>, a: int, b: int)
    requires 0 <= a <= b
    ensures Slice(s, 0, a) + Slice(s, a, b) + Slice(s, b, |s|) == s
  {
    var i, j := SliceIndex(a, |s|), SliceIndex(b, |s|);
    assert Slice(s, 0, a) == s[..i];
    assert Slice(s, a, b) == s[i..j];
    assert Slice(s, b, |s|) == s[j..];
    assert s[..i] + s[i..j] == s[..j];
  }

  /** `s.replace(target, substitute)` where both arguments are one character long. */
  function Replace(s: string, target: char, substitute: char): (r: string)
    ensures |r| == |s|
    ensures forall i :: 0 <= i < |s| ==> r[i] == if s[i] == target then substitute else s[i]
  {
    if s == [] then [] else [if s[0] == target then substitute else s[0]] + Replace(s[1..], target, substitute)
  }

  predicate IsDigit(c: char) {
    '0' <= c <= '9'
  }

  predicate AllDigits(s: string) {
    forall i :: 0 <= i < |s| ==> IsDigit(s[i])
  }

  function DigitChar(d: nat): (c: char)
    requires d < 10
    ensures IsDigit(c)
  {
    (d + '0' as int) as char
  }

  function DigitValue(c: char): (d: nat)
    requires IsDigit(c)
    ensures d < 10
  {
    c as int - '0' as int
  }

  /** `"%s" % n` for a non-negative int: decimal digits, no leading zero. */
  function NatToString(n: nat): (r: string)
    ensures r != [] && AllDigits(r)
    ensures r[0] == '0' ==> n == 0 && r == "0"
    ensures n < 10 <==> |r| == 1
    decreases n
  {
    if n < 10 then [DigitChar(n)] else NatToString(n / 10) + [DigitChar(n % 10)]
  }

  /** `int(s)` for a non-empty string of ASCII digits. */
  function ParseDigits(s: string): nat
    requires AllDigits(s)
    decreases |s|
  {
    if s == [] then 0 else ParseDigits(s[..|s| - 1]) * 10 + DigitValue(s[|s| - 1])
  }

  /** `int("%s" % n) == n`. */
  lemma {:induction false} ParseNatToString(n: nat)
    ensures ParseDigits(NatToString(n)) == n
    decreases n
  {
    var r := NatToString(n);
    if n < 10 {
      assert r[..0] == [];
    } else {
      ParseNatToString(n / 10);
      assert r[..|r| - 1] == NatToString(n / 10);
    }
  }

  /** `os.path.join(a, b)` with POSIX separators, for a single component `b`. */
  function PathJoin(a: string, b: string): string {
    if b != [] && b[0] == '/' then b
    else if a == [] || a[|a| - 1] == '/' then a + b
    else a + "/" + b
  }
}
