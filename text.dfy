/**
 * The string operations the week keys need: decimal rendering of numbers
 * (`Number.prototype.toString`), `String.prototype.padStart`, and the lexicographic
 * order that `Array.prototype.sort` uses on strings by default.
 */
module Text {
  import opened Seqs

  predicate IsDigit(c: char) {
    '0' <= c <= '9'
  }

  predicate AllDigits(s: string) {
    forall i :: 0 <= i < |s| ==> IsDigit(s[i])
  }

  function DigitChar(d: nat): (c: char)
    requires d < 10
    ensures IsDigit(c)
  {
    (48 + d) as char
  }

  function DigitValue(c: char): nat
    requires IsDigit(c)
  {
    c as int - 48
  }

  /** Decimal digits of `n`, most significant first, without leading zeros. */
  function NatToString(n: nat): (s: string)
    ensures 1 <= |s|
    ensures AllDigits(s)
    decreases n
  {
    if n < 10 then [DigitChar(n)] else NatToString(n / 10) + [DigitChar(n % 10)]
  }

  /** The value of a string of decimal digits. */
  function ParseNat(s: string): nat
    requires AllDigits(s)
  {
    if s == [] then 0 else ParseNat(s[..|s| - 1]) * 10 + DigitValue(s[|s| - 1])
  }

  lemma {:induction false} ParseNatToString(n: nat)
    ensures ParseNat(NatToString(n)) == n
    decreases n
  {
    var s := NatToString(n);
    if n >= 10 {
      ParseNatToString(n / 10);
      assert s[..|s| - 1] == NatToString(n / 10);
    }
  }

  /** Four-digit numbers have four-character renderings. */
  lemma FourDigits(n: nat)
    requires 1000 <= n < 10000
    ensures |NatToString(n)| == 4
  {
    assert |NatToString(n / 1000)| == 1;
    assert |NatToString(n / 100)| == 2;
    assert |NatToString(n / 10)| == 3;
  }

  /** `${i}` for an integer. */
  function IntToString(i: int): string {
    if i < 0 then "-" + NatToString(-i) else NatToString(i)
  }

  /** `s.padStart(width, c)`: `c` repeated in front of `s` up to `width` characters. */
  function PadStart(s: string, width: nat, c: char): (r: string)
    ensures |r| == if |s| >= width then |s| else width
    ensures r[|r| - |s|..] == s
    ensures forall i :: 0 <= i < |r| - |s| ==> r[i] == c
  {
    if |s| >= width then s else seq(width - |s|, _ => c) + s
  }

  /** A number below 100, zero-padded to two digits. */
  lemma PadTwo(n: nat)
    requires n < 100
    ensures PadStart(NatToString(n), 2, '0') == [DigitChar(n / 10), DigitChar(n % 10)]
  {
    var p := PadStart(NatToString(n), 2, '0');
    if n < 10 {
      assert NatToString(n) == [DigitChar(n)];
      assert p == ['0'] + [DigitChar(n)];
    } else {
      assert NatToString(n / 10) == [DigitChar(n / 10)];
      assert NatToString(n) == [DigitChar(n / 10)] + [DigitChar(n % 10)];
    }
  }

  /**
   * Lexicographic comparison character by character, the order `<` and the default sort
   * use on strings. JavaScript compares UTF-16 code units and Dafny compares characters;
   * the two agree on the ASCII text of week keys.
   */
  predicate Less(a: string, b: string) {
    if a == [] then b != []
    else if b == [] then false
    else if a[0] != b[0] then a[0] < b[0]
    else Less(a[1..], b[1..])
  }

  lemma {:induction false} LessIrreflexive(a: string)
    ensures !Less(a, a)
  {
    if a != [] { LessIrreflexive(a[1..]); }
  }

  lemma {:induction false} LessTransitive(a: string, b: string, c: string)
    requires Less(a, b) && Less(b, c)
    ensures Less(a, c)
  {
    if a != [] && b != [] && c != [] && a[0] == b[0] && b[0] == c[0] {
      LessTransitive(a[1..], b[1..], c[1..]);
    }
  }

  lemma {:induction false} LessTotal(a: string, b: string)
    ensures a == b || Less(a, b) || Less(b, a)
  {
    if a != [] && b != [] && a[0] == b[0] {
      LessTotal(a[1..], b[1..]);
      assert a == [a[0]] + a[1..] && b == [b[0]] + b[1..];
    }
  }

  /** If c < a then b lies above c or below a: the order's complement is transitive. */
  lemma LessSplit(c: string, a: string, b: string)
    ensures Less(c, a) ==> Less(c, b) || Less(b, a)
  {
    LessTotal(c, b);
    LessTotal(b, a);
    if Less(c, a) && Less(b, c) { LessTransitive(b, c, a); }
  }

  /** A common prefix does not change the comparison. */
  lemma {:induction false} LessCommonPrefix(p: string, a: string, b: string)
    ensures Less(p + a, p + b) == Less(a, b)
  {
    if p != [] {
      assert (p + a)[0] == p[0] == (p + b)[0];
      assert (p + a)[1..] == p[1..] + a;
      assert (p + b)[1..] == p[1..] + b;
      LessCommonPrefix(p[1..], a, b);
    } else {
      assert p + a == a && p + b == b;
    }
  }

  predicate SortedAsc(s: seq<string>) {
    forall i, j :: 0 <= i < j < |s| ==> !Less(s[j], s[i])
  }

  predicate StrictlyAscending(s: seq<string>) {
    forall i, j :: 0 <= i < j < |s| ==> Less(s[i], s[j])
  }

  function InsertAsc(x: string, s: seq<string>): (r: seq<string>)
    requires SortedAsc(s)
    ensures SortedAsc(r)
    ensures multiset(r) == multiset(s) + multiset{x}
  {
    if s == [] || !Less(s[0], x) then
      NoneBelow(x, s);
      ConsAsc(x, s);
      [x] + s
    else
      var t := InsertAsc(x, s[1..]);
      assert s == [s[0]] + s[1..];
      LessAsymmetric(s[0], x);
      AllAtLeast(t, x, s[1..], s[0]);
      ConsAsc(s[0], t);
      [s[0]] + t
  }

  lemma LessAsymmetric(a: string, b: string)
    requires Less(a, b)
    ensures !Less(b, a)
  {
    LessIrreflexive(a);
    if Less(b, a) { LessTransitive(a, b, a); }
  }

  /** Nothing in an ascending list lies below `x` when its head does not. */
  lemma NoneBelow(x: string, s: seq<string>)
    requires SortedAsc(s) && (s == [] || !Less(s[0], x))
    ensures forall k :: 0 <= k < |s| ==> !Less(s[k], x)
  {
    forall k | 0 <= k < |s| ensures !Less(s[k], x) {
      if k > 0 { LessSplit(s[k], x, s[0]); }
    }
  }

  lemma ConsAsc(h: string, t: seq<string>)
    requires SortedAsc(t) && forall k :: 0 <= k < |t| ==> !Less(t[k], h)
    ensures SortedAsc([h] + t)
  {
    var r := [h] + t;
    forall i, j | 0 <= i < j < |r| ensures !Less(r[j], r[i]) {
      if i == 0 { assert r[j] == t[j - 1]; } else { assert r[i] == t[i - 1] && r[j] == t[j - 1]; }
    }
  }

  lemma AllAtLeast(t: seq<string>, x: string, rest: seq<string>, b: string)
    requires multiset(t) == multiset(rest) + multiset{x}
    requires !Less(x, b) && forall j :: 0 <= j < |rest| ==> !Less(rest[j], b)
    ensures forall i :: 0 <= i < |t| ==> !Less(t[i], b)
  {
    forall i | 0 <= i < |t| ensures !Less(t[i], b) {
      assert t[i] in multiset(t);
      if t[i] != x {
        assert t[i] in multiset(rest);
        var j :| 0 <= j < |rest| && rest[j] == t[i];
      }
    }
  }

  /** `keys.sort()` on strings: ascending in the order `Less`. */
  function SortStrings(s: seq<string>): (r: seq<string>)
    ensures SortedAsc(r)
    ensures multiset(r) == multiset(s)
  {
    if s == [] then []
    else
      assert s == [s[0]] + s[1..];
      InsertAsc(s[0], SortStrings(s[1..]))
  }

  lemma {:induction false} DistinctCountAtMostOne<T>(s: seq<T>, x: T)
    requires Distinct(s)
    ensures multiset(s)[x] <= 1
  {
    if s != [] {
      assert s == [s[0]] + s[1..];
      assert Distinct(s[1..]);
      DistinctCountAtMostOne(s[1..], x);
      assert x == s[0] ==> x !in s[1..];
    }
  }

  lemma {:induction false} DistinctByCount<T>(r: seq<T>)
    requires forall x :: multiset(r)[x] <= 1
    ensures Distinct(r)
  {
    if r != [] {
      var t := r[1..];
      assert r == [r[0]] + t;
      forall x ensures multiset(t)[x] <= 1 {
        assert multiset(r)[x] == multiset{r[0]}[x] + multiset(t)[x];
      }
      DistinctByCount(t);
      assert multiset(r)[r[0]] == 1 + multiset(t)[r[0]];
      assert r[0] !in t;
    }
  }

  /** Sorting distinct strings gives a strictly ascending sequence of the same strings. */
  lemma SortDistinct(s: seq<string>)
    requires Distinct(s)
    ensures Distinct(SortStrings(s))
    ensures StrictlyAscending(SortStrings(s))
  {
    var r := SortStrings(s);
    forall x ensures multiset(r)[x] <= 1 {
      DistinctCountAtMostOne(s, x);
    }
    DistinctByCount(r);
    forall i, j | 0 <= i < j < |r| ensures Less(r[i], r[j]) {
      LessTotal(r[i], r[j]);
    }
  }
}
