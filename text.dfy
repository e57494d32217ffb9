/**
 * Text as the service sees it: Python's `int(str)` conversion (used for the
 * `limit` and `session` request parameters), decimal rendering of integers,
 * fixed-width zero padding (the `{:04d}` / `{:02d}` formats of the day
 * strings) and Python's ordering of `str` values (code-point lexicographic).
 */
module Text {
  import opened Wrappers
  import Ordering

  /** Whitespace that `int(str)` strips from both ends (the ASCII part of
      Python's `str.isspace`). */
  predicate IsSpace(c: char) {
    (9 <= c as int <= 13) || (0x1c <= c as int <= 0x1f) || c == ' '
  }

  predicate IsDigit(c: char) {
    '0' <= c <= '9'
  }

  function DigitValue(c: char): (v: nat)
    requires IsDigit(c)
    ensures v < 10
  {
    (c as int) - ('0' as int)
  }

  function DigitChar(v: nat): (c: char)
    requires v < 10
    ensures IsDigit(c) && DigitValue(c) == v
  {
    (('0' as int) + v) as char
  }

  function StripLeft(s: string): (r: string)
    ensures |r| <= |s| && r == s[|s| - |r|..]
    ensures r == [] || !IsSpace(r[0])
  {
    if s != [] && IsSpace(s[0]) then StripLeft(s[1..]) else s
  }

  function StripRight(s: string): (r: string)
    ensures |r| <= |s| && r == s[..|r|]
    ensures r == [] || !IsSpace(r[|r| - 1])
  {
    if s != [] && IsSpace(s[|s| - 1]) then StripRight(s[..|s| - 1]) else s
  }

  function Strip(s: string): string {
    StripRight(StripLeft(s))
  }

  /** A run of decimal digits in which single underscores may separate two
      digits, as Python's integer literals allow. */
  predicate IsDigitRun(s: string) {
    && s != []
    && IsDigit(s[0])
    && IsDigit(s[|s| - 1])
    && (forall i :: 0 <= i < |s| ==> IsDigit(s[i]) || s[i] == '_')
    && (forall i :: 0 <= i < |s| - 1 ==> !(s[i] == '_' && s[i + 1] == '_'))
  }

  /** The value of a digit run, underscores skipped. */
  function RunValue(s: string): nat
    requires forall i :: 0 <= i < |s| ==> IsDigit(s[i]) || s[i] == '_'
  {
    if s == [] then 0
    else
      var last := s[|s| - 1];
      if last == '_' then RunValue(s[..|s| - 1])
      else RunValue(s[..|s| - 1]) * 10 + DigitValue(last)
  }

  /** Python's `int(s)` on a `str`: surrounding whitespace is stripped, an
      optional sign is followed by a digit run; anything else raises
      `ValueError`, which is `None` here. */
  function ParseInt(s: string): (r: Option<int>)
    ensures r.Some? ==> Strip(s) != []
  {
    var t := Strip(s);
    if t == [] then None
    else if t[0] == '-' || t[0] == '+' then
      var body := t[1..];
      if IsDigitRun(body) then
        Some(if t[0] == '-' then -(RunValue(body) as int) else RunValue(body))
      else None
    else if IsDigitRun(t) then Some(RunValue(t))
    else None
  }

  /** Decimal rendering of a natural number, most significant digit first. */
  function ShowNat(n: nat): (s: string)
    ensures s != [] && forall i :: 0 <= i < |s| ==> IsDigit(s[i])
  {
    if n < 10 then [DigitChar(n)] else ShowNat(n / 10) + [DigitChar(n % 10)]
  }

  /** Decimal rendering of an integer, as Python's `str(n)`. */
  function ShowInt(n: int): string {
    if n < 0 then "-" + ShowNat(-n) else ShowNat(n)
  }

  lemma {:induction false} ShowNatValue(n: nat)
    ensures RunValue(ShowNat(n)) == n
  {
    if n >= 10 {
      var s := ShowNat(n);
      ShowNatValue(n / 10);
      assert s[..|s| - 1] == ShowNat(n / 10);
    }
  }

  lemma ShowNatIsRun(n: nat)
    ensures IsDigitRun(ShowNat(n))
  {
    var s := ShowNat(n);
    forall i | 0 <= i < |s| - 1 ensures !(s[i] == '_' && s[i + 1] == '_') {
      assert IsDigit(s[i]);
    }
  }

  lemma StripUnspaced(s: string)
    requires s != [] && !IsSpace(s[0]) && !IsSpace(s[|s| - 1])
    ensures Strip(s) == s
  {
  }

  /** `int(str(n)) == n`: every integer's decimal text is parsed back to it. */
  lemma {:induction false} ParseShowInt(n: int)
    ensures ParseInt(ShowInt(n)) == Some(n)
  {
    var m: nat := if n < 0 then -n else n;
    var digits := ShowNat(m);
    ShowNatValue(m);
    ShowNatIsRun(m);
    var s := ShowInt(n);
    if n < 0 {
      assert s == "-" + digits;
      assert s[1..] == digits;
      StripUnspaced(s);
    } else {
      assert s == digits;
      assert IsDigit(s[0]);
      StripUnspaced(s);
    }
  }

  /** Python's `<` on `str`: lexicographic by code point, a proper prefix first. */
  predicate StrLess(a: string, b: string) {
    if b == [] then false
    else if a == [] then true
    else a[0] < b[0] || (a[0] == b[0] && StrLess(a[1..], b[1..]))
  }

  lemma {:induction false} StrLessIrreflexive(a: string)
    ensures !StrLess(a, a)
  {
    if a != [] {
      StrLessIrreflexive(a[1..]);
    }
  }

  lemma {:induction false} StrLessTransitive(a: string, b: string, c: string)
    requires StrLess(a, b) && StrLess(b, c)
    ensures StrLess(a, c)
  {
    if a != [] && a[0] == b[0] && b[0] == c[0] {
      StrLessTransitive(a[1..], b[1..], c[1..]);
    }
  }

  lemma {:induction false} StrLessTotal(a: string, b: string)
    requires a != b
    ensures StrLess(a, b) || StrLess(b, a)
  {
    if a != [] && b != [] && a[0] == b[0] {
      assert a == [a[0]] + a[1..] && b == [b[0]] + b[1..];
      StrLessTotal(a[1..], b[1..]);
    }
  }

  lemma StrLessIsOrder()
    ensures Ordering.StrictTotalOrder(StrLess)
  {
    forall a ensures !StrLess(a, a) {
      StrLessIrreflexive(a);
    }
    forall a, b, c | StrLess(a, b) && StrLess(b, c) ensures StrLess(a, c) {
      StrLessTransitive(a, b, c);
    }
    forall a, b | a != b ensures StrLess(a, b) || StrLess(b, a) {
      StrLessTotal(a, b);
    }
  }

  /** Comparing two strings whose first parts have equal length: the first
      parts decide unless they are equal. */
  lemma {:induction false} StrLessConcat(p: string, q: string, p': string, q': string)
    requires |p| == |p'|
    ensures StrLess(p + q, p' + q') <==> StrLess(p, p') || (p == p' && StrLess(q, q'))
  {
    if p != [] {
      assert (p + q)[1..] == p[1..] + q && (p' + q')[1..] == p'[1..] + q';
      StrLessConcat(p[1..], q, p'[1..], q');
      if p[0] == p'[0] && p[1..] == p'[1..] {
        assert p == p' by { assert p == [p[0]] + p[1..] && p' == [p'[0]] + p'[1..]; }
      }
    } else {
      assert p + q == q && p' + q' == q';
    }
  }

  function Pow10(w: nat): (p: nat)
    ensures p >= 1
  {
    if w == 0 then 1 else 10 * Pow10(w - 1)
  }

  /** Python's `f"{n:0wd}"` for `0 <= n < 10^w`: exactly `w` digits,
      zero-padded on the left. */
  function Pad(n: nat, w: nat): (s: string)
    requires n < Pow10(w)
    ensures |s| == w && forall i :: 0 <= i < w ==> IsDigit(s[i])
  {
    if w == 0 then [] else Pad(n / 10, w - 1) + [DigitChar(n % 10)]
  }

  /** The padded digits read back as the number they pad. */
  lemma {:induction false} PadValue(n: nat, w: nat)
    requires n < Pow10(w)
    ensures RunValue(Pad(n, w)) == n
  {
    if w > 0 {
      var s := Pad(n, w);
      PadValue(n / 10, w - 1);
      assert s[..w - 1] == Pad(n / 10, w - 1);
    }
  }

  /** Zero-padded numbers of one width are ordered as text exactly as they
      are ordered as numbers, and distinct numbers give distinct text. */
  lemma {:induction false} PadOrder(a: nat, b: nat, w: nat)
    requires a < Pow10(w) && b < Pow10(w)
    ensures StrLess(Pad(a, w), Pad(b, w)) <==> a < b
    ensures Pad(a, w) == Pad(b, w) <==> a == b
  {
    if w == 0 {
    } else {
      var pa, pb := Pad(a / 10, w - 1), Pad(b / 10, w - 1);
      var da, db := DigitChar(a % 10), DigitChar(b % 10);
      PadOrder(a / 10, b / 10, w - 1);
      StrLessConcat(pa, [da], pb, [db]);
      if pa + [da] == pb + [db] {
        assert pa == (pa + [da])[..w - 1] && pb == (pb + [db])[..w - 1];
        assert da == (pa + [da])[w - 1] && db == (pb + [db])[w - 1];
      }
    }
  }
}
