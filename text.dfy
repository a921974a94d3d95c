/**
 * The string operations the logger uses: Python's `str.split` with a
 * one-character separator, `sep.join`, per-character replacement and
 * zero-padded decimal formatting (`"{:05d}"`, `strftime`'s `%y%m%d...`).
 */
module Text {

  /** Number of occurrences of `c` in `s`. */
  function Count(s: string, c: char): (n: nat)
    ensures n <= |s|
  {
    if |s| == 0 then 0 else (if s[0] == c then 1 else 0) + Count(s[1..], c)
  }

  /** `c` occurs in `s` exactly when it is counted there. */
  lemma {:induction false} CountAbsent(s: string, c: char)
    ensures Count(s, c) == 0 <==> c !in s
    decreases |s|
  {
    if |s| > 0 {
      CountAbsent(s[1..], c);
      assert s == [s[0]] + s[1..];
    }
  }

  /**
   * Python's `s.split(c)`: the pieces between the occurrences of `c`, in
   * order; an empty string splits into one empty piece.
   */
  function Split(s: string, c: char): (r: seq<string>)
    ensures |r| == 1 + Count(s, c)
    decreases |s|
  {
    if |s| == 0 then [""]
    else
      var rest := Split(s[1..], c);
      if s[0] == c then [""] + rest
      else [[s[0]] + rest[0]] + rest[1..]
  }

  /** Python's `sep.join(parts)`. */
  function Join(sep: string, parts: seq<string>): string
  {
    if |parts| == 0 then ""
    else if |parts| == 1 then parts[0]
    else parts[0] + sep + Join(sep, parts[1..])
  }

  /** `s` with every `a` replaced by `b`. */
  function Replace(s: string, a: char, b: char): (r: string)
    ensures |r| == |s|
    ensures forall k :: 0 <= k < |s| ==> r[k] == if s[k] == a then b else s[k]
  {
    if |s| == 0 then "" else [if s[0] == a then b else s[0]] + Replace(s[1..], a, b)
  }

  /** Python's `s.split(c)[0]`: the text before the first `c`, or all of `s`. */
  function Before(s: string, c: char): (r: string)
    ensures c !in r
    ensures |r| <= |s| && r == s[..|r|]
    ensures |r| < |s| ==> s[|r|] == c
  {
    SplitFirst(s, c);
    Split(s, c)[0]
  }

  lemma {:induction false} SplitFirst(s: string, c: char)
    ensures var p := Split(s, c)[0]; c !in p && |p| <= |s| && p == s[..|p|] && (|p| < |s| ==> s[|p|] == c)
    decreases |s|
  {
    if |s| > 0 && s[0] != c {
      SplitFirst(s[1..], c);
    }
  }

  /** No piece of a split holds the separator. */
  lemma {:induction false} SplitPieces(s: string, c: char)
    ensures forall k :: 0 <= k < |Split(s, c)| ==> c !in Split(s, c)[k]
    decreases |s|
  {
    if |s| > 0 {
      SplitPieces(s[1..], c);
    }
  }

  /** A string without the separator splits into itself alone. */
  lemma {:induction false} SplitNoSeparator(s: string, c: char)
    requires c !in s
    ensures Split(s, c) == [s]
    decreases |s|
  {
    if |s| > 0 {
      assert c !in s[1..] by {
        forall k | 0 <= k < |s[1..]| ensures s[1..][k] != c { assert s[1..][k] == s[k + 1]; }
      }
      SplitNoSeparator(s[1..], c);
      assert [s[0]] + s[1..] == s;
    }
  }

  /** Splitting distributes over a separator between two strings. */
  lemma {:induction false} SplitConcat(x: string, y: string, c: char)
    ensures Split(x + [c] + y, c) == Split(x, c) + Split(y, c)
    decreases |x|
  {
    if |x| == 0 {
      assert x + [c] + y == [c] + y;
      assert ([c] + y)[1..] == y;
    } else {
      assert (x + [c] + y)[0] == x[0];
      assert (x + [c] + y)[1..] == x[1..] + [c] + y;
      SplitConcat(x[1..], y, c);
    }
  }

  /** Joining the pieces of a split at `a` with `b` replaces every `a` by `b`. */
  lemma {:induction false} JoinSplitReplace(s: string, a: char, b: char)
    ensures Join([b], Split(s, a)) == Replace(s, a, b)
    decreases |s|
  {
    if |s| > 0 {
      var rest := Split(s[1..], a);
      JoinSplitReplace(s[1..], a, b);
      if s[0] != a {
        JoinHead(s[0], rest, [b]);
      }
    }
  }

  lemma JoinHead(x: char, parts: seq<string>, sep: string)
    requires |parts| >= 1
    ensures Join(sep, [[x] + parts[0]] + parts[1..]) == [x] + Join(sep, parts)
  {
    var ps := [[x] + parts[0]] + parts[1..];
    assert ps[1..] == parts[1..];
  }

  /** Round trip: `c.join(s.split(c)) == s`. */
  lemma JoinSplit(s: string, c: char)
    ensures Join([c], Split(s, c)) == s
  {
    JoinSplitReplace(s, c, c);
    assert Replace(s, c, c) == s;
  }

  /** Round trip: splitting a join gives the parts back when no part holds the separator. */
  lemma {:induction false} SplitJoin(parts: seq<string>, c: char)
    requires |parts| >= 1
    requires forall k :: 0 <= k < |parts| ==> c !in parts[k]
    ensures Split(Join([c], parts), c) == parts
    decreases |parts|
  {
    if |parts| == 1 {
      SplitNoSeparator(parts[0], c);
    } else {
      SplitJoin(parts[1..], c);
      SplitNoSeparator(parts[0], c);
      SplitConcat(parts[0], Join([c], parts[1..]), c);
      assert parts[0] + [c] + Join([c], parts[1..]) == Join([c], parts);
      assert [parts[0]] + parts[1..] == parts;
    }
  }

  /** Python's `c1.join(s.split(c2))` wrapped as a separator conversion. */
  lemma ConvertSeparator(s: string, from: char, to: char)
    requires to !in s && from != to
    ensures Join([to], Split(s, from)) == Replace(s, from, to)
    ensures from !in Replace(s, from, to)
    ensures Split(Replace(s, from, to), to) == Split(s, from)
  {
    JoinSplitReplace(s, from, to);
    var parts := Split(s, from);
    forall k | 0 <= k < |parts| ensures to !in parts[k] {
      SplitPieceWithout(s, from, to, k);
    }
    SplitJoin(parts, to);
  }

  /** A character in neither the separator nor any part is not in the joined string. */
  lemma {:induction false} JoinWithout(sep: string, parts: seq<string>, d: char)
    requires d !in sep && forall k :: 0 <= k < |parts| ==> d !in parts[k]
    ensures d !in Join(sep, parts)
    decreases |parts|
  {
    if |parts| > 1 {
      JoinWithout(sep, parts[1..], d);
      assert d !in parts[0];
    } else if |parts| == 1 {
      assert d !in parts[0];
    }
  }

  /** A piece of a split holds no character that the whole string lacks. */
  lemma {:induction false} SplitPieceWithout(s: string, c: char, d: char, k: nat)
    requires d !in s && k < |Split(s, c)|
    ensures d !in Split(s, c)[k]
    decreases |s|
  {
    if |s| > 0 {
      assert d !in s[1..] by {
        forall j | 0 <= j < |s[1..]| ensures s[1..][j] != d { assert s[1..][j] == s[j + 1]; }
      }
      var rest := Split(s[1..], c);
      if s[0] == c {
        if k > 0 { SplitPieceWithout(s[1..], c, d, k - 1); }
      } else if k == 0 {
        SplitPieceWithout(s[1..], c, d, 0);
      } else {
        SplitPieceWithout(s[1..], c, d, k);
      }
    }
  }

  // ----- decimal digits -----

  predicate IsDigit(ch: char) { '0' <= ch <= '9' }

  predicate IsDigits(s: string) { forall k :: 0 <= k < |s| ==> IsDigit(s[k]) }

  function Digit(d: nat): (ch: char)
    requires d < 10
    ensures IsDigit(ch) && ch as int - '0' as int == d
  {
    ('0' as int + d) as char
  }

  function Pow10(w: nat): (p: nat)
    ensures p >= 1
  {
    if w == 0 then 1 else 10 * Pow10(w - 1)
  }

  /** Python's `str(n)` for a non-negative integer: decimal, no leading zero. */
  function Decimal(n: nat): (r: string)
    ensures 1 <= |r|
  {
    if n < 10 then [Digit(n)] else Decimal(n / 10) + [Digit(n % 10)]
  }

  /** The number a string of decimal digits denotes. */
  function DigitsValue(s: string): nat
    requires IsDigits(s)
  {
    if |s| == 0 then 0 else 10 * DigitsValue(s[..|s| - 1]) + (s[|s| - 1] as int - '0' as int)
  }

  function Zeros(k: nat): (r: string)
    ensures |r| == k
  {
    if k == 0 then "" else "0" + Zeros(k - 1)
  }

  /**
   * Python's `"{:0<w>d}".format(n)` for `n >= 0`: the decimal digits of `n`,
   * left-padded with zeros to at least `w` characters.
   */
  function ZeroPad(n: nat, w: nat): (r: string)
    ensures |r| == if |Decimal(n)| < w then w else |Decimal(n)|
  {
    var d := Decimal(n);
    if |d| < w then Zeros(w - |d|) + d else d
  }

  /** `str(n)` is a string of digits that reads back as `n`. */
  lemma {:induction false} DecimalValue(n: nat)
    ensures IsDigits(Decimal(n)) && DigitsValue(Decimal(n)) == n
  {
    if n >= 10 {
      var d := Decimal(n);
      DecimalValue(n / 10);
      assert d == Decimal(n / 10) + [Digit(n % 10)];
      assert d[..|d| - 1] == Decimal(n / 10);
      assert forall k :: 0 <= k < |d| - 1 ==> d[k] == Decimal(n / 10)[k];
    }
  }

  lemma {:induction false} DecimalLength(n: nat, w: nat)
    requires 1 <= w && n < Pow10(w)
    ensures |Decimal(n)| <= w
  {
    if n >= 10 {
      DecimalLength(n / 10, w - 1);
    }
  }

  lemma {:induction false} LeadingZerosValue(k: nat, s: string)
    requires IsDigits(s)
    ensures IsDigits(Zeros(k) + s) && DigitsValue(Zeros(k) + s) == DigitsValue(s)
    decreases |s|
  {
    var z := Zeros(k) + s;
    ZerosDigits(k);
    if |s| == 0 {
      assert z == Zeros(k);
      ZerosValue(k);
    } else {
      assert z[..|z| - 1] == Zeros(k) + s[..|s| - 1];
      LeadingZerosValue(k, s[..|s| - 1]);
    }
  }

  lemma {:induction false} ZerosValue(k: nat)
    ensures IsDigits(Zeros(k)) && DigitsValue(Zeros(k)) == 0
  {
    ZerosDigits(k);
    if k > 0 {
      var z := Zeros(k);
      assert z[..|z| - 1] == Zeros(k - 1) by {
        ZerosDigits(k - 1);
        assert z == Zeros(k - 1) + "0";
      }
      ZerosValue(k - 1);
    }
  }

  lemma {:induction false} ZerosDigits(k: nat)
    ensures IsDigits(Zeros(k)) && forall j :: 0 <= j < k ==> Zeros(k)[j] == '0'
  {
    if k > 0 {
      ZerosDigits(k - 1);
      assert Zeros(k) == "0" + Zeros(k - 1);
    }
  }

  /** A padded number is all digits. */
  lemma ZeroPadDigits(n: nat, w: nat)
    ensures IsDigits(ZeroPad(n, w))
  {
    DecimalValue(n);
    var d := Decimal(n);
    if |d| < w {
      ZerosDigits(w - |d|);
      LeadingZerosValue(w - |d|, d);
    }
  }

  /** A number below 10^w pads to exactly `w` digits that read back as the number. */
  lemma ZeroPadExact(n: nat, w: nat)
    requires 1 <= w && n < Pow10(w)
    ensures |ZeroPad(n, w)| == w && IsDigits(ZeroPad(n, w))
    ensures DigitsValue(ZeroPad(n, w)) == n
  {
    DecimalLength(n, w);
    DecimalValue(n);
    var d := Decimal(n);
    if |d| < w {
      assert ZeroPad(n, w) == Zeros(w - |d|) + d;
      LeadingZerosValue(w - |d|, d);
    } else {
      assert ZeroPad(n, w) == d;
    }
  }

  /** Digits never include a comma, so a padded number is one CSV field. */
  lemma DigitsHaveNoComma(s: string)
    requires IsDigits(s)
    ensures ',' !in s
  {
  }
}
