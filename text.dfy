/**
 * Text helpers shared by the timestamp formats and the SQL text functions:
 * zero-padded decimal rendering, SQLite's string order, and `substr`.
 */
module Text {

  /** The decimal digit character for 0 <= d < 10. */
  function DigitChar(d: int): (c: char)
    requires 0 <= d < 10
    ensures '0' <= c <= '9'
  {
    (48 + d) as char
  }

  function Pow10(w: nat): nat {
    if w == 0 then 1 else 10 * Pow10(w - 1)
  }

  /**
   * `n` written in exactly `w` decimal digits, zero-padded on the left: Python's
   * `%0<w>d` and `{n:0<w>d}` for 0 <= n < 10^w.
   */
  function Digits(n: nat, w: nat): (s: string)
    ensures |s| == w
    ensures forall i :: 0 <= i < |s| ==> '0' <= s[i] <= '9'
  {
    if w == 0 then [] else Digits(n / 10, w - 1) + [DigitChar(n % 10)]
  }

  /**
   * Strict lexicographic order by code point. This is SQLite's BINARY collation,
   * which compares the UTF-8 bytes and therefore orders by code point.
   */
  predicate LexLess(a: string, b: string) {
    if a == [] then b != []
    else b != [] && (a[0] < b[0] || (a[0] == b[0] && LexLess(a[1..], b[1..])))
  }

  /** The order is total: a string is not below another exactly when it equals it or lies above it. */
  lemma {:induction false} LexTotal(a: string, b: string)
    ensures !LexLess(a, b) <==> a == b || LexLess(b, a)
  {
    if a != [] && b != [] {
      LexTotal(a[1..], b[1..]);
      if a[0] == b[0] && a[1..] == b[1..] {
        assert a == [a[0]] + a[1..] && b == [b[0]] + b[1..];
      }
    }
  }

  /** Comparing two strings whose first parts have equal length compares the first parts, then the rest. */
  lemma {:induction false} LexLessConcat(a1: string, a2: string, b1: string, b2: string)
    requires |a1| == |b1|
    ensures LexLess(a1 + a2, b1 + b2) <==> LexLess(a1, b1) || (a1 == b1 && LexLess(a2, b2))
  {
    if a1 == [] {
      assert a1 + a2 == a2 && b1 + b2 == b2;
    } else {
      assert (a1 + a2)[0] == a1[0] && (a1 + a2)[1..] == a1[1..] + a2;
      assert (b1 + b2)[0] == b1[0] && (b1 + b2)[1..] == b1[1..] + b2;
      assert a1 == b1 <==> a1[0] == b1[0] && a1[1..] == b1[1..] by {
        if a1[0] == b1[0] && a1[1..] == b1[1..] {
          assert a1 == [a1[0]] + a1[1..] && b1 == [b1[0]] + b1[1..];
        }
      }
      LexLessConcat(a1[1..], a2, b1[1..], b2);
    }
  }

  /** Zero-padded numerals of one width compare as text exactly as the numbers compare. */
  lemma {:induction false} DigitsOrder(x: nat, y: nat, w: nat)
    requires x < Pow10(w) && y < Pow10(w)
    ensures LexLess(Digits(x, w), Digits(y, w)) <==> x < y
    ensures Digits(x, w) == Digits(y, w) <==> x == y
  {
    if w > 0 {
      var hx, hy := Digits(x / 10, w - 1), Digits(y / 10, w - 1);
      var cx, cy := DigitChar(x % 10), DigitChar(y % 10);
      DigitsOrder(x / 10, y / 10, w - 1);
      LexLessConcat(hx, [cx], hy, [cy]);
      assert LexLess([cx], [cy]) <==> cx < cy by {
        assert [cx][1..] == [] && [cy][1..] == [];
      }
      assert hx + [cx] == hy + [cy] <==> hx == hy && cx == cy by {
        if hx + [cx] == hy + [cy] {
          assert (hx + [cx])[..w - 1] == hx && (hy + [cy])[..w - 1] == hy;
          assert (hx + [cx])[w - 1] == cx && (hy + [cy])[w - 1] == cy;
        }
      }
      assert x == 10 * (x / 10) + x % 10 && y == 10 * (y / 10) + y % 10;
    }
  }

  /**
   * SQLite's `substr(s, start, length)` for a 1-based start >= 1: the `length`
   * characters from position `start`, or fewer (possibly none) when `s` ends first.
   */
  function Substr(s: string, start: int, length: nat): (r: string)
    requires start >= 1
    ensures |r| == if start - 1 + length <= |s| then length
                  else if start - 1 <= |s| then |s| - (start - 1) else 0
    ensures forall i :: 0 <= i < |r| ==> r[i] == s[start - 1 + i]
  {
    var b := if start - 1 <= |s| then start - 1 else |s|;
    var e := if start - 1 + length <= |s| then start - 1 + length else |s|;
    s[b..e]
  }
}
