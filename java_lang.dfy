/**
 * The parts of java.lang that the compiler code relies on: 32-bit `int`
 * arithmetic, `String.hashCode`, `String.compareTo`, `String.contains`,
 * `String.split` on a dot and joining with a separator.
 */
module JavaLang {

  const TWO_32: int := 0x1_0000_0000
  const INT_MIN: int := -0x8000_0000
  const INT_MAX: int := 0x7fff_ffff

  predicate IsInt32(x: int) {
    INT_MIN <= x <= INT_MAX
  }

  /** The values of Java's `int`. */
  type Int32 = x: int | IsInt32(x)

  /** Two's-complement wrap-around of a mathematical integer into Java's `int`. */
  function Wrap(x: int): (r: int)
    ensures IsInt32(r)
    ensures (r - x) % TWO_32 == 0
    ensures IsInt32(x) ==> r == x
  {
    (x - INT_MIN) % TWO_32 + INT_MIN
  }

  /** `String.hashCode`: h = 31 * h + c over the characters, in `int` arithmetic. */
  function StringHash(s: string): (h: int)
    ensures IsInt32(h)
    ensures s == [] ==> h == 0
  {
    if |s| == 0 then 0 else Wrap(31 * StringHash(s[..|s| - 1]) + s[|s| - 1] as int)
  }

  /** `String.compareTo`: the difference of the first differing characters, else of the lengths. */
  function CompareTo(a: string, b: string): (r: int)
    ensures a == b ==> r == 0
  {
    if |a| == 0 || |b| == 0 then |a| - |b|
    else if a[0] != b[0] then a[0] as int - b[0] as int
    else CompareTo(a[1..], b[1..])
  }

  lemma {:induction false} CompareToZeroIffEqual(a: string, b: string)
    ensures CompareTo(a, b) == 0 <==> a == b
  {
    if |a| != 0 && |b| != 0 && a[0] == b[0] {
      CompareToZeroIffEqual(a[1..], b[1..]);
      assert a == [a[0]] + a[1..] && b == [b[0]] + b[1..];
    }
  }

  lemma {:induction false} CompareToAntisymmetric(a: string, b: string)
    ensures CompareTo(a, b) == -CompareTo(b, a)
  {
    if |a| != 0 && |b| != 0 && a[0] == b[0] {
      CompareToAntisymmetric(a[1..], b[1..]);
    }
  }

  predicate StartsWith(s: string, prefix: string) {
    |prefix| <= |s| && s[..|prefix|] == prefix
  }

  /** `String.contains`. */
  predicate Contains(s: string, t: string) {
    StartsWith(s, t) || (|s| > 0 && Contains(s[1..], t))
  }

  /** ASCII case folding, the part of `Character.toLowerCase` the code's constant names need. */
  function LowerChar(c: char): char {
    if 'A' <= c <= 'Z' then (c as int + 32) as char else c
  }

  function ToLower(s: string): (r: string)
    ensures |r| == |s|
  {
    seq(|s|, i requires 0 <= i < |s| => LowerChar(s[i]))
  }

  /** `String.equalsIgnoreCase` for the ASCII letters. */
  predicate EqualsIgnoreCase(a: string, b: string) {
    |a| == |b| && forall i :: 0 <= i < |a| ==> LowerChar(a[i]) == LowerChar(b[i])
  }

  /** Every piece between the dots of `s`, empty pieces included. */
  function DotPieces(s: string): (r: seq<string>)
    ensures |r| >= 1
  {
    if |s| == 0 then [""]
    else
      var rest := DotPieces(s[1..]);
      if s[0] == '.' then [""] + rest else [[s[0]] + rest[0]] + rest[1..]
  }

  function DropTrailingEmpty(xs: seq<string>): (r: seq<string>)
    ensures |r| <= |xs| && r == xs[..|r|]
    ensures |r| > 0 ==> r[|r| - 1] != ""
  {
    if |xs| == 0 then []
    else if xs[|xs| - 1] == "" then DropTrailingEmpty(xs[..|xs| - 1])
    else xs
  }

  /**
   * `s.split("\\.")`: the string itself when it has no dot; otherwise the
   * pieces between dots with the trailing empty pieces removed.
   */
  function SplitOnDot(s: string): seq<string> {
    if '.' !in s then [s] else DropTrailingEmpty(DotPieces(s))
  }

  /** `Utils.join`: the strings with the separator between consecutive ones. */
  function Join(xs: seq<string>, sep: string): string {
    if |xs| == 0 then ""
    else if |xs| == 1 then xs[0]
    else xs[0] + sep + Join(xs[1..], sep)
  }

  lemma {:induction false} JoinDotPieces(s: string)
    ensures Join(DotPieces(s), ".") == s
  {
    if |s| != 0 {
      var rest := DotPieces(s[1..]);
      JoinDotPieces(s[1..]);
      if s[0] == '.' {
        assert DotPieces(s)[1..] == rest;
      } else {
        var r := DotPieces(s);
        assert r[0] == [s[0]] + rest[0];
        if |rest| == 1 {
          assert Join(r, ".") == [s[0]] + rest[0];
        } else {
          assert r[1..] == rest[1..];
          assert Join(rest, ".") == rest[0] + "." + Join(rest[1..], ".");
        }
      }
    }
  }

  lemma {:induction false} LastDotPiece(s: string)
    requires |s| > 0 && s[|s| - 1] != '.'
    ensures DotPieces(s)[|DotPieces(s)| - 1] != ""
  {
    if |s| > 1 {
      LastDotPiece(s[1..]);
    }
  }

  /** Splitting a name on its dots and joining the pieces again gives the name back, unless it ends in a dot. */
  lemma SplitOnDotJoin(s: string)
    requires |s| == 0 || s[|s| - 1] != '.'
    ensures Join(SplitOnDot(s), ".") == s
  {
    if '.' in s {
      LastDotPiece(s);
      JoinDotPieces(s);
    }
  }

  /** The last piece of a join comes after the last separator. */
  lemma {:induction false} JoinSnoc(ys: seq<string>)
    requires |ys| >= 2
    ensures Join(ys, ".") == Join(ys[..|ys| - 1], ".") + "." + ys[|ys| - 1]
    decreases |ys|
  {
    if |ys| == 2 {
      assert ys[..1] == [ys[0]];
    } else {
      JoinSnoc(ys[1..]);
      assert ys[1..][..|ys| - 2] == ys[..|ys| - 1][1..];
    }
  }

  /**
   * A name ending in a dot, such as "a.b.", comes back from the split
   * without its trailing empty pieces, so joining again loses the dot.
   */
  lemma SplitOnDotDropsTrailingDot(xs: seq<string>)
    requires |xs| >= 2 && xs[|xs| - 1] == ""
    requires forall i :: 0 <= i < |xs| ==> '.' !in xs[i]
    ensures SplitOnDot(Join(xs, ".")) == DropTrailingEmpty(xs)
    ensures var s := Join(xs, "."); |s| > 0 && s[|s| - 1] == '.'
    ensures var t := Join(SplitOnDot(Join(xs, ".")), "."); |t| == 0 || t[|t| - 1] != '.'
  {
    var s := Join(xs, ".");
    JoinSnoc(xs);
    assert s[|s| - 1] == '.';
    DotPiecesOfJoin(xs);
    var r := DropTrailingEmpty(xs);
    if |r| > 0 {
      var last := r[|r| - 1];
      assert last == xs[|r| - 1] && '.' !in last && |last| > 0;
      assert last[|last| - 1] in last;
      if |r| >= 2 {
        JoinSnoc(r);
      }
    }
  }

  lemma {:induction false} DotPiecesNoDot(a: string)
    requires '.' !in a
    ensures DotPieces(a) == [a]
  {
    if |a| > 0 {
      DotPiecesNoDot(a[1..]);
      assert [a[0]] + a[1..] == a;
    }
  }

  lemma {:induction false} DotPiecesAfterPiece(a: string, t: string)
    requires '.' !in a
    ensures DotPieces(a + "." + t) == [a] + DotPieces(t)
  {
    var s := a + "." + t;
    if |a| == 0 {
      assert s[1..] == t;
    } else {
      assert s[1..] == a[1..] + "." + t;
      DotPiecesAfterPiece(a[1..], t);
      assert [a[0]] + a[1..] == a;
    }
  }

  /** Cutting a join of dot-free pieces at its dots gives the pieces back. */
  lemma {:induction false} DotPiecesOfJoin(xs: seq<string>)
    requires |xs| >= 1
    requires forall i :: 0 <= i < |xs| ==> '.' !in xs[i]
    ensures DotPieces(Join(xs, ".")) == xs
  {
    if |xs| == 1 {
      DotPiecesNoDot(xs[0]);
    } else {
      DotPiecesOfJoin(xs[1..]);
      DotPiecesAfterPiece(xs[0], Join(xs[1..], "."));
    }
  }

  /**
   * `split("\\.")` undoes `Utils.join(…, ".")` on pieces without dots,
   * provided the last piece is not empty (split drops trailing empty pieces).
   */
  lemma SplitOnDotOfJoin(xs: seq<string>)
    requires |xs| >= 1
    requires forall i :: 0 <= i < |xs| ==> '.' !in xs[i]
    requires |xs| == 1 || xs[|xs| - 1] != ""
    ensures SplitOnDot(Join(xs, ".")) == xs
  {
    if |xs| > 1 {
      var s := Join(xs, ".");
      assert s == xs[0] + "." + Join(xs[1..], ".");
      assert s[|xs[0]|] == '.';
      DotPiecesOfJoin(xs);
    }
  }

  /** The decimal digits of a natural number, most significant first, without leading zeros. */
  function NatToString(n: nat): (r: string)
    ensures |r| >= 1
    ensures forall i :: 0 <= i < |r| ==> '0' <= r[i] <= '9'
  {
    var d := ['0' + ((n % 10) as char)];
    if n < 10 then d else NatToString(n / 10) + d
  }

  /** `Integer.toString`: a minus sign before the digits of a negative number. */
  function IntToString(n: int): (r: string)
    ensures |r| >= 1
    ensures r[0] == '-' <==> n < 0
  {
    if n < 0 then "-" + NatToString(-n) else NatToString(n)
  }

  /** The value of a string of decimal digits. */
  function DigitsValue(s: string): nat
    requires forall i :: 0 <= i < |s| ==> '0' <= s[i] <= '9'
  {
    if |s| == 0 then 0 else DigitsValue(s[..|s| - 1]) * 10 + (s[|s| - 1] as int - '0' as int)
  }

  /** Reading the digits back gives the number. */
  lemma {:induction false} NatToStringValue(n: nat)
    ensures DigitsValue(NatToString(n)) == n
  {
    var r := NatToString(n);
    if n >= 10 {
      NatToStringValue(n / 10);
      assert r[..|r| - 1] == NatToString(n / 10);
    }
  }

  /** Different natural numbers have different digits. */
  lemma NatToStringInjective(a: nat, b: nat)
    requires NatToString(a) == NatToString(b)
    ensures a == b
  {
    NatToStringValue(a);
    NatToStringValue(b);
  }

  /** Different numbers are rendered as different strings. */
  lemma IntToStringInjective(a: int, b: int)
    requires IntToString(a) == IntToString(b)
    ensures a == b
  {
    if a < 0 {
      assert b < 0;
      var sa, sb := IntToString(a), IntToString(b);
      assert sa[1..] == NatToString(-a);
      assert sb[1..] == NatToString(-b);
      NatToStringInjective(-a, -b);
    } else {
      assert b >= 0;
      NatToStringInjective(a, b);
    }
  }
}
