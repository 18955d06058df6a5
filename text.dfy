/** String helpers shared by the formatters: decimal notation of numbers, en-US digit
    grouping, `Array.prototype.join`/`String.prototype.split` on one separator character,
    and `String.prototype.trim`. */
module Text {
  import opened Wrappers

  predicate IsDigit(c: char) {
    '0' <= c <= '9'
  }

  predicate AllDigits(s: string) {
    forall i :: 0 <= i < |s| ==> IsDigit(s[i])
  }

  function DigitChar(d: nat): (c: char)
    requires d < 10
    ensures IsDigit(c)
  {
    "0123456789"[d]
  }

  function DigitValue(c: char): (d: nat)
    requires IsDigit(c)
    ensures d < 10
  {
    c as int - '0' as int
  }

  /** Decimal notation of a non-negative integer, as `String(n)` gives it for n < 10^21:
      digits only, and no leading zero unless the number is zero. */
  function NatToString(n: nat): (s: string)
    ensures |s| >= 1 && AllDigits(s)
    ensures s[0] == '0' <==> n == 0
  {
    if n < 10 then [DigitChar(n)] else NatToString(n / 10) + [DigitChar(n % 10)]
  }

  /** The value of a string of decimal digits. */
  function ParseNat(s: string): nat
    requires AllDigits(s)
  {
    if |s| == 0 then 0 else ParseNat(s[..|s| - 1]) * 10 + DigitValue(s[|s| - 1])
  }

  lemma {:induction false} ParseNatToString(n: nat)
    ensures ParseNat(NatToString(n)) == n
  {
    if n >= 10 {
      var s := NatToString(n / 10);
      var t := s + [DigitChar(n % 10)];
      assert NatToString(n) == t;
      assert t[..|t| - 1] == s;
      ParseNatToString(n / 10);
    }
  }

  /** Decimal notation of any integer, with a leading '-' for a negative one. */
  function IntToString(i: int): (s: string)
    ensures |s| >= 1
    ensures s[0] == '-' <==> i < 0
  {
    if i < 0 then "-" + NatToString(-i) else NatToString(i)
  }

  /** Reads back what `IntToString` writes. */
  function ParseInt(s: string): int
    requires |s| >= 1
    requires s[0] == '-' ==> AllDigits(s[1..])
    requires s[0] != '-' ==> AllDigits(s)
  {
    if s[0] == '-' then -(ParseNat(s[1..]) as int) else ParseNat(s)
  }

  lemma {:induction false} IntToStringRoundTrip(i: int)
    ensures var s := IntToString(i);
            (s[0] == '-' ==> AllDigits(s[1..])) && (s[0] != '-' ==> AllDigits(s)) && ParseInt(s) == i
  {
    var s := IntToString(i);
    if i < 0 {
      var d := NatToString(-i);
      assert s == "-" + d;
      assert s[1..] == d;
      ParseNatToString(-i);
      assert ParseInt(s) == -(ParseNat(d) as int);
    } else {
      ParseNatToString(i);
    }
  }

  /** en-US digit grouping of a digit string: a comma before every block of three digits
      counted from the right. */
  function GroupDigits(s: string): (r: string)
    ensures |r| >= |s|
  {
    if |s| <= 3 then s else GroupDigits(s[..|s| - 3]) + "," + s[|s| - 3..]
  }

  /** en-US grouped notation of a non-negative integer (`n.toLocaleString('en-US')`). */
  function Grouped(n: nat): string {
    GroupDigits(NatToString(n))
  }

  /** Drops every comma. */
  function RemoveCommas(s: string): string {
    if |s| == 0 then "" else RemoveCommas(s[..|s| - 1]) + (if s[|s| - 1] == ',' then "" else [s[|s| - 1]])
  }

  lemma {:induction false} RemoveCommasAppend(a: string, b: string)
    ensures RemoveCommas(a + b) == RemoveCommas(a) + RemoveCommas(b)
  {
    if |b| > 0 {
      var b' := b[..|b| - 1];
      assert (a + b)[..|a + b| - 1] == a + b';
      RemoveCommasAppend(a, b');
    } else {
      assert a + b == a;
    }
  }

  lemma {:induction false} RemoveCommasDigits(s: string)
    requires AllDigits(s)
    ensures RemoveCommas(s) == s
  {
    if |s| > 0 {
      RemoveCommasDigits(s[..|s| - 1]);
      assert s[..|s| - 1] + [s[|s| - 1]] == s;
    }
  }

  lemma {:induction false} RemoveCommasAround(g: string, lo: string)
    requires AllDigits(lo)
    ensures RemoveCommas(g + ([','] + lo)) == RemoveCommas(g) + lo
  {
    RemoveCommasAppend(g, [','] + lo);
    RemoveCommasAppend([','], lo);
    RemoveCommasDigits(lo);
    assert RemoveCommas([',']) == [] by {
      assert [','][..0] == [];
    }
  }

  /** Taking the commas out of a grouped digit string gives the digits back. */
  lemma {:induction false} GroupDigitsRoundTrip(s: string)
    requires AllDigits(s)
    ensures RemoveCommas(GroupDigits(s)) == s
  {
    if |s| <= 3 {
      RemoveCommasDigits(s);
    } else {
      var hi, lo := s[..|s| - 3], s[|s| - 3..];
      assert AllDigits(hi) by {
        forall k | 0 <= k < |hi| ensures IsDigit(hi[k]) { assert hi[k] == s[k]; }
      }
      assert AllDigits(lo) by {
        forall k | 0 <= k < |lo| ensures IsDigit(lo[k]) { assert lo[k] == s[|s| - 3 + k]; }
      }
      calc {
        RemoveCommas(GroupDigits(s));
        RemoveCommas(GroupDigits(hi) + "," + lo);
        { assert GroupDigits(hi) + "," + lo == GroupDigits(hi) + ([','] + lo); }
        RemoveCommas(GroupDigits(hi) + ([','] + lo));
        { RemoveCommasAround(GroupDigits(hi), lo); }
        RemoveCommas(GroupDigits(hi)) + lo;
        { GroupDigitsRoundTrip(hi); }
        hi + lo;
        s;
      }
    }
  }

  /** Reads grouped digits back. */
  function ReadGrouped(g: string): Option<nat> {
    var d := RemoveCommas(g);
    if AllDigits(d) then Some(ParseNat(d)) else None
  }

  /** A grouped number reads back as the number. */
  lemma GroupedRoundTrip(n: nat)
    ensures ReadGrouped(Grouped(n)) == Some(n)
  {
    GroupDigitsRoundTrip(NatToString(n));
    ParseNatToString(n);
  }

  /** `lines.join(sep)`. */
  function Join(lines: seq<string>, sep: char): string {
    if |lines| == 0 then ""
    else if |lines| == 1 then lines[0]
    else lines[0] + [sep] + Join(lines[1..], sep)
  }

  /** A join starts with the first line and ends with the last. */
  lemma {:induction false} JoinEnds(lines: seq<string>, sep: char)
    requires |lines| >= 1
    ensures var j := Join(lines, sep); var last := lines[|lines| - 1];
            |j| >= |lines[0]| && j[..|lines[0]|] == lines[0] && |j| >= |last| && j[|j| - |last|..] == last
  {
    if |lines| > 1 {
      JoinEnds(lines[1..], sep);
    }
  }

  /** `s.split(sep)` for a one-character separator: the pieces between separators, in order. */
  function Split(s: string, sep: char): (pieces: seq<string>)
    ensures |pieces| >= 1
  {
    if |s| == 0 then [""]
    else
      var rest := Split(s[1..], sep);
      if s[0] == sep then [""] + rest else [[s[0]] + rest[0]] + rest[1..]
  }

  lemma {:induction false} SplitNoSeparator(a: string, sep: char)
    requires sep !in a
    ensures Split(a, sep) == [a]
  {
    if |a| > 0 {
      SplitNoSeparator(a[1..], sep);
      assert [a[0]] + a[1..] == a;
    }
  }

  lemma {:induction false} SplitAtFirst(a: string, sep: char, b: string)
    requires sep !in a
    ensures Split(a + [sep] + b, sep) == [a] + Split(b, sep)
  {
    if |a| == 0 {
      assert a + [sep] + b == [sep] + b;
      assert ([sep] + b)[1..] == b;
    } else {
      var s := a + [sep] + b;
      assert s[1..] == a[1..] + [sep] + b;
      SplitAtFirst(a[1..], sep, b);
      assert [a[0]] + a[1..] == a;
    }
  }

  /** Splitting a join on the same separator gives the lines back, when no line holds it. */
  lemma {:induction false} SplitJoin(lines: seq<string>, sep: char)
    requires |lines| >= 1
    requires forall i :: 0 <= i < |lines| ==> sep !in lines[i]
    ensures Split(Join(lines, sep), sep) == lines
  {
    if |lines| == 1 {
      SplitNoSeparator(lines[0], sep);
    } else {
      SplitJoin(lines[1..], sep);
      SplitAtFirst(lines[0], sep, Join(lines[1..], sep));
      assert [lines[0]] + lines[1..] == lines;
    }
  }

  /** The characters `String.prototype.trim` removes: ECMAScript WhiteSpace and LineTerminator. */
  predicate IsJsSpace(c: char) {
    c == '\t' || c == '\n' || c == '\U{000B}' || c == '\U{000C}' || c == '\r' || c == ' '
    || c == '\U{00A0}' || c == '\U{1680}' || ('\U{2000}' <= c <= '\U{200A}')
    || c == '\U{2028}' || c == '\U{2029}' || c == '\U{202F}' || c == '\U{205F}'
    || c == '\U{3000}' || c == '\U{FEFF}'
  }

  function TrimStart(s: string): (r: string)
    ensures |r| <= |s| && r == s[|s| - |r|..]
    ensures |r| > 0 ==> !IsJsSpace(r[0])
    ensures forall i :: 0 <= i < |s| - |r| ==> IsJsSpace(s[i])
  {
    if |s| > 0 && IsJsSpace(s[0]) then TrimStart(s[1..]) else s
  }

  function TrimEnd(s: string): (r: string)
    ensures |r| <= |s| && r == s[..|r|]
    ensures |r| > 0 ==> !IsJsSpace(r[|r| - 1])
    ensures forall i :: |r| <= i < |s| ==> IsJsSpace(s[i])
  {
    if |s| > 0 && IsJsSpace(s[|s| - 1]) then TrimEnd(s[..|s| - 1]) else s
  }

  /** `s.trim()`: the longest middle slice that neither starts nor ends with white space. */
  function Trim(s: string): (r: string)
    ensures exists i, j :: 0 <= i <= j <= |s| && r == s[i..j]
                           && (forall k :: 0 <= k < i ==> IsJsSpace(s[k]))
                           && (forall k :: j <= k < |s| ==> IsJsSpace(s[k]))
    ensures |r| > 0 ==> !IsJsSpace(r[0]) && !IsJsSpace(r[|r| - 1])
  {
    var t := TrimStart(s);
    var r := TrimEnd(t);
    assert r == s[|s| - |t|..|s| - |t| + |r|];
    r
  }

  /** `s.split(c)[0]`: the text before the first `c`, or all of it. */
  function Before(s: string, c: char): (r: string)
    ensures c !in r
    ensures |r| <= |s| && r == s[..|r|]
    ensures |r| < |s| ==> s[|r|] == c
  {
    if |s| == 0 || s[0] == c then "" else [s[0]] + Before(s[1..], c)
  }

  lemma {:induction false} BeforeFirst(a: string, c: char, b: string)
    requires c !in a
    ensures Before(a + [c] + b, c) == a
  {
    if |a| > 0 {
      assert (a + [c] + b)[1..] == a[1..] + [c] + b;
      BeforeFirst(a[1..], c, b);
      assert [a[0]] + a[1..] == a;
    }
  }

  lemma DigitsHaveNo(s: string, c: char)
    requires AllDigits(s) && !IsDigit(c)
    ensures c !in s
  {
  }
}
