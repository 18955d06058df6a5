/** The defensive formatters of builds.js: `money`, `plural`, and the photo counters of
    the sliders (builds.js) and of the builds modal (main.js). */
module Formatting {
  import opened Wrappers
  import opened Text

  /** The value handed to `money`. `Converted(n)` stands for every other value and carries
      what `Number(value)` makes of it: an integer, or None for NaN. */
  datatype MoneyArg = Null | Undefined | False | Converted(number: Option<int>)

  /** A whole number of US dollars as `toLocaleString('en-US', {style: 'currency',
      currency: 'USD', maximumFractionDigits: 0})` writes it. */
  function Usd(n: int): (r: string)
    ensures |r| >= 2 && (r[0] == '$' || (r[0] == '-' && r[1] == '$'))
  {
    if n < 0 then "-$" + Grouped(-n) else "$" + Grouped(n)
  }

  /** `money(n)`: "TBD" for null, undefined, false and NaN, a dollar amount otherwise. */
  function Money(v: MoneyArg): (r: string)
    ensures r == "TBD" <==> v.Null? || v.Undefined? || v.False? || v == Converted(None)
  {
    match v
    case Converted(Some(n)) => Usd(n)
    case _ => "TBD"
  }

  /** `money(h.price)` for a listing price (a missing or null price is passed as null). */
  function PriceText(price: Option<int>): (r: string)
    ensures r == "TBD" <==> price.None?
    ensures price.Some? ==> ReadUsd(r) == price
  {
    if price.Some? then UsdRoundTrip(price.value); Money(Converted(Some(price.value))) else Money(Null)
  }

  /** Reads a dollar amount back: an optional '-', a '$', then grouped digits. */
  function ReadUsd(r: string): Option<int> {
    if |r| >= 2 && r[0] == '-' && r[1] == '$' then
      match ReadGrouped(r[2..])
      case Some(d) => Some(-(d as int))
      case None => None
    else if |r| >= 1 && r[0] == '$' then
      match ReadGrouped(r[1..])
      case Some(d) => Some(d as int)
      case None => None
    else None
  }

  lemma {:induction false} UsdRoundTrip(n: int)
    ensures ReadUsd(Usd(n)) == Some(n)
  {
    if n < 0 {
      assert Usd(n) == "-$" + Grouped(-n);
      ReadDebit(-n);
    } else {
      assert Usd(n) == "$" + Grouped(n);
      ReadCredit(n);
    }
  }

  lemma ReadDebit(m: nat)
    ensures ReadUsd("-$" + Grouped(m)) == Some(-(m as int))
  {
    var r := "-$" + Grouped(m);
    assert r[2..] == Grouped(m);
    GroupedRoundTrip(m);
  }

  lemma ReadCredit(n: nat)
    ensures ReadUsd("$" + Grouped(n)) == Some(n)
  {
    var r := "$" + Grouped(n);
    assert r[1..] == Grouped(n);
    GroupedRoundTrip(n);
  }

  /** Every amount `money` writes reads back as the number it was given. */
  lemma {:induction false} MoneyRoundTrip(v: MoneyArg)
    requires v.Converted? && v.number.Some?
    ensures ReadUsd(Money(v)) == v.number
  {
    UsdRoundTrip(v.number.value);
  }

  /** `plural(n, w)`: nothing for a missing count, otherwise the count, a space and the
      word, with an "s" unless the count is exactly 1. */
  function Plural(n: Option<int>, w: string): (r: string)
    ensures r == "" <==> n.None?
    ensures n.Some? ==> |r| >= |w| + 2
    ensures n.Some? ==> r[|r| - |w| - (if n.value == 1 then 0 else 1)..] == w + (if n.value == 1 then "" else "s")
  {
    if n.None? then "" else IntToString(n.value) + " " + w + (if n.value == 1 then "" else "s")
  }

  /** The count and the word read back from `plural`'s text; the "s" is there exactly when
      the count is not 1 (zero included). */
  lemma PluralReadsBack(n: Option<int>, w: string)
    ensures Plural(n, w) == "" <==> n.None?
    ensures n.Some? ==>
              var r := Plural(n, w);
              var count := Before(r, ' ');
              |count| >= 1 && (count[0] == '-' ==> AllDigits(count[1..])) && (count[0] != '-' ==> AllDigits(count))
              && ParseInt(count) == n.value
              && r[|count| + 1..] == w + (if n.value == 1 then "" else "s")
  {
    if n.Some? {
      var i := n.value;
      var s := IntToString(i);
      IntToStringRoundTrip(i);
      assert ' ' !in s by {
        if i < 0 {
          DigitsHaveNo(s[1..], ' ');
          assert s == [s[0]] + s[1..];
        } else {
          DigitsHaveNo(s, ' ');
        }
      }
      var tail := w + (if i == 1 then "" else "s");
      assert Plural(n, w) == s + [' '] + tail;
      BeforeFirst(s, ' ', tail);
    }
  }

  /** A photo counter: position, separator, total ("2/5" on cards, "2 / 5" in the builds modal). */
  function Counter(position: nat, total: nat, sep: string): string {
    NatToString(position) + sep + NatToString(total)
  }

  /** The longest prefix of decimal digits. */
  function LeadingDigits(s: string): (r: string)
    ensures AllDigits(r) && |r| <= |s| && r == s[..|r|]
    ensures |r| < |s| ==> !IsDigit(s[|r|])
  {
    if |s| == 0 || !IsDigit(s[0]) then "" else [s[0]] + LeadingDigits(s[1..])
  }

  /** Reads a counter back into its position and total. */
  function ReadCounter(s: string, sep: string): Option<(nat, nat)> {
    var p := LeadingDigits(s);
    var rest := s[|p|..];
    if |p| > 0 && |rest| >= |sep| && rest[..|sep|] == sep && AllDigits(rest[|sep|..]) then
      Some((ParseNat(p), ParseNat(rest[|sep|..])))
    else None
  }

  lemma {:induction false} LeadingDigitsStop(d: string, t: string)
    requires AllDigits(d)
    requires |t| > 0 && !IsDigit(t[0])
    ensures LeadingDigits(d + t) == d
  {
    if |d| > 0 {
      assert (d + t)[1..] == d[1..] + t;
      LeadingDigitsStop(d[1..], t);
      assert [d[0]] + d[1..] == d;
    }
  }

  /** A counter reads back as the position and total it shows, for a separator that does
      not start with a digit. */
  lemma CounterRoundTrip(position: nat, total: nat, sep: string)
    requires |sep| > 0 && !IsDigit(sep[0])
    ensures ReadCounter(Counter(position, total, sep), sep) == Some((position, total))
  {
    var p, t := NatToString(position), NatToString(total);
    var s := Counter(position, total, sep);
    assert s == p + (sep + t);
    LeadingDigitsStop(p, sep + t);
    assert s[|p|..] == sep + t;
    assert (sep + t)[..|sep|] == sep && (sep + t)[|sep|..] == t;
    ParseNatToString(position);
    ParseNatToString(total);
  }

  /** `Number(x).toLocaleString()` for an integer in the en-US locale. */
  function LocaleInt(i: int): (r: string)
    ensures |r| >= 1
    ensures r[0] == '-' <==> i < 0
    ensures AllDigits(RemoveCommas(if i < 0 then r[1..] else r))
  {
    if i < 0 then
      GroupDigitsRoundTrip(NatToString(-i));
      var r := "-" + Grouped(-i);
      assert r[1..] == Grouped(-i);
      r
    else
      GroupDigitsFirst(NatToString(i));
      GroupDigitsRoundTrip(NatToString(i));
      Grouped(i)
  }

  function ReadLocale(r: string): Option<int> {
    if |r| > 0 && r[0] == '-' then
      match ReadGrouped(r[1..])
      case Some(n) => Some(-(n as int))
      case None => None
    else ReadGrouped(r)
  }

  lemma {:induction false} GroupDigitsFirst(s: string)
    requires |s| >= 1
    ensures GroupDigits(s)[0] == s[0]
    decreases |s|
  {
    if |s| > 3 {
      GroupDigitsFirst(s[..|s| - 3]);
    }
  }

  /** A formatted square footage reads back as the number, sign included. */
  lemma LocaleIntRoundTrip(i: int)
    ensures ReadLocale(LocaleInt(i)) == Some(i)
  {
    if i < 0 {
      ReadNegative(-i);
    } else {
      ReadNonNegative(i);
    }
  }

  lemma ReadNegative(m: nat)
    ensures ReadLocale("-" + Grouped(m)) == Some(-(m as int))
  {
    var r := "-" + Grouped(m);
    assert r[1..] == Grouped(m);
    GroupedRoundTrip(m);
  }

  lemma ReadNonNegative(n: nat)
    ensures ReadLocale(Grouped(n)) == Some(n)
  {
    GroupDigitsFirst(NatToString(n));
    GroupedRoundTrip(n);
  }
}
