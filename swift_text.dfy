/**
 * The pieces of Swift's standard library that the BetterRest labels are built from:
 * the decimal description of an integer (string interpolation `\(n)`), the
 * failable initializer `Int(_: String)`, and `split(separator:)` on a string.
 */
module SwiftText {
  import opened Wrappers

  /** Bounds of Swift's 64-bit `Int`. */
  const IntMax: int := 0x7FFF_FFFF_FFFF_FFFF
  const IntMin: int := -0x8000_0000_0000_0000

  predicate IsDigit(c: char) {
    '0' <= c <= '9'
  }

  predicate AllDigits(s: string) {
    forall i :: 0 <= i < |s| ==> IsDigit(s[i])
  }

  function DigitValue(c: char): (d: nat)
    requires IsDigit(c)
  {
    c as int - '0' as int
  }

  function DigitChar(d: nat): (c: char)
    requires d < 10
    ensures IsDigit(c) && DigitValue(c) == d
  {
    ('0' as int + d) as char
  }

  /** The decimal description of a natural number: no sign, no leading zeros. */
  function NatToString(n: nat): (s: string)
    ensures s != [] && AllDigits(s)
    ensures |s| > 1 ==> s[0] != '0'
  {
    if n < 10 then [DigitChar(n)] else NatToString(n / 10) + [DigitChar(n % 10)]
  }

  /** The description of an integer, as `\(n)` interpolates it. */
  function IntToString(n: int): (s: string)
    ensures s != [] && (s[0] == '-' <==> n < 0)
    ensures n < 0 ==> |s| > 1 && AllDigits(s[1..])
    ensures n >= 0 ==> AllDigits(s)
  {
    if n < 0 then
      var s := "-" + NatToString(-n);
      assert s[1..] == NatToString(-n);
      s
    else NatToString(n)
  }

  /** The value of a string of decimal digits, most significant first. */
  function DigitsValue(s: string): nat
    requires AllDigits(s)
  {
    if s == [] then 0 else DigitsValue(s[..|s| - 1]) * 10 + DigitValue(s[|s| - 1])
  }

  function InIntRange(v: int): Option<int> {
    if IntMin <= v <= IntMax then Some(v) else None
  }

  /**
   * `Int(s)`: an optional sign followed by one or more decimal digits; anything
   * else, or a value that does not fit in 64 bits, gives nil.
   */
  function ParseInt(s: string): (r: Option<int>)
    ensures r.Some? ==> IntMin <= r.value <= IntMax
    ensures r.Some? ==> s != [] && (AllDigits(s) || ((s[0] == '+' || s[0] == '-') && |s| > 1 && AllDigits(s[1..])))
  {
    if s != [] && (s[0] == '+' || s[0] == '-') then
      var body := s[1..];
      if body != [] && AllDigits(body) then
        var magnitude: int := DigitsValue(body);
        InIntRange(if s[0] == '-' then -magnitude else magnitude)
      else None
    else if s != [] && AllDigits(s) then InIntRange(DigitsValue(s))
    else None
  }

  lemma {:induction false} DigitsValueOfNatToString(n: nat)
    ensures DigitsValue(NatToString(n)) == n
  {
    if n >= 10 {
      var s := NatToString(n);
      assert s[..|s| - 1] == NatToString(n / 10);
      DigitsValueOfNatToString(n / 10);
    }
  }

  /** Reading back the description of an `Int` gives the same `Int`. */
  lemma ParseIntOfIntToString(n: int)
    requires IntMin <= n <= IntMax
    ensures ParseInt(IntToString(n)) == Some(n)
  {
    if n < 0 {
      var s := IntToString(n);
      assert s[1..] == NatToString(-n);
      DigitsValueOfNatToString(-n);
    } else {
      DigitsValueOfNatToString(n);
    }
  }

  lemma DigitsExclude(s: string, c: char)
    requires AllDigits(s) && !IsDigit(c)
    ensures c !in s
  {
  }

  /** A character that is neither a digit nor a minus sign never occurs in an integer's description. */
  lemma IntToStringExcludes(n: int, c: char)
    requires !IsDigit(c) && c != '-'
    ensures c !in IntToString(n)
  {
  }

  /** Closes the field being collected; empty fields are dropped. */
  function Flush(field: string): seq<string> {
    if field == [] then [] else [field]
  }

  /**
   * `split(separator:)` with its defaults (no limit on the number of splits,
   * empty subsequences omitted), `field` being the part of the current piece
   * already read.
   */
  function SplitFrom(s: string, sep: char, field: string): (parts: seq<string>)
    requires sep !in field
    ensures forall i :: 0 <= i < |parts| ==> parts[i] != [] && sep !in parts[i]
    decreases |s|
  {
    if s == [] then Flush(field)
    else if s[0] == sep then Flush(field) + SplitFrom(s[1..], sep, [])
    else SplitFrom(s[1..], sep, field + [s[0]])
  }

  function Split(s: string, sep: char): (parts: seq<string>)
    ensures forall i :: 0 <= i < |parts| ==> parts[i] != [] && sep !in parts[i]
  {
    SplitFrom(s, sep, [])
  }

  lemma {:induction false} SplitFromWithoutSeparator(s: string, sep: char, field: string)
    requires sep !in field && sep !in s
    ensures SplitFrom(s, sep, field) == Flush(field + s)
    decreases |s|
  {
    if s == [] {
      assert field + s == field;
    } else {
      assert s[0] != sep;
      SplitFromWithoutSeparator(s[1..], sep, field + [s[0]]);
      assert field + [s[0]] + s[1..] == field + s;
    }
  }

  lemma {:induction false} SplitFromThroughSeparator(a: string, sep: char, rest: string, field: string)
    requires sep !in field && sep !in a
    ensures SplitFrom(a + [sep] + rest, sep, field) == Flush(field + a) + SplitFrom(rest, sep, [])
    decreases |a|
  {
    var s := a + [sep] + rest;
    if a == [] {
      assert s[0] == sep && s[1..] == rest;
      assert field + a == field;
    } else {
      assert s[0] == a[0] && a[0] != sep;
      assert s[1..] == a[1..] + [sep] + rest;
      SplitFromThroughSeparator(a[1..], sep, rest, field + [a[0]]);
      assert field + [a[0]] + a[1..] == field + a;
    }
  }

  /** The pieces written one after another with the separator between them. */
  function Join(pieces: seq<string>, sep: char): string {
    if pieces == [] then []
    else if |pieces| == 1 then pieces[0]
    else pieces[0] + [sep] + Join(pieces[1..], sep)
  }

  /**
   * Non-empty pieces free of the separator, joined and followed by a
   * separator, split back into themselves before whatever comes after.
   */
  lemma {:induction false} SplitJoinThen(pieces: seq<string>, sep: char, rest: string)
    requires pieces != []
    requires forall i :: 0 <= i < |pieces| ==> pieces[i] != [] && sep !in pieces[i]
    ensures Split(Join(pieces, sep) + [sep] + rest, sep) == pieces + Split(rest, sep)
    decreases |pieces|
  {
    var p := pieces[0];
    if |pieces| == 1 {
      SplitFromThroughSeparator(p, sep, rest, []);
      assert [] + p == p;
    } else {
      var tail := Join(pieces[1..], sep) + [sep] + rest;
      assert Join(pieces, sep) + [sep] + rest == p + [sep] + tail;
      SplitFromThroughSeparator(p, sep, tail, []);
      assert [] + p == p;
      SplitJoinThen(pieces[1..], sep, rest);
      assert pieces == [p] + pieces[1..];
    }
  }

  /** Splitting undoes joining, for non-empty pieces free of the separator. */
  lemma SplitJoin(pieces: seq<string>, sep: char)
    requires forall i :: 0 <= i < |pieces| ==> pieces[i] != [] && sep !in pieces[i]
    ensures Split(Join(pieces, sep), sep) == pieces
  {
    if pieces != [] {
      var last := pieces[|pieces| - 1];
      if |pieces| == 1 {
        SplitFromWithoutSeparator(last, sep, []);
        assert [] + last == last;
      } else {
        var front := pieces[..|pieces| - 1];
        JoinSnoc(front, sep, last);
        SplitJoinThen(front, sep, last);
        SplitFromWithoutSeparator(last, sep, []);
        assert [] + last == last;
        assert pieces == front + [last];
      }
    }
  }

  lemma {:induction false} JoinSnoc(front: seq<string>, sep: char, last: string)
    requires front != []
    ensures Join(front + [last], sep) == Join(front, sep) + [sep] + last
    decreases |front|
  {
    if |front| == 1 {
      assert front + [last] == [front[0], last];
    } else {
      assert (front + [last])[1..] == front[1..] + [last];
      JoinSnoc(front[1..], sep, last);
    }
  }
}
