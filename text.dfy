/**
 * String helpers with JavaScript's meaning: decimal rendering of integers
 * (`String(n)`), `Array.prototype.join` with a one-character separator, and
 * `String.prototype.split` on one character, with the facts the CSV export
 * needs about them.
 */
module Text {
  import opened Wrappers

  predicate IsDigit(c: char)
  {
    '0' <= c <= '9'
  }

  predicate AllDigits(s: string)
  {
    forall i :: 0 <= i < |s| ==> IsDigit(s[i])
  }

  function DigitChar(d: nat): (c: char)
    requires d < 10
    ensures IsDigit(c) && c as int - '0' as int == d
  {
    (('0' as int) + d) as char
  }

  /** Value of a string of decimal digits, most significant first. */
  function DigitsValue(s: string): nat
    requires AllDigits(s)
  {
    if s == [] then 0
    else 10 * DigitsValue(s[..|s| - 1]) + (s[|s| - 1] as int - '0' as int)
  }

  /** `String(n)` for a non-negative integer below 10^21: digits, no leading zero. */
  function NatToString(n: nat): (s: string)
    ensures |s| >= 1 && AllDigits(s)
    ensures s[0] == '0' ==> s == "0"
    decreases n
  {
    if n < 10 then [DigitChar(n)] else NatToString(n / 10) + [DigitChar(n % 10)]
  }

  /** `String(i)` for an integer: a minus sign before the digits of its magnitude. */
  function IntToString(i: int): (s: string)
    ensures |s| >= 1
    ensures (i < 0) == (s[0] == '-')
    ensures forall k :: 0 <= k < |s| ==> IsDigit(s[k]) || (k == 0 && s[k] == '-')
  {
    if i < 0 then "-" + NatToString(-i) else NatToString(i)
  }

  /** Reads back an optional minus sign followed by at least one decimal digit. */
  function ParseDecimal(s: string): Option<int>
  {
    if |s| >= 2 && s[0] == '-' && AllDigits(s[1..]) then Some(-(DigitsValue(s[1..]) as int))
    else if |s| >= 1 && AllDigits(s) then Some(DigitsValue(s))
    else None
  }

  /** Appending a digit shifts the value one decimal place. */
  lemma DigitsValuePush(x: string, c: char)
    requires AllDigits(x) && IsDigit(c)
    ensures AllDigits(x + [c])
    ensures DigitsValue(x + [c]) == 10 * DigitsValue(x) + (c as int - '0' as int)
  {
    assert (x + [c])[..|x + [c]| - 1] == x;
  }

  lemma {:induction false} NatToStringValue(n: nat)
    ensures DigitsValue(NatToString(n)) == n
    decreases n
  {
    if n >= 10 {
      NatToStringValue(n / 10);
      var s := NatToString(n);
      assert s[..|s| - 1] == NatToString(n / 10);
    }
  }

  /** Rendering an integer and reading it back gives the same integer. */
  lemma IntToStringRoundTrip(i: int)
    ensures ParseDecimal(IntToString(i)) == Some(i)
  {
    if i < 0 {
      NatToStringValue(-i);
      assert IntToString(i)[1..] == NatToString(-i);
    } else {
      NatToStringValue(i);
    }
  }

  /** `parts.join(sep)`. */
  function Join(parts: seq<string>, sep: char): string
  {
    if |parts| == 0 then ""
    else if |parts| == 1 then parts[0]
    else parts[0] + [sep] + Join(parts[1..], sep)
  }

  /** `s.split(sep)`: the empty string splits into one empty piece. */
  function Split(s: string, sep: char): (parts: seq<string>)
    ensures |parts| >= 1
  {
    if s == [] then [""]
    else
      var rest := Split(s[1..], sep);
      if s[0] == sep then [""] + rest else [[s[0]] + rest[0]] + rest[1..]
  }

  lemma {:induction false} SplitWithoutSeparator(a: string, sep: char)
    requires sep !in a
    ensures Split(a, sep) == [a]
  {
    if a != [] {
      SplitWithoutSeparator(a[1..], sep);
      assert [a[0]] + a[1..] == a;
    }
  }

  lemma {:induction false} SplitAtFirstSeparator(a: string, b: string, sep: char)
    requires sep !in a
    ensures Split(a + [sep] + b, sep) == [a] + Split(b, sep)
  {
    if a == [] {
      assert a + [sep] + b == [sep] + b;
      assert ([sep] + b)[1..] == b;
    } else {
      SplitAtFirstSeparator(a[1..], b, sep);
      assert (a + [sep] + b)[1..] == a[1..] + [sep] + b;
      assert [a[0]] + a[1..] == a;
    }
  }

  /** No piece of `parts` contains `c`. */
  predicate NoneHolds(parts: seq<string>, c: char)
  {
    forall i :: 0 <= i < |parts| ==> c !in parts[i]
  }

  lemma NoneHoldsConcat(a: seq<string>, b: seq<string>, c: char)
    requires NoneHolds(a, c) && NoneHolds(b, c)
    ensures NoneHolds(a + b, c)
  {
    forall i | 0 <= i < |a + b|
      ensures c !in (a + b)[i]
    {
      if i < |a| {
        assert (a + b)[i] == a[i];
      } else {
        assert (a + b)[i] == b[i - |a|];
      }
    }
  }

  /** Splitting undoes joining when no piece contains the separator. */
  lemma {:induction false} SplitJoin(parts: seq<string>, sep: char)
    requires |parts| >= 1
    requires NoneHolds(parts, sep)
    ensures Split(Join(parts, sep), sep) == parts
  {
    if |parts| == 1 {
      SplitWithoutSeparator(parts[0], sep);
    } else {
      SplitJoin(parts[1..], sep);
      SplitAtFirstSeparator(parts[0], Join(parts[1..], sep), sep);
      assert [parts[0]] + parts[1..] == parts;
    }
  }

  /** A character that is neither the separator nor in any piece is not in the join. */
  lemma {:induction false} JoinAvoids(parts: seq<string>, sep: char, c: char)
    requires c != sep
    requires NoneHolds(parts, c)
    ensures c !in Join(parts, sep)
  {
    if |parts| > 1 {
      JoinAvoids(parts[1..], sep, c);
    }
  }

  /** `split` yields one more piece than the string has separators. */
  lemma {:induction false} SplitCount(s: string, sep: char)
    ensures |Split(s, sep)| == multiset(s)[sep] + 1
  {
    if s != [] {
      SplitCount(s[1..], sep);
      assert s == [s[0]] + s[1..];
    }
  }

  /** How many times `c` occurs in the pieces, all together. */
  function Occurrences(parts: seq<string>, c: char): nat
  {
    if parts == [] then 0 else multiset(parts[0])[c] + Occurrences(parts[1..], c)
  }

  lemma {:induction false} OccurrencesAppend(a: seq<string>, b: seq<string>, c: char)
    ensures Occurrences(a + b, c) == Occurrences(a, c) + Occurrences(b, c)
  {
    if a == [] {
      assert a + b == b;
    } else {
      OccurrencesAppend(a[1..], b, c);
      assert (a + b)[1..] == a[1..] + b;
    }
  }

  /**
   * The occurrences of `c` in a join: those of the pieces, plus one per
   * separator when `c` is the separator.
   */
  lemma {:induction false} JoinOccurrences(parts: seq<string>, sep: char, c: char)
    requires |parts| >= 1
    ensures multiset(Join(parts, sep))[c]
      == (if c == sep then |parts| - 1 else 0) + Occurrences(parts, c)
  {
    if |parts| == 1 {
      assert Occurrences(parts[1..], c) == 0;
    } else {
      JoinOccurrences(parts[1..], sep, c);
      assert multiset(parts[0] + [sep] + Join(parts[1..], sep))
        == multiset(parts[0]) + multiset([sep]) + multiset(Join(parts[1..], sep));
    }
  }

  /** Splitting a join yields one piece per part plus one per separator inside the parts. */
  lemma SplitJoinCount(parts: seq<string>, sep: char)
    requires |parts| >= 1
    ensures |Split(Join(parts, sep), sep)| == |parts| + Occurrences(parts, sep)
  {
    JoinOccurrences(parts, sep, sep);
    SplitCount(Join(parts, sep), sep);
  }

  lemma {:induction false} NoneHoldsNoOccurrences(parts: seq<string>, c: char)
    requires NoneHolds(parts, c)
    ensures Occurrences(parts, c) == 0
  {
    if parts != [] {
      assert c !in multiset(parts[0]);
      NoneHoldsNoOccurrences(parts[1..], c);
    }
  }

  /** Pieces around `mid` that do not hold `c` add no occurrences of it. */
  lemma OccurrencesBetween(head: seq<string>, mid: seq<string>, tail: seq<string>, c: char)
    requires NoneHolds(head, c) && NoneHolds(tail, c)
    ensures Occurrences(head + mid + tail, c) == Occurrences(mid, c)
  {
    NoneHoldsNoOccurrences(head, c);
    NoneHoldsNoOccurrences(tail, c);
    OccurrencesAppend(head, mid, c);
    OccurrencesAppend(head + mid, tail, c);
  }

  /** Positions in a list of lines framed by one line before and two after. */
  lemma Framed(head: string, mid: seq<string>, t1: string, t2: string)
    ensures |[head] + mid + [t1, t2]| == |mid| + 3
    ensures ([head] + mid + [t1, t2])[0] == head
    ensures forall i :: 0 <= i < |mid| ==> ([head] + mid + [t1, t2])[i + 1] == mid[i]
    ensures ([head] + mid + [t1, t2])[|mid| + 1] == t1
    ensures ([head] + mid + [t1, t2])[|mid| + 2] == t2
  {
  }
}
