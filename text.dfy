/** String operations the views rely on: case folding, substring search,
    `Array.prototype.join`, decimal printing and parsing of numbers, and the
    Indian digit grouping of `toLocaleString('en-IN')`. */
module Text {
  import opened Wrappers

  /** `toLowerCase` on one character; only the ASCII letters A-Z are folded. */
  function LowerChar(c: char): char {
    if 'A' <= c <= 'Z' then (c as int + 32) as char else c
  }

  function Lower(s: string): (r: string)
    ensures |r| == |s|
  {
    seq(|s|, i requires 0 <= i < |s| => LowerChar(s[i]))
  }

  /** Folding twice is folding once, so a lower-cased query matches the same
      lower-cased texts however it was typed. */
  lemma LowerIdempotent(s: string)
    ensures Lower(Lower(s)) == Lower(s)
  {
  }

  /** `s.includes(q)` */
  predicate Contains(s: string, q: string) {
    exists i :: 0 <= i <= |s| - |q| && OccursAt(s, q, i)
  }

  /** `q` occurs in `s` starting at index `i`. */
  predicate OccursAt(s: string, q: string, i: int)
    requires 0 <= i <= |s| - |q|
  {
    s[i..i + |q|] == q
  }

  /** Every text includes the empty string. */
  lemma ContainsEmpty(s: string)
    ensures Contains(s, "")
  {
    assert OccursAt(s, "", 0);
  }

  /** `parts.join(sep)` */
  function Join(parts: seq<string>, sep: string): string
  {
    if |parts| == 0 then ""
    else if |parts| == 1 then parts[0]
    else Join(parts[..|parts| - 1], sep) + sep + parts[|parts| - 1]
  }

  /** Number of occurrences of `c` in `s`. */
  function Count(c: char, s: string): nat
  {
    if s == [] then 0 else Count(c, s[..|s| - 1]) + (if s[|s| - 1] == c then 1 else 0)
  }

  lemma {:induction false} CountConcat(c: char, a: string, b: string)
    ensures Count(c, a + b) == Count(c, a) + Count(c, b)
    decreases |b|
  {
    if b == [] {
      assert a + b == a;
    } else {
      assert (a + b)[..|a + b| - 1] == a + b[..|b| - 1];
      CountConcat(c, a, b[..|b| - 1]);
    }
  }

  /** Joining `n >= 1` parts that do not contain `c` with the separator `c`
      yields exactly `n - 1` occurrences of `c`, i.e. `n` lines when `c` is a
      newline. */
  lemma {:induction false} JoinCount(parts: seq<string>, c: char)
    requires |parts| >= 1
    requires forall i :: 0 <= i < |parts| ==> Count(c, parts[i]) == 0
    ensures Count(c, Join(parts, [c])) == |parts| - 1
  {
    if |parts| > 1 {
      var init := parts[..|parts| - 1];
      JoinCount(init, c);
      CountConcat(c, Join(init, [c]) + [c], parts[|parts| - 1]);
      CountConcat(c, Join(init, [c]), [c]);
      assert Count(c, [c]) == 1 by {
        assert ([] + [c])[..0] == [];
      }
    }
  }

  lemma {:induction false} CountAbsent(c: char, s: string)
    requires c !in s
    ensures Count(c, s) == 0
  {
    if s != [] {
      assert s[..|s| - 1] <= s;
      CountAbsent(c, s[..|s| - 1]);
    }
  }

  /** Parts and a separator without `c` join into a text without `c`. */
  lemma {:induction false} JoinFree(parts: seq<string>, sep: string, c: char)
    requires forall i :: 0 <= i < |parts| ==> Count(c, parts[i]) == 0
    requires Count(c, sep) == 0
    ensures Count(c, Join(parts, sep)) == 0
  {
    if |parts| > 1 {
      var init := parts[..|parts| - 1];
      JoinFree(init, sep, c);
      CountConcat(c, Join(init, sep) + sep, parts[|parts| - 1]);
      CountConcat(c, Join(init, sep), sep);
    }
  }

  // ---------------------------------------------------------------------------
  // Decimal printing and parsing

  function DigitChar(d: int): char
    requires 0 <= d < 10
  {
    ('0' as int + d) as char
  }

  predicate IsDigit(c: char) { '0' <= c <= '9' }

  /** A non-empty run of decimal digits. */
  predicate IsDigits(s: string) {
    |s| > 0 && forall i :: 0 <= i < |s| ==> IsDigit(s[i])
  }

  /** The value of a run of decimal digits (most significant first). */
  function DigitsValue(s: string): nat
    requires forall i :: 0 <= i < |s| ==> IsDigit(s[i])
  {
    if s == [] then 0
    else DigitsValue(s[..|s| - 1]) * 10 + DigitValue(s[|s| - 1])
  }

  function DigitValue(c: char): (d: nat)
    requires IsDigit(c)
    ensures d < 10
  {
    c as int - '0' as int
  }

  /** `String(n)` for a natural number. */
  function NatToString(n: nat): (r: string)
    ensures IsDigits(r)
  {
    if n < 10 then [DigitChar(n)] else NatToString(n / 10) + [DigitChar(n % 10)]
  }

  /** `String(i)` for an integer. */
  function IntToString(i: int): (r: string)
    ensures |r| > 0
  {
    if i < 0 then "-" + NatToString(-i) else NatToString(i)
  }

  /** Reading the digits back gives the number printed. */
  lemma {:induction false} NatToStringValue(n: nat)
    ensures DigitsValue(NatToString(n)) == n
  {
    if n >= 10 {
      NatToStringValue(n / 10);
      var s := NatToString(n);
      assert s[..|s| - 1] == NatToString(n / 10);
    }
  }

  function Pow10(k: nat): (r: nat)
    ensures r >= 1
  {
    if k == 0 then 1 else 10 * Pow10(k - 1)
  }

  /** Index of the first `c` in `s`, or `|s|` when there is none. */
  function IndexOf(s: string, c: char): (k: nat)
    ensures k <= |s|
    ensures k < |s| ==> s[k] == c
    ensures forall j :: 0 <= j < k ==> s[j] != c
  {
    if s == [] then 0 else if s[0] == c then 0 else 1 + IndexOf(s[1..], c)
  }

  /** `digits` or `digits.digits` */
  function ParseUnsigned(s: string): Option<real>
  {
    var k := IndexOf(s, '.');
    if IsDigits(s) then Some(DigitsValue(s) as real)
    else if k < |s| && IsDigits(s[..k]) && IsDigits(s[k + 1..]) then
      Some(DigitsValue(s[..k]) as real + DigitsValue(s[k + 1..]) as real / Pow10(|s| - k - 1) as real)
    else None
  }

  /** `Number(s)` for a string: `None` stands for NaN. The empty string is 0;
      otherwise an optional minus sign followed by digits with an optional
      fractional part is read. */
  function ParseNumber(s: string): (r: Option<real>)
    ensures s == "" ==> r == Some(0.0)
    ensures (exists i :: 0 <= i < |s| && !IsDigit(s[i]) && s[i] != '.' && s[i] != '-') ==> r.None?
  {
    if s == "" then Some(0.0)
    else if s[0] == '-' then
      match ParseUnsigned(s[1..])
      case Some(v) => Some(-v)
      case None => None
    else ParseUnsigned(s)
  }

  /** Printing an integer and reading it back is the identity. */
  lemma ParseIntToString(i: int)
    ensures ParseNumber(IntToString(i)) == Some(i as real)
  {
    if i < 0 {
      ParseNegative(i);
    } else {
      NatToStringValue(i);
    }
  }

  lemma ParseNegative(i: int)
    requires i < 0
    ensures ParseNumber(IntToString(i)) == Some(i as real)
  {
    NatToStringValue(-i);
    var s := IntToString(i);
    assert s[1..] == NatToString(-i);
  }

  // ---------------------------------------------------------------------------
  // Indian digit grouping (en-IN): the last three digits form one group,
  // every two digits before them another.

  function PairGroups(t: string): string
  {
    if |t| <= 2 then t else PairGroups(t[..|t| - 2]) + "," + t[|t| - 2..]
  }

  function IndianGroup(d: string): string
  {
    if |d| <= 3 then d else PairGroups(d[..|d| - 3]) + "," + d[|d| - 3..]
  }

  /** `s` with every `c` removed. */
  function Remove(c: char, s: string): (r: string)
    ensures c !in r
  {
    if s == [] then [] else Remove(c, s[..|s| - 1]) + (if s[|s| - 1] == c then [] else [s[|s| - 1]])
  }

  lemma {:induction false} RemoveConcat(c: char, a: string, b: string)
    ensures Remove(c, a + b) == Remove(c, a) + Remove(c, b)
    decreases |b|
  {
    if b == [] {
      assert a + b == a;
    } else {
      assert (a + b)[..|a + b| - 1] == a + b[..|b| - 1];
      RemoveConcat(c, a, b[..|b| - 1]);
    }
  }

  lemma {:induction false} RemoveAbsent(c: char, s: string)
    requires c !in s
    ensures Remove(c, s) == s
  {
    if s != [] {
      RemoveAbsent(c, s[..|s| - 1]);
    }
  }

  /** Removing the separators from `a + "," + b` removes them from each part. */
  lemma RemoveAround(a: string, b: string)
    ensures Remove(',', a + "," + b) == Remove(',', a) + Remove(',', b)
  {
    RemoveSeparator();
    RemoveConcat(',', a + ",", b);
    RemoveConcat(',', a, ",");
  }

  lemma RemoveSeparator()
    ensures Remove(',', ",") == []
  {
    assert ","[..0] == [];
  }

  lemma {:induction false} PairGroupsUngroup(t: string)
    requires ',' !in t
    ensures Remove(',', PairGroups(t)) == t
  {
    if |t| <= 2 {
      RemoveAbsent(',', t);
    } else {
      var a, b := t[..|t| - 2], t[|t| - 2..];
      assert t == a + b;
      PairGroupsUngroup(a);
      RemoveAround(PairGroups(a), b);
      RemoveAbsent(',', b);
    }
  }

  /** Removing the group separators from a grouped digit string gives back
      the digits. */
  lemma IndianGroupUngroup(d: string)
    requires ',' !in d
    ensures Remove(',', IndianGroup(d)) == d
  {
    if |d| <= 3 {
      RemoveAbsent(',', d);
    } else {
      var a, b := d[..|d| - 3], d[|d| - 3..];
      assert d == a + b;
      PairGroupsUngroup(a);
      RemoveAround(PairGroups(a), b);
      RemoveAbsent(',', b);
    }
  }
}
