/**
 * The parts of java.lang.String the core relies on: `trim()`, `contains`,
 * and `split(delimiter, limit)` with a positive limit and a one-character,
 * non-special delimiter.
 */
module Strings {

  /** `trim()` strips every character whose code is at most U+0020 ' '. */
  predicate IsTrimmable(c: char) {
    c <= ' '
  }

  /** Drops the leading trimmable characters. */
  function TrimStart(s: string): (r: string)
    ensures |r| <= |s| && r == s[|s| - |r|..]
    ensures r == [] || !IsTrimmable(r[0])
    ensures forall k :: 0 <= k < |s| - |r| ==> IsTrimmable(s[k])
  {
    if s != [] && IsTrimmable(s[0]) then TrimStart(s[1..]) else s
  }

  /** Drops the trailing trimmable characters. */
  function TrimEnd(s: string): (r: string)
    ensures |r| <= |s| && r == s[..|r|]
    ensures r == [] || !IsTrimmable(r[|r| - 1])
    ensures forall k :: |r| <= k < |s| ==> IsTrimmable(s[k])
  {
    if s != [] && IsTrimmable(s[|s| - 1]) then TrimEnd(s[..|s| - 1]) else s
  }

  /**
   * Java's `String.trim()`: what is left between the leading and the trailing
   * run of trimmable characters; it starts and ends with a character above ' '.
   */
  function Trim(s: string): (r: string)
    ensures |r| <= |s|
    ensures r == [] || (!IsTrimmable(r[0]) && !IsTrimmable(r[|r| - 1]))
  {
    TrimEnd(TrimStart(s))
  }

  /**
   * `trim()` cuts out one stretch of its input: everything before the stretch
   * and everything after it is trimmable.
   */
  lemma TrimIsInfix(s: string)
    ensures var k := |s| - |TrimStart(s)|;
      && k + |Trim(s)| <= |s|
      && Trim(s) == s[k..k + |Trim(s)|]
      && (forall i :: 0 <= i < k ==> IsTrimmable(s[i]))
      && (forall i :: k + |Trim(s)| <= i < |s| ==> IsTrimmable(s[i]))
  {
    var t := TrimStart(s);
    var r := TrimEnd(t);
    assert Trim(s) == r;
    InfixOfBlanks(s, t, r);
  }

  /**
   * A prefix `r` of a suffix `t` of `s`, where what the suffix leaves out and
   * what the prefix leaves out are blank, is a stretch of `s` with blanks only
   * before and after it.
   */
  lemma InfixOfBlanks(s: string, t: string, r: string)
    requires |t| <= |s| && t == s[|s| - |t|..]
    requires forall i :: 0 <= i < |s| - |t| ==> IsTrimmable(s[i])
    requires |r| <= |t| && r == t[..|r|]
    requires forall j :: |r| <= j < |t| ==> IsTrimmable(t[j])
    ensures var k := |s| - |t|;
      && k + |r| <= |s|
      && r == s[k..k + |r|]
      && (forall i :: 0 <= i < k ==> IsTrimmable(s[i]))
      && (forall i :: k + |r| <= i < |s| ==> IsTrimmable(s[i]))
  {
    var k := |s| - |t|;
    forall i | k + |r| <= i < |s| ensures IsTrimmable(s[i]) {
      assert s[i] == t[i - k];
    }
  }

  /**
   * Trimming keeps every character above ' ' that the input holds, and gives
   * the empty text exactly when the input is made of trimmable characters only.
   */
  lemma TrimKeepsContent(s: string)
    ensures forall c :: !IsTrimmable(c) ==> (c in Trim(s) <==> c in s)
    ensures Trim(s) == [] <==> forall k :: 0 <= k < |s| ==> IsTrimmable(s[k])
  {
    var t := TrimStart(s);
    var r := TrimEnd(t);
    assert forall k :: 0 <= k < |r| ==> r[k] == s[|s| - |t| + k];
    forall c | !IsTrimmable(c) && c in s
      ensures c in r
    {
      var k :| 0 <= k < |s| && s[k] == c;
      assert t[k - (|s| - |t|)] == c;
    }
  }

  /** A text that already starts and ends with non-trimmable characters is its own trim. */
  lemma TrimKeepsTrimmed(s: string)
    requires s == [] || (!IsTrimmable(s[0]) && !IsTrimmable(s[|s| - 1]))
    ensures Trim(s) == s
  {
    assert TrimStart(s) == s;
    assert TrimEnd(s) == s;
  }

  /** Trimming twice is trimming once. */
  lemma TrimIdempotent(s: string)
    ensures Trim(Trim(s)) == Trim(s)
  {
    TrimKeepsTrimmed(Trim(s));
  }

  /** Number of occurrences of `c` in `s`. */
  function CountChar(s: string, c: char): (n: nat)
    ensures n <= |s|
    ensures n == 0 <==> c !in s
  {
    if s == [] then 0 else (if s[0] == c then 1 else 0) + CountChar(s[1..], c)
  }

  /** The inverse of splitting: the fields glued back with the delimiter between them. */
  function JoinWith(parts: seq<string>, d: char): string
  {
    if parts == [] then []
    else if |parts| == 1 then parts[0]
    else parts[0] + [d] + JoinWith(parts[1..], d)
  }

  /**
   * Java's `s.split(d, limit)` for limit >= 1 and a one-character delimiter,
   * read one character at a time: a delimiter closes the current field while
   * fewer than `limit` fields are open, so the last field keeps any later
   * delimiters; empty fields, trailing ones included, are kept because the
   * limit is positive, and the empty text yields one empty field.
   */
  function SplitLimit(s: string, d: char, limit: nat): (r: seq<string>)
    requires limit >= 1
    ensures 1 <= |r| <= limit
  {
    if s == [] then [[]]
    else if s[0] == d && limit > 1 then [[]] + SplitLimit(s[1..], d, limit - 1)
    else
      var r := SplitLimit(s[1..], d, limit);
      [[s[0]] + r[0]] + r[1..]
  }

  /** Gluing fields whose first one gained a leading character gains that character. */
  lemma JoinWithPrepend(c: char, r: seq<string>, d: char)
    requires |r| >= 1
    ensures JoinWith([[c] + r[0]] + r[1..], d) == [c] + JoinWith(r, d)
  {
    var q := [[c] + r[0]] + r[1..];
    assert q[1..] == r[1..];
  }

  /** The fields glue back to the input. */
  lemma {:induction false} SplitLimitJoins(s: string, d: char, limit: nat)
    requires limit >= 1
    ensures JoinWith(SplitLimit(s, d, limit), d) == s
  {
    if s != [] {
      var r := SplitLimit(s, d, limit);
      if s[0] == d && limit > 1 {
        SplitLimitJoins(s[1..], d, limit - 1);
        assert r[1..] == SplitLimit(s[1..], d, limit - 1);
        assert s == [] + [d] + s[1..];
      } else {
        SplitLimitJoins(s[1..], d, limit);
        JoinWithPrepend(s[0], SplitLimit(s[1..], d, limit), d);
        assert s == [s[0]] + s[1..];
      }
    }
  }

  /**
   * Every field but the last is free of `d`, and the last one is too whenever
   * fewer than `limit` fields came out.
   */
  lemma {:induction false} SplitLimitFields(s: string, d: char, limit: nat)
    requires limit >= 1
    ensures var r := SplitLimit(s, d, limit);
      && (forall k :: 0 <= k < |r| - 1 ==> d !in r[k])
      && (|r| < limit ==> d !in r[|r| - 1])
  {
    if s != [] && (s[0] != d || limit > 1) {
      var r := SplitLimit(s, d, limit);
      if s[0] == d {
        SplitLimitFields(s[1..], d, limit - 1);
        EmptyFieldFirst(SplitLimit(s[1..], d, limit - 1), d, limit);
      } else {
        SplitLimitFields(s[1..], d, limit);
        PrependedFieldsFree(s[0], SplitLimit(s[1..], d, limit), d, limit);
      }
    }
  }

  /** An empty first field in front of fields split with one field fewer keeps them free of `d`. */
  lemma EmptyFieldFirst(rest: seq<string>, d: char, limit: nat)
    requires |rest| >= 1 && limit >= 2
    requires forall k :: 0 <= k < |rest| - 1 ==> d !in rest[k]
    requires |rest| < limit - 1 ==> d !in rest[|rest| - 1]
    ensures var r := [[]] + rest;
      && (forall k :: 0 <= k < |r| - 1 ==> d !in r[k])
      && (|r| < limit ==> d !in r[|r| - 1])
  {
    var r := [[]] + rest;
    assert forall k :: 1 <= k < |r| ==> r[k] == rest[k - 1];
  }

  /** Prepending a non-delimiter to the first field keeps the fields as free of `d` as they were. */
  lemma PrependedFieldsFree(c: char, rest: seq<string>, d: char, limit: nat)
    requires c != d && |rest| >= 1
    requires forall k :: 0 <= k < |rest| - 1 ==> d !in rest[k]
    requires |rest| < limit ==> d !in rest[|rest| - 1]
    ensures var r := [[c] + rest[0]] + rest[1..];
      && (forall k :: 0 <= k < |r| - 1 ==> d !in r[k])
      && (|r| < limit ==> d !in r[|r| - 1])
  {
    var r := [[c] + rest[0]] + rest[1..];
    assert forall k :: 1 <= k < |r| ==> r[k] == rest[k];
    if |rest| > 1 || |rest| < limit {
      assert d !in rest[0];
      assert d !in r[0];
    }
  }

  /** How many fields `split(d, limit)` yields: one more than the delimiters, at most `limit`. */
  function FieldCount(s: string, d: char, limit: nat): nat {
    if CountChar(s, d) + 1 < limit then CountChar(s, d) + 1 else limit
  }

  /** The number of fields is one more than the number of delimiters, capped at the limit. */
  lemma {:induction false} SplitLimitLength(s: string, d: char, limit: nat)
    requires limit >= 1
    ensures |SplitLimit(s, d, limit)| == FieldCount(s, d, limit)
  {
    if s != [] {
      if s[0] == d && limit > 1 {
        SplitLimitLength(s[1..], d, limit - 1);
      } else {
        SplitLimitLength(s[1..], d, limit);
      }
    }
  }

  /** A delimiter-free first field is split off whole, and the rest is split with one field fewer. */
  lemma {:induction false} SplitFirstField(a: string, d: char, rest: string, limit: nat)
    requires limit >= 2 && d !in a
    ensures SplitLimit(a + [d] + rest, d, limit) == [a] + SplitLimit(rest, d, limit - 1)
  {
    var s := a + [d] + rest;
    if a == [] {
      assert s[1..] == rest;
    } else {
      assert s[1..] == a[1..] + [d] + rest;
      assert d !in a[1..] by {
        assert forall k :: 0 <= k < |a| - 1 ==> a[1..][k] == a[k + 1];
      }
      SplitFirstField(a[1..], d, rest, limit);
      assert [a[0]] + a[1..] == a;
    }
  }

  /** The line `a d b d c d e`, regrouped from the right. */
  lemma RegroupFour(a: string, b: string, c: string, e: string, d: char)
    ensures a + [d] + b + [d] + c + [d] + e == a + [d] + (b + [d] + (c + [d] + e))
  {
    var s3 := c + [d] + e;
    assert a + [d] + b + [d] + c + [d] + e == (a + [d] + b + [d]) + s3;
    assert (a + [d] + b + [d]) + s3 == a + [d] + (b + [d] + s3);
  }

  /** Splitting `c d e` with limit 2, where `c` holds no delimiter, yields `c` and `e`. */
  lemma SplitTwoFields(c: string, e: string, d: char)
    requires d !in c
    ensures SplitLimit(c + [d] + e, d, 2) == [c, e]
  {
    SplitLimitJoins(e, d, 1);
    SplitFirstField(c, d, e, 2);
  }

  /** Splitting `b d c d e` with limit 3, where `b` and `c` hold no delimiter, yields `b`, `c` and `e`. */
  lemma SplitThreeFields(b: string, c: string, e: string, d: char)
    requires d !in b && d !in c
    ensures SplitLimit(b + [d] + (c + [d] + e), d, 3) == [b, c, e]
  {
    SplitTwoFields(c, e, d);
    SplitFirstField(b, d, c + [d] + e, 3);
  }

  /**
   * Splitting `a d b d c d e` with limit 4, where `a`, `b`, `c` hold no
   * delimiter, yields exactly those four fields; `e` keeps any delimiters it has.
   */
  lemma SplitFourFields(a: string, b: string, c: string, e: string, d: char)
    requires d !in a && d !in b && d !in c
    ensures SplitLimit(a + [d] + b + [d] + c + [d] + e, d, 4) == [a, b, c, e]
  {
    var x := b + [d] + (c + [d] + e);
    SplitThreeFields(b, c, e, d);
    SplitFirstField(a, d, x, 4);
    assert [a] + [b, c, e] == [a, b, c, e];
    RegroupFour(a, b, c, e, d);
  }
}
