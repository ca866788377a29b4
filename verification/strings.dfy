/**
 * The handful of Python string operations the core uses, on `string`
 * (= `seq<char>`): `str.rfind`, `os.path.basename`, `str.split` with a
 * one-character separator, `str.join`, the slice `[:k]` of a list, and
 * `str()` of an integer.
 */
module Strings {

  /** Python's `s.rfind(c)`: the last index holding `c`, or -1 when there is none. */
  function RFind(s: string, c: char): (i: int)
    ensures -1 <= i < |s|
  {
    if s == [] then -1
    else if s[|s| - 1] == c then |s| - 1
    else RFind(s[..|s| - 1], c)
  }

  /** `rfind` finds `c` at its index and nowhere after it. */
  lemma {:induction false} RFindLast(s: string, c: char)
    ensures RFind(s, c) >= 0 ==> s[RFind(s, c)] == c
    ensures forall j :: RFind(s, c) < j < |s| ==> s[j] != c
    ensures c in s <==> RFind(s, c) >= 0
  {
    if s != [] && s[|s| - 1] != c {
      RFindLast(s[..|s| - 1], c);
      assert s == s[..|s| - 1] + [s[|s| - 1]];
    }
  }

  /** POSIX `os.path.basename(p)`: everything after the last '/'. */
  function Basename(p: string): (b: string)
    ensures '/' !in b
    ensures |b| <= |p| && p == p[..|p| - |b|] + b
    ensures '/' !in p ==> b == p
  {
    RFindLast(p, '/');
    p[RFind(p, '/') + 1..]
  }

  /** Appending text without `c` leaves the last `c` where it was; appending `c` itself moves it to the end. */
  lemma {:induction false} RFindAppendAbsent(s: string, t: string, c: char)
    ensures c !in t ==> RFind(s + t, c) == RFind(s, c)
    ensures t == [c] ==> RFind(s + t, c) == |s|
    decreases |t|
  {
    if t != [] && c !in t {
      RFindAppendAbsent(s, t[..|t| - 1], c);
      assert (s + t)[..|s + t| - 1] == s + t[..|t| - 1];
    } else if t == [] {
      assert s + t == s;
    }
  }

  /** The base name of `dir/name` is `name` whatever the directory, when `name` has no '/'. */
  lemma BasenameAfterSeparator(dir: string, name: string)
    requires '/' !in name
    ensures Basename(dir + "/" + name) == name
  {
    RFindAppendAbsent(dir, "/", '/');
    RFindAppendAbsent(dir + "/", name, '/');
    assert (dir + "/" + name)[|dir| + 1..] == name;
  }

  /** Python's `s.split(c)` for a one-character separator `c`. */
  function Split(s: string, c: char): (parts: seq<string>)
    ensures |parts| >= 1
    ensures forall i :: 0 <= i < |parts| ==> c !in parts[i]
    decreases |s|
  {
    if s == [] then [[]]
    else
      var rest := Split(s[1..], c);
      if s[0] == c then [[]] + rest
      else [[s[0]] + rest[0]] + rest[1..]
  }

  /** Python's `c.join(parts)`. */
  function Join(c: char, parts: seq<string>): string
  {
    if |parts| == 0 then []
    else if |parts| == 1 then parts[0]
    else parts[0] + [c] + Join(c, parts[1..])
  }

  /** Python's list slice `parts[:k]` for a non-negative `k`. */
  function Take<T>(parts: seq<T>, k: nat): (r: seq<T>)
    ensures |r| == if k < |parts| then k else |parts|
    ensures r <= parts
  {
    if k < |parts| then parts[..k] else parts
  }

  /** Number of occurrences of `c` in `s`. */
  function Count(s: string, c: char): nat
  {
    if s == [] then 0
    else Count(s[..|s| - 1], c) + (if s[|s| - 1] == c then 1 else 0)
  }

  /** Splitting on `c` and joining back with `c` gives the original string. */
  lemma {:induction false} JoinSplit(s: string, c: char)
    ensures Join(c, Split(s, c)) == s
    decreases |s|
  {
    if s != [] {
      var rest := Split(s[1..], c);
      JoinSplit(s[1..], c);
      if s[0] == c {
        assert Split(s, c) == [[]] + rest;
        assert ([[]] + rest)[1..] == rest;
      } else {
        var parts := Split(s, c);
        assert parts == [[s[0]] + rest[0]] + rest[1..];
        if |rest| == 1 {
          assert Join(c, rest) == rest[0];
        } else {
          assert parts[1..] == rest[1..];
          assert Join(c, rest) == rest[0] + [c] + Join(c, rest[1..]);
        }
        assert s == [s[0]] + s[1..];
      }
    }
  }

  /** A run free of `c` followed by `c` is split off as the first field. */
  lemma {:induction false} SplitCons(a: string, c: char, r: string)
    requires c !in a
    ensures Split(a + [c] + r, c) == [a] + Split(r, c)
    decreases |a|
  {
    var s := a + [c] + r;
    if a == [] {
      assert s == [c] + r;
      assert s[1..] == r;
    } else {
      SplitCons(a[1..], c, r);
      assert s[1..] == a[1..] + [c] + r;
      var rest := Split(s[1..], c);
      assert rest == [a[1..]] + Split(r, c);
      assert rest[1..] == Split(r, c);
      assert a == [a[0]] + a[1..];
    }
  }

  /** A string without `c` splits into itself alone. */
  lemma {:induction false} SplitWithoutSeparator(s: string, c: char)
    requires c !in s
    ensures Split(s, c) == [s]
    decreases |s|
  {
    if s != [] {
      SplitWithoutSeparator(s[1..], c);
      assert s == [s[0]] + s[1..];
    }
  }

  /** Joining parts free of `c` with `c` and splitting on `c` gives the parts back. */
  lemma {:induction false} SplitJoin(c: char, parts: seq<string>)
    requires |parts| >= 1
    requires forall i :: 0 <= i < |parts| ==> c !in parts[i]
    ensures Split(Join(c, parts), c) == parts
    decreases |parts|
  {
    if |parts| == 1 {
      SplitWithoutSeparator(parts[0], c);
    } else {
      SplitJoin(c, parts[1..]);
      SplitCons(parts[0], c, Join(c, parts[1..]));
      assert parts == [parts[0]] + parts[1..];
    }
  }

  /** Joining the first `k` parts gives a prefix of joining them all. */
  lemma {:induction false} JoinTakeIsPrefix(c: char, parts: seq<string>, k: nat)
    requires 1 <= k <= |parts|
    ensures Join(c, parts[..k]) <= Join(c, parts)
    decreases k
  {
    if k < |parts| {
      if k == 1 {
        assert Join(c, parts[..1]) == parts[0];
      } else {
        JoinTakeIsPrefix(c, parts[1..], k - 1);
        assert parts[..k][1..] == parts[1..][..k - 1];
        assert Join(c, parts[..k]) == parts[0] + [c] + Join(c, parts[1..][..k - 1]);
      }
    } else {
      assert parts[..k] == parts;
    }
  }

  lemma {:induction false} CountAppend(a: string, b: string, c: char)
    ensures Count(a + b, c) == Count(a, c) + Count(b, c)
    decreases |b|
  {
    if b == [] {
      assert a + b == a;
    } else {
      CountAppend(a, b[..|b| - 1], c);
      assert (a + b)[..|a + b| - 1] == a + b[..|b| - 1];
    }
  }

  lemma {:induction false} CountAbsent(s: string, c: char)
    requires c !in s
    ensures Count(s, c) == 0
    decreases |s|
  {
    if s != [] {
      CountAbsent(s[..|s| - 1], c);
    }
  }

  /** Joining `n` parts that do not contain the separator puts exactly `n - 1` separators in. */
  lemma {:induction false} JoinCount(c: char, parts: seq<string>)
    requires |parts| >= 1
    requires forall i :: 0 <= i < |parts| ==> c !in parts[i]
    ensures Count(Join(c, parts), c) == |parts| - 1
    decreases |parts|
  {
    CountAbsent(parts[0], c);
    if |parts| > 1 {
      JoinCount(c, parts[1..]);
      CountAppend(parts[0], [c], c);
      CountAppend(parts[0] + [c], Join(c, parts[1..]), c);
      assert Count([c], c) == Count([], c) + 1;
    }
  }

  function DigitChar(d: nat): (ch: char)
    requires d < 10
    ensures '0' <= ch <= '9' && ch as int - '0' as int == d
  {
    ('0' as int + d) as char
  }

  predicate IsDigits(s: string)
  {
    forall i :: 0 <= i < |s| ==> '0' <= s[i] <= '9'
  }

  /** Python's `str(n)` for a non-negative integer: its decimal digits. */
  function NatToString(n: nat): string
  {
    if n < 10 then [DigitChar(n)] else NatToString(n / 10) + [DigitChar(n % 10)]
  }

  /** `str(n)` is a non-empty run of decimal digits. */
  lemma {:induction false} NatToStringIsDigits(n: nat)
    ensures |NatToString(n)| >= 1 && IsDigits(NatToString(n))
  {
    if n >= 10 {
      NatToStringIsDigits(n / 10);
    }
  }

  /** Python's `str(i)` for any integer: a '-' in front of a negative number. */
  function IntToString(i: int): string
  {
    if i < 0 then "-" + NatToString(-i) else NatToString(i)
  }

  /** The number a string of decimal digits denotes. */
  function DigitsValue(s: string): int
  {
    if s == [] then 0
    else DigitsValue(s[..|s| - 1]) * 10 + (s[|s| - 1] as int - '0' as int)
  }

  /** Reading back the decimal digits of `n` gives `n`. */
  lemma {:induction false} NatToStringRoundTrip(n: nat)
    ensures DigitsValue(NatToString(n)) == n
  {
    if n >= 10 {
      NatToStringRoundTrip(n / 10);
      var s := NatToString(n);
      assert s[..|s| - 1] == NatToString(n / 10);
    }
  }

  /** Distinct numbers print differently. */
  lemma NatToStringInjective(m: nat, n: nat)
    ensures m != n ==> NatToString(m) != NatToString(n)
  {
    NatToStringRoundTrip(m);
    NatToStringRoundTrip(n);
  }
}
