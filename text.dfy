/**
 * String facts the handlers rely on: the lexicographic order that string
 * comparisons (`gte`/`lte` on a text column) use, the `'\uffff'` sentinel that
 * makes an upper bound inclusive of every longer string sharing its prefix,
 * `String.prototype.split` on a one-character separator, and ordering a list
 * by a string key (`orderBy: { ...: 'asc' | 'desc' }`).
 *
 * Characters are compared by code point.
 */
module Text {

  /** `a <= b` lexicographically: a prefix is below every extension of it. */
  predicate LexLe(a: string, b: string)
    decreases |a|
  {
    a == [] || (b != [] && (a[0] < b[0] || (a[0] == b[0] && LexLe(a[1..], b[1..]))))
  }

  lemma {:induction false} LexLeReflexive(a: string)
    ensures LexLe(a, a)
    decreases |a|
  {
    if a != [] { LexLeReflexive(a[1..]); }
  }

  lemma {:induction false} LexLeTotal(a: string, b: string)
    ensures LexLe(a, b) || LexLe(b, a)
    decreases |a|
  {
    if a != [] && b != [] && a[0] == b[0] { LexLeTotal(a[1..], b[1..]); }
  }

  lemma {:induction false} LexLeTransitive(a: string, b: string, c: string)
    requires LexLe(a, b) && LexLe(b, c)
    ensures LexLe(a, c)
    decreases |a|
  {
    if a != [] && a[0] == b[0] && b[0] == c[0] { LexLeTransitive(a[1..], b[1..], c[1..]); }
  }

  lemma {:induction false} LexLeAntisymmetric(a: string, b: string)
    requires LexLe(a, b) && LexLe(b, a)
    ensures a == b
    decreases |a|
  {
    if a != [] {
      LexLeAntisymmetric(a[1..], b[1..]);
      assert a == [a[0]] + a[1..] && b == [b[0]] + b[1..];
    }
  }

  /**
   * Comparing two strings that start with equally long heads: the heads
   * decide unless they are equal, and then the tails decide.
   */
  lemma {:induction false} LexLeSameLengthHeads(a: string, b: string, c: string, d: string)
    requires |a| == |c|
    ensures LexLe(a + b, c + d) <==> (a != c && LexLe(a, c)) || (a == c && LexLe(b, d))
    decreases |a|
  {
    if a == [] {
      assert a + b == b && c + d == d;
    } else {
      assert (a + b)[0] == a[0] && (c + d)[0] == c[0];
      assert (a + b)[1..] == a[1..] + b && (c + d)[1..] == c[1..] + d;
      assert a == [a[0]] + a[1..] && c == [c[0]] + c[1..];
      LexLeSameLengthHeads(a[1..], b, c[1..], d);
    }
  }

  // ---------------------------------------------------------------------------
  // Range bounds on date strings
  // ---------------------------------------------------------------------------

  /** The `'\uffff'` appended to the upper bound of a date range. */
  const Sentinel: char := '\U{FFFF}'

  /**
   * A lower bound `from` admits a string exactly when it admits the string's
   * first `|from|` characters: `"2024-05-01" <= "2024-05-01T08:00:00.000Z"`.
   */
  lemma {:induction false} LowerBoundOnPrefix(from: string, d: string)
    requires |from| <= |d|
    ensures LexLe(from, d) <==> LexLe(from, d[..|from|])
    decreases |from|
  {
    if from != [] {
      LowerBoundOnPrefix(from[1..], d[1..]);
      assert d[..|from|][1..] == d[1..][..|from| - 1];
    }
  }

  /**
   * With the sentinel appended, an upper bound `to` admits a string exactly
   * when it admits the string's first `|to|` characters, provided the
   * character after them (if any) is below the sentinel — as `'T'` in an ISO
   * timestamp is.
   */
  lemma {:induction false} SentinelUpperBound(to: string, d: string)
    requires |to| <= |d|
    requires |d| > |to| ==> d[|to|] < Sentinel
    ensures LexLe(d, to + [Sentinel]) <==> LexLe(d[..|to|], to)
    decreases |to|
  {
    if to == [] {
      assert d[..0] == [];
    } else {
      assert (to + [Sentinel])[0] == to[0];
      assert (to + [Sentinel])[1..] == to[1..] + [Sentinel];
      SentinelUpperBound(to[1..], d[1..]);
      assert d[..|to|][1..] == d[1..][..|to| - 1];
    }
  }

  /** Without the sentinel the bound would drop every longer string with prefix `to`. */
  lemma {:induction false} BareUpperBoundExcludesExtensions(to: string, rest: string)
    requires rest != []
    ensures !LexLe(to + rest, to)
    decreases |to|
  {
    if to != [] {
      assert (to + rest)[1..] == to[1..] + rest;
      BareUpperBoundExcludesExtensions(to[1..], rest);
    }
  }

  // ---------------------------------------------------------------------------
  // split
  // ---------------------------------------------------------------------------

  /**
   * `s.split(sep)` for a one-character separator: the pieces between
   * separators, empty pieces included; the empty string gives `[""]`.
   */
  function Split(s: string, sep: char): (r: seq<string>)
    ensures |r| >= 1
    decreases |s|
  {
    if s == [] then [[]]
    else
      var rest := Split(s[1..], sep);
      if s[0] == sep then [[]] + rest else [[s[0]] + rest[0]] + rest[1..]
  }

  /** `parts.join(sep)`. */
  function Join(parts: seq<string>, sep: char): string
    decreases |parts|
  {
    if parts == [] then []
    else if |parts| == 1 then parts[0]
    else parts[0] + [sep] + Join(parts[1..], sep)
  }

  /** Splitting loses nothing: joining the pieces gives the string back. */
  lemma {:induction false} JoinSplit(s: string, sep: char)
    ensures Join(Split(s, sep), sep) == s
    decreases |s|
  {
    if s != [] {
      var rest := Split(s[1..], sep);
      JoinSplit(s[1..], sep);
      if s[0] == sep {
        assert Split(s, sep) == [[]] + rest;
        assert ([[]] + rest)[1..] == rest;
        assert s == [sep] + s[1..];
      } else {
        var r := [[s[0]] + rest[0]] + rest[1..];
        assert Split(s, sep) == r;
        if |rest| == 1 {
          assert s == [s[0]] + s[1..];
        } else {
          assert r[1..] == rest[1..];
          assert Join(rest, sep) == rest[0] + [sep] + Join(rest[1..], sep);
          assert s == [s[0]] + s[1..];
        }
      }
    }
  }

  /** No piece contains the separator. */
  lemma {:induction false} SplitPiecesHaveNoSeparator(s: string, sep: char)
    ensures forall k :: 0 <= k < |Split(s, sep)| ==> sep !in Split(s, sep)[k]
    decreases |s|
  {
    if s != [] {
      SplitPiecesHaveNoSeparator(s[1..], sep);
      var rest := Split(s[1..], sep);
      if s[0] != sep {
        assert sep !in rest[0];
        var r := [[s[0]] + rest[0]] + rest[1..];
        forall k | 0 <= k < |r| ensures sep !in r[k] {
          if k > 0 { assert r[k] == rest[k]; }
        }
      } else {
        var r := [[]] + rest;
        forall k | 0 <= k < |r| ensures sep !in r[k] {
          if k > 0 { assert r[k] == rest[k - 1]; }
        }
      }
    }
  }

  /** Pieces without the separator are recovered by splitting their join. */
  lemma {:induction false} SplitJoin(parts: seq<string>, sep: char)
    requires |parts| >= 1
    requires forall k :: 0 <= k < |parts| ==> sep !in parts[k]
    ensures Split(Join(parts, sep), sep) == parts
    decreases |parts|, |parts[0]|
  {
    var p := parts[0];
    if p == [] {
      if |parts| == 1 {
      } else {
        var tail := parts[1..];
        SplitJoin(tail, sep);
        var s := Join(parts, sep);
        assert s == [sep] + Join(tail, sep);
        assert s[1..] == Join(tail, sep);
        assert Split(s, sep) == [[]] + tail;
        assert parts == [[]] + tail;
      }
    } else {
      var shorter := [p[1..]] + parts[1..];
      forall k | 0 <= k < |shorter| ensures sep !in shorter[k] {
        if k == 0 { assert forall c :: c in p[1..] ==> c in p; } else { assert shorter[k] == parts[k]; }
      }
      SplitJoin(shorter, sep);
      var s := Join(parts, sep);
      assert s[0] == p[0] && p[0] != sep;
      if |parts| == 1 {
        assert s[1..] == Join(shorter, sep);
      } else {
        assert shorter[1..] == parts[1..];
        assert s[1..] == Join(shorter, sep);
      }
      var rest := Split(s[1..], sep);
      assert rest == shorter;
      assert [p[0]] + p[1..] == p;
      assert Split(s, sep) == [[p[0]] + rest[0]] + rest[1..];
      assert parts == [p] + parts[1..];
    }
  }

  // ---------------------------------------------------------------------------
  // Ordering by a string key
  // ---------------------------------------------------------------------------

  ghost predicate SortedBy<T>(s: seq<T>, key: T -> string) {
    forall i, j :: 0 <= i < j < |s| ==> LexLe(key(s[i]), key(s[j]))
  }

  /** Inserts `x` after every element whose key is at most its own. */
  function Insert<T>(x: T, s: seq<T>, key: T -> string): seq<T>
    decreases |s|
  {
    if s == [] then [x]
    else if LexLe(key(s[0]), key(x)) then [s[0]] + Insert(x, s[1..], key)
    else [x] + s
  }

  /** Ascending order by `key`; equal keys keep their relative order. */
  function SortBy<T>(s: seq<T>, key: T -> string): seq<T>
    decreases |s|
  {
    if s == [] then [] else Insert(s[|s| - 1], SortBy(s[..|s| - 1], key), key)
  }

  lemma {:induction false} InsertPermutation<T>(x: T, s: seq<T>, key: T -> string)
    ensures multiset(Insert(x, s, key)) == multiset(s) + multiset{x}
    decreases |s|
  {
    if s != [] && LexLe(key(s[0]), key(x)) {
      InsertPermutation(x, s[1..], key);
      assert s == [s[0]] + s[1..];
    }
  }

  lemma SortedTail<T>(s: seq<T>, key: T -> string)
    requires s != [] && SortedBy(s, key)
    ensures SortedBy(s[1..], key)
  {
    var t := s[1..];
    forall i, j | 0 <= i < j < |t| ensures LexLe(key(t[i]), key(t[j])) {
      assert t[i] == s[i + 1] && t[j] == s[j + 1];
    }
  }

  /** An element below every key of a sorted list may go in front of it. */
  lemma SortedCons<T>(y: T, t: seq<T>, key: T -> string)
    requires SortedBy(t, key)
    requires forall k :: 0 <= k < |t| ==> LexLe(key(y), key(t[k]))
    ensures SortedBy([y] + t, key)
  {
    var r := [y] + t;
    forall i, j | 0 <= i < j < |r| ensures LexLe(key(r[i]), key(r[j])) {
      assert r[j] == t[j - 1];
      if i > 0 { assert r[i] == t[i - 1]; }
    }
  }

  lemma {:induction false} InsertSorted<T>(x: T, s: seq<T>, key: T -> string)
    requires SortedBy(s, key)
    ensures SortedBy(Insert(x, s, key), key)
    decreases |s|
  {
    if s == [] {
    } else if LexLe(key(s[0]), key(x)) {
      var t := s[1..];
      SortedTail(s, key);
      InsertSorted(x, t, key);
      InsertPermutation(x, t, key);
      var u := Insert(x, t, key);
      forall k | 0 <= k < |u| ensures LexLe(key(s[0]), key(u[k])) {
        var y := u[k];
        assert y in multiset(u);
        if y != x {
          assert y in multiset(t);
          var m :| 0 <= m < |t| && t[m] == y;
          assert s[m + 1] == y;
        }
      }
      SortedCons(s[0], u, key);
    } else {
      LexLeTotal(key(s[0]), key(x));
      forall k | 0 <= k < |s| ensures LexLe(key(x), key(s[k])) {
        if k > 0 { LexLeTransitive(key(x), key(s[0]), key(s[k])); }
      }
      SortedCons(x, s, key);
    }
  }

  /** `SortBy` returns its input in ascending key order. */
  lemma {:induction false} SortBySorted<T>(s: seq<T>, key: T -> string)
    ensures SortedBy(SortBy(s, key), key)
    ensures multiset(SortBy(s, key)) == multiset(s)
    decreases |s|
  {
    if s != [] {
      var init := s[..|s| - 1];
      SortBySorted(init, key);
      InsertSorted(s[|s| - 1], SortBy(init, key), key);
      InsertPermutation(s[|s| - 1], SortBy(init, key), key);
      assert s == init + [s[|s| - 1]];
    }
  }

  function Reverse<T>(s: seq<T>): (r: seq<T>)
    ensures |r| == |s|
    ensures forall k :: 0 <= k < |s| ==> r[k] == s[|s| - 1 - k]
    decreases |s|
  {
    if s == [] then [] else [s[|s| - 1]] + Reverse(s[..|s| - 1])
  }

  lemma {:induction false} ReversePermutation<T>(s: seq<T>)
    ensures multiset(Reverse(s)) == multiset(s)
    decreases |s|
  {
    if s != [] {
      ReversePermutation(s[..|s| - 1]);
      assert s == s[..|s| - 1] + [s[|s| - 1]];
    }
  }

  /** Descending order by `key` (a `'desc'` ordering). */
  function SortByDescending<T>(s: seq<T>, key: T -> string): seq<T> {
    Reverse(SortBy(s, key))
  }

  lemma SortByDescendingSorted<T>(s: seq<T>, key: T -> string)
    ensures forall i, j :: 0 <= i < j < |SortByDescending(s, key)| ==>
      LexLe(key(SortByDescending(s, key)[j]), key(SortByDescending(s, key)[i]))
    ensures multiset(SortByDescending(s, key)) == multiset(s)
  {
    SortBySorted(s, key);
    ReversePermutation(SortBy(s, key));
  }
}
