/** The orders the database sorts rows by (`ORDER BY created_at DESC`,
    `ORDER BY username ASC`), stated over sequences of row ids ranked by a key,
    and sorted insertion, with the facts the repositories need: insertion keeps
    a sequence strictly ascending, and a strictly ascending sequence is
    determined by its elements. */
module Ordering {

  /** Lexicographic order on strings, by code point. */
  predicate StrLess(a: string, b: string)
    decreases |a|
  {
    if |a| == 0 then |b| > 0
    else if |b| == 0 then false
    else if a[0] == b[0] then StrLess(a[1..], b[1..])
    else a[0] < b[0]
  }

  lemma {:induction false} StrLessIrreflexive(a: string)
    ensures !StrLess(a, a)
    decreases |a|
  {
    if |a| > 0 { StrLessIrreflexive(a[1..]); }
  }

  lemma {:induction false} StrLessTransitive(a: string, b: string, c: string)
    requires StrLess(a, b) && StrLess(b, c)
    ensures StrLess(a, c)
    decreases |a|
  {
    if |a| > 0 && |b| > 0 && |c| > 0 && a[0] == b[0] && b[0] == c[0] {
      StrLessTransitive(a[1..], b[1..], c[1..]);
    }
  }

  lemma {:induction false} StrLessTotal(a: string, b: string)
    ensures a == b || StrLess(a, b) || StrLess(b, a)
    decreases |a|
  {
    if |a| > 0 && |b| > 0 && a[0] == b[0] {
      StrLessTotal(a[1..], b[1..]);
      if a[1..] == b[1..] {
        assert a == [a[0]] + a[1..] && b == [b[0]] + b[1..];
      }
    }
  }

  /** A sort key: a text compared lexicographically, then two integers.
      A newest-first order is the ascending order of the key
      ("", -created_at, -id). */
  datatype Rank = Rank(text: string, major: int, minor: int)

  predicate RankLess(x: Rank, y: Rank) {
    || StrLess(x.text, y.text)
    || (x.text == y.text && x.major < y.major)
    || (x.text == y.text && x.major == y.major && x.minor < y.minor)
  }

  lemma RankLessIrreflexive(x: Rank)
    ensures !RankLess(x, x)
  {
    StrLessIrreflexive(x.text);
  }

  lemma RankLessTransitive(x: Rank, y: Rank, z: Rank)
    requires RankLess(x, y) && RankLess(y, z)
    ensures RankLess(x, z)
  {
    if StrLess(x.text, y.text) && StrLess(y.text, z.text) {
      StrLessTransitive(x.text, y.text, z.text);
    }
  }

  lemma RankLessTotal(x: Rank, y: Rank)
    ensures x == y || RankLess(x, y) || RankLess(y, x)
  {
    StrLessTotal(x.text, y.text);
  }

  /** `s` is strictly ascending in the key `key`. */
  ghost predicate Ascending(key: int -> Rank, s: seq<int>) {
    forall i, j :: 0 <= i < j < |s| ==> RankLess(key(s[i]), key(s[j]))
  }

  /** Inserts `x` before the first element whose key is greater. */
  function Insert(key: int -> Rank, x: int, s: seq<int>): seq<int>
  {
    if |s| == 0 then [x]
    else if RankLess(key(x), key(s[0])) then [x] + s
    else [s[0]] + Insert(key, x, s[1..])
  }

  lemma {:induction false} InsertAscending(key: int -> Rank, x: int, s: seq<int>)
    requires Ascending(key, s)
    requires forall y :: y in s ==> key(y) != key(x)
    ensures Ascending(key, Insert(key, x, s))
    ensures |Insert(key, x, s)| == |s| + 1
    ensures forall y :: y in Insert(key, x, s) <==> y == x || y in s
  {
    if |s| == 0 {
    } else if RankLess(key(x), key(s[0])) {
      var r := [x] + s;
      forall i, j | 0 <= i < j < |r| ensures RankLess(key(r[i]), key(r[j])) {
        if i == 0 && j > 1 {
          RankLessTransitive(key(x), key(s[0]), key(s[j - 1]));
        }
      }
    } else {
      var s0 := s[0];
      assert s0 in s;
      RankLessTotal(key(x), key(s0));
      var t := s[1..];
      assert Ascending(key, t);
      InsertAscending(key, x, t);
      var r := [s[0]] + Insert(key, x, t);
      forall i, j | 0 <= i < j < |r| ensures RankLess(key(r[i]), key(r[j])) {
        if i == 0 {
          var y := r[j];
          assert y in Insert(key, x, t);
          assert Insert(key, x, t)[j - 1] == y;
          if y == x {
            assert RankLess(key(s[0]), key(x));
          } else {
            assert y in t;
            var k :| 0 <= k < |t| && t[k] == y;
            assert s[k + 1] == y;
            assert RankLess(key(s[0]), key(s[k + 1]));
          }
        } else {
          assert r[i] == Insert(key, x, t)[i - 1] && r[j] == Insert(key, x, t)[j - 1];
        }
      }
    }
  }

  /** Two strictly ascending sequences with the same elements are equal. */
  lemma {:induction false} AscendingUnique(key: int -> Rank, a: seq<int>, b: seq<int>)
    requires Ascending(key, a) && Ascending(key, b)
    requires forall y :: y in a <==> y in b
    ensures a == b
    decreases |a|
  {
    SameElementsBothEmpty(a, b);
    if |a| == 0 {
    } else {
      assert a[0] in b;
      assert |b| > 0;
      assert b[0] in a;
      if a[0] != b[0] {
        var j :| 0 <= j < |a| && a[j] == b[0];
        var k :| 0 <= k < |b| && b[k] == a[0];
        assert j > 0 && k > 0;
        RankLessTransitive(key(a[0]), key(b[0]), key(a[0]));
        RankLessIrreflexive(key(a[0]));
        assert false;
      }
      AscendingTail(key, a);
      AscendingTail(key, b);
      forall y ensures y in a[1..] <==> y in b[1..] {
        assert y in a[1..] <==> y in a && y != a[0];
        assert y in b[1..] <==> y in b && y != b[0];
      }
      AscendingUnique(key, a[1..], b[1..]);
      assert a == [a[0]] + a[1..] && b == [b[0]] + b[1..];
    }
  }

  lemma SameElementsBothEmpty(a: seq<int>, b: seq<int>)
    requires forall y :: y in a <==> y in b
    ensures |a| == 0 <==> |b| == 0
  {
    if |a| > 0 {
      var y := a[0];
      assert y in a;
    }
    if |b| > 0 {
      var y := b[0];
      assert y in b;
    }
  }

  /** The head of a strictly ascending sequence does not occur again in its tail. */
  lemma AscendingTail(key: int -> Rank, s: seq<int>)
    requires Ascending(key, s) && |s| > 0
    ensures Ascending(key, s[1..])
    ensures forall y :: y in s[1..] <==> y in s && y != s[0]
  {
    forall y | y in s[1..] ensures y != s[0] {
      var k :| 1 <= k < |s| && s[k] == y;
      if y == s[0] {
        RankLessIrreflexive(key(s[0]));
      }
    }
  }

  /** A prefix of a strictly ascending sequence is strictly ascending, and every
      element left out ranks after every element kept. */
  lemma PrefixAscending(key: int -> Rank, s: seq<int>, n: nat)
    requires Ascending(key, s) && n <= |s|
    ensures Ascending(key, s[..n])
    ensures forall i, j :: 0 <= i < n <= j < |s| ==> RankLess(key(s[i]), key(s[j]))
  {
  }

  lemma NonEmpty(s: set<int>)
    requires s != {}
    ensures exists x :: x in s
  {
    if forall x :: x !in s {
      assert false;
    }
  }

  /** `key` tells the ids of `ids` apart. */
  ghost predicate KeyInjective(key: int -> Rank, ids: set<int>) {
    forall a, b :: a in ids && b in ids && a != b ==> key(a) != key(b)
  }

  /** The ids of a table in the order a query's ORDER BY puts them: strictly
      ascending in `key`, each id of `ids` once. */
  method SortIds(ids: set<int>, key: int -> Rank) returns (s: seq<int>)
    requires KeyInjective(key, ids)
    ensures Ascending(key, s)
    ensures forall y :: y in s <==> y in ids
  {
    var todo := ids;
    s := [];
    while todo != {}
      invariant todo <= ids
      invariant Ascending(key, s)
      invariant forall y :: y in s <==> y in ids && y !in todo
      decreases todo
    {
      NonEmpty(todo);
      var x :| x in todo;
      forall y | y in s ensures key(y) != key(x) {
        assert y in ids && x in ids && y != x;
      }
      InsertAscending(key, x, s);
      s := Insert(key, x, s);
      todo := todo - {x};
    }
  }
}
