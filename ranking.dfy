/** The leaderboard ranking rule: score descending, then username ascending. */
module Ranking {
  import opened Api

  /** Three-way lexicographic comparison of strings by character code: -1, 0 or 1. */
  function LexCompare(a: string, b: string): (c: int)
    ensures -1 <= c <= 1
    decreases |a|
  {
    if a == [] && b == [] then 0
    else if a == [] then -1
    else if b == [] then 1
    else if a[0] < b[0] then -1
    else if a[0] > b[0] then 1
    else LexCompare(a[1..], b[1..])
  }

  /** LexCompare reports a tie only for equal strings. */
  lemma {:induction false} LexCompareZeroIff(a: string, b: string)
    ensures LexCompare(a, b) == 0 <==> a == b
    decreases |a|
  {
    if a != [] && b != [] && a[0] == b[0] {
      LexCompareZeroIff(a[1..], b[1..]);
      assert a == [a[0]] + a[1..] && b == [b[0]] + b[1..];
    }
  }

  /** Swapping the arguments of LexCompare negates its result. */
  lemma {:induction false} LexCompareFlip(a: string, b: string)
    ensures LexCompare(a, b) == -LexCompare(b, a)
    decreases |a|
  {
    if a != [] && b != [] && a[0] == b[0] {
      LexCompareFlip(a[1..], b[1..]);
    }
  }

  /** "a is at or before b" in lexicographic order is transitive. */
  lemma {:induction false} LexCompareTrans(a: string, b: string, c: string)
    requires LexCompare(a, b) <= 0 && LexCompare(b, c) <= 0
    ensures LexCompare(a, c) <= 0
    decreases |a|
  {
    if a != [] && b != [] && c != [] && a[0] == b[0] && b[0] == c[0] {
      LexCompareTrans(a[1..], b[1..], c[1..]);
    }
  }

  /** The sort comparator: negative when a ranks before b, positive when after, zero on ties. */
  function Compare(a: Entry, b: Entry): int {
    if a.score != b.score then b.score - a.score
    else LexCompare(a.username, b.username)
  }

  /** Compare is antisymmetric: swapping its arguments never keeps the sign. */
  lemma CompareFlip(a: Entry, b: Entry)
    ensures Compare(a, b) > 0 <==> Compare(b, a) < 0
    ensures Compare(a, b) == 0 <==> Compare(b, a) == 0
  {
    LexCompareFlip(a.username, b.username);
  }

  /** "a ranks at or before b" is transitive, so Compare is a total preorder. */
  lemma CompareTrans(a: Entry, b: Entry, c: Entry)
    requires Compare(a, b) <= 0 && Compare(b, c) <= 0
    ensures Compare(a, c) <= 0
  {
    if a.score == b.score == c.score {
      LexCompareTrans(a.username, b.username, c.username);
    }
  }

  /** The order Compare asks for: no entry ranks strictly after a later one. */
  ghost predicate Ranked(s: seq<Entry>) {
    forall i, j :: 0 <= i < j < |s| ==> Compare(s[i], s[j]) <= 0
  }

  /** The ranking rule spelt out on neighbours: scores never rise, and equal scores are in username order. */
  ghost predicate ScoreThenName(s: seq<Entry>) {
    forall i :: 0 <= i < |s| - 1 ==>
      s[i].score >= s[i + 1].score &&
      (s[i].score == s[i + 1].score ==> LexCompare(s[i].username, s[i + 1].username) <= 0)
  }

  /** A list is ranked exactly when it obeys the rule on every pair of neighbours. */
  lemma {:induction false} RankedIffScoreThenName(s: seq<Entry>)
    ensures Ranked(s) <==> ScoreThenName(s)
  {
    if Ranked(s) {
      forall i | 0 <= i < |s| - 1
        ensures s[i].score >= s[i + 1].score &&
          (s[i].score == s[i + 1].score ==> LexCompare(s[i].username, s[i + 1].username) <= 0)
      {
        assert Compare(s[i], s[i + 1]) <= 0;
      }
    }
    if ScoreThenName(s) {
      NeighboursRanked(s);
    }
  }

  lemma {:induction false} NeighboursRanked(s: seq<Entry>)
    requires ScoreThenName(s)
    ensures Ranked(s)
  {
    if |s| > 1 {
      var t := s[1..];
      assert ScoreThenName(t) by {
        forall i | 0 <= i < |t| - 1
          ensures t[i].score >= t[i + 1].score &&
            (t[i].score == t[i + 1].score ==> LexCompare(t[i].username, t[i + 1].username) <= 0)
        {
          assert t[i] == s[i + 1] && t[i + 1] == s[i + 2];
        }
      }
      NeighboursRanked(t);
      assert Compare(s[0], s[1]) <= 0;
      forall i, j | 0 <= i < j < |s| ensures Compare(s[i], s[j]) <= 0 {
        if i == 0 {
          if j > 1 {
            assert Compare(t[0], t[j - 1]) <= 0;
            CompareTrans(s[0], s[1], s[j]);
          }
        } else {
          assert Compare(t[i - 1], t[j - 1]) <= 0;
        }
      }
    }
  }

  /** Inserts x into a ranked list, scanning from the right end as the in-place sort does:
      x goes after every entry that does not rank strictly after it. */
  function Insert(s: seq<Entry>, x: Entry): (r: seq<Entry>)
    ensures |r| == |s| + 1
  {
    if s == [] then [x]
    else if Compare(s[|s| - 1], x) > 0 then Insert(s[..|s| - 1], x) + [s[|s| - 1]]
    else s + [x]
  }

  /** The leaderboard order: a stable insertion sort by Compare, as JavaScript's stable `sort` gives. */
  function Rank(s: seq<Entry>): (r: seq<Entry>)
    ensures |r| == |s|
  {
    if s == [] then [] else Insert(Rank(s[..|s| - 1]), s[|s| - 1])
  }

  /** Inserting adds exactly x and keeps every other entry. */
  lemma {:induction false} InsertPermutes(s: seq<Entry>, x: Entry)
    ensures multiset(Insert(s, x)) == multiset(s) + multiset{x}
  {
    if s != [] && Compare(s[|s| - 1], x) > 0 {
      var p := s[..|s| - 1];
      InsertPermutes(p, x);
      assert s == p + [s[|s| - 1]];
    }
  }

  /** Inserting into a ranked list gives a ranked list. */
  lemma {:induction false} InsertRanked(s: seq<Entry>, x: Entry)
    requires Ranked(s)
    ensures Ranked(Insert(s, x))
  {
    if s == [] {
    } else if Compare(s[|s| - 1], x) > 0 {
      var p, last := s[..|s| - 1], s[|s| - 1];
      assert Ranked(p) by {
        forall i, j | 0 <= i < j < |p| ensures Compare(p[i], p[j]) <= 0 {
          assert p[i] == s[i] && p[j] == s[j];
        }
      }
      assert forall k :: 0 <= k < |p| ==> Compare(p[k], last) <= 0 by {
        forall k | 0 <= k < |p| ensures Compare(p[k], last) <= 0 {
          assert p[k] == s[k];
        }
      }
      CompareFlip(last, x);
      InsertRanked(p, x);
      InsertBounded(p, x, last);
      RankedAppend(Insert(p, x), last);
    } else {
      forall k | 0 <= k < |s| ensures Compare(s[k], x) <= 0 {
        if k < |s| - 1 {
          CompareTrans(s[k], s[|s| - 1], x);
        }
      }
      RankedAppend(s, x);
    }
  }

  /** Appending an entry that no earlier entry ranks after keeps a list ranked. */
  lemma RankedAppend(q: seq<Entry>, y: Entry)
    requires Ranked(q)
    requires forall k :: 0 <= k < |q| ==> Compare(q[k], y) <= 0
    ensures Ranked(q + [y])
  {
    var r := q + [y];
    forall i, j | 0 <= i < j < |r| ensures Compare(r[i], r[j]) <= 0 {
      if j < |q| {
        assert r[i] == q[i] && r[j] == q[j];
      } else {
        assert r[i] == q[i];
      }
    }
  }

  /** If neither x nor any entry of p ranks after y, no entry of Insert(p, x) does. */
  lemma InsertBounded(p: seq<Entry>, x: Entry, y: Entry)
    requires forall k :: 0 <= k < |p| ==> Compare(p[k], y) <= 0
    requires Compare(x, y) <= 0
    ensures forall k :: 0 <= k < |Insert(p, x)| ==> Compare(Insert(p, x)[k], y) <= 0
  {
    var q := Insert(p, x);
    InsertPermutes(p, x);
    forall k | 0 <= k < |q| ensures Compare(q[k], y) <= 0 {
      assert q[k] in multiset(q);
      if q[k] != x {
        assert q[k] in multiset(p);
        var i :| 0 <= i < |p| && p[i] == q[k];
      }
    }
  }

  /** The leaderboard is ranked. */
  lemma {:induction false} RankIsRanked(s: seq<Entry>)
    ensures Ranked(Rank(s))
  {
    if s != [] {
      RankIsRanked(s[..|s| - 1]);
      InsertRanked(Rank(s[..|s| - 1]), s[|s| - 1]);
    }
  }

  /** The leaderboard holds exactly the stored entries: nothing added, nothing dropped. */
  lemma {:induction false} RankPermutes(s: seq<Entry>)
    ensures multiset(Rank(s)) == multiset(s)
  {
    if s != [] {
      var p := s[..|s| - 1];
      RankPermutes(p);
      InsertPermutes(Rank(p), s[|s| - 1]);
      assert s == p + [s[|s| - 1]];
    }
  }

  /** Ranking an already ranked list leaves it unchanged, so ranking twice equals ranking once. */
  lemma {:induction false} RankIdempotent(s: seq<Entry>)
    requires Ranked(s)
    ensures Rank(s) == s
  {
    if s != [] {
      var p := s[..|s| - 1];
      assert Ranked(p) by {
        forall i, j | 0 <= i < j < |p| ensures Compare(p[i], p[j]) <= 0 {
          assert p[i] == s[i] && p[j] == s[j];
        }
      }
      RankIdempotent(p);
      if |p| > 0 {
        assert Compare(p[|p| - 1], s[|s| - 1]) <= 0;
      }
      assert s == p + [s[|s| - 1]];
    }
  }

  /** Ranking is a fixed point: ranking its own output changes nothing. */
  lemma RankTwice(s: seq<Entry>)
    ensures Rank(Rank(s)) == Rank(s)
  {
    RankIsRanked(s);
    RankIdempotent(Rank(s));
  }

  /** No two distinct entries share both score and username, so the comparator never ties two of them. */
  ghost predicate NoTies(s: seq<Entry>) {
    forall x, y :: x in s && y in s && x.score == y.score && x.username == y.username ==> x == y
  }

  /** Two ranked lists with the same entries and no ties are the same list. */
  lemma {:induction false} RankedUnique(s: seq<Entry>, t: seq<Entry>)
    requires Ranked(s) && Ranked(t) && multiset(s) == multiset(t) && NoTies(s)
    ensures s == t
    decreases |s|
  {
    assert |s| == |multiset(s)| == |multiset(t)| == |t|;
    if s != [] {
      SameHead(s, t);
      var s', t' := s[1..], t[1..];
      assert s == [s[0]] + s' && t == [t[0]] + t';
      assert multiset(s) == multiset{s[0]} + multiset(s');
      assert multiset(t) == multiset{t[0]} + multiset(t');
      assert multiset(s') == multiset(s) - multiset{s[0]} == multiset(t) - multiset{t[0]} == multiset(t');
      RankedTail(s);
      RankedTail(t);
      assert NoTies(s') by {
        forall x | x in s' ensures x in s { }
      }
      RankedUnique(s', t');
    }
  }

  /** Two non-empty ranked lists with the same entries and no ties start with the same entry. */
  lemma SameHead(s: seq<Entry>, t: seq<Entry>)
    requires Ranked(s) && Ranked(t) && multiset(s) == multiset(t) && NoTies(s)
    requires s != [] && t != []
    ensures s[0] == t[0]
  {
    assert s[0] in multiset(t) && t[0] in multiset(s);
    var j :| 0 <= j < |t| && t[j] == s[0];
    var i :| 0 <= i < |s| && s[i] == t[0];
    if j > 0 { assert Compare(t[0], t[j]) <= 0; }
    if i > 0 { assert Compare(s[0], s[i]) <= 0; }
    CompareFlip(s[0], t[0]);
    LexCompareZeroIff(s[0].username, t[0].username);
    assert t[0] in s;
  }

  /** Dropping the first entry of a ranked list leaves it ranked. */
  lemma RankedTail(s: seq<Entry>)
    requires Ranked(s) && s != []
    ensures Ranked(s[1..])
  {
    var s' := s[1..];
    forall a, b | 0 <= a < b < |s'| ensures Compare(s'[a], s'[b]) <= 0 {
      assert s'[a] == s[a + 1] && s'[b] == s[b + 1];
    }
  }

  /** Without ties, the leaderboard does not depend on the order in which the entries are read. */
  lemma RankOrderFree(s: seq<Entry>, t: seq<Entry>)
    requires multiset(s) == multiset(t) && NoTies(s)
    ensures Rank(s) == Rank(t)
  {
    RankIsRanked(s);
    RankIsRanked(t);
    RankPermutes(s);
    RankPermutes(t);
    assert forall x :: x in Rank(s) <==> x in s by {
      forall x ensures x in Rank(s) <==> x in s {
        assert x in Rank(s) <==> x in multiset(Rank(s));
        assert x in s <==> x in multiset(s);
      }
    }
    RankedUnique(Rank(s), Rank(t));
  }

  /** With a tie, the read order decides: two "ann" entries on 3 points keep the order they come in. */
  lemma ReadOrderDecidesTies()
    ensures Rank([Entry("ann", 3, 5, "easy"), Entry("ann", 3, 3, "hard")])
         == [Entry("ann", 3, 5, "easy"), Entry("ann", 3, 3, "hard")]
    ensures Rank([Entry("ann", 3, 3, "hard"), Entry("ann", 3, 5, "easy")])
         == [Entry("ann", 3, 3, "hard"), Entry("ann", 3, 5, "easy")]
  {
    var a, b := Entry("ann", 3, 5, "easy"), Entry("ann", 3, 3, "hard");
    assert [a, b][..1] == [a] && [b, a][..1] == [b];
    assert [a][..0] == [] && [b][..0] == [];
    LexCompareZeroIff("ann", "ann");
    assert Compare(a, b) == 0 && Compare(b, a) == 0;
  }
}
