/**
 * The orderings the formatter builds before printing answers: the split
 * into elected and non-elected answers (two list comprehensions) and
 * Python's `sorted(..., key=total_count, reverse=True)`, which is a
 * stable sort by non-increasing vote count. All of them build new
 * sequences and leave their input unchanged.
 */
module AnswerOrder {
  import opened ElectionResults

  /** The answers of `s` whose elected status is `elected`, in their list order. */
  function Select(s: seq<Answer>, elected: bool): (r: seq<Answer>)
    ensures |r| <= |s|
  {
    if s == [] then []
    else (if IsWinner(s[0]) == elected then [s[0]] else []) + Select(s[1..], elected)
  }

  /** Selection keeps exactly the answers of the requested status. */
  lemma {:induction false} SelectMembers(s: seq<Answer>, elected: bool)
    ensures forall a :: a in Select(s, elected) <==> a in s && IsWinner(a) == elected
  {
    if s != [] {
      SelectMembers(s[1..], elected);
      assert s == [s[0]] + s[1..];
    }
  }

  /** The elected answers, in their list order (winner positions play no part). */
  function Winners(s: seq<Answer>): (r: seq<Answer>)
    ensures |r| <= |s|
  {
    Select(s, true)
  }

  /** The non-elected answers, in their list order. */
  function Losers(s: seq<Answer>): (r: seq<Answer>)
    ensures |r| <= |s|
  {
    Select(s, false)
  }

  /** Selection keeps list order: it distributes over concatenation. */
  lemma {:induction false} SelectAppend(s: seq<Answer>, t: seq<Answer>, elected: bool)
    ensures Select(s + t, elected) == Select(s, elected) + Select(t, elected)
  {
    if s == [] {
      assert s + t == t;
    } else {
      var h := if IsWinner(s[0]) == elected then [s[0]] else [];
      assert (s + t)[0] == s[0] && (s + t)[1..] == s[1..] + t;
      SelectAppend(s[1..], t, elected);
      assert Select(s + t, elected) == h + Select(s[1..] + t, elected);
      assert Select(s, elected) == h + Select(s[1..], elected);
      Associative(h, Select(s[1..], elected), Select(t, elected));
    }
  }

  lemma Associative(x: seq<Answer>, y: seq<Answer>, z: seq<Answer>)
    ensures x + (y + z) == (x + y) + z
  {
  }

  /** Winners and losers together are the answers, each exactly as often as in the list. */
  lemma {:induction false} PartitionIsPermutation(s: seq<Answer>)
    ensures multiset(Winners(s)) + multiset(Losers(s)) == multiset(s)
  {
    if s != [] {
      PartitionIsPermutation(s[1..]);
      assert s == [s[0]] + s[1..];
    }
  }

  /** Every answer lands on exactly one side of the split. */
  lemma {:induction false} PartitionLength(s: seq<Answer>)
    ensures |Winners(s)| + |Losers(s)| == |s|
  {
    if s != [] {
      PartitionLength(s[1..]);
    }
  }

  /** The answers of `s` with exactly `c` votes, in their list order. */
  function WithCount(s: seq<Answer>, c: int): seq<Answer> {
    if s == [] then []
    else (if s[0].totalCount == c then [s[0]] else []) + WithCount(s[1..], c)
  }

  /** The group of count `c` holds exactly the answers with `c` votes. */
  lemma {:induction false} WithCountMembers(s: seq<Answer>, c: int)
    ensures forall a :: a in WithCount(s, c) <==> a in s && a.totalCount == c
  {
    if s != [] {
      WithCountMembers(s[1..], c);
      assert s == [s[0]] + s[1..];
    }
  }

  lemma {:induction false} WithCountAppend(s: seq<Answer>, t: seq<Answer>, c: int)
    ensures WithCount(s + t, c) == WithCount(s, c) + WithCount(t, c)
  {
    if s == [] {
      assert s + t == t;
    } else {
      var h := if s[0].totalCount == c then [s[0]] else [];
      assert (s + t)[0] == s[0] && (s + t)[1..] == s[1..] + t;
      WithCountAppend(s[1..], t, c);
      assert WithCount(s + t, c) == h + WithCount(s[1..] + t, c);
      assert WithCount(s, c) == h + WithCount(s[1..], c);
      Associative(h, WithCount(s[1..], c), WithCount(t, c));
    }
  }

  /** Vote counts never increase along `s`. */
  predicate NonIncreasing(s: seq<Answer>) {
    forall i, j :: 0 <= i < j < |s| ==> s[i].totalCount >= s[j].totalCount
  }

  /**
   * `r` and `s` hold the same answers with the same relative order among
   * answers of equal count: what a stable sort by count keeps.
   */
  ghost predicate SameCountGroups(r: seq<Answer>, s: seq<Answer>) {
    forall c :: WithCount(r, c) == WithCount(s, c)
  }

  /** Inserts `a` before the first answer of `t` it does not trail, so that it precedes its ties. */
  function Insert(a: Answer, t: seq<Answer>): (r: seq<Answer>)
    ensures |r| == |t| + 1
  {
    if t == [] || a.totalCount >= t[0].totalCount then [a] + t
    else [t[0]] + Insert(a, t[1..])
  }

  /** The answers by non-increasing vote count, ties in list order: `sorted(s, key=count, reverse=True)`. */
  function SortDesc(s: seq<Answer>): (r: seq<Answer>)
    ensures |r| == |s|
  {
    if s == [] then [] else Insert(s[0], SortDesc(s[1..]))
  }

  lemma {:induction false} InsertPermutes(a: Answer, t: seq<Answer>)
    ensures multiset(Insert(a, t)) == multiset([a] + t)
  {
    if t != [] && a.totalCount < t[0].totalCount {
      InsertPermutes(a, t[1..]);
      assert t == [t[0]] + t[1..];
    }
  }

  lemma {:induction false} InsertKeepsGroups(a: Answer, t: seq<Answer>, c: int)
    ensures WithCount(Insert(a, t), c) == WithCount([a] + t, c)
  {
    if t != [] && a.totalCount < t[0].totalCount {
      var head, rest := t[0], t[1..];
      var ga := if a.totalCount == c then [a] else [];
      var gh := if head.totalCount == c then [head] else [];
      InsertKeepsGroups(a, rest, c);
      assert ga == [] || gh == [];
      assert Insert(a, t) == [head] + Insert(a, rest);
      WithCountOfHead(Insert(a, t), c);
      assert ([a] + rest)[0] == a && ([a] + rest)[1..] == rest;
      WithCountOfHead([a] + rest, c);
      WithCountOfHead(t, c);
      assert ([a] + t)[0] == a && ([a] + t)[1..] == t;
      WithCountOfHead([a] + t, c);
      assert WithCount(Insert(a, t), c) == gh + (ga + WithCount(rest, c));
      assert WithCount([a] + t, c) == ga + (gh + WithCount(rest, c));
    }
  }

  lemma {:induction false} InsertSorted(a: Answer, t: seq<Answer>)
    requires NonIncreasing(t)
    ensures NonIncreasing(Insert(a, t))
  {
    if t != [] && a.totalCount < t[0].totalCount {
      var head, rest := t[0], t[1..];
      InsertSorted(a, rest);
      InsertBounded(a, rest, head.totalCount);
      SortedCons(head, Insert(a, rest));
    }
  }

  /** No answer of `s` has more than `m` votes. */
  predicate AtMost(s: seq<Answer>, m: int) {
    forall i :: 0 <= i < |s| ==> s[i].totalCount <= m
  }

  lemma {:induction false} InsertBounded(a: Answer, t: seq<Answer>, m: int)
    requires a.totalCount <= m && AtMost(t, m)
    ensures AtMost(Insert(a, t), m)
  {
    if t != [] && a.totalCount < t[0].totalCount {
      InsertBounded(a, t[1..], m);
      assert Insert(a, t) == [t[0]] + Insert(a, t[1..]);
    }
  }

  lemma SortedCons(h: Answer, s: seq<Answer>)
    requires NonIncreasing(s) && AtMost(s, h.totalCount)
    ensures NonIncreasing([h] + s)
  {
    var r := [h] + s;
    forall i, j | 0 <= i < j < |r| ensures r[i].totalCount >= r[j].totalCount {
      assert r[j] == s[j - 1];
      if i > 0 {
        assert r[i] == s[i - 1];
      }
    }
  }

  /** SortDesc is a stable sort by non-increasing count, and a permutation. */
  lemma {:induction false} SortDescIsStableSort(s: seq<Answer>)
    ensures NonIncreasing(SortDesc(s))
    ensures SameCountGroups(SortDesc(s), s)
    ensures multiset(SortDesc(s)) == multiset(s)
    ensures |SortDesc(s)| == |s|
  {
    if s != [] {
      SortDescIsStableSort(s[1..]);
      InsertSorted(s[0], SortDesc(s[1..]));
      InsertPermutes(s[0], SortDesc(s[1..]));
      assert s == [s[0]] + s[1..];
      forall c ensures WithCount(SortDesc(s), c) == WithCount(s, c) {
        InsertKeepsGroups(s[0], SortDesc(s[1..]), c);
        WithCountAppend([s[0]], SortDesc(s[1..]), c);
        WithCountAppend([s[0]], s[1..], c);
      }
    }
  }

  /** The group of the head's count starts with the head. */
  lemma WithCountOfHead(s: seq<Answer>, c: int)
    requires s != []
    ensures WithCount(s, c) == (if s[0].totalCount == c then [s[0]] else []) + WithCount(s[1..], c)
  {
  }

  /** Sorted sequences with the same count groups start with the same answer. */
  lemma SameHead(r1: seq<Answer>, r2: seq<Answer>)
    requires r1 != [] && r2 != []
    requires NonIncreasing(r1) && NonIncreasing(r2)
    requires SameCountGroups(r1, r2)
    ensures r1[0] == r2[0]
  {
    var m1, m2 := r1[0].totalCount, r2[0].totalCount;
    WithCountOfHead(r1, m1);
    WithCountOfHead(r2, m2);
    WithCountMembers(r1, m2);
    WithCountMembers(r2, m1);
    assert r1[0] in WithCount(r2, m1);
    assert r2[0] in WithCount(r1, m2);
    assert m1 == m2;
    WithCountOfHead(r2, m1);
    assert WithCount(r1, m1)[0] == r1[0];
    assert WithCount(r2, m1)[0] == r2[0];
  }

  /** Sequences with the same count groups are empty together. */
  lemma GroupsAgreeOnEmptiness(r1: seq<Answer>, r2: seq<Answer>)
    requires SameCountGroups(r1, r2)
    ensures r1 == [] <==> r2 == []
  {
    if r1 != [] {
      WithCountOfHead(r1, r1[0].totalCount);
      WithCountMembers(r2, r1[0].totalCount);
      assert r1[0] in WithCount(r2, r1[0].totalCount);
    }
    if r2 != [] {
      WithCountOfHead(r2, r2[0].totalCount);
      WithCountMembers(r1, r2[0].totalCount);
      assert r2[0] in WithCount(r1, r2[0].totalCount);
    }
  }

  /** Two count-sorted sequences that agree on every count group are equal. */
  lemma {:induction false} StableOrderIsUnique(r1: seq<Answer>, r2: seq<Answer>)
    requires NonIncreasing(r1) && NonIncreasing(r2)
    requires SameCountGroups(r1, r2)
    ensures r1 == r2
    decreases |r1|
  {
    GroupsAgreeOnEmptiness(r1, r2);
    if r1 != [] {
      SameHead(r1, r2);
      forall c ensures WithCount(r1[1..], c) == WithCount(r2[1..], c) {
        WithCountOfHead(r1, c);
        WithCountOfHead(r2, c);
        var head := if r1[0].totalCount == c then [r1[0]] else [];
        assert WithCount(r1, c) == WithCount(r2, c);
        assert WithCount(r1[1..], c) == WithCount(r1, c)[|head|..];
        assert WithCount(r2[1..], c) == WithCount(r2, c)[|head|..];
      }
      StableOrderIsUnique(r1[1..], r2[1..]);
      assert r1 == [r1[0]] + r1[1..];
      assert r2 == [r2[0]] + r2[1..];
    }
  }

  /** SortDesc(s) is the one and only count-sorted sequence with the count groups of `s`. */
  lemma SortDescCharacterization(s: seq<Answer>, r: seq<Answer>)
    ensures r == SortDesc(s) <==> NonIncreasing(r) && SameCountGroups(r, s)
  {
    SortDescIsStableSort(s);
    if NonIncreasing(r) && SameCountGroups(r, s) {
      StableOrderIsUnique(r, SortDesc(s));
    }
  }
}
