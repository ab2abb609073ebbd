/** The leaderboard: five fixed virtual users merged with the current user
    and sorted by points, highest first. */
module Leaderboard {
  import opened Seqs

  datatype Ranked = Ranked(name: string, points: int, isCurrentUser: bool)

  /** The virtual users, in declaration order. */
  const VirtualUsers: seq<Ranked> := [
    Ranked("历史学者", 1250, false),
    Ranked("文化探索者", 980, false),
    Ranked("时光旅行者", 850, false),
    Ranked("古都爱好者", 720, false),
    Ranked("历史新手", 450, false)
  ]

  /** The entry of the current user. */
  function Me(points: int): Ranked {
    Ranked("我", points, true)
  }

  /** Highest points first. */
  predicate NonIncreasing(xs: seq<Ranked>) {
    forall i, j :: 0 <= i < j < |xs| ==> xs[i].points >= xs[j].points
  }

  /** Place `x` after every leading entry with at least its points: into a
      non-increasing list this is insertion in order, a tie keeping the
      earlier entry first. */
  function Insert(x: Ranked, xs: seq<Ranked>): seq<Ranked> {
    if |xs| == 0 then [x]
    else if xs[0].points >= x.points then [xs[0]] + Insert(x, xs[1..])
    else [x] + xs
  }

  /** Insertion adds exactly `x`. */
  lemma {:induction false} InsertCounts(x: Ranked, xs: seq<Ranked>)
    ensures multiset(Insert(x, xs)) == multiset(xs) + multiset{x}
    ensures forall y :: y in Insert(x, xs) ==> y in xs || y == x
    ensures |Insert(x, xs)| == |xs| + 1
  {
    if |xs| > 0 && xs[0].points >= x.points {
      InsertCounts(x, xs[1..]);
      assert xs == [xs[0]] + xs[1..];
    }
  }

  /** Insertion into a non-increasing list keeps it non-increasing. */
  lemma {:induction false} InsertSorted(x: Ranked, xs: seq<Ranked>)
    requires NonIncreasing(xs)
    ensures NonIncreasing(Insert(x, xs))
  {
    var r := Insert(x, xs);
    if |xs| == 0 {
    } else if xs[0].points >= x.points {
      var rest := Insert(x, xs[1..]);
      InsertSorted(x, xs[1..]);
      InsertCounts(x, xs[1..]);
      assert r == [xs[0]] + rest;
      forall i, j | 0 <= i < j < |r| ensures r[i].points >= r[j].points {
        if i == 0 {
          assert r[j] == rest[j - 1] && rest[j - 1] in rest;
          if r[j] != x {
            var k :| 0 <= k < |xs[1..]| && xs[1..][k] == r[j];
            assert xs[k + 1] == r[j];
          }
        } else {
          assert r[i] == rest[i - 1] && r[j] == rest[j - 1];
        }
      }
    } else {
      assert r == [x] + xs;
      forall i, j | 0 <= i < j < |r| ensures r[i].points >= r[j].points {
        if i > 0 {
          assert r[i] == xs[i - 1] && r[j] == xs[j - 1];
        } else {
          assert r[j] == xs[j - 1];
        }
      }
    }
  }

  /** `sort((a, b) => b.points - a.points)`: a stable sort, highest points
      first, ties in their original order; stated here as insertion of each
      entry in turn. */
  function SortByPoints(xs: seq<Ranked>): (r: seq<Ranked>)
    ensures NonIncreasing(r)
    ensures multiset(r) == multiset(xs)
    ensures |r| == |xs|
  {
    if |xs| == 0 then []
    else
      var init := xs[..|xs| - 1];
      var last := xs[|xs| - 1];
      var sorted := SortByPoints(init);
      assert xs == init + [last];
      InsertCounts(last, sorted);
      InsertSorted(last, sorted);
      Insert(last, sorted)
  }

  /** The board `updateLeaderboard` renders, ranks being positions plus one. */
  function Board(myPoints: int): seq<Ranked> {
    SortByPoints(VirtualUsers + [Me(myPoints)])
  }

  lemma VirtualUsersSorted()
    ensures NonIncreasing(VirtualUsers)
  {
  }

  /** Inserting into a list that is already in order leaves its own entries
      alone: sorting an ordered list is the identity. */
  lemma {:induction false} SortSorted(xs: seq<Ranked>)
    requires NonIncreasing(xs)
    ensures SortByPoints(xs) == xs
  {
    if |xs| > 0 {
      var init := xs[..|xs| - 1];
      SortSorted(init);
      InsertLast(xs[|xs| - 1], init);
      assert init + [xs[|xs| - 1]] == xs;
    }
  }

  lemma {:induction false} InsertLast(x: Ranked, xs: seq<Ranked>)
    requires NonIncreasing(xs)
    requires forall y :: y in xs ==> y.points >= x.points
    ensures Insert(x, xs) == xs + [x]
  {
    if |xs| > 0 {
      assert xs[0] in xs;
      InsertLast(x, xs[1..]);
      assert [xs[0]] + (xs[1..] + [x]) == xs + [x];
    }
  }

  /** The entries with at least `p` points. */
  function AtLeast(p: int): Ranked -> bool {
    (y: Ranked) => y.points >= p
  }

  /** The entries with fewer than `p` points. */
  function Below(p: int): Ranked -> bool {
    (y: Ranked) => y.points < p
  }

  /** Where the current user lands: after every virtual user with at least
      as many points, before every one with fewer. */
  lemma {:induction false} InsertPlaces(x: Ranked, xs: seq<Ranked>)
    requires NonIncreasing(xs)
    ensures Insert(x, xs) == Filter(xs, AtLeast(x.points)) + [x]
                             + Filter(xs, Below(x.points))
  {
    if |xs| == 0 {
      assert Insert(x, xs) == [x];
    } else if xs[0].points >= x.points {
      InsertPlaces(x, xs[1..]);
      PlacesAfterHead(x, xs);
    } else {
      AllBelow(xs, x);
      assert Insert(x, xs) == [x] + xs;
    }
  }

  /** The step of `InsertPlaces` past a head with at least `x`'s points. */
  lemma PlacesAfterHead(x: Ranked, xs: seq<Ranked>)
    requires NonIncreasing(xs) && |xs| > 0 && xs[0].points >= x.points
    requires Insert(x, xs[1..]) == Filter(xs[1..], AtLeast(x.points)) + [x] + Filter(xs[1..], Below(x.points))
    ensures Insert(x, xs) == Filter(xs, AtLeast(x.points)) + [x] + Filter(xs, Below(x.points))
  {
    var ge' := Filter(xs[1..], AtLeast(x.points));
    var lt' := Filter(xs[1..], Below(x.points));
    assert Insert(x, xs) == [xs[0]] + Insert(x, xs[1..]);
    assert Filter(xs, AtLeast(x.points)) == [xs[0]] + ge';
    assert Filter(xs, Below(x.points)) == lt';
    ConsAssoc(xs[0], ge', x, lt');
  }

  lemma ConsAssoc<T>(a: T, b: seq<T>, c: T, d: seq<T>)
    ensures [a] + (b + [c] + d) == ([a] + b) + [c] + d
  {
  }

  /** In an ordered list whose head has fewer points than `x`, every entry
      does. */
  lemma {:induction false} AllBelow(xs: seq<Ranked>, x: Ranked)
    requires NonIncreasing(xs) && |xs| > 0 && xs[0].points < x.points
    ensures Filter(xs, AtLeast(x.points)) == []
    ensures Filter(xs, Below(x.points)) == xs
  {
    if |xs| > 1 {
      AllBelow(xs[1..], x);
    }
  }

  /** The board holds six entries in non-increasing order of points; the
      current user appears exactly once, after every virtual user with at
      least as many points and before every one with fewer. */
  lemma BoardShape(myPoints: int)
    ensures |Board(myPoints)| == 6
    ensures NonIncreasing(Board(myPoints))
    ensures multiset(Board(myPoints)) == multiset(VirtualUsers) + multiset{Me(myPoints)}
    ensures Board(myPoints)
            == Filter(VirtualUsers, AtLeast(myPoints)) + [Me(myPoints)]
               + Filter(VirtualUsers, Below(myPoints))
  {
    var all := VirtualUsers + [Me(myPoints)];
    assert all[..5] == VirtualUsers;
    SortSorted(VirtualUsers);
    InsertPlaces(Me(myPoints), VirtualUsers);
  }

  /** Exactly one entry of the board is marked as the current user, at the
      position right after the virtual users with at least as many points. */
  lemma OneCurrentUser(myPoints: int)
    ensures var b := Board(myPoints);
            var k := |Filter(VirtualUsers, AtLeast(myPoints))|;
            k < |b| && forall i :: 0 <= i < |b| ==> (b[i].isCurrentUser <==> i == k)
  {
    BoardShape(myPoints);
    var ge := Filter(VirtualUsers, AtLeast(myPoints));
    var lt := Filter(VirtualUsers, Below(myPoints));
    VirtualNotCurrent();
    MarkedOnce(ge, Me(myPoints), lt);
  }

  lemma VirtualNotCurrent()
    ensures forall y :: y in VirtualUsers ==> !y.isCurrentUser
  {
    forall y | y in VirtualUsers ensures !y.isCurrentUser {
      var i :| 0 <= i < |VirtualUsers| && VirtualUsers[i] == y;
    }
  }

  lemma MarkedOnce(ge: seq<Ranked>, m: Ranked, lt: seq<Ranked>)
    requires m.isCurrentUser
    requires forall y :: y in ge ==> !y.isCurrentUser
    requires forall y :: y in lt ==> !y.isCurrentUser
    ensures var b := ge + [m] + lt;
            forall i :: 0 <= i < |b| ==> (b[i].isCurrentUser <==> i == |ge|)
  {
    var b := ge + [m] + lt;
    forall i | 0 <= i < |b| ensures b[i].isCurrentUser <==> i == |ge| {
      if i < |ge| {
        assert b[i] == ge[i] && ge[i] in ge;
      } else if i > |ge| {
        assert b[i] == lt[i - |ge| - 1] && lt[i - |ge| - 1] in lt;
      }
    }
  }

  /** With 800 points the current user ranks fourth, behind the three
      virtual users above 800. */
  lemma RankExample()
    ensures Board(800)[3] == Me(800)
  {
    BoardShape(800);
    AboveEight();
  }

  lemma AboveEight()
    ensures |Filter(VirtualUsers, AtLeast(800))| == 3
  {
    var v := VirtualUsers;
    assert v[1..][1..][1..] == [v[3], v[4]];
    assert Filter(v[1..][1..][1..], AtLeast(800)) == [];
  }
}
