/** The points and achievement ledger kept in the `user_stats` record: point
    awards, the achievement catalog and its re-entrant evaluation, daily
    login, and the recorders the rest of the application calls. */
module Gamification {
  import opened Seqs

  /** The eight catalog entries, tagged by id. */
  datatype AchievementId =
    | FirstVisit | Explorer | Scholar | Master
    | Collector | QuizMaster | Traveler | PerfectWeek

  /** Catalog order: the order `checkAchievements` visits the entries in. */
  const Catalog: seq<AchievementId> :=
    [FirstVisit, Explorer, Scholar, Master, Collector, QuizMaster, Traveler, PerfectWeek]

  /** The id string stored in `user_stats.achievements`. */
  function Key(a: AchievementId): string {
    match a
    case FirstVisit => "first_visit"
    case Explorer => "explorer"
    case Scholar => "scholar"
    case Master => "master"
    case Collector => "collector"
    case QuizMaster => "quiz_master"
    case Traveler => "traveler"
    case PerfectWeek => "perfect_week"
  }

  /** Distinct entries have distinct stored ids. */
  lemma KeyInjective()
    ensures forall a, b :: Key(a) == Key(b) ==> a == b
  {
  }

  /** The `achievements` list as stored: the ids of the unlocked entries, in
      unlock order. Distinct entries store distinct ids. */
  function StoredIds(ids: seq<AchievementId>): (r: seq<string>)
    ensures |r| == |ids|
    ensures forall i :: 0 <= i < |ids| ==> r[i] == Key(ids[i])
    ensures NoDup(ids) ==> NoDup(r)
  {
    KeyInjective();
    seq(|ids|, i requires 0 <= i < |ids| => Key(ids[i]))
  }

  /** Points awarded when the entry unlocks. */
  function Reward(a: AchievementId): nat {
    match a
    case FirstVisit => 10
    case Explorer => 50
    case Scholar => 200
    case Master => 500
    case Collector => 100
    case QuizMaster => 150
    case Traveler => 200
    case PerfectWeek => 300
  }

  /** The two values the catalog reads from other stored records: the length
      of the stored favourites list and the stored quiz streak. */
  datatype Outside = Outside(favoriteCount: nat, quizStreak: int)

  /** The `user_stats` record. Dates are day numbers. */
  datatype UserStats = UserStats(
    totalPoints: int,
    visitedProvinces: seq<string>,
    learnedEvents: seq<string>,
    achievements: seq<AchievementId>,
    loginHistory: seq<int>,
    lastLoginDate: Option<int>)

  /** The record a first run creates. */
  const Fresh: UserStats := UserStats(0, [], [], [], [], None)

  /** The number of login-history entries the `perfect_week` filter keeps:
      the first entry, and every later entry that is exactly one day after
      the entry before it. */
  function LoginDays(h: seq<int>): nat {
    if |h| == 0 then 0
    else LoginDays(h[..|h| - 1]) + (if |h| == 1 || h[|h| - 1] - h[|h| - 2] == 1 then 1 else 0)
  }

  /** The unlock condition of each catalog entry. */
  predicate Holds(a: AchievementId, s: UserStats, env: Outside) {
    match a
    case FirstVisit => |s.learnedEvents| >= 1
    case Explorer => |s.learnedEvents| >= 10
    case Scholar => |s.learnedEvents| >= 50
    case Master => |s.learnedEvents| >= 100
    case Collector => env.favoriteCount >= 10
    case QuizMaster => env.quizStreak >= 7
    case Traveler => |s.visitedProvinces| >= 10
    case PerfectWeek => LoginDays(s.loginHistory) >= 7
  }

  /** `r` carries the same progress (everything except points and
      achievements) as `s`. */
  predicate SameProgress(s: UserStats, r: UserStats) {
    && r.visitedProvinces == s.visitedProvinces
    && r.learnedEvents == s.learnedEvents
    && r.loginHistory == s.loginHistory
    && r.lastLoginDate == s.lastLoginDate
  }

  function RewardSum(ids: seq<AchievementId>): nat {
    if |ids| == 0 then 0 else Reward(ids[0]) + RewardSum(ids[1..])
  }

  lemma {:induction false} RewardSumAppend(a: seq<AchievementId>, b: seq<AchievementId>)
    ensures RewardSum(a + b) == RewardSum(a) + RewardSum(b)
  {
    if |a| == 0 {
      assert a + b == b;
    } else {
      assert (a + b)[1..] == a[1..] + b;
      RewardSumAppend(a[1..], b);
    }
  }

  /** The ledger relation from `s` to a later state `r`: achievements were
      only appended, and the points grew by `base` plus the rewards of the
      appended achievements. */
  predicate Ledger(s: UserStats, r: UserStats, base: int) {
    && s.achievements <= r.achievements
    && r.totalPoints == s.totalPoints + base + RewardSum(r.achievements[|s.achievements|..])
  }

  /** Ledger steps compose, their base awards adding up. */
  lemma LedgerTrans(s: UserStats, m: UserStats, r: UserStats, b1: int, b2: int)
    requires Ledger(s, m, b1) && Ledger(m, r, b2)
    ensures Ledger(s, r, b1 + b2)
  {
    var n := |s.achievements|;
    assert r.achievements[n..] == m.achievements[n..] + r.achievements[|m.achievements|..] by {
      assert r.achievements[..|m.achievements|] == m.achievements;
    }
    RewardSumAppend(m.achievements[n..], r.achievements[|m.achievements|..]);
  }

  /** How many catalog entries are still locked. */
  function Locked(s: UserStats): nat {
    CountNotIn(Catalog, s.achievements)
  }

  lemma InCatalog(a: AchievementId)
    ensures a in Catalog
  {
    match a
    case FirstVisit => assert Catalog[0] == a;
    case Explorer => assert Catalog[1] == a;
    case Scholar => assert Catalog[2] == a;
    case Master => assert Catalog[3] == a;
    case Collector => assert Catalog[4] == a;
    case QuizMaster => assert Catalog[5] == a;
    case Traveler => assert Catalog[6] == a;
    case PerfectWeek => assert Catalog[7] == a;
  }

  /** `addPoints`: add the amount, then run `checkAchievements`, which may
      unlock entries and so award further points through this same function.
      Achievements are only appended and never duplicated, and the points
      grow by the amount plus the rewards of what was appended. */
  function AddPoints(s: UserStats, amount: nat, env: Outside): (r: UserStats)
    ensures Ledger(s, r, amount)
    ensures SameProgress(s, r)
    ensures NoDup(s.achievements) ==> NoDup(r.achievements)
    decreases Locked(s), 1, 0
  {
    CheckOver(s.(totalPoints := s.totalPoints + amount), env, Catalog)
  }

  /** The `forEach` of `checkAchievements` over the catalog entries `ids`
      still to visit. An entry that is locked and whose condition holds is
      unlocked: its id is pushed first, then its reward goes through
      `AddPoints`, whose nested evaluation therefore skips it. Every nested
      call starts with fewer locked entries, which bounds the recursion. */
  function CheckOver(s: UserStats, env: Outside, ids: seq<AchievementId>): (r: UserStats)
    ensures Ledger(s, r, 0)
    ensures SameProgress(s, r)
    ensures NoDup(s.achievements) ==> NoDup(r.achievements)
    decreases Locked(s), 0, |ids|
  {
    if |ids| == 0 then s
    else
      var a := ids[0];
      if a !in s.achievements && Holds(a, s, env) then
        var unlocked := s.(achievements := s.achievements + [a]);
        InCatalog(a);
        CountNotInShrinks(Catalog, s.achievements, unlocked.achievements, a);
        var s2 := AddPoints(unlocked, Reward(a), env);
        PrefixMembers(unlocked.achievements, s2.achievements);
        CountNotInShrinks(Catalog, unlocked.achievements, s2.achievements, a);
        var r := CheckOver(s2, env, ids[1..]);
        assert Ledger(s, unlocked, -(Reward(a) as int)) by {
          assert unlocked.achievements[|s.achievements|..] == [a];
          assert RewardSum([a]) == Reward(a);
        }
        LedgerTrans(s, unlocked, s2, -(Reward(a) as int), Reward(a));
        LedgerTrans(s, s2, r, 0, 0);
        r
      else
        CheckOver(s, env, ids[1..])
  }

  /** The catalog entries among `ids` that are locked in `s` and whose
      condition holds, in `ids` order. */
  function Pending(s: UserStats, env: Outside, ids: seq<AchievementId>): (r: seq<AchievementId>)
    ensures forall a :: a in r <==> a in ids && a !in s.achievements && Holds(a, s, env)
  {
    if |ids| == 0 then []
    else
      (if ids[0] !in s.achievements && Holds(ids[0], s, env) then [ids[0]] else [])
      + Pending(s, env, ids[1..])
  }

  /** The entries one evaluation pass should unlock, in catalog order. */
  function Newly(s: UserStats, env: Outside): seq<AchievementId> {
    Pending(s, env, Catalog)
  }

  /** The declarative outcome of an evaluation: append `Newly` and add its
      rewards. */
  function Settle(s: UserStats, env: Outside): UserStats {
    var n := Newly(s, env);
    s.(achievements := s.achievements + n, totalPoints := s.totalPoints + RewardSum(n))
  }

  /** Every entry whose condition holds is unlocked. */
  predicate IsSettled(s: UserStats, env: Outside) {
    forall a :: Holds(a, s, env) ==> a in s.achievements
  }

  /** `r` arose from `s` by an operation awarding `base` points: the ledger
      relation holds and the unlocked entries of `r` are exactly those of `s`
      together with those whose condition holds in `r`. */
  predicate Awarded(s: UserStats, r: UserStats, base: int, env: Outside) {
    && Ledger(s, r, base)
    && forall a :: a in r.achievements <==> a in s.achievements || Holds(a, r, env)
  }

  lemma {:induction false} PendingAppend(s: UserStats, env: Outside, a: seq<AchievementId>, b: seq<AchievementId>)
    ensures Pending(s, env, a + b) == Pending(s, env, a) + Pending(s, env, b)
  {
    if |a| == 0 {
      assert a + b == b;
    } else {
      assert (a + b)[1..] == a[1..] + b;
      PendingAppend(s, env, a[1..], b);
    }
  }

  lemma {:induction false} PendingDistinct(s: UserStats, env: Outside, ids: seq<AchievementId>)
    requires NoDup(ids)
    ensures NoDup(Pending(s, env, ids))
  {
    if |ids| > 0 {
      PendingDistinct(s, env, ids[1..]);
      assert ids[0] !in ids[1..];
    }
  }

  /** Pending depends only on the progress and on which of `ids` are
      unlocked. */
  lemma {:induction false} PendingAgree(s: UserStats, t: UserStats, env: Outside, ids: seq<AchievementId>)
    requires SameProgress(s, t)
    requires forall a :: a in ids ==> (a in s.achievements <==> a in t.achievements)
    ensures Pending(s, env, ids) == Pending(t, env, ids)
  {
    if |ids| > 0 {
      PendingAgree(s, t, env, ids[1..]);
    }
  }

  lemma CatalogDistinct()
    ensures NoDup(Catalog)
  {
  }

  /** The outcome of a settled evaluation has nothing left to unlock. */
  lemma SettleSettles(s: UserStats, env: Outside)
    ensures IsSettled(Settle(s, env), env)
    ensures Newly(Settle(s, env), env) == []
    ensures Settle(Settle(s, env), env) == Settle(s, env)
  {
    var t := Settle(s, env);
    forall a | Holds(a, t, env) ensures a in t.achievements {
      InCatalog(a);
    }
    SettledHasNothingPending(t, env);
  }

  lemma {:induction false} PendingEmpty(s: UserStats, env: Outside, ids: seq<AchievementId>)
    requires forall a :: a in ids && Holds(a, s, env) ==> a in s.achievements
    ensures Pending(s, env, ids) == []
  {
    if |ids| > 0 {
      PendingEmpty(s, env, ids[1..]);
    }
  }

  lemma SettledHasNothingPending(s: UserStats, env: Outside)
    requires IsSettled(s, env)
    ensures Newly(s, env) == []
    ensures Settle(s, env) == s
  {
    PendingEmpty(s, env, Catalog);
    assert s.achievements + [] == s.achievements;
  }

  /** When every entry before position `k` that holds is unlocked, the
      pending entries all lie at or after `k`. */
  lemma PendingFrom(s: UserStats, env: Outside, k: nat)
    requires k <= |Catalog|
    requires forall j :: 0 <= j < k && Holds(Catalog[j], s, env) ==> Catalog[j] in s.achievements
    ensures Newly(s, env) == Pending(s, env, Catalog[k..])
  {
    assert Catalog == Catalog[..k] + Catalog[k..];
    PendingAppend(s, env, Catalog[..k], Catalog[k..]);
    forall a | a in Catalog[..k] && Holds(a, s, env) ensures a in s.achievements {
      var j :| 0 <= j < k && Catalog[..k][j] == a;
      assert Catalog[j] == a;
    }
    PendingEmpty(s, env, Catalog[..k]);
  }

  lemma NewlyAt(s: UserStats, env: Outside, k: nat)
    requires k < |Catalog|
    requires forall j :: 0 <= j < k && Holds(Catalog[j], s, env) ==> Catalog[j] in s.achievements
    requires Catalog[k] !in s.achievements && Holds(Catalog[k], s, env)
    ensures Newly(s, env) == [Catalog[k]] + Pending(s, env, Catalog[k + 1..])
  {
    PendingFrom(s, env, k);
    assert Catalog[k..] == [Catalog[k]] + Catalog[k + 1..];
    PendingAppend(s, env, [Catalog[k]], Catalog[k + 1..]);
  }

  lemma NewlyAfterUnlock(s: UserStats, start: UserStats, env: Outside, k: nat)
    requires k < |Catalog|
    requires forall j :: 0 <= j < k && Holds(Catalog[j], s, env) ==> Catalog[j] in s.achievements
    requires SameProgress(s, start) && start.achievements == s.achievements + [Catalog[k]]
    ensures Newly(start, env) == Pending(s, env, Catalog[k + 1..])
  {
    CatalogDistinct();
    assert Catalog[k] !in Catalog[k + 1..];
    PendingAgree(s, start, env, Catalog[k + 1..]);
    HoldsOnProgress(s, start, env);
    PendingFrom(start, env, k + 1);
  }

  /** Unlocking the first pending entry `a` at position `k` and then settling
      gives the same outcome as settling directly. */
  lemma UnlockThenSettle(s: UserStats, start: UserStats, env: Outside, k: nat)
    requires k < |Catalog|
    requires forall j :: 0 <= j < k && Holds(Catalog[j], s, env) ==> Catalog[j] in s.achievements
    requires Catalog[k] !in s.achievements && Holds(Catalog[k], s, env)
    requires start == s.(achievements := s.achievements + [Catalog[k]],
                         totalPoints := s.totalPoints + Reward(Catalog[k]))
    ensures Settle(start, env) == Settle(s, env)
  {
    NewlyAt(s, env, k);
    NewlyAfterUnlock(s, start, env, k);
    SettleAfterFirst(s, start, env, Catalog[k], Pending(s, env, Catalog[k + 1..]));
  }

  lemma SettleAfterFirst(s: UserStats, start: UserStats, env: Outside, a: AchievementId, rest: seq<AchievementId>)
    requires Newly(s, env) == [a] + rest && Newly(start, env) == rest
    requires start == s.(achievements := s.achievements + [a], totalPoints := s.totalPoints + Reward(a))
    ensures Settle(start, env) == Settle(s, env)
  {
    RewardSumAppend([a], rest);
    assert s.achievements + [a] + rest == s.achievements + ([a] + rest);
  }

  /** The re-entrant evaluation, started from catalog position `k` in a state
      where every earlier entry that holds is already unlocked, has exactly
      the declarative outcome `Settle`. */
  lemma {:induction false} CheckOverSettles(s: UserStats, env: Outside, k: nat)
    requires k <= |Catalog|
    requires forall j :: 0 <= j < k && Holds(Catalog[j], s, env) ==> Catalog[j] in s.achievements
    ensures CheckOver(s, env, Catalog[k..]) == Settle(s, env)
    decreases Locked(s), 1, |Catalog| - k
  {
    var ids := Catalog[k..];
    if k == |Catalog| {
      PendingFrom(s, env, k);
      assert s.achievements + [] == s.achievements;
    } else {
      var a := ids[0];
      assert a == Catalog[k] && ids[1..] == Catalog[k + 1..];
      if a !in s.achievements && Holds(a, s, env) {
        UnlockStep(s, env, k);
      } else {
        assert CheckOver(s, env, ids) == CheckOver(s, env, Catalog[k + 1..]);
        CheckOverSettles(s, env, k + 1);
      }
    }
  }

  /** The unlocking case of `CheckOverSettles`: the entry at `k` is pushed,
      the nested `addPoints` settles, and the rest of the pass then finds
      nothing left to do. */
  lemma {:induction false} UnlockStep(s: UserStats, env: Outside, k: nat)
    requires k < |Catalog|
    requires forall j :: 0 <= j < k && Holds(Catalog[j], s, env) ==> Catalog[j] in s.achievements
    requires Catalog[k] !in s.achievements && Holds(Catalog[k], s, env)
    ensures CheckOver(s, env, Catalog[k..]) == Settle(s, env)
    decreases Locked(s), 0, 1
  {
    var a := Catalog[k];
    var start := s.(achievements := s.achievements + [a], totalPoints := s.totalPoints + Reward(a));
    StartSettles(s, env, k);
    var s2 := Settle(start, env);
    assert Catalog[k..][0] == a && Catalog[k..][1..] == Catalog[k + 1..];
    CheckOverHead(s, env, Catalog[k..]);
    CheckOverSettles(s2, env, k + 1);
    SettledHasNothingPending(s2, env);
    UnlockThenSettle(s, start, env, k);
  }

  /** The nested `addPoints` of an unlock settles the record it starts
      from, with fewer entries left locked. */
  lemma {:induction false} StartSettles(s: UserStats, env: Outside, k: nat)
    requires k < |Catalog| && Catalog[k] !in s.achievements
    ensures var a := Catalog[k];
            var start := s.(achievements := s.achievements + [a], totalPoints := s.totalPoints + Reward(a));
            && AddPoints(s.(achievements := s.achievements + [a]), Reward(a), env) == Settle(start, env)
            && Locked(Settle(start, env)) < Locked(s)
            && IsSettled(Settle(start, env), env)
    decreases Locked(s), 0, 0
  {
    var a := Catalog[k];
    var unlocked := s.(achievements := s.achievements + [a]);
    var start := unlocked.(totalPoints := unlocked.totalPoints + Reward(a));
    InCatalog(a);
    CountNotInShrinks(Catalog, s.achievements, unlocked.achievements, a);
    CheckOverSettles(start, env, 0);
    assert Catalog[0..] == Catalog;
    var s2 := Settle(start, env);
    PrefixMembers(unlocked.achievements, s2.achievements);
    CountNotInShrinks(Catalog, unlocked.achievements, s2.achievements, a);
    SettleSettles(start, env);
  }

  /** One unfolding of `CheckOver` at an entry it unlocks. */
  lemma CheckOverHead(s: UserStats, env: Outside, ids: seq<AchievementId>)
    requires |ids| > 0 && ids[0] !in s.achievements && Holds(ids[0], s, env)
    ensures CheckOver(s, env, ids)
            == CheckOver(AddPoints(s.(achievements := s.achievements + [ids[0]]), Reward(ids[0]), env), env, ids[1..])
  {
  }

  lemma HoldsOnProgress(s: UserStats, t: UserStats, env: Outside)
    requires SameProgress(s, t)
    ensures forall a :: Holds(a, s, env) == Holds(a, t, env)
  {
  }

  /** The declarative content of `Settle`. */
  lemma SettleSpec(s: UserStats, env: Outside)
    ensures forall a :: a in Settle(s, env).achievements <==> a in s.achievements || Holds(a, s, env)
    ensures Awarded(s, Settle(s, env), 0, env)
    ensures NoDup(s.achievements) ==> NoDup(Settle(s, env).achievements)
  {
    var t := Settle(s, env);
    var n := Newly(s, env);
    assert t.achievements == s.achievements + n;
    forall a ensures a in t.achievements <==> a in s.achievements || Holds(a, s, env) {
      InCatalog(a);
    }
    HoldsOnProgress(s, t, env);
    assert t.achievements[|s.achievements|..] == n;
    assert Ledger(s, t, 0);
    if NoDup(s.achievements) {
      CatalogDistinct();
      PendingDistinct(s, env, Catalog);
      NoDupAppend(s.achievements, n);
    }
  }

  /** `checkAchievements`: afterwards every entry whose condition holds is
      unlocked, the newly unlocked ones are appended in catalog order, and the
      points rise by exactly their rewards. Nothing else changes. */
  function CheckAchievements(s: UserStats, env: Outside): (r: UserStats)
    ensures forall a :: a in r.achievements <==> a in s.achievements || Holds(a, s, env)
    ensures r.achievements == s.achievements + Newly(s, env)
    ensures r.totalPoints == s.totalPoints + RewardSum(Newly(s, env))
    ensures SameProgress(s, r)
    ensures IsSettled(r, env)
    ensures Awarded(s, r, 0, env)
    ensures NoDup(s.achievements) ==> NoDup(r.achievements)
  {
    CheckOverSettles(s, env, 0);
    SettleSettles(s, env);
    SettleSpec(s, env);
    CheckOver(s, env, Catalog)
  }

  /** `addPoints` settles: it adds the amount and then unlocks exactly the
      pending entries. */
  lemma AddPointsSettles(s: UserStats, amount: nat, env: Outside)
    ensures AddPoints(s, amount, env) == Settle(s.(totalPoints := s.totalPoints + amount), env)
    ensures IsSettled(AddPoints(s, amount, env), env)
  {
    CheckOverSettles(s.(totalPoints := s.totalPoints + amount), env, 0);
    SettleSettles(s.(totalPoints := s.totalPoints + amount), env);
  }

  /** On a settled record `addPoints` adds exactly the amount: points are
      additive over any sequence of awards once nothing is pending. */
  lemma AddPointsOnSettled(s: UserStats, amount: nat, env: Outside)
    requires IsSettled(s, env)
    ensures AddPoints(s, amount, env) == s.(totalPoints := s.totalPoints + amount)
  {
    AddPointsSettles(s, amount, env);
    SettledHasNothingPending(s.(totalPoints := s.totalPoints + amount), env);
  }

  /** Running `checkAchievements` twice is the same as running it once. */
  lemma CheckAchievementsIdempotent(s: UserStats, env: Outside)
    ensures CheckAchievements(CheckAchievements(s, env), env) == CheckAchievements(s, env)
  {
    var t := CheckAchievements(s, env);
    SettledHasNothingPending(t, env);
  }

  /** The learned-event key `city-title`. */
  function EventKey(city: string, title: string): string {
    city + "-" + title
  }

  /** Awarding points and then evaluating again: the second evaluation finds
      nothing pending. */
  lemma AwardThenCheck(s: UserStats, amount: nat, env: Outside)
    ensures CheckAchievements(AddPoints(s, amount, env), env)
            == Settle(s.(totalPoints := s.totalPoints + amount), env)
    ensures Awarded(s, Settle(s.(totalPoints := s.totalPoints + amount), env), amount, env)
  {
    var t := s.(totalPoints := s.totalPoints + amount);
    AddPointsSettles(s, amount, env);
    SettledHasNothingPending(AddPoints(s, amount, env), env);
    SettleSpec(t, env);
    assert Ledger(s, t, amount) by {
      assert t.achievements[|s.achievements|..] == [];
    }
    LedgerTrans(s, t, Settle(t, env), amount, 0);
  }

  /** `recordEventLearn`: a key already learned changes nothing; otherwise
      the key is appended once, one point is awarded, and the achievements are
      settled against the grown list. */
  function RecordEventLearn(s: UserStats, city: string, title: string, env: Outside): (r: UserStats)
    ensures EventKey(city, title) in s.learnedEvents ==> r == s
    ensures EventKey(city, title) !in s.learnedEvents ==>
              && r.learnedEvents == s.learnedEvents + [EventKey(city, title)]
              && r.visitedProvinces == s.visitedProvinces
              && r.loginHistory == s.loginHistory
              && r.lastLoginDate == s.lastLoginDate
              && Awarded(s, r, 1, env)
              && IsSettled(r, env)
    ensures NoDup(s.learnedEvents) ==> NoDup(r.learnedEvents)
    ensures NoDup(s.achievements) ==> NoDup(r.achievements)
  {
    var key := EventKey(city, title);
    if key in s.learnedEvents then s
    else
      var t := s.(learnedEvents := s.learnedEvents + [key]);
      AwardThenCheck(t, 1, env);
      AddPointsSettles(t, 1, env);
      assert Ledger(s, t, 0) by {
        assert t.achievements[|s.achievements|..] == [];
      }
      LedgerTrans(s, t, CheckAchievements(AddPoints(t, 1, env), env), 0, 1);
      CheckAchievements(AddPoints(t, 1, env), env)
  }

  /** `recordProvinceVisit`: the visited list stays duplicate-free, and only
      a first visit appends the province and awards one point. */
  function RecordProvinceVisit(s: UserStats, province: string, env: Outside): (r: UserStats)
    ensures province in s.visitedProvinces ==> r == s
    ensures province !in s.visitedProvinces ==>
              && r.visitedProvinces == s.visitedProvinces + [province]
              && r.learnedEvents == s.learnedEvents
              && r.loginHistory == s.loginHistory
              && r.lastLoginDate == s.lastLoginDate
              && Awarded(s, r, 1, env)
              && IsSettled(r, env)
    ensures NoDup(s.visitedProvinces) ==> NoDup(r.visitedProvinces)
    ensures NoDup(s.achievements) ==> NoDup(r.achievements)
  {
    if province in s.visitedProvinces then s
    else
      var t := s.(visitedProvinces := s.visitedProvinces + [province]);
      AwardThenCheck(t, 1, env);
      AddPointsSettles(t, 1, env);
      assert Ledger(s, t, 0) by {
        assert t.achievements[|s.achievements|..] == [];
      }
      LedgerTrans(s, t, CheckAchievements(AddPoints(t, 1, env), env), 0, 1);
      CheckAchievements(AddPoints(t, 1, env), env)
  }

  /** `recordFavorite`: two points, then achievements are settled. The
      progress lists are untouched. */
  function RecordFavorite(s: UserStats, env: Outside): (r: UserStats)
    ensures SameProgress(s, r)
    ensures Awarded(s, r, 2, env)
    ensures IsSettled(r, env)
    ensures NoDup(s.achievements) ==> NoDup(r.achievements)
  {
    AwardThenCheck(s, 2, env);
    AddPointsSettles(s, 2, env);
    CheckAchievements(AddPoints(s, 2, env), env)
  }

  /** The bonus `checkDailyLogin` awards: three points when the previous login
      was exactly one day earlier, nothing on a first login or after a longer
      gap. */
  function LoginBonus(last: Option<int>, today: int): nat {
    if last.Some? && today - last.value == 1 then 3 else 0
  }

  /** The history after today's login: today is appended unless present. */
  function WithDay(h: seq<int>, today: int): (r: seq<int>)
    ensures today in r
    ensures forall d :: d in r <==> d in h || d == today
    ensures NoDup(h) ==> NoDup(r)
  {
    if today in h then h else h + [today]
  }

  /** Appending a day never lowers the `perfect_week` count. */
  lemma LoginDaysGrow(h: seq<int>, d: int)
    ensures LoginDays(h) <= LoginDays(h + [d])
  {
    assert (h + [d])[..|h|] == h;
  }

  /** The entries unlocked after a login are exactly those unlocked before
      together with those whose condition holds afterwards: the history only
      grows, so nothing that held before the day was appended stops holding. */
  lemma UnlockedAfterLogin(s: UserStats, s1: UserStats, t: UserStats, r: UserStats, env: Outside)
    requires forall a :: a in s1.achievements ==> a in s.achievements || Holds(a, s, env)
    requires forall a :: a in s.achievements ==> a in s1.achievements
    requires t.achievements == s1.achievements
    requires t.learnedEvents == s.learnedEvents && t.visitedProvinces == s.visitedProvinces
    requires LoginDays(s.loginHistory) <= LoginDays(t.loginHistory)
    requires forall a :: a in r.achievements <==> a in t.achievements || Holds(a, t, env)
    requires SameProgress(t, r)
    ensures forall a :: a in r.achievements <==> a in s.achievements || Holds(a, r, env)
  {
    HoldsOnProgress(t, r, env);
    forall a ensures Holds(a, s, env) ==> Holds(a, t, env) {
    }
  }

  /** The work `checkDailyLogin` does on a new day: the continuation bonus
      when due, then the date bookkeeping, then an evaluation. */
  function NewDayLogin(s: UserStats, today: int, env: Outside): UserStats {
    var s1 := if LoginBonus(s.lastLoginDate, today) == 3 then AddPoints(s, 3, env) else s;
    CheckAchievements(s1.(lastLoginDate := Some(today), loginHistory := WithDay(s1.loginHistory, today)), env)
  }

  lemma NewDayLedger(s: UserStats, today: int, env: Outside)
    ensures Ledger(s, NewDayLogin(s, today, env), LoginBonus(s.lastLoginDate, today))
  {
    var bonus := LoginBonus(s.lastLoginDate, today);
    var s1 := if bonus == 3 then AddPoints(s, 3, env) else s;
    var t := s1.(lastLoginDate := Some(today), loginHistory := WithDay(s1.loginHistory, today));
    assert Ledger(s, s1, bonus) by {
      if bonus != 3 {
        assert s1.achievements[|s.achievements|..] == [];
      }
    }
    assert Ledger(s1, t, 0) by {
      assert t.achievements[|s1.achievements|..] == [];
    }
    LedgerTrans(s, s1, t, bonus, 0);
    LedgerTrans(s, t, CheckAchievements(t, env), bonus, 0);
  }

  /** The continuation bonus keeps every entry, unlocks only entries whose
      condition already held before it, and leaves the progress lists alone. */
  lemma BonusUnlocks(s: UserStats, today: int, env: Outside)
    ensures var s1 := if LoginBonus(s.lastLoginDate, today) == 3 then AddPoints(s, 3, env) else s;
            && (forall a :: a in s1.achievements ==> a in s.achievements || Holds(a, s, env))
            && (forall a :: a in s.achievements ==> a in s1.achievements)
            && SameProgress(s, s1)
  {
    if LoginBonus(s.lastLoginDate, today) == 3 {
      var s1 := AddPoints(s, 3, env);
      var plus := s.(totalPoints := s.totalPoints + 3);
      AddPointsSettles(s, 3, env);
      SettleSpec(plus, env);
      HoldsOnProgress(s, plus, env);
      PrefixMembers(s.achievements, s1.achievements);
    }
  }

  lemma NewDayUnlocks(s: UserStats, today: int, env: Outside)
    ensures var r := NewDayLogin(s, today, env);
            forall a :: a in r.achievements <==> a in s.achievements || Holds(a, r, env)
  {
    var s1 := if LoginBonus(s.lastLoginDate, today) == 3 then AddPoints(s, 3, env) else s;
    var t := s1.(lastLoginDate := Some(today), loginHistory := WithDay(s1.loginHistory, today));
    BonusUnlocks(s, today, env);
    assert LoginDays(s.loginHistory) <= LoginDays(t.loginHistory) by {
      LoginDaysGrow(s.loginHistory, today);
    }
    UnlockedAfterLogin(s, s1, t, CheckAchievements(t, env), env);
  }

  /** `checkDailyLogin`. On the day already recorded it is a no-op.
      Otherwise the day becomes `lastLoginDate`, it is appended to the
      history at most once, the continuation bonus is awarded when the gap is
      exactly one day, and the achievements are settled. */
  function CheckDailyLogin(s: UserStats, today: int, env: Outside): (r: UserStats)
    ensures s.lastLoginDate == Some(today) ==> r == s
    ensures s.lastLoginDate != Some(today) ==>
              && r.lastLoginDate == Some(today)
              && r.loginHistory == WithDay(s.loginHistory, today)
              && r.learnedEvents == s.learnedEvents
              && r.visitedProvinces == s.visitedProvinces
              && Awarded(s, r, LoginBonus(s.lastLoginDate, today), env)
              && IsSettled(r, env)
    ensures NoDup(s.loginHistory) ==> NoDup(r.loginHistory)
    ensures NoDup(s.achievements) ==> NoDup(r.achievements)
  {
    if s.lastLoginDate == Some(today) then s
    else
      NewDayLedger(s, today, env);
      NewDayUnlocks(s, today, env);
      NewDayLogin(s, today, env)
  }

  /** Consecutive days `start, start + 1, …`, `n` of them. */
  function DayRun(start: int, n: nat): (r: seq<int>)
    ensures |r| == n
    ensures forall i :: 0 <= i < n ==> r[i] == start + i
  {
    if n == 0 then [] else DayRun(start, n - 1) + [start + n - 1]
  }

  /** The `perfect_week` count keeps at most every entry, and always the
      first one. */
  lemma {:induction false} LoginDaysBounds(h: seq<int>)
    ensures LoginDays(h) <= |h|
    ensures |h| > 0 ==> LoginDays(h) >= 1
  {
    if |h| > 0 {
      LoginDaysBounds(h[..|h| - 1]);
    }
  }

  /** A login history of `n` consecutive days keeps every entry, so seven
      consecutive logins satisfy `perfect_week`. */
  lemma {:induction false} DayRunCounts(start: int, n: nat)
    ensures LoginDays(DayRun(start, n)) == n
    ensures n >= 7 ==> Holds(PerfectWeek, Fresh.(loginHistory := DayRun(start, n)), Outside(0, 0))
  {
    if n > 0 {
      var r := DayRun(start, n);
      assert r[..n - 1] == DayRun(start, n - 1);
      DayRunCounts(start, n - 1);
    }
  }

  /** The `perfect_week` count of a history grown by one day. */
  lemma LoginDaysSnoc(h: seq<int>, d: int)
    ensures LoginDays(h + [d]) == LoginDays(h) + (if |h| == 0 || d - h[|h| - 1] == 1 then 1 else 0)
  {
    assert (h + [d])[..|h|] == h;
  }

  /** The kept entries need not be contiguous: two separate runs of four
      days count 1 + 3 + 3 = 7 and unlock `perfect_week`, although the
      longest run of consecutive days is four. */
  lemma ScatteredWeek()
    ensures LoginDays([1, 2, 3, 4, 10, 11, 12, 13]) == 7
    ensures Holds(PerfectWeek, Fresh.(loginHistory := [1, 2, 3, 4, 10, 11, 12, 13]), Outside(0, 0))
  {
    var h0: seq<int> := [];
    var h1 := h0 + [1];
    var h2 := h1 + [2];
    var h3 := h2 + [3];
    var h4 := h3 + [4];
    var h5 := h4 + [10];
    var h6 := h5 + [11];
    var h7 := h6 + [12];
    var h8 := h7 + [13];
    LoginDaysSnoc(h0, 1);
    LoginDaysSnoc(h1, 2);
    LoginDaysSnoc(h2, 3);
    LoginDaysSnoc(h3, 4);
    LoginDaysSnoc(h4, 10);
    LoginDaysSnoc(h5, 11);
    LoginDaysSnoc(h6, 12);
    LoginDaysSnoc(h7, 13);
    assert h8 == [1, 2, 3, 4, 10, 11, 12, 13];
  }

  /** A first learned event on a fresh record: the key is stored, one point
      plus the ten of `first_visit` is awarded, and `first_visit` is the only
      entry unlocked. */
  lemma FirstLearnScenario()
    ensures var r := RecordEventLearn(Fresh, "西安", "大雁塔", Outside(0, 0));
            && r.learnedEvents == ["西安-大雁塔"]
            && r.achievements == [FirstVisit]
            && r.totalPoints == 11
  {
    var env := Outside(0, 0);
    assert EventKey("西安", "大雁塔") == "西安-大雁塔";
    var t := Fresh.(learnedEvents := Fresh.learnedEvents + [EventKey("西安", "大雁塔")]);
    assert RecordEventLearn(Fresh, "西安", "大雁塔", env) == CheckAchievements(AddPoints(t, 1, env), env);
    AwardThenCheck(t, 1, env);
    FirstLearnNewly(t.(totalPoints := 1), env);
  }

  lemma FirstLearnNewly(p: UserStats, env: Outside)
    requires p == Fresh.(learnedEvents := ["西安-大雁塔"], totalPoints := 1) && env == Outside(0, 0)
    ensures Newly(p, env) == [FirstVisit]
    ensures Settle(p, env).achievements == [FirstVisit] && Settle(p, env).totalPoints == 11
  {
    assert forall a :: Holds(a, p, env) ==> a == FirstVisit;
    assert Catalog[1..] == [Explorer, Scholar, Master, Collector, QuizMaster, Traveler, PerfectWeek];
    PendingEmpty(p, env, Catalog[1..]);
    assert Catalog[0] == FirstVisit && FirstVisit !in p.achievements && Holds(FirstVisit, p, env);
    assert Pending(p, env, Catalog) == [FirstVisit] + Pending(p, env, Catalog[1..]);
    FirstVisitReward();
  }

  lemma FirstVisitReward()
    ensures RewardSum([FirstVisit]) == 10
  {
    assert RewardSum([FirstVisit]) == 10 + RewardSum([]);
  }

  /** Nothing unlocks on a record whose progress lists are empty apart from
      a short login history. */
  lemma NothingUnlocks(r: UserStats, env: Outside)
    requires r.learnedEvents == [] && r.visitedProvinces == [] && |r.loginHistory| < 7
    requires env == Outside(0, 0)
    ensures forall a :: !Holds(a, r, env)
    ensures Newly(r, env) == []
  {
    LoginDaysBounds(r.loginHistory);
    PendingEmpty(r, env, Catalog);
  }

  /** A login that leaves the record far from every threshold only adds the
      bonus and records the day. */
  lemma QuietLogin(s: UserStats, today: int, env: Outside)
    requires s.learnedEvents == [] && s.visitedProvinces == [] && |s.loginHistory| < 6
    requires env == Outside(0, 0) && s.lastLoginDate != Some(today)
    ensures CheckDailyLogin(s, today, env)
            == s.(totalPoints := s.totalPoints + LoginBonus(s.lastLoginDate, today),
                  lastLoginDate := Some(today), loginHistory := WithDay(s.loginHistory, today))
  {
    var s1 := if LoginBonus(s.lastLoginDate, today) == 3 then AddPoints(s, 3, env) else s;
    if LoginBonus(s.lastLoginDate, today) == 3 {
      AddPointsSettles(s, 3, env);
      NothingUnlocks(s.(totalPoints := s.totalPoints + 3), env);
      assert s.achievements + [] == s.achievements;
    }
    assert s1 == s.(totalPoints := s.totalPoints + LoginBonus(s.lastLoginDate, today));
    var t := s1.(lastLoginDate := Some(today), loginHistory := WithDay(s1.loginHistory, today));
    NothingUnlocks(t, env);
    assert t.achievements + [] == t.achievements;
    assert CheckDailyLogin(s, today, env) == CheckAchievements(t, env);
  }

  /** The records after logging in on day 1, 2 and 3 from a fresh record. */
  const Day1: UserStats := Fresh.(lastLoginDate := Some(1), loginHistory := [1])
  const Day2: UserStats := Day1.(totalPoints := 3, lastLoginDate := Some(2), loginHistory := [1, 2])
  const Day3: UserStats := Day2.(totalPoints := 6, lastLoginDate := Some(3), loginHistory := [1, 2, 3])

  lemma LoginDay1()
    ensures CheckDailyLogin(Fresh, 1, Outside(0, 0)) == Day1
  {
    assert LoginBonus(None, 1) == 0;
    assert WithDay([], 1) == [1];
    QuietLogin(Fresh, 1, Outside(0, 0));
  }

  lemma LoginDay2()
    ensures CheckDailyLogin(Day1, 2, Outside(0, 0)) == Day2
  {
    assert LoginBonus(Some(1), 2) == 3;
    assert 2 !in Day1.loginHistory;
    assert WithDay(Day1.loginHistory, 2) == [1, 2];
    QuietLogin(Day1, 2, Outside(0, 0));
  }

  lemma LoginDay3()
    ensures CheckDailyLogin(Day2, 3, Outside(0, 0)) == Day3
  {
    assert LoginBonus(Some(2), 3) == 3;
    assert 3 !in Day2.loginHistory;
    assert WithDay(Day2.loginHistory, 3) == [1, 2, 3];
    QuietLogin(Day2, 3, Outside(0, 0));
  }

  /** Logging in on days 1, 2 and 3 from a fresh record earns the bonus
      twice; a second login on day 3 changes nothing. */
  lemma ThreeDayScenario()
    ensures var env := Outside(0, 0);
            var r := CheckDailyLogin(CheckDailyLogin(CheckDailyLogin(Fresh, 1, env), 2, env), 3, env);
            && r.totalPoints == 6
            && r.loginHistory == [1, 2, 3]
            && r.achievements == []
            && CheckDailyLogin(r, 3, env) == r
  {
    LoginDay1();
    LoginDay2();
    LoginDay3();
  }

  /** A gap of more than one day earns no bonus. */
  lemma GapScenario()
    ensures var env := Outside(0, 0);
            var r := CheckDailyLogin(CheckDailyLogin(Fresh, 1, env), 5, env);
            && r.totalPoints == 0
            && r.loginHistory == [1, 5]
  {
    LoginDay1();
    LoginAfterGap();
  }

  lemma LoginAfterGap()
    ensures CheckDailyLogin(Day1, 5, Outside(0, 0)) == Day1.(lastLoginDate := Some(5), loginHistory := [1, 5])
  {
    QuietLogin(Day1, 5, Outside(0, 0));
  }
}
