/** The learning records `showCityInfo` makes when a city is opened: one
    learned event per item of the city, then a visit of its province. */
module CityInfo {
  import opened Seqs
  import opened Dataset
  import opened Gamification

  /** The learned-event key of an item of city `c`. */
  function ItemKey(c: City, it: Item): string {
    EventKey(c.name, it.title)
  }

  /** The state after learning the first `i` items of `c` from `s`: those
      keys are learned and nothing else new, provinces and login fields are
      untouched, one point per new key on top of unlock rewards, and once
      anything was new the record is settled and holds exactly the entries
      unlocked before or holding now; before that it is `s` itself. */
  ghost predicate LearnedSoFar(s: UserStats, r: UserStats, c: City, i: nat, env: Outside) {
    && i <= |c.items|
    && s.learnedEvents <= r.learnedEvents
    && (forall k :: k in r.learnedEvents <==>
          k in s.learnedEvents || exists j :: 0 <= j < i && k == ItemKey(c, c.items[j]))
    && r.visitedProvinces == s.visitedProvinces
    && r.loginHistory == s.loginHistory && r.lastLoginDate == s.lastLoginDate
    && Ledger(s, r, |r.learnedEvents| - |s.learnedEvents|)
    && (NoDup(s.learnedEvents) ==> NoDup(r.learnedEvents))
    && (|r.learnedEvents| == |s.learnedEvents| ==> r == s)
    && (|r.learnedEvents| > |s.learnedEvents| ==> IsSettled(r, env) && UnlockedFrom(s, r, env))
  }

  /** The entries unlocked in `r` are exactly those unlocked in `s` and
      those whose condition holds in `r`. */
  predicate UnlockedFrom(s: UserStats, r: UserStats, env: Outside) {
    forall a :: a in r.achievements <==> a in s.achievements || Holds(a, r, env)
  }

  /** A condition that holds keeps holding while the progress lists grow
      and the login history stays. */
  lemma HoldsGrows(r: UserStats, t: UserStats, env: Outside)
    requires |r.learnedEvents| <= |t.learnedEvents| && |r.visitedProvinces| <= |t.visitedProvinces|
    requires r.loginHistory == t.loginHistory
    ensures forall a :: Holds(a, r, env) ==> Holds(a, t, env)
  {
  }

  /** A recorder step from `r`, which is `s` itself or already unlocked
      from `s`, keeps the unlocked entries tied to `s`. */
  lemma UnlockedChain(s: UserStats, r: UserStats, t: UserStats, env: Outside)
    requires r == s || UnlockedFrom(s, r, env)
    requires UnlockedFrom(r, t, env)
    requires |r.learnedEvents| <= |t.learnedEvents| && |r.visitedProvinces| <= |t.visitedProvinces|
    requires r.loginHistory == t.loginHistory
    ensures UnlockedFrom(s, t, env)
  {
  }

  /** Learning item `i` extends the state to `i + 1` items. */
  lemma LearnStep(s: UserStats, r: UserStats, c: City, i: nat, env: Outside)
    requires LearnedSoFar(s, r, c, i, env) && i < |c.items|
    ensures LearnedSoFar(s, RecordEventLearn(r, c.name, c.items[i].title, env), c, i + 1, env)
  {
    if ItemKey(c, c.items[i]) in r.learnedEvents {
      LearnKnown(s, r, c, i, env);
    } else {
      LearnNew(s, r, c, i, env);
    }
  }

  lemma LearnKnown(s: UserStats, r: UserStats, c: City, i: nat, env: Outside)
    requires LearnedSoFar(s, r, c, i, env) && i < |c.items|
    requires ItemKey(c, c.items[i]) in r.learnedEvents
    ensures LearnedSoFar(s, RecordEventLearn(r, c.name, c.items[i].title, env), c, i + 1, env)
  {
    assert RecordEventLearn(r, c.name, c.items[i].title, env) == r;
  }

  lemma LearnNew(s: UserStats, r: UserStats, c: City, i: nat, env: Outside)
    requires LearnedSoFar(s, r, c, i, env) && i < |c.items|
    requires ItemKey(c, c.items[i]) !in r.learnedEvents
    ensures LearnedSoFar(s, RecordEventLearn(r, c.name, c.items[i].title, env), c, i + 1, env)
  {
    var key := ItemKey(c, c.items[i]);
    var next := RecordEventLearn(r, c.name, c.items[i].title, env);
    LedgerTrans(s, r, next, |r.learnedEvents| - |s.learnedEvents|, 1);
    assert next.learnedEvents == r.learnedEvents + [key];
    assert NoDup(r.learnedEvents) ==> NoDup(next.learnedEvents) by {
      if NoDup(r.learnedEvents) {
        NoDupAppend(r.learnedEvents, [key]);
      }
    }
    assert |r.learnedEvents| > |s.learnedEvents| ==> UnlockedFrom(s, r, env);
    UnlockedChain(s, r, next, env);
  }

  /** What opening city `c` from `s` leaves: every item key of `c` is
      learned and its province visited, and nothing else is learned or
      visited, a first visit appending the province once; opening a city
      whose keys and province are all known changes nothing; login fields
      are untouched; one point is awarded per new key
      and per new province on top of the rewards of what unlocked; learned
      keys stay distinct; and when anything was new the record ends settled,
      holding exactly the entries unlocked before or holding now. */
  ghost predicate Opened(s: UserStats, r: UserStats, c: City, env: Outside) {
    && (forall it :: it in c.items ==> ItemKey(c, it) in r.learnedEvents)
    && c.province in r.visitedProvinces
    && s.learnedEvents <= r.learnedEvents
    && (forall k :: k in r.learnedEvents <==>
          k in s.learnedEvents || exists j :: 0 <= j < |c.items| && k == ItemKey(c, c.items[j]))
    && (forall p :: p in r.visitedProvinces <==> p in s.visitedProvinces || p == c.province)
    && r.visitedProvinces == (if c.province in s.visitedProvinces then s.visitedProvinces
                              else s.visitedProvinces + [c.province])
    && r.loginHistory == s.loginHistory && r.lastLoginDate == s.lastLoginDate
    && Ledger(s, r, (|r.learnedEvents| - |s.learnedEvents|) + (|r.visitedProvinces| - |s.visitedProvinces|))
    && (NoDup(s.learnedEvents) ==> NoDup(r.learnedEvents))
    && ((|r.learnedEvents| == |s.learnedEvents| && c.province in s.visitedProvinces) ==> r == s)
    && ((|r.learnedEvents| > |s.learnedEvents| || c.province !in s.visitedProvinces) ==>
          IsSettled(r, env) && UnlockedFrom(s, r, env))
  }

  /** The records of opening city `c`: `recordEventLearn` for each item in
      order, then `recordProvinceVisit`. */
  method OpenCity(c: City, s: UserStats, env: Outside) returns (r: UserStats)
    ensures Opened(s, r, c, env)
  {
    r := s;
    var i := 0;
    while i < |c.items|
      invariant LearnedSoFar(s, r, c, i, env)
    {
      LearnStep(s, r, c, i, env);
      r := RecordEventLearn(r, c.name, c.items[i].title, env);
      i := i + 1;
    }
    VisitStep(s, r, c, env);
    r := RecordProvinceVisit(r, c.province, env);
  }

  /** The province visit that closes `OpenCity`, from the state after all
      items are learned. */
  lemma VisitStep(s: UserStats, learned: UserStats, c: City, env: Outside)
    requires LearnedSoFar(s, learned, c, |c.items|, env)
    ensures Opened(s, RecordProvinceVisit(learned, c.province, env), c, env)
  {
    AllItemsLearned(s, learned, c, env);
    if c.province in learned.visitedProvinces {
      assert RecordProvinceVisit(learned, c.province, env) == learned;
    } else {
      VisitNew(s, learned, c, env);
    }
  }

  lemma AllItemsLearned(s: UserStats, learned: UserStats, c: City, env: Outside)
    requires LearnedSoFar(s, learned, c, |c.items|, env)
    ensures forall it :: it in c.items ==> ItemKey(c, it) in learned.learnedEvents
  {
    forall it | it in c.items ensures ItemKey(c, it) in learned.learnedEvents {
      var j :| 0 <= j < |c.items| && c.items[j] == it;
      assert ItemKey(c, it) == ItemKey(c, c.items[j]);
    }
  }

  lemma VisitNew(s: UserStats, learned: UserStats, c: City, env: Outside)
    requires LearnedSoFar(s, learned, c, |c.items|, env)
    requires forall it :: it in c.items ==> ItemKey(c, it) in learned.learnedEvents
    requires c.province !in learned.visitedProvinces
    ensures Opened(s, RecordProvinceVisit(learned, c.province, env), c, env)
  {
    var r := RecordProvinceVisit(learned, c.province, env);
    assert |learned.learnedEvents| > |s.learnedEvents| ==> UnlockedFrom(s, learned, env);
    LedgerTrans(s, learned, r, |learned.learnedEvents| - |s.learnedEvents|, 1);
    UnlockedChain(s, learned, r, env);
  }

  /** `showCityInfo`: a name no city record carries (or an empty dataset)
      records nothing; otherwise the first city of that name is opened,
      with exactly the outcome `Opened` describes. */
  method ShowCityInfo(data: seq<City>, name: string, s: UserStats, env: Outside) returns (r: UserStats)
    ensures (forall k :: 0 <= k < |data| ==> data[k].name != name) ==> r == s
    ensures FindCity(data, name).Some? ==> Opened(s, r, FindCity(data, name).value, env)
    ensures forall k :: 0 <= k < |data| && data[k].name == name
                        && (forall j :: 0 <= j < k ==> data[j].name != name) ==>
              && data[k].province in r.visitedProvinces
              && forall it :: it in data[k].items ==> EventKey(name, it.title) in r.learnedEvents
    ensures s.learnedEvents <= r.learnedEvents
    ensures forall p :: p in s.visitedProvinces ==> p in r.visitedProvinces
  {
    match FindCity(data, name)
    case None =>
      r := s;
    case Some(c) =>
      r := OpenCity(c, s, env);
      forall k | 0 <= k < |data| && data[k].name == name && (forall j :: 0 <= j < k ==> data[j].name != name)
        ensures data[k] == c
      {
        var m :| 0 <= m < |data| && data[m] == c && data[m].name == name
                 && forall j :: 0 <= j < m ==> data[j].name != name;
        assert m == k;
      }
  }
}
