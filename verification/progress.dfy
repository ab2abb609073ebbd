/** The summaries computed from the `user_stats` record and the dataset:
    the learning progress shown in the side panel and the learning-report
    data (dynasty tally and points history). */
module Progress {
  import opened Seqs
  import opened Dataset
  import opened Rounding
  import opened Gamification

  /** The number of provinces the progress panel counts against. */
  const ProvinceTotal: nat := 34

  datatype LearningProgress = LearningProgress(
    totalEvents: nat,
    learnedCount: nat,
    progress: nat,
    visitedProvinces: nat,
    totalProvinces: nat)

  /** `getLearningProgress`. A missing or empty dataset, or one without any
      item, reports progress 0; otherwise the progress is the learned count
      as a whole percentage of all items, rounded half up. The learned count
      is not capped, so the percentage exceeds 100 only when more keys were
      learned than the dataset holds. */
  function GetLearningProgress(data: seq<City>, s: UserStats): (r: LearningProgress)
    ensures r.totalProvinces == ProvinceTotal
    ensures r.learnedCount == |s.learnedEvents| && r.visitedProvinces == |s.visitedProvinces|
    ensures r.totalEvents == |Flatten(data)|
    ensures r.totalEvents == 0 ==> r.progress == 0
    ensures r.totalEvents > 0 ==>
              r.totalEvents * (2 * r.progress - 1) <= 200 * r.learnedCount < r.totalEvents * (2 * r.progress + 1)
    ensures r.learnedCount <= r.totalEvents ==> r.progress <= 100
  {
    if |data| == 0 then
      LearningProgress(0, |s.learnedEvents|, 0, |s.visitedProvinces|, ProvinceTotal)
    else
      var total := TotalItems(data);
      var learned := |s.learnedEvents|;
      LearningProgress(total, learned, if total > 0 then RoundedPercent(learned, total) else 0,
                       |s.visitedProvinces|, ProvinceTotal)
  }

  /** Five of twenty items learned show as 25%. */
  lemma QuarterProgress(data: seq<City>, s: UserStats)
    requires TotalItems(data) == 20 && |s.learnedEvents| == 5
    ensures GetLearningProgress(data, s).progress == 25
  {
    var r := GetLearningProgress(data, s);
    RoundedPercentUnique(5, 20, 25);
  }

  /** The two fields `eventKey.split('-')` destructures into: the text before
      the first hyphen, and the text between the first and the second hyphen
      (`undefined`, here `None`, when there is no hyphen at all). */
  datatype KeyParts = KeyParts(city: string, title: Option<string>)

  /** The text before the first `c` in `s`, or all of `s`. */
  function UpTo(s: string, c: char): (r: string)
    ensures r <= s && c !in r
    ensures |r| < |s| ==> s[|r|] == c
  {
    if |s| == 0 || s[0] == c then [] else [s[0]] + UpTo(s[1..], c)
  }

  /** `const [city, itemTitle] = eventKey.split('-')`. */
  function SplitKey(key: string): (r: KeyParts)
    ensures '-' !in key ==> r == KeyParts(key, None)
    ensures '-' in key ==> r.title.Some?
                           && r.city + "-" + r.title.value <= key
                           && '-' !in r.city && '-' !in r.title.value
                           && (|r.city| + 1 + |r.title.value| == |key|
                               || key[|r.city| + 1 + |r.title.value|] == '-')
  {
    var city := UpTo(key, '-');
    if |city| == |key| then
      assert city == key;
      KeyParts(key, None)
    else
      var rest := key[|city| + 1..];
      var title := UpTo(rest, '-');
      assert key == city + "-" + rest;
      KeyParts(city, Some(title))
  }

  /** Splitting a learned-event key gives back its city and title whenever
      neither holds a hyphen. */
  lemma SplitEventKey(city: string, title: string)
    requires '-' !in city && '-' !in title
    ensures SplitKey(EventKey(city, title)) == KeyParts(city, Some(title))
  {
    var key := EventKey(city, title);
    assert key == city + "-" + title;
    assert key[|city|] == '-';
    UpToWhole(title, '-');
    UpToStops(city, "-" + title, '-');
    assert key[|city| + 1..] == title;
  }

  lemma {:induction false} UpToWhole(s: string, c: char)
    requires c !in s
    ensures UpTo(s, c) == s
  {
    if |s| > 0 {
      UpToWhole(s[1..], c);
    }
  }

  lemma {:induction false} UpToStops(a: string, b: string, c: char)
    requires c !in a && |b| > 0 && b[0] == c
    ensures UpTo(a + b, c) == a
  {
    if |a| == 0 {
      assert a + b == b;
    } else {
      assert (a + b)[1..] == a[1..] + b;
      UpToStops(a[1..], b, c);
    }
  }

  /** The dynasty a learned key resolves to: the first city with the key's
      city name, then its first item with the key's title. A later city of
      the same name is never consulted. */
  function DynastyOf(data: seq<City>, key: string): (r: Option<string>)
    ensures r.Some? ==> exists e :: e in Flatten(data) && e.city == SplitKey(key).city
                                    && Some(e.item.title) == SplitKey(key).title
                                    && e.item.dynasty == r.value
    ensures SplitKey(key).title.None? ==> r.None?
    ensures (forall k :: 0 <= k < |data| ==> data[k].name != SplitKey(key).city) ==> r.None?
    ensures forall k, j :: FirstCityAt(data, SplitKey(key).city, k) && 0 <= j < |data[k].items|
                           && Some(data[k].items[j].title) == SplitKey(key).title
                           && (forall m :: 0 <= m < j ==> data[k].items[m].title != data[k].items[j].title) ==>
              r == Some(data[k].items[j].dynasty)
    ensures forall k :: FirstCityAt(data, SplitKey(key).city, k)
                        && (forall m :: 0 <= m < |data[k].items| ==> Some(data[k].items[m].title) != SplitKey(key).title) ==>
              r.None?
  {
    var parts := SplitKey(key);
    match FindCity(data, parts.city)
    case None => None
    case Some(city) =>
      FirstCityUnique(data, parts.city, city);
      match parts.title
      case None => None
      case Some(title) =>
        match FindItem(city.items, title)
        case None => None
        case Some(item) =>
          assert Entry(city.name, city.province, item) in Flatten(data);
          FirstItemUnique(city.items, title, item);
          Some(item.dynasty)
  }

  /** Record `k` is the first city record named `name`. */
  predicate FirstCityAt(data: seq<City>, name: string, k: int) {
    0 <= k < |data| && data[k].name == name && forall m :: 0 <= m < k ==> data[m].name != name
  }

  lemma FirstCityUnique(data: seq<City>, name: string, c: City)
    requires FindCity(data, name) == Some(c)
    ensures forall k :: FirstCityAt(data, name, k) ==> data[k] == c
  {
    var k0 :| 0 <= k0 < |data| && data[k0] == c && data[k0].name == name
              && forall j :: 0 <= j < k0 ==> data[j].name != name;
    forall k | FirstCityAt(data, name, k) ensures data[k] == c {
      assert k == k0;
    }
  }

  lemma FirstItemUnique(items: seq<Item>, title: string, it: Item)
    requires FindItem(items, title) == Some(it)
    ensures forall j :: (0 <= j < |items| && items[j].title == title
                         && forall m :: 0 <= m < j ==> items[m].title != title) ==> items[j] == it
  {
    var j0 :| 0 <= j0 < |items| && items[j0] == it && items[j0].title == title
              && forall m :: 0 <= m < j0 ==> items[m].title != title;
    forall j | 0 <= j < |items| && items[j].title == title && (forall m :: 0 <= m < j ==> items[m].title != title)
      ensures items[j] == it
    {
      assert j == j0;
    }
  }

  /** A key `recordEventLearn` stores for a hyphen-free city and title
      resolves to the dynasty of that title's first item in the first city of
      that name. */
  lemma DynastyOfEventKey(data: seq<City>, city: string, title: string, k: nat, j: nat)
    requires '-' !in city && '-' !in title
    requires FirstCityAt(data, city, k) && j < |data[k].items| && data[k].items[j].title == title
    requires forall m :: 0 <= m < j ==> data[k].items[m].title != title
    ensures DynastyOf(data, EventKey(city, title)) == Some(data[k].items[j].dynasty)
  {
    SplitEventKey(city, title);
  }

  /** How many of `keys` resolve to dynasty `d`. */
  function CountDynasty(data: seq<City>, keys: seq<string>, d: string): nat {
    if |keys| == 0 then 0
    else CountDynasty(data, keys[..|keys| - 1], d) + (if DynastyOf(data, keys[|keys| - 1]) == Some(d) then 1 else 0)
  }

  /** The `dynastyStats` object built by `getLearningReportData`: keys are
      visited in order and each resolvable key adds one to its dynasty. */
  function DynastyStats(data: seq<City>, keys: seq<string>): (r: map<string, nat>)
    ensures forall d :: d in r <==> CountDynasty(data, keys, d) > 0
    ensures forall d :: d in r ==> r[d] == CountDynasty(data, keys, d)
  {
    if |data| == 0 || |keys| == 0 then
      EmptyDataCounts(data, keys);
      map[]
    else
      var prev := DynastyStats(data, keys[..|keys| - 1]);
      match DynastyOf(data, keys[|keys| - 1])
      case None => prev
      case Some(d) => prev[d := (if d in prev then prev[d] else 0) + 1]
  }

  lemma {:induction false} EmptyDataCounts(data: seq<City>, keys: seq<string>)
    requires |data| == 0 || |keys| == 0
    ensures forall d :: CountDynasty(data, keys, d) == 0
  {
    if |keys| > 0 {
      EmptyDataCounts(data, keys[..|keys| - 1]);
    }
  }

  /** A learned key that resolves to no dataset item leaves the tally as it
      was. */
  lemma SkipsUnresolved(data: seq<City>, keys: seq<string>, key: string)
    requires DynastyOf(data, key).None?
    ensures DynastyStats(data, keys + [key]) == DynastyStats(data, keys)
  {
    var a := DynastyStats(data, keys + [key]);
    var b := DynastyStats(data, keys);
    assert (keys + [key])[..|keys|] == keys;
    forall d ensures CountDynasty(data, keys + [key], d) == CountDynasty(data, keys, d) {
    }
    assert a.Keys == b.Keys;
  }

  /** The tallies add up to the number of resolvable keys. */
  lemma {:induction false} TallyAtMostKeys(data: seq<City>, keys: seq<string>, d: string)
    ensures CountDynasty(data, keys, d) <= |keys|
  {
    if |keys| > 0 {
      TallyAtMostKeys(data, keys[..|keys| - 1], d);
    }
  }

  /** One point of the `pointsHistory` series. */
  datatype PointsEntry = PointsEntry(date: int, points: int)

  /** `pointsHistory`: one entry per login day, the last showing the current
      total and each earlier one ten points lower than its successor. */
  function PointsHistory(s: UserStats): (r: seq<PointsEntry>)
    ensures |r| == |s.loginHistory|
    ensures forall i :: 0 <= i < |r| ==> r[i].date == s.loginHistory[i]
    ensures |r| > 0 ==> r[|r| - 1].points == s.totalPoints
    ensures forall i :: 0 <= i < |r| - 1 ==> r[i + 1].points == r[i].points + 10
  {
    var n := |s.loginHistory|;
    seq(n, i requires 0 <= i < n => PointsEntry(s.loginHistory[i], s.totalPoints - (n - i - 1) * 10))
  }

  datatype Report = Report(progress: LearningProgress, dynastyStats: map<string, nat>,
                           pointsHistory: seq<PointsEntry>)

  /** `getLearningReportData`. */
  function GetLearningReportData(data: seq<City>, s: UserStats): (r: Report)
    ensures r.progress == GetLearningProgress(data, s)
    ensures forall d :: d in r.dynastyStats ==> 0 < r.dynastyStats[d] <= |s.learnedEvents|
    ensures forall d :: d in r.dynastyStats <==> CountDynasty(data, s.learnedEvents, d) > 0
    ensures |data| == 0 ==> r.dynastyStats == map[]
    ensures r.dynastyStats == DynastyStats(data, s.learnedEvents)
    ensures r.pointsHistory == PointsHistory(s)
    ensures |r.pointsHistory| == |s.loginHistory|
    ensures |r.pointsHistory| > 0 ==> r.pointsHistory[|r.pointsHistory| - 1].points == s.totalPoints
  {
    var stats := DynastyStats(data, s.learnedEvents);
    forall d | d in stats ensures stats[d] <= |s.learnedEvents| {
      TallyAtMostKeys(data, s.learnedEvents, d);
    }
    Report(GetLearningProgress(data, s), stats, PointsHistory(s))
  }
}
