/** The timeline filter of the main script: the keyword table of
    `isItemInPeriod` and the item selection of `selectPeriod`. */
module Periods {
  import opened Seqs
  import opened Text
  import opened Dataset

  /** The eight timeline periods and their keywords, in table order. */
  const PeriodTable: seq<(string, seq<string>)> := [
    ("夏商周", ["夏", "商", "周"]),
    ("秦汉", ["秦", "汉"]),
    ("魏晋南北朝", ["魏", "晋", "南北朝"]),
    ("隋唐", ["隋", "唐"]),
    ("宋元", ["宋", "元"]),
    ("明清", ["明", "清"]),
    ("近代", ["近代", "1840", "1949"]),
    ("现代", ["现代", "1949"])
  ]

  /** `periodMap[period] || []`: the period's keywords, or none for a
      period outside the table. */
  function Keywords(period: string): seq<string> {
    match Lookup(PeriodTable, period)
    case Some(ks) => ks
    case None => []
  }

  /** A keyword marks an item when it occurs in its dynasty or year text. */
  predicate Marks(item: Item, keyword: string) {
    Contains(item.dynasty, keyword) || Contains(item.year, keyword)
  }

  /** `keywords.some(...)`: whether some keyword marks the item. */
  function AnyMarks(item: Item, keywords: seq<string>): (b: bool)
    ensures b <==> exists i :: 0 <= i < |keywords| && Marks(item, keywords[i])
  {
    if |keywords| == 0 then false
    else
      assert forall i :: 0 < i < |keywords| ==> keywords[i] == keywords[1..][i - 1];
      Marks(item, keywords[0]) || AnyMarks(item, keywords[1..])
  }

  /** `isItemInPeriod`: true exactly when one of the period's keywords
      occurs in the item's dynasty or year. */
  function IsItemInPeriod(item: Item, period: string): (b: bool)
    ensures b <==> exists k :: k in Keywords(period) && Marks(item, k)
  {
    AnyMarks(item, Keywords(period))
  }

  /** A period outside the table has no keywords, so no item belongs to
      it. */
  lemma OutsideTable(item: Item, period: string)
    requires forall i :: 0 <= i < |PeriodTable| ==> PeriodTable[i].0 != period
    ensures Keywords(period) == []
    ensures !IsItemInPeriod(item, period)
  {
  }

  /** The period filter as an entry predicate. */
  function InPeriod(period: string): Entry -> bool {
    (e: Entry) => IsItemInPeriod(e.item, period)
  }

  /** Flattening distributes over concatenation of city lists. */
  lemma {:induction false} FlattenAppend(a: seq<City>, b: seq<City>)
    ensures Flatten(a + b) == Flatten(a) + Flatten(b)
  {
    if |a| == 0 {
      assert a + b == b;
    } else {
      assert (a + b)[1..] == a[1..] + b;
      FlattenAppend(a[1..], b);
    }
  }

  /** The filtering loop of `selectPeriod`: every city in dataset order,
      every item in city order, keeping the items of the period. */
  method SelectPeriod(data: seq<City>, period: string) returns (r: seq<Entry>)
    ensures r == Filter(Flatten(data), InPeriod(period))
    ensures forall e :: e in r <==> e in Flatten(data) && IsItemInPeriod(e.item, period)
  {
    var p := InPeriod(period);
    r := [];
    var i := 0;
    while i < |data|
      invariant 0 <= i <= |data|
      invariant r == Filter(Flatten(data[..i]), p)
    {
      var kept := SelectInCity(data[i], period);
      FlattenSnoc(data, i);
      FilterAppend(Flatten(data[..i]), CityEntries(data[i]), p);
      r := r + kept;
      i := i + 1;
    }
    assert data[..i] == data;
  }

  /** The inner loop of `selectPeriod`: the items of one city that belong
      to the period, in item order. */
  method SelectInCity(c: City, period: string) returns (r: seq<Entry>)
    ensures r == Filter(CityEntries(c), InPeriod(period))
  {
    var p := InPeriod(period);
    var es := CityEntries(c);
    r := [];
    var j := 0;
    while j < |c.items|
      invariant 0 <= j <= |c.items|
      invariant r == Filter(es[..j], p)
    {
      var e := Entry(c.name, c.province, c.items[j]);
      FilterSnoc(es, j, p);
      if IsItemInPeriod(c.items[j], period) {
        r := r + [e];
      }
      j := j + 1;
    }
    assert es[..j] == es;
  }

  /** One more element of a prefix adds it to the filtered prefix exactly
      when it passes. */
  lemma FilterSnoc<T(!new)>(xs: seq<T>, j: nat, p: T -> bool)
    requires j < |xs|
    ensures Filter(xs[..j + 1], p) == Filter(xs[..j], p) + (if p(xs[j]) then [xs[j]] else [])
  {
    assert xs[..j + 1] == xs[..j] + [xs[j]];
    FilterAppend(xs[..j], [xs[j]], p);
    assert Filter([xs[j]], p) == (if p(xs[j]) then [xs[j]] else []) + Filter([xs[j]][1..], p);
  }

  /** One more city adds its entries to the flattened prefix. */
  lemma FlattenSnoc(data: seq<City>, i: nat)
    requires i < |data|
    ensures Flatten(data[..i + 1]) == Flatten(data[..i]) + CityEntries(data[i])
  {
    assert data[..i + 1] == data[..i] + [data[i]];
    FlattenAppend(data[..i], [data[i]]);
    assert Flatten([data[i]]) == CityEntries(data[i]) + Flatten([data[i]][1..]);
  }

  /** An item of the Northern Zhou shows under two periods: its dynasty
      holds both `周` and `南北朝`. */
  lemma NorthernZhouTwice(item: Item)
    requires item.dynasty == "南北朝北周"
    ensures IsItemInPeriod(item, "夏商周") && IsItemInPeriod(item, "魏晋南北朝")
  {
    ZhouMarks(item);
    NorthSouthMarks(item);
  }

  lemma ZhouMarks(item: Item)
    requires item.dynasty == "南北朝北周"
    ensures IsItemInPeriod(item, "夏商周")
  {
    assert PeriodTable[0].0 == "夏商周";
    assert Keywords("夏商周") == ["夏", "商", "周"];
    assert OccursAt(item.dynasty, "周", 4);
    assert Marks(item, Keywords("夏商周")[2]);
  }

  lemma NorthSouthMarks(item: Item)
    requires item.dynasty == "南北朝北周"
    ensures IsItemInPeriod(item, "魏晋南北朝")
  {
    assert PeriodTable[2].0 == "魏晋南北朝";
    assert forall j :: 0 <= j < 2 ==> PeriodTable[j].0 != "魏晋南北朝";
    assert Keywords("魏晋南北朝") == ["魏", "晋", "南北朝"];
    assert OccursAt(item.dynasty, "南北朝", 0);
    assert Marks(item, Keywords("魏晋南北朝")[2]);
  }

  /** No item belongs to a period the table does not name. */
  lemma UnknownPeriod(item: Item)
    ensures !IsItemInPeriod(item, "清末")
  {
    assert forall i :: 0 <= i < |PeriodTable| ==> PeriodTable[i].0 != "清末";
    OutsideTable(item, "清末");
  }
}
