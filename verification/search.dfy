/** The search box of the main script: the suggestions `showSearchSuggestions`
    collects for a keyword, and their de-duplication by display name, capped
    at five. */
module Search {
  import opened Seqs
  import opened Text
  import opened Dataset

  /** The two suggestion kinds: a city name or an item of a city. */
  datatype SuggestionKind = CityHit | ItemHit

  /** A suggestion: its kind, the display name its de-duplication keys on,
      the city, and for an item hit the item. */
  datatype Suggestion = Suggestion(kind: SuggestionKind, name: string, city: string, item: Option<Item>)

  /** The cap on the number of suggestions shown. */
  const MaxSuggestions: nat := 5

  /** The display name of an item hit: `${title} (${city})`. */
  function ItemName(title: string, city: string): string {
    title + " (" + city + ")"
  }

  /** Whether an item matches the lower-cased keyword: by title or by
      description, both lower-cased. */
  predicate ItemMatches(it: Item, lowerKeyword: string) {
    Contains(Lower(it.title), lowerKeyword) || Contains(Lower(it.description), lowerKeyword)
  }

  function ItemSuggestion(city: string, it: Item): Suggestion {
    Suggestion(ItemHit, ItemName(it.title, city), city, Some(it))
  }

  /** The item hits of one city, in item order. */
  function ItemCandidates(city: string, items: seq<Item>, lowerKeyword: string): (r: seq<Suggestion>)
    ensures forall x :: x in r <==> exists it :: it in items && ItemMatches(it, lowerKeyword)
                                                 && x == ItemSuggestion(city, it)
  {
    if |items| == 0 then []
    else
      var rest := ItemCandidates(city, items[1..], lowerKeyword);
      assert forall it :: it in items <==> it == items[0] || it in items[1..];
      (if ItemMatches(items[0], lowerKeyword) then [ItemSuggestion(city, items[0])] else []) + rest
  }

  /** The hits of one city: the city itself when its lower-cased name holds
      the keyword, then its matching items. */
  function CityCandidates(c: City, lowerKeyword: string): seq<Suggestion> {
    (if Contains(Lower(c.name), lowerKeyword) then [Suggestion(CityHit, c.name, c.name, None)] else [])
    + ItemCandidates(c.name, c.items, lowerKeyword)
  }

  /** Every hit, cities in dataset order. A city hit names a city whose
      lower-cased name holds the keyword; an item hit carries an item of
      that city matching by title or description; and every such city and
      item is among the hits. */
  function Candidates(data: seq<City>, lowerKeyword: string): (r: seq<Suggestion>)
    ensures forall x :: x in r && x.kind == CityHit ==>
              exists k :: 0 <= k < |data| && x.name == data[k].name && Contains(Lower(data[k].name), lowerKeyword)
    ensures forall x :: x in r && x.kind == ItemHit ==>
              exists k, it :: 0 <= k < |data| && it in data[k].items && ItemMatches(it, lowerKeyword)
                              && x == ItemSuggestion(data[k].name, it)
    ensures forall k, it :: 0 <= k < |data| && it in data[k].items && ItemMatches(it, lowerKeyword) ==>
              ItemSuggestion(data[k].name, it) in r
    ensures forall k :: 0 <= k < |data| && Contains(Lower(data[k].name), lowerKeyword) ==>
              Suggestion(CityHit, data[k].name, data[k].name, None) in r
  {
    if |data| == 0 then []
    else
      var head := CityCandidates(data[0], lowerKeyword);
      var rest := Candidates(data[1..], lowerKeyword);
      assert forall k :: 0 < k < |data| ==> data[k] == data[1..][k - 1];
      head + rest
  }

  /** The display names, in order. */
  function Names(xs: seq<Suggestion>): (r: seq<string>)
    ensures |r| == |xs|
    ensures forall i :: 0 <= i < |xs| ==> r[i] == xs[i].name
  {
    seq(|xs|, i requires 0 <= i < |xs| => xs[i].name)
  }

  /** The first suggestion of each display name, in scan order: no name
      twice, nothing that was not scanned, and every scanned name kept. */
  function FirstByName(xs: seq<Suggestion>): (r: seq<Suggestion>)
    ensures NoDup(Names(r))
    ensures forall x :: x in r ==> x in xs
    ensures forall i :: 0 <= i < |xs| ==> xs[i].name in Names(r)
  {
    if |xs| == 0 then []
    else
      var init := xs[..|xs| - 1];
      var x := xs[|xs| - 1];
      var d := FirstByName(init);
      assert xs == init + [x];
      if x.name in Names(d) then d
      else
        var r := d + [x];
        assert Names(r) == Names(d) + [x.name];
        NoDupAppend(Names(d), [x.name]);
        r
  }

  /** Each kept suggestion is the first one of its name in the scan. */
  lemma {:induction false} FirstByNameFirst(xs: seq<Suggestion>, x: Suggestion)
    requires x in FirstByName(xs)
    ensures exists i :: 0 <= i < |xs| && xs[i] == x && forall j :: 0 <= j < i ==> xs[j].name != x.name
  {
    var init := xs[..|xs| - 1];
    var last := xs[|xs| - 1];
    var d := FirstByName(init);
    assert forall i :: 0 <= i < |init| ==> xs[i] == init[i];
    if x in d {
      FirstByNameFirst(init, x);
      var i :| 0 <= i < |init| && init[i] == x && forall j :: 0 <= j < i ==> init[j].name != x.name;
      assert xs[i] == x;
    } else {
      assert x == last && last.name !in Names(d);
      forall j | 0 <= j < |init| ensures xs[j].name != x.name {
        assert init[j].name in Names(d);
      }
    }
  }

  /** Scanning one more suggestion only ever appends to the first-by-name
      list. */
  lemma FirstByNameGrows(xs: seq<Suggestion>, i: nat)
    requires i < |xs|
    ensures FirstByName(xs[..i + 1]) == FirstByName(xs[..i])
            + (if xs[i].name in Names(FirstByName(xs[..i])) then [] else [xs[i]])
  {
    assert xs[..i + 1][..i] == xs[..i];
  }

  /** The de-duplication loop of `showSearchSuggestions`: keep a suggestion
      when its name is unseen and fewer than five are kept. */
  method KeepFirstFive(hits: seq<Suggestion>) returns (r: seq<Suggestion>)
    ensures r == Take(FirstByName(hits), MaxSuggestions)
  {
    var seen: set<string> := {};
    r := [];
    var i := 0;
    while i < |hits|
      invariant 0 <= i <= |hits|
      invariant r == Take(FirstByName(hits[..i]), MaxSuggestions)
      invariant forall n :: n in seen <==> n in Names(r)
    {
      var h := hits[i];
      KeepStep(hits, i);
      if h.name !in seen && |r| < MaxSuggestions {
        seen := seen + {h.name};
        r := r + [h];
      }
      i := i + 1;
    }
    assert hits[..i] == hits;
  }

  /** One step of the loop: the scanned suggestion is kept exactly when its
      name is new and fewer than five are kept. */
  lemma KeepStep(xs: seq<Suggestion>, i: nat)
    requires i < |xs|
    ensures var r := Take(FirstByName(xs[..i]), MaxSuggestions);
            Take(FirstByName(xs[..i + 1]), MaxSuggestions)
            == if xs[i].name !in Names(r) && |r| < MaxSuggestions then r + [xs[i]] else r
    ensures var r := Take(FirstByName(xs[..i]), MaxSuggestions);
            Names(r + [xs[i]]) == Names(r) + [xs[i].name]
  {
    FirstByNameGrows(xs, i);
    var before := FirstByName(xs[..i]);
    var r := Take(before, MaxSuggestions);
    assert Names(r + [xs[i]]) == Names(r) + [xs[i].name];
    if |r| < MaxSuggestions {
      assert r == before;
    } else {
      assert r == before[..MaxSuggestions];
    }
  }

  /** The first five first-by-name suggestions: at most five, names
      pairwise distinct, all of them scanned. */
  lemma TakeFirstByName(xs: seq<Suggestion>)
    ensures var r := Take(FirstByName(xs), MaxSuggestions);
            && |r| <= MaxSuggestions
            && NoDup(Names(r))
            && forall x :: x in r ==> x in xs
  {
    var all := FirstByName(xs);
    var r := Take(all, MaxSuggestions);
    assert forall i :: 0 <= i < |r| ==> r[i] == all[i];
    assert forall x :: x in r ==> x in all;
  }

  /** `showSearchSuggestions` without rendering: collect the hits for the
      lower-cased keyword, then keep the first five first-by-name ones. */
  method SearchSuggestions(data: seq<City>, keyword: string) returns (r: seq<Suggestion>)
    ensures r == Take(FirstByName(Candidates(data, Lower(keyword))), MaxSuggestions)
    ensures |r| <= MaxSuggestions
    ensures NoDup(Names(r))
    ensures forall x :: x in r ==> x in Candidates(data, Lower(keyword))
  {
    var hits := Candidates(data, Lower(keyword));
    r := KeepFirstFive(hits);
    TakeFirstByName(hits);
  }
}
