/** The favourites list of the main script: entries keyed by
    `city-item`, toggled on and off, with two points awarded on every
    addition. */
module Favorites {
  import opened Seqs
  import Gamification

  /** One stored favourite: its key and the two names it was built from. */
  datatype Favorite = Favorite(key: string, city: string, item: string)

  /** The stored keys, in list order. */
  function Keys(favs: seq<Favorite>): (r: seq<string>)
    ensures |r| == |favs|
    ensures forall i :: 0 <= i < |favs| ==> r[i] == favs[i].key
  {
    seq(|favs|, i requires 0 <= i < |favs| => favs[i].key)
  }

  /** `isFavorite`: some stored entry carries the key of the pair. */
  predicate IsFavorite(favs: seq<Favorite>, city: string, item: string) {
    Gamification.EventKey(city, item) in Keys(favs)
  }

  /** `findIndex(f => f.key === key)`: the first position holding `key`. */
  function FindIndex(favs: seq<Favorite>, key: string): (r: Option<nat>)
    ensures r.None? <==> key !in Keys(favs)
    ensures r.Some? ==> r.value < |favs| && favs[r.value].key == key
                        && forall j :: 0 <= j < r.value ==> favs[j].key != key
  {
    assert forall k :: k in Keys(favs) <==> exists i :: 0 <= i < |favs| && favs[i].key == k;
    FirstIndex(favs, (f: Favorite) => f.key == key)
  }

  /** The list and the user stats after a toggle. */
  datatype Toggled = Toggled(favorites: seq<Favorite>, stats: Gamification.UserStats)

  /** `toggleFavorite`. A present key has its first entry spliced out and the
      stats are untouched; an absent key is appended and `recordFavorite`
      runs. That award runs before the list is saved, so the favourites
      count the catalog reads is the count before the addition. */
  function ToggleFavorite(favs: seq<Favorite>, city: string, item: string,
                          s: Gamification.UserStats, quizStreak: int): (r: Toggled)
    ensures IsFavorite(favs, city, item) ==>
              && r.stats == s
              && |r.favorites| == |favs| - 1
    ensures forall i :: (0 <= i < |favs| && favs[i].key == Gamification.EventKey(city, item)
                         && forall j :: 0 <= j < i ==> favs[j].key != Gamification.EventKey(city, item)) ==>
              r.favorites == favs[..i] + favs[i + 1..]
    ensures !IsFavorite(favs, city, item) ==>
              && r.favorites == favs + [Favorite(Gamification.EventKey(city, item), city, item)]
              && Gamification.SameProgress(s, r.stats)
              && Gamification.Awarded(s, r.stats, 2, Gamification.Outside(|favs|, quizStreak))
              && Gamification.IsSettled(r.stats, Gamification.Outside(|favs|, quizStreak))
    ensures forall k :: k != Gamification.EventKey(city, item) ==> (k in Keys(r.favorites) <==> k in Keys(favs))
    ensures NoDup(Keys(favs)) ==>
              && NoDup(Keys(r.favorites))
              && (IsFavorite(r.favorites, city, item) <==> !IsFavorite(favs, city, item))
  {
    var key := Gamification.EventKey(city, item);
    match FindIndex(favs, key)
    case Some(i) =>
      var rest := favs[..i] + favs[i + 1..];
      assert favs == favs[..i] + [favs[i]] + favs[i + 1..];
      RemovedKeys(favs, i);
      Toggled(rest, s)
    case None =>
      var added := favs + [Favorite(key, city, item)];
      assert Keys(added) == Keys(favs) + [key];
      assert NoDup(Keys(favs)) ==> NoDup(Keys(added)) by {
        if NoDup(Keys(favs)) {
          NoDupAppend(Keys(favs), [key]);
        }
      }
      Toggled(added, Gamification.RecordFavorite(s, Gamification.Outside(|favs|, quizStreak)))
  }

  /** Splicing out position `i` removes exactly that key occurrence. */
  lemma RemovedKeys(favs: seq<Favorite>, i: nat)
    requires i < |favs|
    ensures Keys(favs[..i] + favs[i + 1..]) == Keys(favs)[..i] + Keys(favs)[i + 1..]
    ensures forall k :: k != favs[i].key ==> (k in Keys(favs[..i] + favs[i + 1..]) <==> k in Keys(favs))
    ensures NoDup(Keys(favs)) ==>
              NoDup(Keys(favs[..i] + favs[i + 1..])) && favs[i].key !in Keys(favs[..i] + favs[i + 1..])
  {
    var ks := Keys(favs);
    var rest := Keys(favs[..i] + favs[i + 1..]);
    assert ks == ks[..i] + [ks[i]] + ks[i + 1..];
    assert forall j :: 0 <= j < |rest| ==> rest[j] == ks[if j < i then j else j + 1];
  }

  /** Adding a pair and toggling it again gives the list back as it was. */
  lemma AddThenRemove(favs: seq<Favorite>, city: string, item: string,
                      s: Gamification.UserStats, quizStreak: int)
    requires !IsFavorite(favs, city, item)
    ensures var once := ToggleFavorite(favs, city, item, s, quizStreak);
            ToggleFavorite(once.favorites, city, item, once.stats, quizStreak).favorites == favs
  {
    var key := Gamification.EventKey(city, item);
    var once := ToggleFavorite(favs, city, item, s, quizStreak);
    var i := FindIndex(once.favorites, key);
    assert once.favorites[|favs|].key == key;
    assert forall j :: 0 <= j < |favs| ==> once.favorites[j].key == Keys(favs)[j];
    assert i.Some? && i.value == |favs|;
    assert once.favorites[..|favs|] == favs;
  }

  /** Toggling the same pair twice restores which keys are favourites. */
  lemma ToggleTwice(favs: seq<Favorite>, city: string, item: string,
                    s: Gamification.UserStats, quizStreak: int)
    requires NoDup(Keys(favs))
    ensures var once := ToggleFavorite(favs, city, item, s, quizStreak);
            var twice := ToggleFavorite(once.favorites, city, item, once.stats, quizStreak);
            forall k :: k in Keys(twice.favorites) <==> k in Keys(favs)
  {
  }

  /** A run of toggles, applied in order; each award sees the list as it
      stood before that toggle. */
  function ApplyToggles(favs: seq<Favorite>, pairs: seq<(string, string)>,
                        s: Gamification.UserStats, quizStreak: int): Toggled
    decreases |pairs|
  {
    if |pairs| == 0 then Toggled(favs, s)
    else
      var t := ToggleFavorite(favs, pairs[0].0, pairs[0].1, s, quizStreak);
      ApplyToggles(t.favorites, pairs[1..], t.stats, quizStreak)
  }

  /** Favourite keys stay pairwise distinct under any run of toggles. */
  lemma {:induction false} TogglesKeepDistinct(favs: seq<Favorite>, pairs: seq<(string, string)>,
                                               s: Gamification.UserStats, quizStreak: int)
    requires NoDup(Keys(favs))
    ensures NoDup(Keys(ApplyToggles(favs, pairs, s, quizStreak).favorites))
    decreases |pairs|
  {
    if |pairs| > 0 {
      var t := ToggleFavorite(favs, pairs[0].0, pairs[0].1, s, quizStreak);
      TogglesKeepDistinct(t.favorites, pairs[1..], t.stats, quizStreak);
    }
  }

  /** The tenth favourite does not unlock `collector` by itself: its award
      is evaluated against the nine stored before it. The next evaluation
      that reads the saved list does unlock it. */
  lemma CollectorWaits(favs: seq<Favorite>, city: string, item: string,
                       s: Gamification.UserStats, quizStreak: int)
    requires |favs| == 9 && !IsFavorite(favs, city, item)
    requires Gamification.Collector !in s.achievements
    ensures var r := ToggleFavorite(favs, city, item, s, quizStreak);
            && |r.favorites| == 10
            && Gamification.Collector !in r.stats.achievements
            && Gamification.Collector in
                 Gamification.CheckAchievements(r.stats, Gamification.Outside(|r.favorites|, quizStreak)).achievements
  {
    var r := ToggleFavorite(favs, city, item, s, quizStreak);
    var before := Gamification.Outside(9, quizStreak);
    var after := Gamification.Outside(10, quizStreak);
    assert !Gamification.Holds(Gamification.Collector, r.stats, before);
    assert Gamification.Holds(Gamification.Collector, r.stats, after);
  }
}
