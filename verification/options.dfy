/** Answer-option synthesis for the daily question: the shuffle, the
    fallback pools, the year distractors and the choice of four options. */
module Options {
  import opened Seqs
  import opened Text

  /** `sort(() => Math.random() - 0.5)` driven by an explicit choice: each
      step takes the element at `order[k]` modulo the number left (index 0
      once `order` runs out). Whatever the choices, the result is a
      rearrangement of the input. */
  function Shuffle<T(==,!new)>(xs: seq<T>, order: seq<nat>): (r: seq<T>)
    ensures |r| == |xs|
    ensures multiset(r) == multiset(xs)
    ensures forall x :: x in r <==> x in xs
    ensures NoDup(xs) ==> NoDup(r)
    decreases |xs|
  {
    if |xs| == 0 then []
    else
      var i := (if |order| == 0 then 0 else order[0]) % |xs|;
      var rest := xs[..i] + xs[i + 1..];
      var tail := Shuffle(rest, if |order| == 0 then [] else order[1..]);
      RemoveAtFacts(xs, i);
      assert NoDup(xs) ==> NoDup([xs[i]] + tail) by {
        if NoDup(xs) {
          RemoveAtDistinct(xs, i);
          NoDupAppend([xs[i]], tail);
        }
      }
      [xs[i]] + tail
  }

  /** Taking the element at `i` out of `xs`. */
  lemma RemoveAtFacts<T>(xs: seq<T>, i: nat)
    requires i < |xs|
    ensures multiset(xs) == multiset{xs[i]} + multiset(xs[..i] + xs[i + 1..])
    ensures forall x :: x in xs <==> x == xs[i] || x in xs[..i] + xs[i + 1..]
  {
    var rest := xs[..i] + xs[i + 1..];
    assert xs == xs[..i] + [xs[i]] + xs[i + 1..];
    forall x ensures x in xs <==> x == xs[i] || x in rest {
      assert x in multiset(xs) <==> x in multiset{xs[i]} + multiset(rest);
    }
  }

  /** Taking one element out of a duplicate-free list leaves a
      duplicate-free list that no longer holds it. */
  lemma RemoveAtDistinct<T>(xs: seq<T>, i: nat)
    requires NoDup(xs) && i < |xs|
    ensures NoDup(xs[..i] + xs[i + 1..])
    ensures xs[i] !in xs[..i] + xs[i + 1..]
  {
    var rest := xs[..i] + xs[i + 1..];
    forall a, b | 0 <= a < b < |rest| ensures rest[a] != rest[b] {
      var a' := if a < i then a else a + 1;
      var b' := if b < i then b else b + 1;
      assert rest[a] == xs[a'] && rest[b] == xs[b'];
    }
    forall k | 0 <= k < |rest| ensures rest[k] != xs[i] {
      var k' := if k < i then k else k + 1;
      assert rest[k] == xs[k'];
    }
  }

  /** Every rearrangement of `xs` is the outcome of some choice sequence. */
  lemma {:induction false} ShuffleReaches<T(!new)>(xs: seq<T>, p: seq<T>)
    requires multiset(p) == multiset(xs)
    ensures exists order :: Shuffle(xs, order) == p
    decreases |xs|
  {
    assert |p| == |multiset(p)| == |xs|;
    if |xs| == 0 {
      assert Shuffle(xs, []) == p;
    } else {
      assert p[0] in multiset(p);
      var i :| 0 <= i < |xs| && xs[i] == p[0];
      assert p == [xs[i]] + p[1..];
      var rest := xs[..i] + xs[i + 1..];
      MultisetCancel(p, xs, i);
      ShuffleReaches(rest, p[1..]);
      var tailOrder :| Shuffle(rest, tailOrder) == p[1..];
      ShuffleHead(xs, i, tailOrder);
      assert Shuffle(xs, [i] + tailOrder) == p;
    }
  }

  /** Choosing index `i` first puts `xs[i]` at the front. */
  lemma ShuffleHead<T(!new)>(xs: seq<T>, i: nat, tailOrder: seq<nat>)
    requires i < |xs|
    ensures Shuffle(xs, [i] + tailOrder) == [xs[i]] + Shuffle(xs[..i] + xs[i + 1..], tailOrder)
  {
    var order := [i] + tailOrder;
    ModSmall(i, |xs|);
    assert order[0] == i && order[1..] == tailOrder;
  }

  lemma ModSmall(i: nat, n: nat)
    requires i < n
    ensures i % n == i
  {
  }

  lemma MultisetCancel<T>(p: seq<T>, xs: seq<T>, i: nat)
    requires multiset(p) == multiset(xs) && |p| > 0 && i < |xs| && xs[i] == p[0]
    ensures multiset(p[1..]) == multiset(xs[..i] + xs[i + 1..])
  {
    var rest := xs[..i] + xs[i + 1..];
    RemoveAtFacts(xs, i);
    assert p == [p[0]] + p[1..];
    assert multiset(p) == multiset{p[0]} + multiset(p[1..]);
    forall x ensures multiset(p[1..])[x] == multiset(rest)[x] {
      assert multiset(p)[x] == multiset{p[0]}[x] + multiset(p[1..])[x];
      assert multiset(xs)[x] == multiset{xs[i]}[x] + multiset(rest)[x];
    }
  }

  /** The fallback dynasties of the `event` question. */
  const CommonDynasties: seq<string> :=
    ["夏", "商", "周", "秦", "汉", "魏晋", "南北朝", "隋", "唐", "宋", "元", "明", "清", "近代", "现代"]

  /** The fallback cities of the `location` question. */
  const CommonCities: seq<string> :=
    ["北京", "上海", "西安", "南京", "杭州", "成都", "广州", "武汉", "重庆", "天津"]

  /** The fixed distractors for a year string holding no digit. */
  const FallbackYears: seq<string> := ["约前1000年", "约前500年", "约前2000年", "约前1500年"]

  lemma CommonDistinct()
    ensures NoDup(CommonDynasties) && |CommonDynasties| == 15
    ensures NoDup(CommonCities) && |CommonCities| == 10
  {
  }

  /** A year option: the integer followed by the unit 年. */
  function YearText(n: int): string {
    IntToString(n) + "年"
  }

  lemma YearTextInjective(a: int, b: int)
    ensures YearText(a) == YearText(b) ==> a == b
  {
    if YearText(a) == YearText(b) {
      var sa := IntToString(a);
      var sb := IntToString(b);
      assert |sa| == |sb|;
      assert sa == YearText(a)[..|sa|] == YearText(b)[..|sb|] == sb;
      IntToStringInjective(a, b);
    }
  }

  /** `generateWrongYear`. With a digit in the correct year, the first run
      of digits N yields `(N-100)年`, `(N+100)年`, `(N-200)年`, `(N+200)年` in
      that order, minus any equal to the correct string; any prefix around
      the digits is dropped. Without a digit, the four fixed fallbacks. The
      result never holds the correct string, holds no duplicate, and has at
      least three entries. */
  function WrongYears(correct: string): (r: seq<string>)
    ensures correct !in r
    ensures NoDup(r)
    ensures |r| >= 3
    ensures !HasDigit(correct) ==> r == FallbackYears
    ensures HasDigit(correct) ==>
              var n := ParseDigits(FirstDigitRun(correct).value);
              r == Without([YearText(n - 100), YearText(n + 100), YearText(n - 200), YearText(n + 200)], correct)
  {
    match FirstDigitRun(correct)
    case Some(run) =>
      var n := ParseDigits(run);
      var all := [YearText(n - 100), YearText(n + 100), YearText(n - 200), YearText(n + 200)];
      YearTextInjective(n - 100, n + 100);
      YearTextInjective(n - 100, n - 200);
      YearTextInjective(n - 100, n + 200);
      YearTextInjective(n + 100, n - 200);
      YearTextInjective(n + 100, n + 200);
      YearTextInjective(n - 200, n + 200);
      WithoutDistinct(all, correct);
      Without(all, correct)
    case None =>
      FallbackDigits(correct);
      FallbackYears
  }

  /** Every fallback holds a digit, so none equals a year without one. */
  lemma FallbackDigits(correct: string)
    requires !HasDigit(correct)
    ensures correct !in FallbackYears && NoDup(FallbackYears)
  {
    forall k | 0 <= k < |FallbackYears| ensures FallbackYears[k] != correct {
      assert IsDigit(FallbackYears[k][2]);
    }
  }

  /** The `availableWrong` list of one question kind: the distinct values
      seen in the dataset other than the correct one, then the kind's own
      extra candidates, duplicates dropped. */
  function Pool(correct: string, seen: seq<string>, extra: seq<string>): (r: seq<string>)
    requires correct !in extra && NoDup(extra)
    ensures NoDup(r) && correct !in r
    ensures forall x :: x in r <==> (x in seen || x in extra) && x != correct
    ensures |r| >= |extra|
  {
    var r := Dedup(Without(Dedup(seen), correct) + extra);
    DistinctSubsetLength(extra, r);
    r
  }

  /** The options of one question: three candidates from the shuffled pool
      joined to the correct answer, duplicates dropped, cut to four and
      shuffled again. With at least three candidates (which every question
      kind guarantees, see `EventPool`, `LocationPool`, `YearPool`) there
      are exactly four distinct options, the correct one among them, so the
      padding loop of the source never runs. */
  function PickOptions(correct: string, pool: seq<string>, poolOrder: seq<nat>, optionOrder: seq<nat>): (r: seq<string>)
    ensures correct in r && NoDup(r)
    ensures forall o :: o in r ==> o == correct || o in pool
    ensures correct !in pool && NoDup(pool) ==> |r| == 1 + (if |pool| < 3 then |pool| else 3)
  {
    var selected := Take(Shuffle(pool, poolOrder), 3);
    var unique := Dedup([correct] + selected);
    PrefixMembers(selected, Shuffle(pool, poolOrder));
    assert correct !in pool && NoDup(pool) ==> unique == [correct] + selected by {
      if correct !in pool && NoDup(pool) {
        TakeDistinct(Shuffle(pool, poolOrder), 3);
        NoDupAppend([correct], selected);
        DedupOfDistinct([correct] + selected);
      }
    }
    var four := Take(unique, 4);
    PrefixMembers(four, unique);
    PrefixDistinct(four, unique);
    Shuffle(four, optionOrder)
  }

  lemma TakeDistinct<T(!new)>(s: seq<T>, n: nat)
    requires NoDup(s)
    ensures NoDup(Take(s, n))
  {
  }

  lemma PrefixDistinct<T>(a: seq<T>, b: seq<T>)
    requires a <= b && NoDup(b)
    ensures NoDup(a)
  {
    assert forall i :: 0 <= i < |a| ==> a[i] == b[i];
  }

  /** The `event` pool always holds at least fourteen wrong dynasties. */
  lemma EventPool(correct: string, seen: seq<string>)
    ensures correct !in Without(CommonDynasties, correct) && NoDup(Without(CommonDynasties, correct))
    ensures |Pool(correct, seen, Without(CommonDynasties, correct))| >= 14
  {
    CommonDistinct();
    WithoutDistinct(CommonDynasties, correct);
  }

  /** The `location` pool always holds at least nine wrong cities. */
  lemma LocationPool(correct: string, seen: seq<string>)
    ensures correct !in Without(CommonCities, correct) && NoDup(Without(CommonCities, correct))
    ensures |Pool(correct, seen, Without(CommonCities, correct))| >= 9
  {
    CommonDistinct();
    WithoutDistinct(CommonCities, correct);
  }

  /** The `year` pool always holds at least three wrong years. */
  lemma YearPool(correct: string, seen: seq<string>)
    ensures |Pool(correct, seen, WrongYears(correct))| >= 3
  {
  }

  /** For "约公元前1045年" the digits 1045 are read and the era prefix is
      dropped: the distractors are 945年, 1145年, 845年 and 1245年. */
  lemma WrongYearsExample()
    ensures WrongYears("约公元前1045年") == ["945年", "1145年", "845年", "1245年"]
  {
    var y := "约公元前1045年";
    ReadYear();
    RenderYears();
    KeepsAll();
    assert WrongYears(y) == Without([YearText(945), YearText(1145), YearText(845), YearText(1245)], y);
  }

  /** Proof step of `WrongYearsExample`: none of the four equals the
      correct year. */
  lemma KeepsAll()
    ensures Without(["945年", "1145年", "845年", "1245年"], "约公元前1045年") == ["945年", "1145年", "845年", "1245年"]
  {
    var y := "约公元前1045年";
    var w := ["945年", "1145年", "845年", "1245年"];
    assert forall k :: 0 <= k < |w| ==> w[k][0] != y[0];
    assert w[1..][1..][1..][1..] == [];
  }

  /** Proof step of `WrongYearsExample`: the first digit run of
      "约公元前1045年" reads as 1045. */
  lemma ReadYear()
    ensures FirstDigitRun("约公元前1045年") == Some("1045")
    ensures ParseDigits("1045") == 1045
  {
    var y := "约公元前1045年";
    assert y[1..][1..][1..][1..] == "1045年";
    assert DigitPrefix("1045年") == "1045" by {
      assert "1045年"[1..] == "045年" && "045年"[1..] == "45年" && "45年"[1..] == "5年";
      assert "5年"[1..] == "年";
    }
    assert "1045"[..3] == "104" && "104"[..2] == "10" && "10"[..1] == "1" && "1"[..0] == "";
  }

  /** Proof step of `WrongYearsExample`: the four numbers render as digits
      followed by 年. */
  lemma RenderYears()
    ensures YearText(945) == "945年" && YearText(1145) == "1145年"
    ensures YearText(845) == "845年" && YearText(1245) == "1245年"
  {
    assert DigitChar(1) == '1' && DigitChar(2) == '2' && DigitChar(4) == '4' && DigitChar(5) == '5';
    assert DigitChar(8) == '8' && DigitChar(9) == '9';
    NatToStringSnoc(9, 4);
    NatToStringSnoc(94, 5);
    NatToStringSnoc(8, 4);
    NatToStringSnoc(84, 5);
    NatToStringSnoc(1, 1);
    NatToStringSnoc(11, 4);
    NatToStringSnoc(114, 5);
    NatToStringSnoc(1, 2);
    NatToStringSnoc(12, 4);
    NatToStringSnoc(124, 5);
  }
}
