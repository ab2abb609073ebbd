/** `normalizeProvinceName` of the main script: turning the full province
    name a map region carries into the short name the dataset uses. */
module Provinces {
  import opened Seqs
  import opened Text
  import opened Dataset

  /** The 34 full names and their short forms, in table order. */
  const ProvinceMap: seq<(string, string)> := [
    ("北京市", "北京"), ("天津市", "天津"), ("上海市", "上海"), ("重庆市", "重庆"),
    ("河北省", "河北"), ("山西省", "山西"), ("辽宁省", "辽宁"), ("吉林省", "吉林"),
    ("黑龙江省", "黑龙江"), ("江苏省", "江苏"), ("浙江省", "浙江"), ("安徽省", "安徽"),
    ("福建省", "福建"), ("江西省", "江西"), ("山东省", "山东"), ("河南省", "河南"),
    ("湖北省", "湖北"), ("湖南省", "湖南"), ("广东省", "广东"), ("海南省", "海南"),
    ("四川省", "四川"), ("贵州省", "贵州"), ("云南省", "云南"), ("陕西省", "陕西"),
    ("甘肃省", "甘肃"), ("青海省", "青海"), ("台湾省", "台湾"),
    ("内蒙古自治区", "内蒙古"), ("广西壮族自治区", "广西"), ("西藏自治区", "西藏"),
    ("宁夏回族自治区", "宁夏"), ("新疆维吾尔自治区", "新疆"),
    ("香港特别行政区", "香港"), ("澳门特别行政区", "澳门")
  ]

  /** No character of `s` starts one of the four suffixes. */
  predicate SuffixFree(s: string) {
    forall i :: 0 <= i < |s| ==> PlainChar(s[i])
  }

  /** A character that starts none of the four suffixes. */
  predicate PlainChar(c: char) {
    c != '省' && c != '市' && c != '自' && c != '特'
  }

  /** `s.replace(/省|市|自治区|特别行政区/g, '')`: one left-to-right scan that
      drops every occurrence of the four suffixes; text the removal brings
      together is not scanned again. */
  function StripSuffixes(s: string): (r: string)
    ensures |r| <= |s|
    ensures '省' !in r && '市' !in r
    ensures SuffixFree(s) ==> r == s
    decreases |s|
  {
    if |s| == 0 then ""
    else if s[0] == '省' || s[0] == '市' then StripSuffixes(s[1..])
    else if "自治区" <= s then StripSuffixes(s[3..])
    else if "特别行政区" <= s then StripSuffixes(s[5..])
    else [s[0]] + StripSuffixes(s[1..])
  }

  /** Neither of the one-character suffixes 省 and 市. */
  predicate NotProvinceOrCity(c: char) {
    c != '省' && c != '市'
  }

  /** A first character that starts no suffix is kept, and the scan goes
      on after it. */
  lemma StripPlainHead(c: char, rest: string)
    requires PlainChar(c)
    ensures StripSuffixes([c] + rest) == [c] + StripSuffixes(rest)
  {
    var s := [c] + rest;
    assert s[0] == c && s[1..] == rest;
    assert !("自治区" <= s) && !("特别行政区" <= s) by {
      assert "自治区"[0] == '自' && "特别行政区"[0] == '特';
    }
  }

  /** Text free of suffix characters passes the scan unchanged, and the
      scan goes on with the rest. */
  lemma {:induction false} StripAfterPlain(a: string, b: string)
    requires SuffixFree(a)
    ensures StripSuffixes(a + b) == a + StripSuffixes(b)
  {
    if |a| == 0 {
      assert a + b == b;
      assert a + StripSuffixes(b) == StripSuffixes(b);
    } else {
      var rest := a[1..] + b;
      assert a + b == [a[0]] + rest;
      StripAfterPlain(a[1..], b);
      StripPlainHead(a[0], rest);
      ConsHead(a, StripSuffixes(b));
    }
  }

  lemma ConsHead(a: string, t: string)
    requires |a| > 0
    ensures [a[0]] + (a[1..] + t) == a + t
  {
    assert a == [a[0]] + a[1..];
  }

  /** Without 自 or 特 only the one-character suffixes can occur, and the
      scan drops exactly the characters 省 and 市. */
  lemma {:induction false} StripDropsProvinceAndCity(s: string)
    requires '自' !in s && '特' !in s
    ensures StripSuffixes(s) == Filter(s, NotProvinceOrCity)
  {
    if |s| > 0 {
      assert s[0] != '自' && s[0] != '特';
      assert !("自治区" <= s) && !("特别行政区" <= s) by {
        assert "自治区"[0] == '自' && "特别行政区"[0] == '特';
      }
      assert forall c :: c in s[1..] ==> c in s;
      StripDropsProvinceAndCity(s[1..]);
    }
  }

  /** The four suffixes the scan removes. */
  const Suffixes: seq<string> := ["省", "市", "自治区", "特别行政区"]

  /** A suffix-free name followed by one suffix comes back as the name:
      河北省 gives 河北 and 内蒙古自治区 gives 内蒙古. */
  lemma StripOneSuffix(a: string, x: string)
    requires SuffixFree(a)
    requires x in Suffixes
    ensures StripSuffixes(a + x) == a
  {
    StripAfterPlain(a, x);
    assert x == "省" || x == "市" || x == "自治区" || x == "特别行政区";
    assert StripSuffixes(x) == "";
  }

  /** The scan removes 自治区 wherever it occurs, not only at the end, and
      leaves the ethnic part of an autonomous region's name: 广西壮族自治区
      gives 广西壮族, which no city record uses, so the fuzzy rule decides. */
  lemma StripAutonomous()
    ensures StripSuffixes("广西壮族自治区") == "广西壮族"
  {
    StripOneSuffix("广西壮族", "自治区");
    assert "广西壮族" + "自治区" == "广西壮族自治区";
  }

  /** The fuzzy rule for one table row: the full name holds the input, or
      the input holds the full name with its suffixes stripped. */
  predicate FuzzyHit(row: (string, string), name: string) {
    Contains(row.0, name) || Contains(name, StripSuffixes(row.0))
  }

  /** The loop over `Object.entries(provinceMap)`: the short form of the
      first row the fuzzy rule accepts. */
  function FuzzyMatch(table: seq<(string, string)>, name: string): (r: Option<string>)
    ensures r.None? <==> forall i :: 0 <= i < |table| ==> !FuzzyHit(table[i], name)
    ensures forall i :: (0 <= i < |table| && FuzzyHit(table[i], name)
                         && forall j :: 0 <= j < i ==> !FuzzyHit(table[j], name)) ==> r == Some(table[i].1)
    ensures r.Some? ==> exists i :: 0 <= i < |table| && table[i].1 == r.value
  {
    if |table| == 0 then None
    else if FuzzyHit(table[0], name) then Some(table[0].1)
    else
      assert forall i :: 0 < i < |table| ==> table[i] == table[1..][i - 1];
      FuzzyMatch(table[1..], name)
  }

  /** Some city record of the dataset carries this province name. */
  predicate HasProvince(data: seq<City>, p: string) {
    exists k :: 0 <= k < |data| && data[k].province == p
  }

  /** `normalizeProvinceName` over a name table, its rules tried in order:
      an exact table key gives its short form; otherwise the name with its
      suffixes stripped, when some city record uses it; otherwise the first
      fuzzy table match; otherwise the name itself. */
  function Normalize(table: seq<(string, string)>, name: string, data: seq<City>): (r: string)
    ensures forall i :: (0 <= i < |table| && table[i].0 == name
                         && forall j :: 0 <= j < i ==> table[j].0 != name) ==> r == table[i].1
    ensures (forall i :: 0 <= i < |table| ==> table[i].0 != name) && HasProvince(data, StripSuffixes(name)) ==>
              r == StripSuffixes(name)
    ensures (forall i :: 0 <= i < |table| ==> table[i].0 != name) && !HasProvince(data, StripSuffixes(name)) ==>
              r == (match FuzzyMatch(table, name) case Some(v) => v case None => name)
    ensures r == name || r == StripSuffixes(name) || exists i :: 0 <= i < |table| && r == table[i].1
  {
    match Lookup(table, name)
    case Some(short) => short
    case None =>
      var stripped := StripSuffixes(name);
      if HasProvince(data, stripped) then stripped
      else
        match FuzzyMatch(table, name)
        case Some(short) => short
        case None => name
  }

  /** Every full name in the table carries one of the suffixes. */
  lemma TableKeysCarrySuffix()
    ensures forall i :: 0 <= i < |ProvinceMap| ==> !SuffixFree(ProvinceMap[i].0)
  {
    forall i | 0 <= i < |ProvinceMap| ensures !SuffixFree(ProvinceMap[i].0) {
      var k := ProvinceMap[i].0;
      if i < 27 {
        assert k[|k| - 1] == '省' || k[|k| - 1] == '市';
      } else if i < 32 {
        assert k[|k| - 3] == '自';
      } else {
        assert k[|k| - 5] == '特';
      }
    }
  }

  /** `normalizeProvinceName` with its own table. A short name the dataset
      already uses comes back unchanged. */
  function NormalizeProvinceName(name: string, data: seq<City>): (r: string)
    ensures SuffixFree(name) && HasProvince(data, name) ==> r == name
  {
    TableKeysCarrySuffix();
    Normalize(ProvinceMap, name, data)
  }

  /** A name no rule accepts comes back unchanged. */
  lemma NoRuleKeepsName(name: string, data: seq<City>)
    requires forall i :: 0 <= i < |ProvinceMap| ==> ProvinceMap[i].0 != name && !FuzzyHit(ProvinceMap[i], name)
    requires !HasProvince(data, StripSuffixes(name))
    ensures NormalizeProvinceName(name, data) == name
  {
  }

  /** A full table name maps to its short form whatever the dataset holds. */
  lemma ExactKey(data: seq<City>)
    ensures NormalizeProvinceName("广西壮族自治区", data) == "广西"
    ensures NormalizeProvinceName("北京市", data) == "北京"
  {
    assert ProvinceMap[0].0 == "北京市";
    assert ProvinceMap[28].0 == "广西壮族自治区";
    assert forall j :: 0 <= j < 28 ==> ProvinceMap[j].0 != "广西壮族自治区";
  }

  /** An empty name is a substring of every full name, so when no record
      has an empty province it normalises to the first row, Beijing. */
  lemma EmptyNameIsBeijing(data: seq<City>)
    requires !HasProvince(data, "")
    ensures NormalizeProvinceName("", data) == "北京"
  {
    assert StripSuffixes("") == "";
    assert OccursAt(ProvinceMap[0].0, "", 0);
    assert FuzzyHit(ProvinceMap[0], "");
    assert forall i :: 0 <= i < |ProvinceMap| ==> |ProvinceMap[i].0| > 0;
  }
}
