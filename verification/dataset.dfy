/** The read-only reference dataset (`history-data.json`): a sequence of city
    records, each holding its historical items. */
module Dataset {
  import opened Seqs

  /** One historical item: event, landmark or person. `kind` is the `type`
      field. */
  datatype Item = Item(title: string, kind: string, dynasty: string, year: string,
                       description: string, image: string)

  /** A city record. The optional map coordinates are presentation data and
      are not carried. */
  datatype City = City(name: string, province: string, items: seq<Item>)

  /** An item together with the city it belongs to: the elements of the
      quiz's `allItems` list and of the period filter. */
  datatype Entry = Entry(city: string, province: string, item: Item)

  predicate InCity(e: Entry, c: City) {
    e.city == c.name && e.province == c.province && e.item in c.items
  }

  /** `historyData.reduce((sum, city) => sum + city.items.length, 0)`. */
  function TotalItems(data: seq<City>): nat {
    if |data| == 0 then 0 else |data[0].items| + TotalItems(data[1..])
  }

  /** The entries of one city, in item order. */
  function CityEntries(c: City): (r: seq<Entry>)
    ensures |r| == |c.items|
    ensures forall i :: 0 <= i < |r| ==> r[i] == Entry(c.name, c.province, c.items[i])
  {
    seq(|c.items|, i requires 0 <= i < |c.items| => Entry(c.name, c.province, c.items[i]))
  }

  /** Every item of every city, cities in dataset order and items in city
      order. It has one entry per item, and an entry occurs exactly when its
      item belongs to a city record with that name and province. */
  function Flatten(data: seq<City>): (r: seq<Entry>)
    ensures |r| == TotalItems(data)
    ensures forall e :: e in r <==> exists k :: 0 <= k < |data| && InCity(e, data[k])
  {
    if |data| == 0 then []
    else
      var tail := data[1..];
      var rest := Flatten(tail);
      assert forall e :: e in CityEntries(data[0]) <==> InCity(e, data[0]) by {
        forall e | InCity(e, data[0]) ensures e in CityEntries(data[0]) {
          var i :| 0 <= i < |data[0].items| && data[0].items[i] == e.item;
          assert CityEntries(data[0])[i] == e;
        }
      }
      assert forall k :: 0 < k < |data| ==> data[k] == tail[k - 1];
      CityEntries(data[0]) + rest
  }

  /** `historyData.find(c => c.city === name)`: the first city record with
      that name. */
  function FindCity(data: seq<City>, name: string): (r: Option<City>)
    ensures r.None? <==> forall k :: 0 <= k < |data| ==> data[k].name != name
    ensures r.Some? ==> exists k :: 0 <= k < |data| && data[k] == r.value && data[k].name == name
                                    && forall j :: 0 <= j < k ==> data[j].name != name
  {
    match FirstIndex(data, (c: City) => c.name == name)
    case Some(k) => Some(data[k])
    case None => None
  }

  /** `items.find(i => i.title === title)`: the first item with that title. */
  function FindItem(items: seq<Item>, title: string): (r: Option<Item>)
    ensures r.None? <==> forall k :: 0 <= k < |items| ==> items[k].title != title
    ensures r.Some? ==> exists k :: 0 <= k < |items| && items[k] == r.value && items[k].title == title
                                    && forall j :: 0 <= j < k ==> items[j].title != title
  {
    match FirstIndex(items, (it: Item) => it.title == title)
    case Some(k) => Some(items[k])
    case None => None
  }
}
