/** Python's insertion-ordered dictionary: assigning an existing key keeps its place,
    a new key goes last, and a removed key that is assigned again goes last too. */
module OrderedDicts {
  import opened Basics

  datatype OrderedDict<+V> = OrderedDict(order: seq<string>, vals: map<string, V>) {

    ghost predicate Valid() {
      NoDup(order) && forall k :: k in order <==> k in vals
    }

    function Get(k: string): Option<V> {
      if k in vals then Some(vals[k]) else None
    }

    function Pop(k: string): (d: OrderedDict<V>)
      ensures Valid() ==> d.Valid()
      ensures d.vals == vals - {k}
    {
      OrderedDict(Without(order, k), vals - {k})
    }

    function Items(): (r: seq<(string, V)>)
      requires Valid()
      ensures |r| == |order|
      ensures forall i :: 0 <= i < |r| ==> r[i] == (order[i], vals[order[i]])
    {
      seq(|order|, i requires 0 <= i < |order| => (order[i], vals[order[i]]))
    }

    function Values(): (r: seq<V>)
      requires Valid()
      ensures |r| == |order|
      ensures forall i :: 0 <= i < |r| ==> r[i] == vals[order[i]]
    {
      seq(|order|, i requires 0 <= i < |order| => vals[order[i]])
    }
  }

  function Empty<V>(): OrderedDict<V> {
    OrderedDict([], map[])
  }

  function Put<V>(d: OrderedDict<V>, k: string, v: V): (r: OrderedDict<V>)
    ensures d.Valid() ==> r.Valid()
    ensures r.vals == d.vals[k := v]
  {
    assert d.Valid() && k !in d.vals ==> NoDup(d.order + [k]) by {
      if d.Valid() && k !in d.vals { ConcatNoDup(d.order, [k]); }
    }
    OrderedDict(if k in d.vals then d.order else d.order + [k], d.vals[k := v])
  }
}
