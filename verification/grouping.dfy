/**
  Group-by over sales, the accumulation pattern used four times in the
  application (the period summary, the top products, and the two charts):
  walk the sales in order; if the key already has an entry, add the sale's
  quantity and total price to it; otherwise append a new entry opened by this
  sale. Entries therefore appear in first-seen key order.

  `Keys` and `Matching` are the independent reference definitions the
  grouping is proved against.
 */
module Grouping {

  import opened Seqs
  import opened Model

  /** An accumulator entry: its key, the sale that opened it, and the running sums. */
  datatype Group<K> = Group(key: K, first: Sale, units: int, revenue: int)

  function GroupRevenue<K>(g: Group<K>): int { g.revenue }
  function GroupUnits<K>(g: Group<K>): int { g.units }

  function Last<T>(s: seq<T>): T
    requires |s| > 0
  {
    s[|s| - 1]
  }

  function AllButLast<T>(s: seq<T>): (r: seq<T>)
    requires |s| > 0
    ensures s == r + [Last(s)]
  {
    s[..|s| - 1]
  }

  /** `productMap.get(key)`: the position of the entry for `k`, if there is one. */
  function FindKey<K(==)>(gs: seq<Group<K>>, k: K): (r: Option<nat>)
    ensures r.Some? ==> r.value < |gs| && gs[r.value].key == k
    ensures r.None? ==> forall j :: 0 <= j < |gs| ==> gs[j].key != k
  {
    if |gs| == 0 then None
    else if gs[0].key == k then Some(0)
    else match FindKey(gs[1..], k)
      case None => None
      case Some(i) => Some(i + 1)
  }

  /** One step of the accumulation: update the entry for `k`, or open one. */
  function AddSale<K(==)>(gs: seq<Group<K>>, sale: Sale, k: K): seq<Group<K>>
  {
    match FindKey(gs, k)
    case Some(i) =>
      gs[i := gs[i].(units := gs[i].units + sale.quantity, revenue := gs[i].revenue + sale.totalPrice)]
    case None =>
      gs + [Group(k, sale, sale.quantity, sale.totalPrice)]
  }

  /** The accumulation over all sales, left to right. */
  function GroupBy<K(==)>(sales: seq<Sale>, keyOf: Sale -> K): seq<Group<K>>
    decreases |sales|
  {
    if |sales| == 0 then []
    else AddSale(GroupBy(AllButLast(sales), keyOf), Last(sales), keyOf(Last(sales)))
  }

  /** Reference: the distinct keys of the sales, each at its first occurrence. */
  function Keys<K(==)>(sales: seq<Sale>, keyOf: Sale -> K): seq<K>
    decreases |sales|
  {
    if |sales| == 0 then []
    else
      var ks := Keys(AllButLast(sales), keyOf);
      if keyOf(Last(sales)) in ks then ks else ks + [keyOf(Last(sales))]
  }

  /** Reference: the sales carrying key `k`, in order. */
  function Matching<K(==)>(sales: seq<Sale>, keyOf: Sale -> K, k: K): seq<Sale>
    decreases |sales|
  {
    if |sales| == 0 then []
    else Matching(AllButLast(sales), keyOf, k) + (if keyOf(Last(sales)) == k then [Last(sales)] else [])
  }

  /** A key is listed iff some sale carries it. */
  lemma {:induction false} KeyListed<K>(sales: seq<Sale>, keyOf: Sale -> K, k: K)
    ensures k in Keys(sales, keyOf) <==> |Matching(sales, keyOf, k)| > 0
    decreases |sales|
  {
    if |sales| > 0 {
      KeyListed(AllButLast(sales), keyOf, k);
    }
  }

  /** No key is listed twice. */
  lemma {:induction false} KeysDistinct<K>(sales: seq<Sale>, keyOf: Sale -> K)
    ensures forall i, j :: 0 <= i < j < |Keys(sales, keyOf)| ==>
              Keys(sales, keyOf)[i] != Keys(sales, keyOf)[j]
    decreases |sales|
  {
    if |sales| > 0 {
      KeysDistinct(AllButLast(sales), keyOf);
    }
  }

  /** A key is listed iff some sale carries it, and no key is listed twice. */
  lemma KeysSpec<K>(sales: seq<Sale>, keyOf: Sale -> K)
    ensures forall k :: k in Keys(sales, keyOf) <==> |Matching(sales, keyOf, k)| > 0
    ensures forall i, j :: 0 <= i < j < |Keys(sales, keyOf)| ==>
              Keys(sales, keyOf)[i] != Keys(sales, keyOf)[j]
    ensures |sales| > 0 ==> |Keys(sales, keyOf)| > 0
  {
    forall k ensures k in Keys(sales, keyOf) <==> |Matching(sales, keyOf, k)| > 0 {
      KeyListed(sales, keyOf, k);
    }
    KeysDistinct(sales, keyOf);
  }

  /** Every sale in `Matching(sales, keyOf, k)` is one of `sales` and carries `k`. */
  lemma {:induction false} MatchingSpec<K>(sales: seq<Sale>, keyOf: Sale -> K, k: K)
    ensures forall i :: 0 <= i < |Matching(sales, keyOf, k)| ==>
              Matching(sales, keyOf, k)[i] in sales && keyOf(Matching(sales, keyOf, k)[i]) == k
    ensures forall i :: 0 <= i < |sales| && keyOf(sales[i]) == k ==> sales[i] in Matching(sales, keyOf, k)
    decreases |sales|
  {
    if |sales| > 0 {
      MatchingSpec(AllButLast(sales), keyOf, k);
      assert sales == AllButLast(sales) + [Last(sales)];
    }
  }

  /** The grouping's entries carry exactly the distinct keys, in first-seen order. */
  lemma {:induction false} GroupByKeys<K>(sales: seq<Sale>, keyOf: Sale -> K)
    ensures |GroupBy(sales, keyOf)| == |Keys(sales, keyOf)|
    ensures forall i :: 0 <= i < |GroupBy(sales, keyOf)| ==>
              GroupBy(sales, keyOf)[i].key == Keys(sales, keyOf)[i]
    decreases |sales|
  {
    if |sales| > 0 {
      var p, x := AllButLast(sales), Last(sales);
      var k := keyOf(x);
      var gs0, ks0 := GroupBy(p, keyOf), Keys(p, keyOf);
      GroupByKeys(p, keyOf);
      match FindKey(gs0, k)
      case Some(i) =>
        assert gs0[i].key == k;
      case None =>
    }
  }

  /** An entry holds the sums over, and was opened by the first of, the sales with its key. */
  ghost predicate EntryCorrect<K>(sales: seq<Sale>, keyOf: Sale -> K, g: Group<K>)
  {
    var m := Matching(sales, keyOf, g.key);
    && |m| > 0
    && g.first == m[0]
    && g.units == SumBy(m, Units)
    && g.revenue == SumBy(m, Revenue)
  }

  lemma EntryUntouched<K>(sales: seq<Sale>, keyOf: Sale -> K, g: Group<K>)
    requires |sales| > 0
    requires keyOf(Last(sales)) != g.key
    requires EntryCorrect(AllButLast(sales), keyOf, g)
    ensures EntryCorrect(sales, keyOf, g)
  {
    var m0 := Matching(AllButLast(sales), keyOf, g.key);
    assert m0 + [] == m0;
    assert Matching(sales, keyOf, g.key) == m0;
  }

  lemma EntryUpdated<K>(sales: seq<Sale>, keyOf: Sale -> K, g: Group<K>)
    requires |sales| > 0
    requires keyOf(Last(sales)) == g.key
    requires EntryCorrect(AllButLast(sales), keyOf, g)
    ensures EntryCorrect(sales, keyOf,
      g.(units := g.units + Last(sales).quantity, revenue := g.revenue + Last(sales).totalPrice))
  {
    var m0, x := Matching(AllButLast(sales), keyOf, g.key), Last(sales);
    assert Matching(sales, keyOf, g.key) == m0 + [x];
    SumByAppend(m0, x, Units);
    SumByAppend(m0, x, Revenue);
    assert (m0 + [x])[0] == m0[0];
  }

  lemma EntryOpened<K>(sales: seq<Sale>, keyOf: Sale -> K)
    requires |sales| > 0
    requires Matching(AllButLast(sales), keyOf, keyOf(Last(sales))) == []
    ensures EntryCorrect(sales, keyOf,
      Group(keyOf(Last(sales)), Last(sales), Last(sales).quantity, Last(sales).totalPrice))
  {
    var x := Last(sales);
    assert Matching(sales, keyOf, keyOf(x)) == [x];
    assert [x][1..] == [];
  }

  ghost predicate AllEntriesCorrect<K>(sales: seq<Sale>, keyOf: Sale -> K, gs: seq<Group<K>>)
  {
    forall i :: 0 <= i < |gs| ==> EntryCorrect(sales, keyOf, gs[i])
  }

  lemma StepExisting<K>(sales: seq<Sale>, keyOf: Sale -> K, gs0: seq<Group<K>>, i: nat)
    requires |sales| > 0 && i < |gs0|
    requires gs0[i].key == keyOf(Last(sales))
    requires forall j :: 0 <= j < |gs0| && j != i ==> gs0[j].key != gs0[i].key
    requires AllEntriesCorrect(AllButLast(sales), keyOf, gs0)
    ensures AllEntriesCorrect(sales, keyOf,
      gs0[i := gs0[i].(units := gs0[i].units + Last(sales).quantity,
                       revenue := gs0[i].revenue + Last(sales).totalPrice)])
  {
    EntryUpdated(sales, keyOf, gs0[i]);
    forall j | 0 <= j < |gs0| && j != i
      ensures EntryCorrect(sales, keyOf, gs0[j])
    {
      EntryUntouched(sales, keyOf, gs0[j]);
    }
  }

  lemma StepNew<K>(sales: seq<Sale>, keyOf: Sale -> K, gs0: seq<Group<K>>)
    requires |sales| > 0
    requires forall j :: 0 <= j < |gs0| ==> gs0[j].key != keyOf(Last(sales))
    requires Matching(AllButLast(sales), keyOf, keyOf(Last(sales))) == []
    requires AllEntriesCorrect(AllButLast(sales), keyOf, gs0)
    ensures AllEntriesCorrect(sales, keyOf,
      gs0 + [Group(keyOf(Last(sales)), Last(sales), Last(sales).quantity, Last(sales).totalPrice)])
  {
    EntryOpened(sales, keyOf);
    forall j | 0 <= j < |gs0|
      ensures EntryCorrect(sales, keyOf, gs0[j])
    {
      EntryUntouched(sales, keyOf, gs0[j]);
    }
  }

  /** Each entry holds the sums of quantity and total price over the sales with its key,
      and the sale that opened it is the first of them. */
  lemma {:induction false} GroupByEntries<K>(sales: seq<Sale>, keyOf: Sale -> K)
    ensures AllEntriesCorrect(sales, keyOf, GroupBy(sales, keyOf))
    decreases |sales|
  {
    if |sales| > 0 {
      var p, x := AllButLast(sales), Last(sales);
      var k := keyOf(x);
      var gs0, ks0 := GroupBy(p, keyOf), Keys(p, keyOf);
      GroupByEntries(p, keyOf);
      GroupByKeys(p, keyOf);
      match FindKey(gs0, k)
      case Some(i) =>
        KeysDistinct(p, keyOf);
        StepExisting(sales, keyOf, gs0, i);
      case None =>
        assert k !in ks0;
        KeyListed(p, keyOf, k);
        StepNew(sales, keyOf, gs0);
    }
  }

  /** The entries' revenues (and units) add up to the revenue (and units) of all sales. */
  lemma {:induction false} GroupByTotals<K>(sales: seq<Sale>, keyOf: Sale -> K)
    ensures SumBy(GroupBy(sales, keyOf), GroupRevenue) == SumBy(sales, Revenue)
    ensures SumBy(GroupBy(sales, keyOf), GroupUnits) == SumBy(sales, Units)
    decreases |sales|
  {
    if |sales| > 0 {
      var p, x := AllButLast(sales), Last(sales);
      var k := keyOf(x);
      var gs0 := GroupBy(p, keyOf);
      GroupByTotals(p, keyOf);
      SumByAppend(p, x, Revenue);
      SumByAppend(p, x, Units);
      match FindKey(gs0, k)
      case Some(i) =>
        var g' := gs0[i].(units := gs0[i].units + x.quantity, revenue := gs0[i].revenue + x.totalPrice);
        SumByUpdate(gs0, i, g', GroupRevenue);
        SumByUpdate(gs0, i, g', GroupUnits);
      case None =>
        var g := Group(k, x, x.quantity, x.totalPrice);
        SumByAppend(gs0, g, GroupRevenue);
        SumByAppend(gs0, g, GroupUnits);
    }
  }
}
