/** The count of ships by type: a dictionary from type to count, filled in one
    pass over the records and read back in insertion order. */
module TypeTally {
  import opened Ships

  /** `ship.get("TYPE_SUMMARY", "Unknown")` */
  function TypeOf(r: Record): string {
    Get(r, "TYPE_SUMMARY", "Unknown")
  }

  /** The distinct types, in the order the records first show them. */
  function Types(ships: seq<Record>): (keys: seq<string>)
    ensures forall i, j :: 0 <= i < j < |keys| ==> keys[i] != keys[j]
    ensures forall t :: t in keys <==> exists i :: 0 <= i < |ships| && TypeOf(ships[i]) == t
  {
    if ships == [] then []
    else
      var prev := ships[..|ships| - 1];
      var t := TypeOf(ships[|ships| - 1]);
      assert forall i :: 0 <= i < |prev| ==> prev[i] == ships[i];
      if t in Types(prev) then Types(prev) else Types(prev) + [t]
  }

  /** The number of records whose type is `t`. */
  function CountOf(ships: seq<Record>, t: string): (n: nat)
    ensures n <= |ships|
    ensures n > 0 <==> exists i :: 0 <= i < |ships| && TypeOf(ships[i]) == t
  {
    if ships == [] then 0
    else
      var prev := ships[..|ships| - 1];
      assert forall i :: 0 <= i < |prev| ==> prev[i] == ships[i];
      CountOf(prev, t) + (if TypeOf(ships[|ships| - 1]) == t then 1 else 0)
  }

  /** Each key with its count, keys in the given order. */
  function Pairs(keys: seq<string>, ships: seq<Record>): (r: seq<(string, nat)>)
    ensures |r| == |keys|
    ensures forall i :: 0 <= i < |keys| ==> r[i] == (keys[i], CountOf(ships, keys[i]))
  {
    seq(|keys|, i requires 0 <= i < |keys| => (keys[i], CountOf(ships, keys[i])))
  }

  /** What `ship_types.items()` yields once every record has been counted:
      each distinct type in first-seen order, with its number of records. */
  function Tally(ships: seq<Record>): (r: seq<(string, nat)>)
    ensures |r| == |Types(ships)|
    ensures forall i :: 0 <= i < |r| ==> r[i].0 == Types(ships)[i] && r[i].1 == CountOf(ships, r[i].0)
  {
    Pairs(Types(ships), ships)
  }

  /** One more record adds one to the count of its own type only. */
  lemma CountOfStep(ships: seq<Record>, n: nat, t: string)
    requires n < |ships|
    ensures CountOf(ships[..n + 1], t) == CountOf(ships[..n], t) + (if TypeOf(ships[n]) == t then 1 else 0)
  {
    assert ships[..n + 1][..n] == ships[..n];
  }

  /** One more record adds its type at the end, unless it is already there. */
  lemma TypesStep(ships: seq<Record>, n: nat)
    requires n < |ships|
    ensures Types(ships[..n + 1]) == if TypeOf(ships[n]) in Types(ships[..n])
      then Types(ships[..n]) else Types(ships[..n]) + [TypeOf(ships[n])]
  {
    assert ships[..n + 1][..n] == ships[..n];
  }

  /** The first loop of `ships_by_types`: count the records per type, a missing
      type counting as `"Unknown"`. The dictionary is returned as its keys in
      insertion order and a map from key to count. */
  method CountTypes(ships: seq<Record>) returns (order: seq<string>, counts: map<string, nat>)
    ensures order == Types(ships)
    ensures forall t :: t in counts <==> t in order
    ensures forall t :: t in counts ==> counts[t] == CountOf(ships, t)
  {
    order := [];
    counts := map[];
    for n := 0 to |ships|
      invariant order == Types(ships[..n])
      invariant forall t :: t in counts <==> t in order
      invariant forall t :: t in counts ==> counts[t] == CountOf(ships[..n], t)
    {
      var shipType := TypeOf(ships[n]);
      TypesStep(ships, n);
      forall t | t in counts || t == shipType {
        CountOfStep(ships, n, t);
      }
      var count := if shipType in counts then counts[shipType] else 0;
      if shipType !in counts {
        order := order + [shipType];
      }
      counts := counts[shipType := count + 1];
    }
    assert ships[..|ships|] == ships;
  }

  /** `ships_by_types`: count the records per type, then read the counts back
      from `items()`, in the order the types were first met. */
  method ShipsByTypes(ships: seq<Record>) returns (tally: seq<(string, nat)>)
    ensures tally == Tally(ships)
  {
    var order, counts := CountTypes(ships);
    tally := [];
    for k := 0 to |order|
      invariant |tally| == k
      invariant forall i :: 0 <= i < k ==> tally[i] == (order[i], CountOf(ships, order[i]))
    {
      assert order[k] in order;
      tally := tally + [(order[k], counts[order[k]])];
    }
    assert tally == Pairs(order, ships);
  }

  /** The sum of the counts in a tally. */
  function Total(tally: seq<(string, nat)>): nat {
    if tally == [] then 0 else Total(tally[..|tally| - 1]) + tally[|tally| - 1].1
  }

  /** The sum, over `keys`, of the number of records of each key. */
  function SumCounts(keys: seq<string>, ships: seq<Record>): nat {
    if keys == [] then 0
    else SumCounts(keys[..|keys| - 1], ships) + CountOf(ships, keys[|keys| - 1])
  }

  lemma {:induction false} TotalOfPairs(keys: seq<string>, ships: seq<Record>)
    ensures Total(Pairs(keys, ships)) == SumCounts(keys, ships)
  {
    if keys != [] {
      var front := keys[..|keys| - 1];
      assert Pairs(keys, ships)[..|keys| - 1] == Pairs(front, ships);
      TotalOfPairs(front, ships);
    }
  }

  /** One more record adds one to the sum over distinct keys when its type is
      among them, and nothing otherwise. */
  lemma {:induction false} SumCountsAppend(keys: seq<string>, ships: seq<Record>, s: Record)
    requires forall i, j :: 0 <= i < j < |keys| ==> keys[i] != keys[j]
    ensures SumCounts(keys, ships + [s])
            == SumCounts(keys, ships) + (if TypeOf(s) in keys then 1 else 0)
  {
    if keys != [] {
      var front := keys[..|keys| - 1];
      SumCountsAppend(front, ships, s);
      assert (ships + [s])[..|ships|] == ships;
      assert TypeOf(s) in keys <==> TypeOf(s) in front || TypeOf(s) == keys[|keys| - 1];
      assert keys[|keys| - 1] !in front;
    }
  }

  /** The counts add up to the number of records. */
  lemma {:induction false} TallyTotal(ships: seq<Record>)
    ensures Total(Tally(ships)) == |ships|
  {
    TotalOfPairs(Types(ships), ships);
    TypesSum(ships);
  }

  lemma {:induction false} TypesSum(ships: seq<Record>)
    ensures SumCounts(Types(ships), ships) == |ships|
  {
    if ships != [] {
      var prev := ships[..|ships| - 1];
      var s := ships[|ships| - 1];
      var t := TypeOf(s);
      assert ships == prev + [s];
      TypesSum(prev);
      SumCountsAppend(Types(prev), prev, s);
      if t !in Types(prev) {
        var keys := Types(prev) + [t];
        assert keys[..|keys| - 1] == Types(prev);
        assert CountOf(prev, t) == 0;
      }
    }
  }

  /** Every listed type has at least one record, its count is the number of
      records of that type, and no type is listed twice. */
  lemma TallyCounts(ships: seq<Record>)
    ensures forall i, j :: 0 <= i < j < |Tally(ships)| ==> Tally(ships)[i].0 != Tally(ships)[j].0
    ensures forall i :: 0 <= i < |Tally(ships)| ==>
      Tally(ships)[i].1 >= 1 && Tally(ships)[i].1 == CountOf(ships, Tally(ships)[i].0)
    ensures forall i :: 0 <= i < |ships| ==> exists j :: 0 <= j < |Tally(ships)| && Tally(ships)[j].0 == TypeOf(ships[i])
  {
    var keys := Types(ships);
    forall i | 0 <= i < |Tally(ships)|
      ensures Tally(ships)[i].1 >= 1
    {
      assert keys[i] in keys;
    }
    forall i | 0 <= i < |ships|
      ensures exists j :: 0 <= j < |Tally(ships)| && Tally(ships)[j].0 == TypeOf(ships[i])
    {
      assert TypeOf(ships[i]) in keys;
      var j :| 0 <= j < |keys| && keys[j] == TypeOf(ships[i]);
      assert Tally(ships)[j].0 == keys[j];
    }
  }

  /** The position of the first record of type `t`. */
  function FirstIndex(ships: seq<Record>, t: string): (p: nat)
    requires t in Types(ships)
    ensures p < |ships| && TypeOf(ships[p]) == t
    ensures forall q :: 0 <= q < p ==> TypeOf(ships[q]) != t
  {
    var prev := ships[..|ships| - 1];
    assert forall i :: 0 <= i < |prev| ==> prev[i] == ships[i];
    if t in Types(prev) then FirstIndex(prev, t) else |ships| - 1
  }

  /** The types come out in the order their first records appear. */
  lemma {:induction false} TallyFirstSeenOrder(ships: seq<Record>, i: int, j: int)
    requires 0 <= i < j < |Tally(ships)|
    ensures Tally(ships)[i].0 in Types(ships) && Tally(ships)[j].0 in Types(ships)
    ensures FirstIndex(ships, Tally(ships)[i].0) < FirstIndex(ships, Tally(ships)[j].0)
  {
    var keys := Types(ships);
    assert keys[i] in keys && keys[j] in keys;
    var prev := ships[..|ships| - 1];
    var earlier := Types(prev);
    if j < |earlier| {
      assert keys[i] == earlier[i] && keys[j] == earlier[j];
      assert earlier[i] in earlier && earlier[j] in earlier;
      TallyFirstSeenOrder(prev, i, j);
    } else {
      assert keys[i] == earlier[i] && earlier[i] in earlier;
    }
  }
}
