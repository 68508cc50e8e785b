/** Sums of weights along a sequence, for counting threads and for measuring progress. */
module Tallies {
  ghost function Tally<T>(items: seq<T>, weight: T -> nat): nat {
    if items == [] then 0 else weight(items[0]) + Tally(items[1..], weight)
  }

  lemma {:induction false} TallyUpdate<T>(items: seq<T>, i: nat, item: T, weight: T -> nat)
    requires i < |items|
    ensures Tally(items[i := item], weight) + weight(items[i]) == Tally(items, weight) + weight(item)
    decreases |items|
  {
    if i == 0 {
      assert items[i := item][1..] == items[1..];
    } else {
      assert items[i := item][1..] == items[1..][i - 1 := item];
      TallyUpdate(items[1..], i - 1, item, weight);
    }
  }

  lemma {:induction false} TallyAppend<T>(items: seq<T>, item: T, weight: T -> nat)
    ensures Tally(items + [item], weight) == Tally(items, weight) + weight(item)
    decreases |items|
  {
    if items == [] {
      assert items + [item] == [item];
    } else {
      assert (items + [item])[1..] == items[1..] + [item];
      TallyAppend(items[1..], item, weight);
    }
  }

  /** A positive sum has a positive weight in it. */
  lemma {:induction false} TallyWitness<T>(items: seq<T>, weight: T -> nat) returns (i: nat)
    requires Tally(items, weight) > 0
    ensures i < |items| && weight(items[i]) > 0
    decreases |items|
  {
    if weight(items[0]) > 0 {
      i := 0;
    } else {
      var j := TallyWitness(items[1..], weight);
      i := j + 1;
    }
  }

  lemma {:induction false} TallyAtLeast<T>(items: seq<T>, i: nat, weight: T -> nat)
    requires i < |items|
    ensures Tally(items, weight) >= weight(items[i])
    decreases |items|
  {
    if i > 0 {
      TallyAtLeast(items[1..], i - 1, weight);
    }
  }
}
