/** The order in which a map is iterated whose keys are kept sorted. */
module OrderedKeys {
  type Key = nat

  predicate IsLeast(least: Key, keys: set<Key>) {
    least in keys && forall k | k in keys :: least <= k
  }

  lemma {:induction false} LeastExists(keys: set<Key>) returns (least: Key)
    requires keys != {}
    ensures IsLeast(least, keys)
    decreases |keys|
  {
    var first :| first in keys;
    var rest := keys - {first};
    least := first;
    if rest != {} {
      var m := LeastExists(rest);
      least := if m < first then m else first;
    }
    forall k | k in keys ensures least <= k {
      assert k == first || k in rest;
    }
  }

  /** `order` lists the elements of `keys` in increasing order. */
  ghost predicate Enumerates(order: seq<Key>, keys: set<Key>) {
    && (forall k :: k in order <==> k in keys)
    && (forall i, j | 0 <= i < j < |order| :: order[i] < order[j])
  }

  lemma LeastIsFirst(keys: set<Key>, order: seq<Key>, least: Key)
    requires Enumerates(order, keys)
    requires IsLeast(least, keys)
    ensures order != [] && order == [least] + order[1..]
    ensures Enumerates(order[1..], keys - {least})
  {
    assert order[0] in order;
    var rest := order[1..];
    forall k ensures k in rest <==> k in keys - {least} {
      if k in rest {
        var i :| 0 <= i < |rest| && rest[i] == k;
        assert k == order[i + 1] > order[0] && k in order;
      }
    }
  }

  lemma {:induction false} OrderExists(keys: set<Key>) returns (order: seq<Key>)
    ensures Enumerates(order, keys) && |order| == |keys|
    decreases |keys|
  {
    if keys == {} {
      order := [];
    } else {
      var least := LeastExists(keys);
      var rest := OrderExists(keys - {least});
      order := [least] + rest;
      assert forall i | 0 <= i < |rest| :: rest[i] in rest;
    }
  }

  lemma SomeOrder(keys: set<Key>)
    ensures exists order :: Enumerates(order, keys)
  {
    var order := OrderExists(keys);
  }

  /** The order in which an ordered map is iterated: increasing keys, each once. */
  ghost function InOrder(keys: set<Key>): (order: seq<Key>)
    ensures Enumerates(order, keys)
  {
    SomeOrder(keys);
    var order :| Enumerates(order, keys);
    order
  }

  lemma FirstListed(order: seq<Key>, keys: set<Key>)
    requires Enumerates(order, keys)
    ensures order != [] ==> order[0] in keys
  {
    assert order != [] ==> order[0] in order;
  }

  /** There is only one increasing order. */
  lemma {:induction false} OneOrder(order: seq<Key>, order': seq<Key>, keys: set<Key>)
    requires Enumerates(order, keys) && Enumerates(order', keys)
    ensures order == order'
    decreases |order|
  {
    if order == [] {
      FirstListed(order', keys);
    } else {
      assert order[0] in order && order[0] in keys;
      assert order' != [];
      assert order'[0] in order' && order'[0] in keys;
      var i :| 0 <= i < |order'| && order'[i] == order[0];
      var j :| 0 <= j < |order| && order[j] == order'[0];
      assert order[0] == order'[0];
      LeastIsFirst(keys, order, order[0]);
      LeastIsFirst(keys, order', order[0]);
      OneOrder(order[1..], order'[1..], keys - {order[0]});
    }
  }

  lemma InOrderIs(order: seq<Key>, keys: set<Key>)
    requires Enumerates(order, keys)
    ensures InOrder(keys) == order && |order| == |keys|
  {
    OneOrder(order, InOrder(keys), keys);
    var counted := OrderExists(keys);
    OneOrder(order, counted, keys);
  }
}
