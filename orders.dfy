/**
 * Orders and their aggregation: the `Order` record, grouping of a list of
 * orders by item name (`loadOrdersByItem`) or by user name
 * (`loadItemsByUser`), and the facts that make the groupings trustworthy:
 * every key comes from an order, every count is the number of orders with that
 * key, and the groups together account for every order exactly once.
 *
 * Java's HashMap has no specified iteration order, so the groupings are Dafny
 * maps and anything that walks them does so along some enumeration of their
 * keys (`IsKeyOrder`).
 */
module Orders {
  import opened Text

  /** One user's request for one named item; never changed once created. */
  datatype Order = Order(userId: int, userName: string, name: string)

  /** The two ways the handler groups orders. */
  datatype Grouping = ByItemName | ByUserName

  function KeyOf(o: Order, g: Grouping): string {
    match g
    case ByItemName => o.name
    case ByUserName => o.userName
  }

  /** The orders of `s` whose key is `k`, in their original relative order. */
  function Group(s: seq<Order>, g: Grouping, k: string): (r: seq<Order>)
    ensures |r| <= |s|
  {
    if s == [] then []
    else
      var o := s[|s| - 1];
      Group(s[..|s| - 1], g, k) + (if KeyOf(o, g) == k then [o] else [])
  }

  /** The keys that occur in `s`. */
  function KeySet(s: seq<Order>, g: Grouping): set<string> {
    set o | o in s :: KeyOf(o, g)
  }

  lemma KeySetSnoc(s: seq<Order>, o: Order, g: Grouping)
    ensures KeySet(s + [o], g) == KeySet(s, g) + {KeyOf(o, g)}
  {
    var l := KeySet(s + [o], g);
    var r := KeySet(s, g) + {KeyOf(o, g)};
    forall k | k in l ensures k in r {
      var p :| p in s + [o] && KeyOf(p, g) == k;
      if p != o {
        assert p in s;
      }
    }
    forall k | k in r ensures k in l {
      if k != KeyOf(o, g) {
        var p :| p in s && KeyOf(p, g) == k;
        assert p in s + [o];
      } else {
        assert o in s + [o];
      }
    }
  }

  /** The keys of a non-empty list: those of all but its last order, and the last order's. */
  lemma KeySetLast(s: seq<Order>, g: Grouping)
    requires s != []
    ensures KeySet(s, g) == KeySet(s[..|s| - 1], g) + {KeyOf(s[|s| - 1], g)}
  {
    assert s[..|s| - 1] + [s[|s| - 1]] == s;
    KeySetSnoc(s[..|s| - 1], s[|s| - 1], g);
  }

  lemma GroupSnoc(s: seq<Order>, o: Order, g: Grouping, k: string)
    ensures Group(s + [o], g, k) == Group(s, g, k) + (if KeyOf(o, g) == k then [o] else [])
  {
    assert (s + [o])[..|s|] == s;
  }

  /** A key has a non-empty group exactly when some order carries it. */
  lemma {:induction false} GroupNonEmpty(s: seq<Order>, g: Grouping, k: string)
    ensures |Group(s, g, k)| > 0 <==> k in KeySet(s, g)
  {
    if s != [] {
      var p, o := s[..|s| - 1], s[|s| - 1];
      assert s == p + [o];
      GroupNonEmpty(p, g, k);
      KeySetSnoc(p, o, g);
    }
  }

  /** A group holds every order with its key, as often as it occurs, and nothing else. */
  lemma {:induction false} GroupMultiplicity(s: seq<Order>, g: Grouping, k: string, o: Order)
    ensures multiset(Group(s, g, k))[o] == if KeyOf(o, g) == k then multiset(s)[o] else 0
  {
    if s != [] {
      var p, q := s[..|s| - 1], s[|s| - 1];
      assert s == p + [q];
      GroupMultiplicity(p, g, k, o);
    }
  }

  /** No repeated element. */
  predicate Distinct(keys: seq<string>) {
    forall i, j :: 0 <= i < j < |keys| ==> keys[i] != keys[j]
  }

  /** `keys` lists every element of `s` exactly once: one possible iteration order of `s`. */
  predicate IsKeyOrder(keys: seq<string>, s: set<string>) {
    Distinct(keys) && (forall k :: k in keys ==> k in s) && (forall k :: k in s ==> k in keys)
  }

  /** An enumeration of a set is as long as the set is large. */
  lemma {:induction false} KeyOrderSize(keys: seq<string>, s: set<string>)
    requires IsKeyOrder(keys, s)
    ensures |keys| == |s|
  {
    if keys == [] {
      assert s == {};
    } else {
      var n := |keys| - 1;
      var ks, k := keys[..n], keys[n];
      assert keys == ks + [k];
      assert IsKeyOrder(ks, s - {k});
      KeyOrderSize(ks, s - {k});
    }
  }

  /** A single key has a single enumeration. */
  lemma KeyOrderOfOne(keys: seq<string>, k: string)
    requires IsKeyOrder(keys, {k})
    ensures keys == [k]
  {
    KeyOrderSize(keys, {k});
    assert keys[0] in keys;
  }

  /** Two distinct keys are enumerated in one of two orders. */
  lemma KeyOrderOfTwo(keys: seq<string>, a: string, b: string)
    requires a != b && IsKeyOrder(keys, {a, b})
    ensures keys == [a, b] || keys == [b, a]
  {
    KeyOrderSize(keys, {a, b});
    assert keys[0] in keys && keys[1] in keys;
  }

  /** The per-item counts that `loadOrdersByItem` builds, one order at a time. */
  function ItemCounts(s: seq<Order>): map<string, nat> {
    if s == [] then map[]
    else
      var m, o := ItemCounts(s[..|s| - 1]), s[|s| - 1];
      m[o.name := if o.name in m then m[o.name] + 1 else 1]
  }

  /** The per-user order lists that `loadItemsByUser` builds, one order at a time. */
  function UserGroups(s: seq<Order>): map<string, seq<Order>> {
    if s == [] then map[]
    else
      var m, o := UserGroups(s[..|s| - 1]), s[|s| - 1];
      m[o.userName := if o.userName in m then m[o.userName] + [o] else [o]]
  }

  /** The counts are keyed by the item names that occur, each mapped to the size of its group. */
  lemma {:induction false} ItemCountsMeaning(s: seq<Order>)
    ensures ItemCounts(s).Keys == KeySet(s, ByItemName)
    ensures forall k :: k in ItemCounts(s) ==> ItemCounts(s)[k] == |Group(s, ByItemName, k)|
  {
    if s != [] {
      var prefix, o := s[..|s| - 1], s[|s| - 1];
      ItemCountsMeaning(prefix);
      KeySetLast(s, ByItemName);
      GroupNonEmpty(prefix, ByItemName, o.name);
    }
  }

  /** The lists are keyed by the user names that occur, each mapped to that user's group. */
  lemma {:induction false} UserGroupsMeaning(s: seq<Order>)
    ensures UserGroups(s).Keys == KeySet(s, ByUserName)
    ensures forall u :: u in UserGroups(s) ==> UserGroups(s)[u] == Group(s, ByUserName, u)
  {
    if s != [] {
      var prefix, o := s[..|s| - 1], s[|s| - 1];
      UserGroupsMeaning(prefix);
      KeySetLast(s, ByUserName);
      GroupNonEmpty(prefix, ByUserName, o.userName);
    }
  }

  /**
   * The item counts have exactly the item names as keys, and each count is the
   * number of orders with that name, hence at least one.
   */
  lemma ItemCountsAreOccurrences(s: seq<Order>, k: string)
    ensures k in ItemCounts(s) <==> exists o :: o in s && o.name == k
    ensures k in ItemCounts(s) ==> ItemCounts(s)[k] >= 1
    ensures k in ItemCounts(s) ==> forall o :: multiset(Group(s, ByItemName, k))[o] == if o.name == k then multiset(s)[o] else 0
  {
    ItemCountsMeaning(s);
    GroupNonEmpty(s, ByItemName, k);
    forall o {
      GroupMultiplicity(s, ByItemName, k, o);
    }
  }

  /**
   * The user groups have exactly the user names as keys, and each group is
   * non-empty and holds that user's orders and nothing else.
   */
  lemma UserGroupsAreOccurrences(s: seq<Order>, u: string)
    ensures u in UserGroups(s) <==> exists o :: o in s && o.userName == u
    ensures u in UserGroups(s) ==> |UserGroups(s)[u]| >= 1
    ensures u in UserGroups(s) ==> forall o :: multiset(UserGroups(s)[u])[o] == if o.userName == u then multiset(s)[o] else 0
  {
    UserGroupsMeaning(s);
    GroupNonEmpty(s, ByUserName, u);
    forall o {
      GroupMultiplicity(s, ByUserName, u, o);
    }
  }

  /** One more order adds one to its item's count, or starts it at one. */
  lemma ItemCountsSnoc(s: seq<Order>, o: Order)
    ensures ItemCounts(s + [o]) == ItemCounts(s)[o.name := if o.name in ItemCounts(s) then ItemCounts(s)[o.name] + 1 else 1]
  {
    assert (s + [o])[..|s|] == s;
  }

  /** The counts over one more order of `s`, as `loadOrdersByItem` updates them. */
  lemma ItemCountsStep(s: seq<Order>, i: nat)
    requires i < |s|
    ensures ItemCounts(s[..i + 1]) == ItemCounts(s[..i])[s[i].name := if s[i].name in ItemCounts(s[..i]) then ItemCounts(s[..i])[s[i].name] + 1 else 1]
  {
    assert s[..i + 1][..i] == s[..i];
  }

  /** The user lists over one more order of `s`, as `loadItemsByUser` updates them. */
  lemma UserGroupsStep(s: seq<Order>, i: nat)
    requires i < |s|
    ensures UserGroups(s[..i + 1]) == UserGroups(s[..i])[s[i].userName := if s[i].userName in UserGroups(s[..i]) then UserGroups(s[..i])[s[i].userName] + [s[i]] else [s[i]]]
  {
    assert s[..i + 1][..i] == s[..i];
  }

  /** One more order is appended to its user's list, or starts it. */
  lemma UserGroupsSnoc(s: seq<Order>, o: Order)
    ensures UserGroups(s + [o]) == UserGroups(s)[o.userName := if o.userName in UserGroups(s) then UserGroups(s)[o.userName] + [o] else [o]]
  {
    assert (s + [o])[..|s|] == s;
  }

  /** Sum of the counts along `keys`. */
  function SumValues(m: map<string, nat>, keys: seq<string>): nat
    requires forall k :: k in keys ==> k in m
  {
    if keys == [] then 0 else SumValues(m, keys[..|keys| - 1]) + m[keys[|keys| - 1]]
  }

  /** Sum of the list lengths along `keys`. */
  function SumLengths(m: map<string, seq<Order>>, keys: seq<string>): nat
    requires forall k :: k in keys ==> k in m
  {
    if keys == [] then 0 else SumLengths(m, keys[..|keys| - 1]) + |m[keys[|keys| - 1]]|
  }

  /** The number of orders of `s` whose key is one of `keys`. */
  function CountIn(s: seq<Order>, g: Grouping, keys: seq<string>): nat {
    if s == [] then 0
    else CountIn(s[..|s| - 1], g, keys) + (if KeyOf(s[|s| - 1], g) in keys then 1 else 0)
  }

  lemma {:induction false} CountInAddKey(s: seq<Order>, g: Grouping, keys: seq<string>, k: string)
    requires k !in keys
    ensures CountIn(s, g, keys + [k]) == CountIn(s, g, keys) + |Group(s, g, k)|
  {
    if s != [] {
      CountInAddKey(s[..|s| - 1], g, keys, k);
    }
  }

  lemma {:induction false} CountInAll(s: seq<Order>, g: Grouping, keys: seq<string>)
    requires forall o :: o in s ==> KeyOf(o, g) in keys
    ensures CountIn(s, g, keys) == |s|
  {
    if s != [] {
      var p := s[..|s| - 1];
      assert forall o :: o in p ==> o in s;
      CountInAll(p, g, keys);
    }
  }

  lemma {:induction false} SumValuesCountsIn(s: seq<Order>, keys: seq<string>)
    requires Distinct(keys) && forall k :: k in keys ==> k in ItemCounts(s)
    ensures SumValues(ItemCounts(s), keys) == CountIn(s, ByItemName, keys)
  {
    if keys == [] {
      CountInNone(s, ByItemName);
    } else {
      var ks, k := keys[..|keys| - 1], keys[|keys| - 1];
      assert keys == ks + [k];
      assert k !in ks;
      SumValuesCountsIn(s, ks);
      CountInAddKey(s, ByItemName, ks, k);
      ItemCountsMeaning(s);
    }
  }

  lemma {:induction false} SumLengthsCountsIn(s: seq<Order>, users: seq<string>)
    requires Distinct(users) && forall u :: u in users ==> u in UserGroups(s)
    ensures SumLengths(UserGroups(s), users) == CountIn(s, ByUserName, users)
  {
    if users == [] {
      CountInNone(s, ByUserName);
    } else {
      var us, u := users[..|users| - 1], users[|users| - 1];
      assert users == us + [u];
      assert u !in us;
      SumLengthsCountsIn(s, us);
      CountInAddKey(s, ByUserName, us, u);
      UserGroupsMeaning(s);
    }
  }

  lemma {:induction false} CountInNone(s: seq<Order>, g: Grouping)
    ensures CountIn(s, g, []) == 0
  {
    if s != [] {
      CountInNone(s[..|s| - 1], g);
    }
  }

  lemma KeysCoverOrders(s: seq<Order>, g: Grouping, keys: seq<string>)
    requires forall k :: k in keys <==> k in KeySet(s, g)
    ensures forall o :: o in s ==> KeyOf(o, g) in keys
  {
    forall o | o in s ensures KeyOf(o, g) in keys {
      assert KeyOf(o, g) in KeySet(s, g);
    }
  }

  /** Collation conserves orders: whatever the iteration order, the counts add up to the number of orders. */
  lemma ItemCountsConservation(s: seq<Order>, keys: seq<string>)
    requires IsKeyOrder(keys, ItemCounts(s).Keys)
    ensures SumValues(ItemCounts(s), keys) == |s|
  {
    SumValuesCountsIn(s, keys);
    ItemCountsMeaning(s);
    KeysCoverOrders(s, ByItemName, keys);
    CountInAll(s, ByItemName, keys);
  }

  /** Splitting by user conserves orders: the per-user lists together hold every order. */
  lemma UserGroupsConservation(s: seq<Order>, users: seq<string>)
    requires IsKeyOrder(users, UserGroups(s).Keys)
    ensures SumLengths(UserGroups(s), users) == |s|
  {
    SumLengthsCountsIn(s, users);
    UserGroupsMeaning(s);
    KeysCoverOrders(s, ByUserName, users);
    CountInAll(s, ByUserName, users);
  }

  /**
   * `loadOrdersByItem`: one pass over the orders, starting each new name at 1
   * and adding 1 to a name already seen.
   */
  method LoadOrdersByItem(orders: seq<Order>) returns (result: map<string, nat>)
    ensures result == ItemCounts(orders)
  {
    result := map[];
    var i := 0;
    while i < |orders|
      invariant 0 <= i <= |orders|
      invariant result == ItemCounts(orders[..i])
    {
      var order := orders[i];
      ItemCountsStep(orders, i);
      if order.name in result {
        result := result[order.name := result[order.name] + 1];
      } else {
        result := result[order.name := 1];
      }
      i := i + 1;
    }
    assert orders[..i] == orders;
  }
}
