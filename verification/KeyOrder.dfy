// The order in which the members of a JSON object are visited: by the bytes of
// their keys (src/agent_runtime_client.cpp, canonicalTimelineDataValue).

module KeyOrder {
  import opened Bytes

  /** QByteArray's operator<, made reflexive. */
  predicate BytesLeq(a: Octets, b: Octets) {
    a == [] || (b != [] && (a[0] < b[0] || (a[0] == b[0] && BytesLeq(a[1..], b[1..]))))
  }

  predicate KeyLeq(a: string, b: string) {
    BytesLeq(Utf8(a), Utf8(b))
  }

  lemma {:induction false} BytesOrder(a: Octets, b: Octets, c: Octets)
    ensures BytesLeq(a, a)
    ensures BytesLeq(a, b) || BytesLeq(b, a)
    ensures BytesLeq(a, b) && BytesLeq(b, a) ==> a == b
    ensures BytesLeq(a, b) && BytesLeq(b, c) ==> BytesLeq(a, c)
    decreases |a| + |b| + |c|
  {
    if a != [] {
      var tailB, tailC := if b == [] then [] else b[1..], if c == [] then [] else c[1..];
      BytesOrder(a[1..], tailB, tailC);
      assert b != [] && a[0] == b[0] && a[1..] == b[1..] ==> a == [a[0]] + a[1..] == b;
    }
  }

  lemma KeyOrderIsTotal(a: string, b: string, c: string)
    ensures KeyLeq(a, a)
    ensures KeyLeq(a, b) || KeyLeq(b, a)
    ensures KeyLeq(a, b) && KeyLeq(b, a) ==> a == b
    ensures KeyLeq(a, b) && KeyLeq(b, c) ==> KeyLeq(a, c)
  {
    BytesOrder(Utf8(a), Utf8(b), Utf8(c));
    if Utf8(a) == Utf8(b) {
      Utf8Injective(a, b);
    }
  }

  ghost predicate IsLeast(key: string, keys: set<string>) {
    key in keys && forall other {:trigger KeyLeq(key, other)} | other in keys :: KeyLeq(key, other)
  }

  lemma LeastUnique(a: string, b: string, keys: set<string>)
    requires IsLeast(a, keys) && IsLeast(b, keys)
    ensures a == b
  {
    KeyOrderIsTotal(a, b, a);
  }

  /** The least of some keys: one of them, or the least of the others. */
  ghost function Least(keys: set<string>): (key: string)
    requires keys != {}
    ensures key in keys
    decreases |keys|
  {
    var some :| some in keys;
    if keys - {some} == {} then some
    else
      var least := Least(keys - {some});
      if KeyLeq(some, least) then some else least
  }

  lemma {:induction false} LeastIsLeast(keys: set<string>)
    requires keys != {}
    ensures IsLeast(Least(keys), keys)
    decreases |keys|
  {
    var some :| some in keys && (keys - {some} == {} ==> Least(keys) == some)
                && (keys - {some} != {} ==>
                      Least(keys) == var least := Least(keys - {some}); if KeyLeq(some, least) then some else least);
    KeyOrderIsTotal(some, some, some);
    if keys - {some} == {} {
      assert keys == {some};
    } else {
      LeastIsLeast(keys - {some});
      LeastOfMore(some, Least(keys - {some}), keys);
    }
  }

  lemma LeastOfMore(some: string, least: string, keys: set<string>)
    requires some in keys && IsLeast(least, keys - {some})
    ensures IsLeast(if KeyLeq(some, least) then some else least, keys)
  {
    var key := if KeyLeq(some, least) then some else least;
    forall other | other in keys
      ensures KeyLeq(key, other)
    {
      KeyOrderIsTotal(some, least, some);
      KeyOrderIsTotal(key, least, other);
      KeyOrderIsTotal(some, some, some);
    }
  }

  /** The keys in ascending order. */
  ghost function SortedKeys(keys: set<string>): (r: seq<string>)
    ensures forall k | 0 <= k < |r| :: r[k] in keys
    decreases |keys|
  {
    if keys == {} then []
    else
      var key := Least(keys);
      [key] + SortedKeys(keys - {key})
  }

  /** Every key is listed once. */
  lemma {:induction false} SortedKeysList(keys: set<string>)
    ensures |SortedKeys(keys)| == |keys|
    ensures forall key | key in keys :: key in SortedKeys(keys)
    ensures forall i, j | 0 <= i < j < |SortedKeys(keys)| :: SortedKeys(keys)[i] != SortedKeys(keys)[j]
    decreases |keys|
  {
    if keys != {} {
      var key := Least(keys);
      var rest := SortedKeys(keys - {key});
      SortedKeysList(keys - {key});
      assert SortedKeys(keys) == [key] + rest;
      forall other | other in keys
        ensures other in [key] + rest
      {
        if other != key {
          assert other in rest;
        }
      }
    }
  }

  ghost predicate Ascending(keys: seq<string>) {
    forall i, j | 0 <= i < j < |keys| :: KeyLeq(keys[i], keys[j])
  }

  lemma {:induction false} SortedKeysAscend(keys: set<string>)
    ensures Ascending(SortedKeys(keys))
    decreases |keys|
  {
    if keys != {} {
      var least := Least(keys);
      LeastIsLeast(keys);
      SortedKeysAscend(keys - {least});
      var rest := SortedKeys(keys - {least});
      assert forall k | 0 <= k < |rest| :: rest[k] in rest;
      LeastInFront(least, rest, keys);
    }
  }

  lemma LeastInFront(least: string, rest: seq<string>, keys: set<string>)
    requires IsLeast(least, keys) && Ascending(rest) && forall k | 0 <= k < |rest| :: rest[k] in keys
    ensures Ascending([least] + rest)
  {
  }

  /** There is only one way to list the keys in ascending order without repetition. */
  lemma {:induction false} AscendingUnique(list: seq<string>, keys: set<string>)
    requires Ascending(list) && (forall i, j | 0 <= i < j < |list| :: list[i] != list[j])
    requires forall key :: key in list <==> key in keys
    ensures list == SortedKeys(keys)
    decreases |list|
  {
    if list != [] {
      var first, rest := list[0], list[1..];
      assert first in list && list == [first] + rest;
      assert first !in rest by {
        assert forall k | 0 <= k < |rest| :: rest[k] == list[k + 1];
      }
      LeastIsLeast(keys);
      KeyOrderIsTotal(first, first, first);
      LeastUnique(first, Least(keys), keys);
      AscendingUnique(rest, keys - {first});
    }
  }

  lemma Regroup<T>(a: seq<T>, b: seq<T>, c: seq<T>)
    ensures a + (b + c) == (a + b) + c
  {
  }

  /** Taking out the least key again and again. */
  method Sorted(keys: set<string>) returns (r: seq<string>)
    ensures r == SortedKeys(keys)
  {
    r := [];
    var rest := keys;
    while rest != {}
      invariant r + SortedKeys(rest) == SortedKeys(keys)
      decreases |rest|
    {
      var key := FindLeast(rest);
      assert r + SortedKeys(rest) == (r + [key]) + SortedKeys(rest - {key}) by {
        Regroup(r, [key], SortedKeys(rest - {key}));
      }
      r, rest := r + [key], rest - {key};
    }
  }

  method FindLeast(keys: set<string>) returns (key: string)
    requires keys != {}
    ensures key == Least(keys)
  {
    LeastIsLeast(keys);
    key :| key in keys && forall other | other in keys :: KeyLeq(key, other);
    LeastUnique(key, Least(keys), keys);
  }
}
