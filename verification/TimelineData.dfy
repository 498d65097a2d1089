// isValidTimelineDataValue (src/agent_runtime_client.cpp): the bounds on the free-form
// data of a timeline item, checked in one pass with a shared node counter.

module TimelineData {
  import opened Bytes
  import opened Json
  import opened KeyOrder
  import opened Numbers

  const MAXIMUM_DEPTH := 16
  const MAXIMUM_NODES := 4096
  const MAXIMUM_PROPERTIES := 128
  const MAXIMUM_ITEMS := 4096

  predicate IsValidKey(key: string) {
    key != "" && Utf8Size(key) <= MAXIMUM_IDENTITY_BYTES && IsGraphical(key)
  }

  // ---------------------------------------------------------------------
  // The specification: size, height and local legality

  /** The number of values in a value, itself included. */
  ghost function Size(value: Json): (n: nat)
    ensures n >= 1
    decreases value, 1
  {
    match value
    case Array(items) => 1 + SizeOfItems(items, |items|)
    case Object(fields) => 1 + SizeOfMembers(fields, SortedKeys(fields.Keys), |SortedKeys(fields.Keys)|)
    case _ => 1
  }

  /** The number of values in the first n items. */
  ghost function SizeOfItems(items: seq<Json>, n: nat): nat
    requires n <= |items|
    decreases items, 0, n
  {
    if n == 0 then 0 else SizeOfItems(items, n - 1) + Size(items[n - 1])
  }

  predicate Lists(keys: seq<string>, fields: Fields) {
    forall k | 0 <= k < |keys| :: keys[k] in fields
  }

  ghost function SizeOfMembers(fields: Fields, keys: seq<string>, n: nat): nat
    requires Lists(keys, fields) && n <= |keys|
    decreases Object(fields), 0, n
  {
    if n == 0 then 0 else SizeOfMembers(fields, keys, n - 1) + Size(fields[keys[n - 1]])
  }

  /** The number of values on the longest way down. */
  ghost function Height(value: Json): (n: nat)
    ensures n >= 1
    decreases value, 1
  {
    match value
    case Array(items) => 1 + HeightOfItems(items, |items|)
    case Object(fields) => 1 + HeightOfMembers(fields, SortedKeys(fields.Keys), |SortedKeys(fields.Keys)|)
    case _ => 1
  }

  ghost function HeightOfItems(items: seq<Json>, n: nat): nat
    requires n <= |items|
    decreases items, 0, n
  {
    if n == 0 then 0 else Max(HeightOfItems(items, n - 1), Height(items[n - 1]))
  }

  ghost function HeightOfMembers(fields: Fields, keys: seq<string>, n: nat): nat
    requires Lists(keys, fields) && n <= |keys|
    decreases Object(fields), 0, n
  {
    if n == 0 then 0 else Max(HeightOfMembers(fields, keys, n - 1), Height(fields[keys[n - 1]]))
  }

  /** Every number is a safe integer, every key is valid and no container is too wide. */
  ghost predicate Legal(value: Json)
    decreases value
  {
    match value
    case Null => true
    case Boolean(_) => true
    case Text(_) => true
    case Integer(_) => IsSafeInteger(value)
    case Array(items) => |items| <= MAXIMUM_ITEMS && forall k | 0 <= k < |items| :: Legal(items[k])
    case Object(fields) =>
      |fields| <= MAXIMUM_PROPERTIES && forall key | key in fields :: IsValidKey(key) && Legal(fields[key])
    case Fraction(_) => false
    case Undefined => false
  }

  /** A value that may still be counted when `count` values have been, found at `depth`. */
  ghost predicate Fits(value: Json, depth: int, count: nat) {
    count + Size(value) <= MAXIMUM_NODES && depth + Height(value) - 1 <= MAXIMUM_DEPTH && Legal(value)
  }

  // ---------------------------------------------------------------------
  // The check

  /** The counter that the recursion shares by reference. */
  class NodeCounter {
    var nodes: nat

    constructor ()
      ensures nodes == 0
    {
      nodes := 0;
    }
  }

  /**
   * The one-pass check refines the specification: it accepts exactly the values that fit,
   * and then the counter has grown by exactly the size of the value.
   */
  method IsValidTimelineDataValue(value: Json, depth: nat, counter: NodeCounter) returns (ok: bool)
    modifies counter
    ensures ok <==> Fits(value, depth, old(counter.nodes))
    ensures ok ==> counter.nodes == old(counter.nodes) + Size(value)
    decreases value
  {
    counter.nodes := counter.nodes + 1;
    if counter.nodes > MAXIMUM_NODES || depth > MAXIMUM_DEPTH {
      return false;
    }
    match value {
      case Null => return true;
      case Boolean(_) => return true;
      case Text(_) => return true;
      case Integer(_) => return IsSafeInteger(value);
      case Array(items) =>
        ArrayFits(value, depth, old(counter.nodes));
        if |items| > MAXIMUM_ITEMS {
          return false;
        }
        ok := AllItems(items, depth, counter);
      case Object(fields) =>
        var keys := Sorted(fields.Keys);
        ObjectFits(value, keys, depth, old(counter.nodes));
        if |fields| > MAXIMUM_PROPERTIES {
          return false;
        }
        ok := AllMembers(fields, keys, depth, counter);
      case Fraction(_) => return false;
      case Undefined => return false;
    }
  }

  /** std::all_of over the items of an array. */
  method AllItems(items: seq<Json>, depth: nat, counter: NodeCounter) returns (ok: bool)
    requires counter.nodes <= MAXIMUM_NODES && depth <= MAXIMUM_DEPTH
    modifies counter
    ensures ok <==> ItemsFit(items, |items|, depth, old(counter.nodes))
    ensures ok ==> counter.nodes == old(counter.nodes) + SizeOfItems(items, |items|)
    decreases items
  {
    ghost var start := counter.nodes;
    var i := 0;
    ok := true;
    while i < |items| && ok
      invariant 0 <= i <= |items|
      invariant ok ==> counter.nodes == start + SizeOfItems(items, i) && ItemsFit(items, i, depth, start)
      invariant !ok ==> !ItemsFit(items, |items|, depth, start)
      decreases |items| - i
    {
      ItemsFitFrom(items, i, depth, start);
      ItemsFitUpTo(items, i + 1, depth, start);
      ok := IsValidTimelineDataValue(items[i], depth + 1, counter);
      i := i + 1;
    }
  }

  method AllMembers(fields: Fields, keys: seq<string>, depth: nat, counter: NodeCounter) returns (ok: bool)
    requires Lists(keys, fields) && counter.nodes <= MAXIMUM_NODES && depth <= MAXIMUM_DEPTH
    modifies counter
    ensures ok <==> MembersFit(fields, keys, |keys|, depth, old(counter.nodes))
    ensures ok ==> counter.nodes == old(counter.nodes) + SizeOfMembers(fields, keys, |keys|)
    decreases Object(fields), 0, 1
  {
    ghost var start := counter.nodes;
    var i := 0;
    ok := true;
    while i < |keys| && ok
      invariant 0 <= i <= |keys|
      invariant ok ==> counter.nodes == start + SizeOfMembers(fields, keys, i) && MembersFit(fields, keys, i, depth, start)
      invariant !ok ==> !MembersFit(fields, keys, |keys|, depth, start)
      decreases |keys| - i
    {
      MembersFitFrom(fields, keys, i, depth, start);
      MembersFitUpTo(fields, keys, i + 1, depth, start);
      ok := MemberIsValid(fields, keys[i], depth, counter);
      i := i + 1;
    }
  }

  /** The body of the loop over the members: the key, and then the value. */
  method MemberIsValid(fields: Fields, key: string, depth: nat, counter: NodeCounter) returns (ok: bool)
    requires key in fields
    modifies counter
    ensures ok <==> MemberFits(fields, key, depth, old(counter.nodes))
    ensures ok ==> counter.nodes == old(counter.nodes) + Size(fields[key])
    decreases Object(fields), 0, 0
  {
    if !IsValidKey(key) {
      return false;
    }
    ok := IsValidTimelineDataValue(fields[key], depth + 1, counter);
  }

  // ---------------------------------------------------------------------
  // Children one by one

  /** The first n items fit together. */
  ghost predicate ItemsFit(items: seq<Json>, n: nat, depth: int, count: nat)
    requires n <= |items|
  {
    && count + SizeOfItems(items, n) <= MAXIMUM_NODES
    && depth + HeightOfItems(items, n) <= MAXIMUM_DEPTH
    && LegalItems(items, n)
  }

  ghost predicate LegalItems(items: seq<Json>, n: nat)
    requires n <= |items|
  {
    n == 0 || (LegalItems(items, n - 1) && Legal(items[n - 1]))
  }

  lemma {:induction false} LegalItemsAll(items: seq<Json>, n: nat)
    requires n <= |items|
    ensures LegalItems(items, n) <==> forall k | 0 <= k < n :: Legal(items[k])
  {
    if n > 0 {
      LegalItemsAll(items, n - 1);
    }
  }

  ghost predicate IsLegalMember(fields: Fields, key: string) {
    key in fields && IsValidKey(key) && Legal(fields[key])
  }

  ghost predicate MemberFits(fields: Fields, key: string, depth: int, count: nat)
    requires key in fields
  {
    IsValidKey(key) && Fits(fields[key], depth + 1, count)
  }

  ghost predicate MembersFit(fields: Fields, keys: seq<string>, n: nat, depth: int, count: nat)
    requires Lists(keys, fields) && n <= |keys|
  {
    && count + SizeOfMembers(fields, keys, n) <= MAXIMUM_NODES
    && depth + HeightOfMembers(fields, keys, n) <= MAXIMUM_DEPTH
    && LegalMembers(fields, keys, n)
  }

  ghost predicate LegalMembers(fields: Fields, keys: seq<string>, n: nat)
    requires n <= |keys|
  {
    n == 0 || (LegalMembers(fields, keys, n - 1) && IsLegalMember(fields, keys[n - 1]))
  }

  lemma {:induction false} LegalMembersAll(fields: Fields, keys: seq<string>, n: nat)
    requires n <= |keys|
    ensures LegalMembers(fields, keys, n) <==> forall k | 0 <= k < n :: IsLegalMember(fields, keys[k])
  {
    if n > 0 {
      LegalMembersAll(fields, keys, n - 1);
    }
  }

  lemma ArrayFits(value: Json, depth: int, count: nat)
    requires value.Array?
    ensures Fits(value, depth, count)
            <==> && |value.items| <= MAXIMUM_ITEMS && depth <= MAXIMUM_DEPTH
                 && ItemsFit(value.items, |value.items|, depth, count + 1)
    ensures Size(value) == 1 + SizeOfItems(value.items, |value.items|)
  {
    LegalItemsAll(value.items, |value.items|);
  }

  lemma ObjectFits(value: Json, keys: seq<string>, depth: int, count: nat)
    requires value.Object? && keys == SortedKeys(value.fields.Keys)
    ensures Fits(value, depth, count)
            <==> && |value.fields| <= MAXIMUM_PROPERTIES && depth <= MAXIMUM_DEPTH
                 && MembersFit(value.fields, keys, |keys|, depth, count + 1)
    ensures Size(value) == 1 + SizeOfMembers(value.fields, keys, |keys|)
  {
    assert value == Object(value.fields);
    SortedKeysList(value.fields.Keys);
    LegalObject(value.fields, keys);
    SizeOfObject(value.fields, keys);
  }

  lemma SizeOfObject(fields: Fields, keys: seq<string>)
    requires keys == SortedKeys(fields.Keys)
    ensures Size(Object(fields)) == 1 + SizeOfMembers(fields, keys, |keys|)
    ensures Height(Object(fields)) == 1 + HeightOfMembers(fields, keys, |keys|)
  {
  }

  lemma LegalObject(fields: Fields, keys: seq<string>)
    requires Lists(keys, fields) && forall key | key in fields :: key in keys
    ensures Legal(Object(fields)) <==> && |fields| <= MAXIMUM_PROPERTIES
                                       && LegalMembers(fields, keys, |keys|)
  {
    LegalMembersAll(fields, keys, |keys|);
    if forall k | 0 <= k < |keys| :: IsLegalMember(fields, keys[k]) {
      forall key | key in fields
        ensures IsLegalMember(fields, key)
      {
        assert key in keys;
      }
    }
  }

  /** One item more fits exactly if it fits behind those before it. */
  lemma ItemsFitFrom(items: seq<Json>, i: nat, depth: int, count: nat)
    requires i < |items|
    ensures ItemsFit(items, i + 1, depth, count)
            <==> ItemsFit(items, i, depth, count) && Fits(items[i], depth + 1, count + SizeOfItems(items, i))
  {
    assert SizeOfItems(items, i + 1) == SizeOfItems(items, i) + Size(items[i]);
  }

  /** If they do not fit up to there, they do not all fit. */
  lemma ItemsFitUpTo(items: seq<Json>, i: nat, depth: int, count: nat)
    requires i <= |items|
    ensures ItemsFit(items, |items|, depth, count) ==> ItemsFit(items, i, depth, count)
  {
    ItemsGrow(items, i, |items|);
  }

  lemma {:induction false} ItemsGrow(items: seq<Json>, i: nat, n: nat)
    requires i <= n <= |items|
    ensures SizeOfItems(items, i) <= SizeOfItems(items, n)
    ensures HeightOfItems(items, i) <= HeightOfItems(items, n)
    ensures LegalItems(items, n) ==> LegalItems(items, i)
    decreases n
  {
    if i < n {
      ItemsGrow(items, i, n - 1);
    }
  }

  /** The same for the members of an object, whose keys count as well. */
  lemma MembersFitFrom(fields: Fields, keys: seq<string>, i: nat, depth: int, count: nat)
    requires Lists(keys, fields) && i < |keys|
    ensures MembersFit(fields, keys, i + 1, depth, count)
            <==> && MembersFit(fields, keys, i, depth, count)
                 && MemberFits(fields, keys[i], depth, count + SizeOfMembers(fields, keys, i))
  {
    assert IsLegalMember(fields, keys[i]) <==> IsValidKey(keys[i]) && Legal(fields[keys[i]]);
  }

  lemma MembersFitUpTo(fields: Fields, keys: seq<string>, i: nat, depth: int, count: nat)
    requires Lists(keys, fields) && i <= |keys|
    ensures MembersFit(fields, keys, |keys|, depth, count) ==> MembersFit(fields, keys, i, depth, count)
  {
    MembersGrow(fields, keys, i, |keys|);
  }

  lemma {:induction false} MembersGrow(fields: Fields, keys: seq<string>, i: nat, n: nat)
    requires Lists(keys, fields) && i <= n <= |keys|
    ensures SizeOfMembers(fields, keys, i) <= SizeOfMembers(fields, keys, n)
    ensures HeightOfMembers(fields, keys, i) <= HeightOfMembers(fields, keys, n)
    ensures LegalMembers(fields, keys, n) ==> LegalMembers(fields, keys, i)
    decreases n
  {
    if i < n {
      MembersGrow(fields, keys, i, n - 1);
    }
  }
}
