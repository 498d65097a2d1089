// The bounds on the free-form data of a timeline item (src/agent_runtime_client.cpp,
// isValidTimelineDataValue), stated for every value that occurs in it.

module DataBounds {
  import opened Bytes
  import opened Json
  import opened KeyOrder
  import opened Numbers
  import opened TimelineData

  /** The value occurs in the other one, so many steps down. */
  ghost predicate Occurs(inner: Json, value: Json, steps: nat)
    decreases steps
  {
    if steps == 0 then inner == value
    else
      match value
      case Array(items) => exists i :: 0 <= i < |items| && Occurs(inner, items[i], steps - 1)
      case Object(fields) => exists key :: key in fields && Occurs(inner, fields[key], steps - 1)
      case _ => false
  }

  /** A key is one to 128 graphical ASCII characters. */
  predicate IsShortKey(key: string) {
    1 <= |key| <= 128 && forall i | 0 <= i < |key| :: 0x21 <= key[i] as int <= 0x7e
  }

  /** What a single value may be, apart from what it contains. */
  predicate IsFine(value: Json) {
    match value
    case Undefined => false
    case Fraction(_) => false
    case Integer(n) => -9007199254740991 <= n <= 9007199254740991
    case Array(items) => |items| <= 4096
    case Object(fields) => |fields| <= 128 && forall key | key in fields :: IsShortKey(key)
    case _ => true
  }

  ghost predicate IsFineThroughout(value: Json) {
    forall inner, steps: nat | Occurs(inner, value, steps) :: IsFine(inner)
  }

  ghost predicate EndsWithin(value: Json, limit: nat) {
    forall inner, steps: nat | Occurs(inner, value, steps) :: steps < limit
  }

  lemma {:induction false} GraphicalSize(key: string)
    requires forall i | 0 <= i < |key| :: key[i] as int < 0x80
    ensures Utf8Size(key) == |key|
    decreases |key|
  {
    if key != "" {
      GraphicalSize(key[1..]);
    }
  }

  lemma KeysAgree(key: string)
    ensures IsValidKey(key) <==> IsShortKey(key)
  {
    if IsGraphical(key) {
      GraphicalSize(key);
    }
  }

  lemma OccursInItem(inner: Json, items: seq<Json>, i: nat, steps: nat)
    requires i < |items| && Occurs(inner, items[i], steps)
    ensures Occurs(inner, Array(items), steps + 1)
  {
  }

  lemma OccursInMember(inner: Json, fields: Fields, key: string, steps: nat)
    requires key in fields && Occurs(inner, fields[key], steps)
    ensures Occurs(inner, Object(fields), steps + 1)
  {
  }

  lemma FineInside(value: Json, part: Json)
    requires IsFineThroughout(value)
    requires forall inner, steps: nat | Occurs(inner, part, steps) :: Occurs(inner, value, steps + 1)
    ensures IsFineThroughout(part)
  {
    forall inner, steps: nat | Occurs(inner, part, steps)
      ensures IsFine(inner)
    {
      assert Occurs(inner, value, steps + 1);
    }
  }

  lemma {:induction false} FineIsLegal(value: Json)
    requires IsFineThroughout(value)
    ensures Legal(value)
    decreases value
  {
    assert Occurs(value, value, 0);
    match value {
      case Array(items) =>
        forall i | 0 <= i < |items|
          ensures Legal(items[i])
        {
          forall inner, steps: nat | Occurs(inner, items[i], steps)
            ensures Occurs(inner, value, steps + 1)
          {
            OccursInItem(inner, items, i, steps);
          }
          FineInside(value, items[i]);
          FineIsLegal(items[i]);
        }
      case Object(fields) =>
        forall key | key in fields
          ensures IsValidKey(key) && Legal(fields[key])
        {
          KeysAgree(key);
          forall inner, steps: nat | Occurs(inner, fields[key], steps)
            ensures Occurs(inner, value, steps + 1)
          {
            OccursInMember(inner, fields, key, steps);
          }
          FineInside(value, fields[key]);
          FineIsLegal(fields[key]);
        }
      case _ =>
    }
  }

  lemma {:induction false} LegalIsFine(value: Json, inner: Json, steps: nat)
    requires Legal(value) && Occurs(inner, value, steps)
    ensures IsFine(inner)
    decreases steps
  {
    if steps == 0 {
      if value.Object? {
        forall key | key in value.fields
          ensures IsShortKey(key)
        {
          KeysAgree(key);
        }
      }
    } else {
      match value {
        case Array(items) =>
          var i :| 0 <= i < |items| && Occurs(inner, items[i], steps - 1);
          LegalIsFine(items[i], inner, steps - 1);
        case Object(fields) =>
          var key :| key in fields && Occurs(inner, fields[key], steps - 1);
          LegalIsFine(fields[key], inner, steps - 1);
      }
    }
  }

  lemma {:induction false} HeightOfItem(items: seq<Json>, n: nat, i: nat)
    requires i < n <= |items|
    ensures Height(items[i]) <= HeightOfItems(items, n)
    decreases n
  {
    if i < n - 1 {
      HeightOfItem(items, n - 1, i);
    }
  }

  lemma {:induction false} HeightOfMember(fields: Fields, keys: seq<string>, n: nat, i: nat)
    requires Lists(keys, fields) && i < n <= |keys|
    ensures Height(fields[keys[i]]) <= HeightOfMembers(fields, keys, n)
    decreases n
  {
    if i < n - 1 {
      HeightOfMember(fields, keys, n - 1, i);
    }
  }

  lemma {:induction false} StepsBelowHeight(value: Json, inner: Json, steps: nat)
    requires Occurs(inner, value, steps)
    ensures steps < Height(value)
    decreases steps
  {
    if steps > 0 {
      match value {
        case Array(items) =>
          var i :| 0 <= i < |items| && Occurs(inner, items[i], steps - 1);
          StepsBelowHeight(items[i], inner, steps - 1);
          HeightOfItem(items, |items|, i);
        case Object(fields) =>
          var key :| key in fields && Occurs(inner, fields[key], steps - 1);
          StepsBelowHeight(fields[key], inner, steps - 1);
          SortedKeysList(fields.Keys);
          var keys := SortedKeys(fields.Keys);
          assert key in keys;
          var k :| 0 <= k < |keys| && keys[k] == key;
          HeightOfMember(fields, keys, |keys|, k);
      }
    }
  }

  lemma {:induction false} TallestItem(items: seq<Json>, n: nat) returns (i: nat)
    requires 0 < n <= |items|
    ensures i < n && Height(items[i]) == HeightOfItems(items, n)
    decreases n
  {
    if n == 1 {
      assert HeightOfItems(items, 0) == 0;
      i := 0;
    } else {
      i := TallestItem(items, n - 1);
      if HeightOfItems(items, n - 1) < Height(items[n - 1]) {
        i := n - 1;
      }
    }
  }

  lemma {:induction false} TallestMember(fields: Fields, keys: seq<string>, n: nat) returns (i: nat)
    requires Lists(keys, fields) && 0 < n <= |keys|
    ensures i < n && Height(fields[keys[i]]) == HeightOfMembers(fields, keys, n)
    decreases n
  {
    if n == 1 {
      assert HeightOfMembers(fields, keys, 0) == 0;
      i := 0;
    } else {
      i := TallestMember(fields, keys, n - 1);
      if HeightOfMembers(fields, keys, n - 1) < Height(fields[keys[n - 1]]) {
        i := n - 1;
      }
    }
  }

  /** The height is reached: something occurs one step short of it. */
  lemma {:induction false} HeightIsReached(value: Json) returns (inner: Json)
    ensures Occurs(inner, value, Height(value) - 1)
    decreases value
  {
    inner := value;
    match value {
      case Array(items) =>
        if items != [] {
          var i := TallestItem(items, |items|);
          inner := HeightIsReached(items[i]);
          OccursInItem(inner, items, i, Height(items[i]) - 1);
        } else {
          assert HeightOfItems(items, 0) == 0;
        }
      case Object(fields) =>
        var keys := SortedKeys(fields.Keys);
        if keys != [] {
          var i := TallestMember(fields, keys, |keys|);
          inner := HeightIsReached(fields[keys[i]]);
          OccursInMember(inner, fields, keys[i], Height(fields[keys[i]]) - 1);
        } else {
          assert HeightOfMembers(fields, keys, 0) == 0;
        }
      case _ =>
    }
  }

  lemma HeightExactly(value: Json, limit: nat)
    ensures Height(value) <= limit <==> EndsWithin(value, limit)
  {
    if Height(value) <= limit {
      forall inner, steps: nat | Occurs(inner, value, steps)
        ensures steps < limit
      {
        StepsBelowHeight(value, inner, steps);
      }
    } else {
      var inner := HeightIsReached(value);
    }
  }

  lemma LegalExactly(value: Json)
    ensures Legal(value) <==> IsFineThroughout(value)
  {
    if Legal(value) {
      forall inner, steps: nat | Occurs(inner, value, steps)
        ensures IsFine(inner)
      {
        LegalIsFine(value, inner, steps);
      }
    } else if IsFineThroughout(value) {
      FineIsLegal(value);
    }
  }

  /**
   * Data is valid exactly when it consists of at most 4096 values, nothing in it lies more than
   * fifteen steps down, and every value in it is fine by itself.
   */
  lemma DataExactly(value: Json)
    ensures Fits(value, 1, 0) <==> Size(value) <= 4096 && EndsWithin(value, 16) && IsFineThroughout(value)
  {
    HeightExactly(value, 16);
    LegalExactly(value);
  }
}
