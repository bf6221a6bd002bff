/**
 * A parsed JSON document, as the token parser receives it once the file's text
 * has gone through the JavaScript runtime's JSON parser.
 *
 * Object members are kept as an ordered sequence: the order is the one in which
 * `Object.entries` hands them out.
 */
module Json {

  datatype Option<+T> = None | Some(value: T)

  datatype Value =
    | Null
    | Bool(b: bool)
    | Num(n: int)
    | Str(s: string)
    | Arr(items: seq<Value>)
    | Obj(members: seq<(string, Value)>)

  /** `v && typeof v === 'object'`: true for objects and arrays, false for null and scalars. */
  predicate IsObject(v: Value) {
    v.Obj? || v.Arr?
  }

  /**
   * Property access `v[key]` on a parsed value: the member named `key` of an object,
   * and `undefined` (None) for anything else. Arrays carry no `$`-named properties.
   */
  function Member(v: Value, key: string): (r: Option<Value>)
    ensures r.Some? <==> v.Obj? && exists k :: 0 <= k < |v.members| && v.members[k].0 == key
    ensures r.Some? ==> (key, r.value) in v.members
  {
    if v.Obj? then Lookup(v.members, key) else None
  }

  /** The value of the first member named `key`, if any. */
  function Lookup(members: seq<(string, Value)>, key: string): (r: Option<Value>)
    ensures r.Some? <==> exists k :: 0 <= k < |members| && members[k].0 == key
    ensures r.Some? ==> (key, r.value) in members
  {
    if members == [] then None
    else if members[0].0 == key then Some(members[0].1)
    else
      var r := Lookup(members[1..], key);
      assert forall k :: 0 < k < |members| ==> members[k] == members[1..][k - 1];
      r
  }

  /** The number denoted by a string of decimal digits, most significant digit first. */
  function DecimalValue(s: string): nat
    requires forall k :: 0 <= k < |s| ==> '0' <= s[k] <= '9'
  {
    if s == [] then 0
    else DecimalValue(s[..|s| - 1]) * 10 + (s[|s| - 1] as int - '0' as int)
  }

  /** The decimal text of an array index, as `Object.entries` gives it for arrays. */
  function IndexKey(n: nat): (r: string)
    ensures r != []
    ensures forall k :: 0 <= k < |r| ==> '0' <= r[k] <= '9'
    ensures DecimalValue(r) == n
    ensures r[0] == '0' <==> n == 0
    ensures n == 0 ==> r == "0"
  {
    var digit := ['0' + (n % 10) as char];
    if n < 10 then digit
    else
      var high := IndexKey(n / 10);
      assert (high + digit)[..|high|] == high;
      high + digit
  }

  /** Different indices have different keys. */
  lemma IndexKeyInjective(m: nat, n: nat)
    ensures IndexKey(m) == IndexKey(n) ==> m == n
  {
  }

  /**
   * `Object.entries(v)` for an object or an array: an object's members in order,
   * or an array's elements keyed by their index written in decimal.
   */
  function Entries(v: Value): seq<(string, Value)>
    requires IsObject(v)
  {
    if v.Obj? then v.members else IndexedItems(v.items)
  }

  /** Every entry's value is one of `v`'s own children, so a walk over the entries terminates. */
  lemma ChildSmaller(v: Value, i: nat)
    requires IsObject(v) && i < |Entries(v)|
    ensures Entries(v)[i].1 < v
  {
    if v.Obj? {
      assert v.members[i] in v.members;
    } else {
      IndexedItemsAt(v.items);
      assert v.items[i] in v.items;
    }
  }

  /** The elements of an array, each paired with its index key. */
  function IndexedItems(items: seq<Value>): seq<(string, Value)> {
    if items == [] then []
    else IndexedItems(items[..|items| - 1]) + [(IndexKey(|items| - 1), items[|items| - 1])]
  }

  lemma {:induction false} IndexedItemsAt(items: seq<Value>)
    ensures |IndexedItems(items)| == |items|
    ensures forall k :: 0 <= k < |items| ==> IndexedItems(items)[k] == (IndexKey(k), items[k])
  {
    if items != [] {
      var init := items[..|items| - 1];
      IndexedItemsAt(init);
      assert forall k :: 0 <= k < |init| ==> init[k] == items[k];
    }
  }

  /** No two entries share a key. */
  predicate DistinctKeys<T>(ms: seq<(string, T)>) {
    forall i, j :: 0 <= i < j < |ms| ==> ms[i].0 != ms[j].0
  }

  /** `Object.entries` on an array lists its elements in index order under distinct keys. */
  lemma ArrayEntries(v: Value)
    requires v.Arr?
    ensures |Entries(v)| == |v.items|
    ensures forall k :: 0 <= k < |v.items| ==> Entries(v)[k].1 == v.items[k]
    ensures DistinctKeys(Entries(v))
  {
    IndexedItemsAt(v.items);
    forall i, j | 0 <= i < j < |Entries(v)|
      ensures Entries(v)[i].0 != Entries(v)[j].0
    {
      IndexKeyInjective(i, j);
    }
  }
}
