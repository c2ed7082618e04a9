/** The JSON document tree `encoding/json` builds from Go values before it
    lays them out as text. Object members keep their declaration order. */
module Json {
  import opened Wrappers

  datatype Value =
    | JString(str: string)
    | JArray(elems: seq<Value>)
    | JObject(members: seq<Member>)

  datatype Member = Member(key: string, value: Value)

  /** Some member is named `key`. */
  predicate HasKey(ms: seq<Member>, key: string) {
    exists m :: m in ms && m.key == key
  }

  /** The value of the first member named `key`, if there is one. */
  function Lookup(ms: seq<Member>, key: string): (r: Option<Value>)
    ensures r.None? <==> !HasKey(ms, key)
    ensures r.Some? ==> Member(key, r.value) in ms
  {
    if |ms| == 0 then None
    else if ms[0].key == key then Some(ms[0].value)
    else
      assert forall m :: m in ms ==> m == ms[0] || m in ms[1..];
      Lookup(ms[1..], key)
  }

  /** Looking a key up in a concatenation looks in the first part first. */
  lemma {:induction false} LookupAppend(a: seq<Member>, b: seq<Member>, key: string)
    ensures Lookup(a + b, key) == if HasKey(a, key) then Lookup(a, key) else Lookup(b, key)
    decreases |a|
  {
    if |a| == 0 {
      assert a + b == b;
    } else {
      assert (a + b)[1..] == a[1..] + b;
      assert forall m :: m in a ==> m == a[0] || m in a[1..];
      LookupAppend(a[1..], b, key);
    }
  }

  /** A single member. */
  lemma LookupSingle(m: Member, key: string)
    ensures Lookup([m], key) == if m.key == key then Some(m.value) else None
  {
  }

  /** A Go string field tagged `omitempty`: a member only when the string is non-empty. */
  function OmitEmpty(key: string, s: string): (ms: seq<Member>)
    ensures Lookup(ms, key) == if s == "" then None else Some(JString(s))
    ensures forall k :: k != key ==> !HasKey(ms, k)
  {
    if s == "" then [] else [Member(key, JString(s))]
  }

  /** A Go slice field tagged `omitempty`: a member only when the slice is non-empty. */
  function OmitEmptyList(key: string, elems: seq<Value>): (ms: seq<Member>)
    ensures Lookup(ms, key) == if |elems| == 0 then None else Some(JArray(elems))
    ensures forall k :: k != key ==> !HasKey(ms, k)
  {
    if |elems| == 0 then [] else [Member(key, JArray(elems))]
  }
}
