/**
 * JSON values as the server and the client exchange them, and the text cells in which the
 * store keeps them (`config`, `purchase_data`). Serialisation is not modelled character by
 * character: a cell either holds the encoding of a value written by the application, or some
 * other text, which a read treats as unparsable.
 */
module Json {
  import opened Common

  datatype Json =
    | JNull
    | JBool(b: bool)
    | JNum(n: int)
    | JStr(s: string)
    | JArr(items: seq<Json>)
    | JObj(members: seq<Member>)

  datatype Member = Member(key: string, value: Json)

  /** The literal `{}`. */
  const EmptyObject: Json := JObj([])

  /** JavaScript truthiness of a value: `null`, `false`, `0` and `""` are falsy, everything else is truthy. */
  predicate Truthy(j: Json) {
    match j
    case JNull => false
    case JBool(b) => b
    case JNum(n) => n != 0
    case JStr(s) => s != ""
    case _ => true
  }

  /** Truthiness of a request field that may be missing (`undefined` is falsy). */
  predicate Present(o: Option<Json>) {
    o.Some? && Truthy(o.value)
  }

  /** A string field that may be missing is truthy when present and non-empty. */
  predicate Filled(o: Option<string>) {
    o.Some? && o.value != ""
  }

  /** The value of the member named `key`, or None when there is none. */
  function Lookup(members: seq<Member>, key: string): (r: Option<Json>)
    ensures r.Some? <==> exists i :: 0 <= i < |members| && members[i].key == key
    ensures r.Some? ==> exists i :: 0 <= i < |members| && members[i] == Member(key, r.value)
  {
    // Property access on an object: when a key occurs twice, the later member wins.
    if members == [] then None
    else if members[|members| - 1].key == key then Some(members[|members| - 1].value)
    else Lookup(members[..|members| - 1], key)
  }

  predicate DistinctKeys(members: seq<Member>) {
    forall i, j :: 0 <= i < j < |members| ==> members[i].key != members[j].key
  }

  /** In an object whose keys are distinct, a lookup finds the member that carries the key. */
  lemma {:induction false} LookupDistinct(members: seq<Member>, i: nat)
    requires DistinctKeys(members) && i < |members|
    ensures Lookup(members, members[i].key) == Some(members[i].value)
    decreases |members|
  {
    var n := |members| - 1;
    if i < n {
      var init := members[..n];
      assert init[i] == members[i];
      assert DistinctKeys(init) by {
        forall p, q | 0 <= p < q < |init| ensures init[p].key != init[q].key {
          assert init[p] == members[p] && init[q] == members[q];
        }
      }
      LookupDistinct(init, i);
    }
  }

  /** `j[key]` on an object; `undefined` (None) on anything else or for a missing key. */
  function Get(j: Json, key: string): Option<Json> {
    if j.JObj? then Lookup(j.members, key) else None
  }

  /** A nullable TEXT column holding serialised JSON. */
  datatype Cell =
    | Null                     // SQL NULL
    | Encoded(value: Json)     // text produced by JSON.stringify(value)
    | Malformed(text: string)  // text that does not parse as JSON, the empty string included

  /** `JSON.stringify(v)`: an absent value (`undefined`) is bound as NULL. */
  function Stringify(v: Option<Json>): (c: Cell)
    ensures c.Null? <==> v.None?
    ensures v.Some? ==> c == Encoded(v.value)
  {
    match v
    case None => Null
    case Some(j) => Encoded(j)
  }

  /** `safeParse(str)`: NULL and the empty text read as `{}`, and so does text that does not parse. */
  function SafeParse(c: Cell): (j: Json)
    ensures c.Encoded? ==> j == c.value
    ensures !c.Encoded? ==> j == EmptyObject
  {
    match c
    case Encoded(v) => v
    case _ => EmptyObject
  }

  /** What the application writes it reads back; an absent value reads back as `{}`. */
  lemma ParseStringified(v: Option<Json>)
    ensures SafeParse(Stringify(v)) == v.GetOr(EmptyObject)
  {
  }
}
