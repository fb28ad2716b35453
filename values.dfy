/**
 * The untrusted value tree submitted by callers, and the leaves a target
 * iterator produces from it: the string scalars (or the map keys) found below
 * a root, each with the path of keys and array indices that leads to it.
 */
module Values {
  import opened Wrappers

  datatype Value =
    | Str(s: string)
    | Signed(i: int)
    | Unsigned(n: nat)
    | Boolean(b: bool)
    | Float(r: real)
    | Null
    | Array(items: seq<Value>)
    | Map(entries: seq<Entry>)

  datatype Entry = Entry(key: string, value: Value)

  /** A string reached by an iterator, with its path from the root object. */
  datatype Leaf = Leaf(text: string, path: seq<string>)

  /** Which strings a condition inspects: the scalar values or the map keys. */
  datatype DataSource = Values | Keys

  function Digit(d: nat): char
    requires d < 10
  {
    "0123456789"[d]
  }

  /** Decimal text of an array index, as it appears in a key path. */
  function IndexText(n: nat): (t: string)
    ensures |t| > 0
    ensures forall k :: 0 <= k < |t| ==> '0' <= t[k] <= '9'
  {
    if n < 10 then [Digit(n)] else IndexText(n / 10) + [Digit(n % 10)]
  }

  /** The string scalars below `v`, depth first, in declaration order. */
  function ValueLeaves(v: Value, path: seq<string>): seq<Leaf>
    decreases v
  {
    match v
    case Str(s) => [Leaf(s, path)]
    case Array(items) => ItemValueLeaves(v, 0, path)
    case Map(entries) => EntryValueLeaves(v, 0, path)
    case _ => []
  }

  function ItemValueLeaves(v: Value, i: nat, path: seq<string>): seq<Leaf>
    requires v.Array? && i <= |v.items|
    decreases v, |v.items| - i
  {
    if i == |v.items| then []
    else ValueLeaves(v.items[i], path + [IndexText(i)]) + ItemValueLeaves(v, i + 1, path)
  }

  function EntryValueLeaves(v: Value, i: nat, path: seq<string>): seq<Leaf>
    requires v.Map? && i <= |v.entries|
    decreases v, |v.entries| - i
  {
    if i == |v.entries| then []
    else
      var e := v.entries[i];
      ValueLeaves(e.value, path + [e.key]) + EntryValueLeaves(v, i + 1, path)
  }

  /** The map keys below `v`, depth first, each followed by the keys below its value. */
  function KeyLeaves(v: Value, path: seq<string>): seq<Leaf>
    decreases v
  {
    match v
    case Array(items) => ItemKeyLeaves(v, 0, path)
    case Map(entries) => EntryKeyLeaves(v, 0, path)
    case _ => []
  }

  function ItemKeyLeaves(v: Value, i: nat, path: seq<string>): seq<Leaf>
    requires v.Array? && i <= |v.items|
    decreases v, |v.items| - i
  {
    if i == |v.items| then []
    else KeyLeaves(v.items[i], path + [IndexText(i)]) + ItemKeyLeaves(v, i + 1, path)
  }

  function EntryKeyLeaves(v: Value, i: nat, path: seq<string>): seq<Leaf>
    requires v.Map? && i <= |v.entries|
    decreases v, |v.entries| - i
  {
    if i == |v.entries| then []
    else
      var e := v.entries[i];
      [Leaf(e.key, path + [e.key])] + KeyLeaves(e.value, path + [e.key]) + EntryKeyLeaves(v, i + 1, path)
  }

  /** The first entry of a map whose key is `key`. */
  function FindKey(entries: seq<Entry>, key: string): Option<Value> {
    if entries == [] then None
    else if entries[0].key == key then Some(entries[0].value)
    else FindKey(entries[1..], key)
  }

  /** The entry found is an entry of the map with that key; none is found exactly when no entry has the key. */
  lemma {:induction false} FindKeyMeaning(entries: seq<Entry>, key: string)
    ensures var r := FindKey(entries, key);
            && (r.Some? ==> exists k :: 0 <= k < |entries| && entries[k].key == key && entries[k].value == r.value)
            && (r.None? <==> forall k :: 0 <= k < |entries| ==> entries[k].key != key)
  {
    if entries != [] && entries[0].key != key {
      FindKeyMeaning(entries[1..], key);
      assert forall k :: 1 <= k < |entries| ==> entries[k] == entries[1..][k - 1];
    }
  }

  /** Follows a key path through nested maps; a missing key yields nothing. */
  function Resolve(v: Value, keyPath: seq<string>): (r: Option<Value>)
    decreases keyPath
  {
    if keyPath == [] then Some(v)
    else if !v.Map? then None
    else
      match FindKey(v.entries, keyPath[0])
      case None => None
      case Some(child) => Resolve(child, keyPath[1..])
  }

  /** The leaves a target iterator yields for root `v` and a key path. */
  function TargetLeaves(v: Value, keyPath: seq<string>, source: DataSource): seq<Leaf>
  {
    match Resolve(v, keyPath)
    case None => []
    case Some(w) => if source == Values then ValueLeaves(w, keyPath) else KeyLeaves(w, keyPath)
  }
}
