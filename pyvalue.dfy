/** The dynamically typed payloads the exporters receive (`Dict[str, Any]`
    built from JSON-like data and uploads), with the Python operations the
    exporters apply to them: `dict.get`, truthiness (`x or y`, `if x:`),
    `isinstance` and `str()`. */
module PyValue {
  import opened Wrappers
  import PyInt

  /** A Python value. Dictionaries have string keys and keep insertion
      order; `Other` is any further object (a float, a tuple, ...), given
      by its `str()` text and its truthiness. */
  datatype Value =
    | PyNone
    | Bool(b: bool)
    | Int(i: int)
    | Str(s: string)
    | Bytes(bytes: seq<bv8>)
    | List(items: seq<Value>)
    | Dict(entries: seq<(string, Value)>)
    | Other(text: string, truthy: bool)

  /** The value stored under `key` in a list of entries, if any. */
  function Lookup(entries: seq<(string, Value)>, key: string): Option<Value> {
    if entries == [] then None
    else if entries[0].0 == key then Some(entries[0].1)
    else Lookup(entries[1..], key)
  }

  /** A key is found exactly when some entry has it, and then the value
      found is the one stored with its FIRST occurrence. */
  lemma {:induction false} LookupFirst(entries: seq<(string, Value)>, key: string)
    ensures Lookup(entries, key).Some? <==> exists k :: 0 <= k < |entries| && entries[k].0 == key
    ensures Lookup(entries, key).Some? ==>
      exists k :: 0 <= k < |entries| && entries[k] == (key, Lookup(entries, key).value) &&
        forall j :: 0 <= j < k ==> entries[j].0 != key
  {
    if entries != [] && entries[0].0 != key {
      LookupFirst(entries[1..], key);
      assert forall k :: 1 <= k < |entries| ==> entries[k] == entries[1..][k - 1];
      if Lookup(entries, key).Some? {
        var k :| 0 <= k < |entries| - 1 && entries[1..][k] == (key, Lookup(entries, key).value) &&
          forall j :: 0 <= j < k ==> entries[1..][j].0 != key;
        assert entries[k + 1] == (key, Lookup(entries, key).value);
      }
    }
  }

  /** The entry at k is found when no earlier entry has its key (how a
      lookup in a dict literal is read off). */
  lemma {:induction false} LookupAt(entries: seq<(string, Value)>, k: nat, key: string)
    requires k < |entries| && entries[k].0 == key
    requires forall j :: 0 <= j < k ==> entries[j].0 != key
    ensures Lookup(entries, key) == Some(entries[k].1)
  {
    if k > 0 {
      LookupAt(entries[1..], k - 1, key);
    }
  }

  /** `d.get(key, default)`. */
  function Get(d: Value, key: string, default: Value): Value
    requires d.Dict?
  {
    Lookup(d.entries, key).GetOr(default)
  }

  /** `d.get(key, default)` is the value stored under key, or the default
      when no entry has that key. */
  lemma GetStored(d: Value, key: string, default: Value)
    requires d.Dict?
    ensures var r := Get(d, key, default);
      (exists k :: 0 <= k < |d.entries| && d.entries[k] == (key, r)) ||
      (r == default && forall k :: 0 <= k < |d.entries| ==> d.entries[k].0 != key)
  {
    LookupFirst(d.entries, key);
  }

  /** Python truthiness: `None`, `False`, `0` and empty containers are
      false. */
  predicate Truthy(v: Value) {
    match v
    case PyNone => false
    case Bool(b) => b
    case Int(i) => i != 0
    case Str(s) => s != []
    case Bytes(bs) => bs != []
    case List(xs) => xs != []
    case Dict(es) => es != []
    case Other(_, t) => t
  }

  /** `a or b`. */
  function Or(a: Value, b: Value): (r: Value)
    ensures Truthy(r) <==> Truthy(a) || Truthy(b)
    ensures Truthy(a) ==> r == a
  {
    if Truthy(a) then a else b
  }

  /** `sep.join(parts)`. */
  function JoinWith(parts: seq<string>, sep: string): string {
    if parts == [] then ""
    else if |parts| == 1 then parts[0]
    else parts[0] + sep + JoinWith(parts[1..], sep)
  }

  const HEX: string := "0123456789abcdef"

  /** One byte inside a bytes literal: printable ASCII as itself, any other
      byte as `\xNN`. */
  function ByteRepr(b: bv8): string {
    if 0x20 <= b < 0x7f then [b as int as char]
    else "\\x" + [HEX[(b as int) / 16], HEX[(b as int) % 16]]
  }

  /** `repr(s)` for a string: double quotes when the text holds a single
      quote and no double quote, single quotes otherwise. */
  function StrRepr(s: string): string {
    if '\'' in s && '"' !in s then "\"" + s + "\"" else "'" + s + "'"
  }

  /** `repr(v)` (for `Other`, its text). */
  function Repr(v: Value): (r: string)
    ensures !v.Other? ==> r != []
  {
    match v
    case PyNone => "None"
    case Bool(b) => if b then "True" else "False"
    case Int(i) => PyInt.IntToDecimal(i)
    case Str(s) => StrRepr(s)
    case Bytes(bs) => "b'" + Flatten(seq(|bs|, k requires 0 <= k < |bs| => ByteRepr(bs[k]))) + "'"
    case List(xs) =>
      "[" + JoinWith(seq(|xs|, k requires 0 <= k < |xs| => Repr(xs[k])), ", ") + "]"
    case Dict(es) =>
      "{" + JoinWith(seq(|es|, k requires 0 <= k < |es| => StrRepr(es[k].0) + ": " + Repr(es[k].1)), ", ") + "}"
    case Other(t, _) => t
  }

  /** `str(v)`: a string is its own text, anything else is shown as by
      `repr`. */
  function Text(v: Value): (r: string)
    ensures !v.Str? && !v.Other? ==> r != []
  {
    match v
    case Str(s) => s
    case _ => Repr(v)
  }

  function Flatten(parts: seq<string>): string {
    if parts == [] then "" else parts[0] + Flatten(parts[1..])
  }
}
