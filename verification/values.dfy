/** Decoded PHP values as the HTTP transport hands them to a connection, with
    the few PHP semantics the connections rely on: truthiness (`if`, `while`,
    `empty`), `isset`, property reads, keyed assignment and string conversion. */
module Values {

  datatype Option<+T> = None | Some(value: T)

  /** A decoded response body or a parameter value. JSON objects decode to PHP
      objects (ordered properties), JSON arrays to PHP lists. */
  datatype Value =
    | Null
    | Bool(b: bool)
    | Int(i: int)
    | Str(s: string)
    | Arr(items: seq<Value>)
    | Obj(fields: seq<Field>)

  /** One property of an object, or one entry of a string-keyed PHP array. */
  datatype Field = Field(name: string, value: Value)

  /** `is_scalar`: booleans, integers and strings (null is not scalar). */
  predicate IsScalar(v: Value) {
    v.Bool? || v.Int? || v.Str?
  }

  /** A string is false in PHP when it is empty or exactly "0". */
  predicate TruthyStr(s: string) {
    s != "" && s != "0"
  }

  /** PHP's conversion to boolean, the test of `if`, `while` and `!empty`. */
  predicate Truthy(v: Value) {
    match v
    case Null => false
    case Bool(b) => b
    case Int(i) => i != 0
    case Str(s) => TruthyStr(s)
    case Arr(items) => items != []
    case Obj(_) => true
  }

  /** The property names in order. */
  function Names(fs: seq<Field>): (ns: seq<string>)
    ensures |ns| == |fs|
    ensures forall i :: 0 <= i < |fs| ==> ns[i] == fs[i].name
  {
    if fs == [] then [] else [fs[0].name] + Names(fs[1..])
  }

  /** `$a[$name]` or `$obj->$name`: the first entry with that name, Null when absent. */
  function Lookup(fs: seq<Field>, name: string): Value {
    if fs == [] then Null
    else if fs[0].name == name then fs[0].value
    else Lookup(fs[1..], name)
  }

  /** An absent name reads as null. */
  lemma {:induction false} LookupAbsent(fs: seq<Field>, name: string)
    requires name !in Names(fs)
    ensures Lookup(fs, name) == Null
  {
    if fs != [] {
      assert Names(fs) == [fs[0].name] + Names(fs[1..]);
      LookupAbsent(fs[1..], name);
    }
  }

  /** `isset($a[$name])`: present and not null. */
  predicate IsSet(fs: seq<Field>, name: string) {
    Lookup(fs, name) != Null
  }

  /** `$v->$name` read on any value: a missing property, or a read on a
      non-object, yields null (PHP only emits a notice or warning). */
  function Prop(v: Value, name: string): Value {
    if v.Obj? then Lookup(v.fields, name) else Null
  }

  /** `$a[$name] = $v` / `$obj->$name = $v`: overwrite in place when present,
      otherwise append at the end. */
  function Put(fs: seq<Field>, name: string, v: Value): (r: seq<Field>)
    ensures Lookup(r, name) == v
    ensures forall n :: n != name ==> Lookup(r, n) == Lookup(fs, n)
  {
    if fs == [] then [Field(name, v)]
    else if fs[0].name == name then
      var r := [Field(name, v)] + fs[1..];
      assert r[1..] == fs[1..];
      r
    else
      var rest := Put(fs[1..], name, v);
      var r := [fs[0]] + rest;
      assert r[1..] == rest;
      r
  }

  /** A present name keeps its position; a new one is appended at the end. */
  lemma {:induction false} PutNames(fs: seq<Field>, name: string, v: Value)
    ensures Names(Put(fs, name, v)) == if name in Names(fs) then Names(fs) else Names(fs) + [name]
  {
    var r := Put(fs, name, v);
    if fs == [] {
    } else if fs[0].name == name {
      assert r[1..] == fs[1..];
      assert Names(r) == [name] + Names(fs[1..]);
      assert Names(fs) == [name] + Names(fs[1..]);
    } else {
      PutNames(fs[1..], name, v);
      assert r[1..] == Put(fs[1..], name, v);
      assert Names(r) == [fs[0].name] + Names(r[1..]);
      assert Names(fs) == [fs[0].name] + Names(fs[1..]);
    }
  }

  /** Assigning the same key twice keeps only the second value, in the
      position the first assignment gave it. */
  lemma {:induction false} PutPut(fs: seq<Field>, name: string, a: Value, b: Value)
    ensures Put(Put(fs, name, a), name, b) == Put(fs, name, b)
  {
    if fs != [] && fs[0].name != name {
      PutPut(fs[1..], name, a, b);
    }
  }

  /** Decimal digits of a natural number, most significant first. */
  function NatToString(n: nat): (s: string)
    ensures |s| > 0
    ensures forall i :: 0 <= i < |s| ==> '0' <= s[i] <= '9'
    decreases n
  {
    var last := [(('0' as int) + n % 10) as char];
    if n < 10 then last else NatToString(n / 10) + last
  }

  /** The value of a run of decimal digits. */
  function DigitsValue(s: string): nat
    requires forall i :: 0 <= i < |s| ==> '0' <= s[i] <= '9'
  {
    if s == [] then 0 else 10 * DigitsValue(s[..|s| - 1]) + ((s[|s| - 1] as int) - ('0' as int))
  }

  /** Reading back the decimal form gives the number. */
  lemma {:induction false} NatToStringValue(n: nat)
    ensures DigitsValue(NatToString(n)) == n
    decreases n
  {
    var s := NatToString(n);
    if n >= 10 {
      NatToStringValue(n / 10);
      assert s[..|s| - 1] == NatToString(n / 10);
    }
  }

  /** PHP's string conversion of an integer (`"-"` then the digits when negative). */
  function IntToString(i: int): (s: string)
    ensures |s| > 0
  {
    if i < 0 then "-" + NatToString(-i) else NatToString(i)
  }

  /** PHP's string conversion of a scalar (what `.` does to its operands). */
  function ScalarToString(v: Value): string
    requires IsScalar(v)
  {
    match v
    case Bool(b) => if b then "1" else ""
    case Int(i) => IntToString(i)
    case Str(s) => s
  }

  /** Concatenation regrouped. */
  lemma Assoc<T>(a: seq<T>, b: seq<T>, c: seq<T>)
    ensures a + (b + c) == a + b + c
  {
  }
}
