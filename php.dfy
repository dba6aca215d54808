/**
 * PHP values as the gateway sees them: what `json_decode($body, true)`
 * builds from a response and what the records' `toArray` methods return.
 * A PHP array is an ordered list of (key, value) entries; keys are ints or
 * strings. Floats are not part of the model.
 */
module Php {
  import opened Wrappers
  import Decimal

  datatype Key = IntKey(i: int) | StrKey(s: string)

  /**
   * A PHP value; an array is its entries in order. An array from
   * `json_decode` holds each key once, and a digit string such as "0" is an
   * `IntKey` there: the readers below assume this of decoded bodies.
   */
  datatype Value =
    | Null
    | Bool(b: bool)
    | Int(i: int)
    | Str(s: string)
    | Arr(entries: seq<(Key, Value)>)

  /** A string-keyed entry, as written in a PHP array literal `'name' => v`. */
  function Entry(name: string, v: Value): (Key, Value) {
    (StrKey(name), v)
  }

  /**
   * The value stored under `k`. A key written twice keeps the value of the
   * later write, as PHP's array assignment does.
   */
  function Find(es: seq<(Key, Value)>, k: Key): (r: Option<Value>)
    ensures r.None? <==> forall i :: 0 <= i < |es| ==> es[i].0 != k
    ensures r.Some? ==> exists i :: 0 <= i < |es| && es[i] == (k, r.value)
  {
    if es == [] then None
    else
      var rest := Find(es[1..], k);
      if rest.Some? then
        assert es[1..][0] == es[1];
        rest
      else if es[0].0 == k then Some(es[0].1)
      else None
  }

  /**
   * `$v[$k]` as `??` and `isset` read it: `None` when there is no such key,
   * when the stored value is null, or when `v` is not an array. On a string
   * an integer offset yields that one character (negative offsets count from
   * the end).
   */
  function Get(v: Value, k: Key): (r: Option<Value>)
    ensures r.Some? ==> r.value != Null
  {
    match v
    case Arr(es) =>
      (match Find(es, k)
       case Some(Null) => None
       case other => other)
    case Str(s) =>
      if k.IntKey? && -|s| <= k.i < |s| then Some(Str([s[if k.i < 0 then |s| + k.i else k.i]]))
      else None
    case _ => None
  }

  /** One step of a `$x['a']['b']` chain under `??`: a missing link stays missing. */
  function At(o: Option<Value>, name: string): Option<Value> {
    if o.Some? then Get(o.value, StrKey(name)) else None
  }

  /** A non-null value stored under `name` is what `$x['name'] ?? ...` reads. */
  lemma AtFound(es: seq<(Key, Value)>, name: string, v: Value)
    requires Find(es, StrKey(name)) == Some(v) && v != Null
    ensures At(Some(Arr(es)), name) == Some(v)
  {
  }

  function AtIndex(o: Option<Value>, i: int): Option<Value> {
    if o.Some? then Get(o.value, IntKey(i)) else None
  }

  /*
   * Binding `$x ?? $default` to a typed parameter of a strict-types file.
   * `None` is the TypeError PHP raises when the value has another type.
   */

  /** ... to a `string` parameter. */
  function StrArg(o: Option<Value>, default: string): (r: Option<string>)
    ensures o.None? ==> r == Some(default)
    ensures o.Some? ==> (r.Some? <==> o.value.Str?)
    ensures o.Some? && r.Some? ==> o.value == Str(r.value)
  {
    if o.None? then Some(default) else if o.value.Str? then Some(o.value.s) else None
  }

  /** ... to an `int` parameter. */
  function IntArg(o: Option<Value>, default: int): (r: Option<int>)
    ensures o.None? ==> r == Some(default)
    ensures o.Some? ==> (r.Some? <==> o.value.Int?)
    ensures o.Some? && r.Some? ==> o.value == Int(r.value)
  {
    if o.None? then Some(default) else if o.value.Int? then Some(o.value.i) else None
  }

  /** `$x ?? null` to a `?string` parameter. */
  function NullableStrArg(o: Option<Value>): (r: Option<Option<string>>)
    ensures o.None? ==> r == Some(None)
    ensures o.Some? ==> (r.Some? <==> o.value.Str?)
    ensures o.Some? && r.Some? ==> r.value == Some(o.value.s)
  {
    if o.None? then Some(None) else if o.value.Str? then Some(Some(o.value.s)) else None
  }

  /** `$x ?? []` to an `array` parameter: the entries. */
  function ArrayArg(o: Option<Value>): (r: Option<seq<(Key, Value)>>)
    ensures o.None? ==> r == Some([])
    ensures o.Some? ==> (r.Some? <==> o.value.Arr?)
    ensures o.Some? && r.Some? ==> o.value == Arr(r.value)
  {
    if o.None? then Some([]) else if o.value.Arr? then Some(o.value.entries) else None
  }

  /** The elements `array_map` visits in `array_map($f, $x ?? [])`, in order. */
  function Items(o: Option<Value>): (r: Option<seq<Value>>)
    ensures r.Some? <==> ArrayArg(o).Some?
    ensures r.Some? ==> r.value == ValuesOf(ArrayArg(o).value)
  {
    var es :- ArrayArg(o);
    Some(ValuesOf(es))
  }

  /** PHP's `(string)` cast. */
  function CastToString(v: Value): string {
    match v
    case Null => ""
    case Bool(b) => if b then "1" else ""
    case Int(i) => Decimal.IntToString(i)
    case Str(s) => s
    case Arr(_) => "Array"
  }

  /** `(string) ($x ?? '')`: never fails, whatever the type. */
  function StringCastOr(o: Option<Value>): (r: string)
    ensures o.None? ==> r == ""
    ensures o.Some? && o.value.Str? ==> r == o.value.s
  {
    if o.Some? then CastToString(o.value) else ""
  }

  /** A nullable string as it lands in an array: the string, or null. */
  function OrNull(o: Option<string>): Value {
    if o.Some? then Str(o.value) else Null
  }

  /** A PHP list: the values under keys 0, 1, 2, ... in order. */
  function List(vs: seq<Value>): (v: Value)
    ensures v.Arr? && |v.entries| == |vs|
  {
    Arr(seq(|vs|, i requires 0 <= i < |vs| => (IntKey(i), vs[i])))
  }

  lemma ItemsOfList(vs: seq<Value>)
    ensures ValuesOf(List(vs).entries) == vs
  {
  }

  /** The keys of an array, in order (`array_keys`). */
  function Keys(v: Value): (ks: seq<Key>)
    ensures v.Arr? ==> |ks| == |v.entries|
  {
    if v.Arr? then seq(|v.entries|, i requires 0 <= i < |v.entries| => v.entries[i].0) else []
  }

  function StrKeys(names: seq<string>): (ks: seq<Key>)
    ensures |ks| == |names|
  {
    seq(|names|, i requires 0 <= i < |names| => StrKey(names[i]))
  }

  /**
   * In an array keyed by `names`, a name that occurs once finds its own
   * entry (checking one name against the others is cheap where checking a
   * whole list for duplicates is not).
   */
  lemma FindUnique(es: seq<(Key, Value)>, names: seq<string>, j: nat)
    requires Keys(Arr(es)) == StrKeys(names)
    requires j < |names| && names[j] !in names[..j] + names[j + 1..]
    ensures Find(es, StrKey(names[j])) == Some(es[j].1)
  {
    forall k | 0 <= k < |names| && k != j
      ensures names[k] != names[j]
    {
      var others := names[..j] + names[j + 1..];
      if k < j {
        assert names[k] == others[k];
      } else {
        assert names[k] == others[k - 1];
      }
    }
    assert Keys(Arr(es))[j] == es[j].0;
    var r := Find(es, StrKey(names[j]));
    var i :| 0 <= i < |es| && es[i] == (StrKey(names[j]), r.value);
    assert Keys(Arr(es))[i] == StrKeys(names)[i];
  }

  /** The values of a list of entries, in order (`array_values`). */
  function ValuesOf(es: seq<(Key, Value)>): (vs: seq<Value>)
    ensures |vs| == |es| && forall i :: 0 <= i < |es| ==> vs[i] == es[i].1
  {
    seq(|es|, i requires 0 <= i < |es| => es[i].1)
  }

  /**
   * The values of an array whose keys are exactly `names`, in that order;
   * `None` for anything else. Readers of serialised records use it.
   */
  function ValuesUnder(v: Value, names: seq<string>): (r: Option<seq<Value>>)
    ensures r.Some? ==> v.Arr? && |r.value| == |names| == |v.entries|
    ensures r.Some? ==> forall i :: 0 <= i < |names| ==> v.entries[i] == (StrKey(names[i]), r.value[i])
  {
    if v.Arr? && Keys(v) == StrKeys(names) then
      assert forall i :: 0 <= i < |names| ==> Keys(v)[i] == v.entries[i].0 && StrKeys(names)[i] == StrKey(names[i]);
      Some(ValuesOf(v.entries))
    else None
  }

  function AsStr(v: Value): Option<string> {
    if v.Str? then Some(v.s) else None
  }

  function AsInt(v: Value): Option<int> {
    if v.Int? then Some(v.i) else None
  }

  /** A `?string` slot: null reads as `Some(None)`, a string as `Some(Some(s))`. */
  function AsNullableStr(v: Value): Option<Option<string>> {
    match v
    case Null => Some(None)
    case Str(s) => Some(Some(s))
    case _ => None
  }

  /** Reads every element with `read`; fails when one of them fails. */
  function ReadEach<T>(vs: seq<Value>, read: Value -> Option<T>): (r: Option<seq<T>>)
    ensures r.Some? ==> |r.value| == |vs|
    ensures r.Some? ==> forall i :: 0 <= i < |vs| ==> read(vs[i]) == Some(r.value[i])
    ensures r.None? ==> exists i :: 0 <= i < |vs| && read(vs[i]).None?
  {
    if vs == [] then Some([])
    else
      var x :- read(vs[0]);
      var rest :- (assert forall i :: 0 <= i < |vs[1..]| ==> vs[1..][i] == vs[i + 1];
                   ReadEach(vs[1..], read));
      Some([x] + rest)
  }

  /** Reading a list whose every element reads back to the matching element of `xs`. */
  lemma {:induction false} ReadEachOf<T>(ws: seq<Value>, xs: seq<T>, read: Value -> Option<T>)
    requires |ws| == |xs|
    requires forall i :: 0 <= i < |ws| ==> read(ws[i]) == Some(xs[i])
    ensures ReadEach(ws, read) == Some(xs)
  {
    if ws != [] {
      ReadEachOf(ws[1..], xs[1..], read);
      assert [xs[0]] + xs[1..] == xs;
    }
  }
}
