/**
 * Python values as the program handles them: JSON-shaped data (None, bool,
 * int, float, str, list, dict with string keys kept in insertion order), tuples,
 * and any other object, of which only what `str()` makes of it is kept.
 */
module Json {
  import opened Wrappers
  import opened Text

  type Fields = seq<(string, Value)>

  datatype Value =
    | Null
    | Bool(b: bool)
    | Int(i: int)
    | Float(r: real)
    | Str(s: string)
    | List(items: seq<Value>)
    | Tuple(elems: seq<Value>)
    | Obj(fields: Fields)
    /** Any other object; `text` is what `str()` returns for it, `None` when `str()` raises. */
    | Opaque(text: Option<string>)

  /** Python truthiness. */
  predicate Truthy(v: Value)
  {
    match v
    case Null => false
    case Bool(b) => b
    case Int(i) => i != 0
    case Float(r) => r != 0.0
    case Str(s) => s != ""
    case List(xs) => xs != []
    case Tuple(xs) => xs != []
    case Obj(fs) => fs != []
    case Opaque(_) => true
  }

  /** Python's `a or b`. */
  function Or(a: Value, b: Value): (r: Value)
    ensures r == a || r == b
    ensures Truthy(r) <==> Truthy(a) || Truthy(b)
  {
    if Truthy(a) then a else b
  }

  function Keys(fs: Fields): (r: seq<string>)
    ensures |r| == |fs|
  {
    if |fs| == 0 then [] else [fs[0].0] + Keys(fs[1..])
  }

  lemma {:induction false} KeysAt(fs: Fields, i: nat)
    requires i < |fs|
    ensures Keys(fs)[i] == fs[i].0
  {
    if i > 0 { KeysAt(fs[1..], i - 1); }
  }

  /** A Python dict has each key once. */
  predicate UniqueKeys(fs: Fields)
  {
    forall i, j :: 0 <= i < j < |fs| ==> fs[i].0 != fs[j].0
  }

  /** `d.get(key)`: the value stored under `key`, if any. */
  function Get(fs: Fields, key: string): (r: Option<Value>)
    ensures r.None? <==> key !in Keys(fs)
    ensures r.Some? ==> exists i :: 0 <= i < |fs| && fs[i] == (key, r.value)
  {
    if |fs| == 0 then None
    else if fs[0].0 == key then Some(fs[0].1)
    else
      var r := Get(fs[1..], key);
      assert r.Some? ==> exists i :: 0 <= i < |fs[1..]| && fs[1..][i] == (key, r.value);
      assert forall i :: 0 <= i < |fs[1..]| ==> fs[1..][i] == fs[i + 1];
      r
  }

  lemma GetUnique(fs: Fields, i: nat)
    requires UniqueKeys(fs) && i < |fs|
    ensures Get(fs, fs[i].0) == Some(fs[i].1)
  {
    if i > 0 {
      assert fs[0].0 != fs[i].0;
      assert UniqueKeys(fs[1..]) by {
        forall a, b | 0 <= a < b < |fs[1..]| ensures fs[1..][a].0 != fs[1..][b].0 {
          assert fs[1..][a] == fs[a + 1] && fs[1..][b] == fs[b + 1];
        }
      }
      GetUnique(fs[1..], i - 1);
    }
  }

  /** The first entry with a key is the one `get` finds. */
  lemma {:induction false} GetFirst(fs: Fields, i: nat)
    requires i < |fs| && forall j :: 0 <= j < i ==> fs[j].0 != fs[i].0
    ensures Get(fs, fs[i].0) == Some(fs[i].1)
  {
    if i > 0 {
      assert fs[0].0 != fs[i].0;
      assert forall j :: 0 <= j < i - 1 ==> fs[1..][j] == fs[j + 1];
      GetFirst(fs[1..], i - 1);
    }
  }

  /** `v.get(key)` when `v` is a dict; `None` for every other value. */
  function GetKey(v: Value, key: string): Option<Value>
  {
    if v.Obj? then Get(v.fields, key) else None
  }

  /** `v.get(key)` with Python's `None` for a missing key. */
  function Field(v: Value, key: string): Value
  {
    GetKey(v, key).GetOr(Null)
  }

  /** `d[key] = value`: replaces the value in place when the key exists, appends it otherwise. */
  function Put(fs: Fields, key: string, value: Value): (r: Fields)
    ensures Get(r, key) == Some(value)
    ensures forall k :: k != key ==> Get(r, k) == Get(fs, k)
  {
    if |fs| == 0 then [(key, value)]
    else if fs[0].0 == key then
      var r := [(key, value)] + fs[1..];
      assert r[1..] == fs[1..];
      r
    else
      var rest := Put(fs[1..], key, value);
      var r := [fs[0]] + rest;
      assert r[1..] == rest;
      r
  }

  lemma {:induction false} PutKeys(fs: Fields, key: string, value: Value)
    ensures Keys(Put(fs, key, value)) == if key in Keys(fs) then Keys(fs) else Keys(fs) + [key]
  {
    if |fs| > 0 && fs[0].0 != key {
      var rest := Put(fs[1..], key, value);
      PutKeys(fs[1..], key, value);
      assert ([fs[0]] + rest)[1..] == rest;
    } else if |fs| > 0 {
      assert ([(key, value)] + fs[1..])[1..] == fs[1..];
    }
  }

  lemma PutUnique(fs: Fields, key: string, value: Value)
    requires UniqueKeys(fs)
    ensures UniqueKeys(Put(fs, key, value))
  {
    var r := Put(fs, key, value);
    PutKeys(fs, key, value);
    forall i, j | 0 <= i < j < |r| ensures r[i].0 != r[j].0 {
      KeysAt(r, i);
      KeysAt(r, j);
      if key !in Keys(fs) && j == |fs| {
        KeysAt(fs, i);
        assert Keys(r)[i] == Keys(fs)[i];
      } else {
        KeysAt(fs, i);
        KeysAt(fs, j);
        assert Keys(r)[i] == Keys(fs)[i] && Keys(r)[j] == Keys(fs)[j];
      }
    }
  }

  /** `d.pop(key, None)` / `del d[key]`: removes the key, keeping the order of the others. */
  function Remove(fs: Fields, key: string): (r: Fields)
    ensures Get(r, key) == None
    ensures forall k :: k != key ==> Get(r, k) == Get(fs, k)
    ensures |r| <= |fs|
  {
    if |fs| == 0 then []
    else if fs[0].0 == key then Remove(fs[1..], key)
    else
      var rest := Remove(fs[1..], key);
      assert Keys([fs[0]] + rest) == [fs[0].0] + Keys(rest);
      [fs[0]] + rest
  }

  lemma {:induction false} RemoveUnique(fs: Fields, key: string)
    requires UniqueKeys(fs)
    ensures UniqueKeys(Remove(fs, key))
  {
    if |fs| > 0 {
      assert UniqueKeys(fs[1..]) by {
        forall a, b | 0 <= a < b < |fs[1..]| ensures fs[1..][a].0 != fs[1..][b].0 {
          assert fs[1..][a] == fs[a + 1] && fs[1..][b] == fs[b + 1];
        }
      }
      RemoveUnique(fs[1..], key);
      if fs[0].0 != key {
        var rest := Remove(fs[1..], key);
        var r := [fs[0]] + rest;
        forall a, b | 0 <= a < b < |r| ensures r[a].0 != r[b].0 {
          if a == 0 {
            assert r[b] == rest[b - 1];
            assert Get(rest, fs[0].0) == None;
            if rest[b - 1].0 == fs[0].0 {
              KeysAt(rest, b - 1);
            }
          } else {
            assert r[a] == rest[a - 1] && r[b] == rest[b - 1];
          }
        }
      }
    }
  }

  /**
   * `str(v)` where the model knows it. `None` stands for the cases it leaves
   * open: floats, containers, and objects whose `str()` raises. None of those
   * can equal the `str()` of an integer, which is the comparison the program makes.
   */
  function PyStr(v: Value): Option<string>
  {
    match v
    case Null => Some("None")
    case Bool(b) => Some(if b then "True" else "False")
    case Int(i) => Some(IntToString(i))
    case Str(s) => Some(s)
    case Opaque(t) => t
    case _ => None
  }

  /**
   * What a Python dict or set tells `v` apart by: `False` and `True` are the
   * ints 0 and 1, a float with an integral value is that int, and a tuple is
   * told apart by its elements. `None` is an unhashable value (a list, a
   * dict, or a tuple holding one), for which a lookup raises `TypeError`.
   */
  function HashKey(v: Value): (r: Option<Value>)
    decreases v, 1
  {
    match v
    case Bool(b) => Some(Int(if b then 1 else 0))
    case Float(x) => if x == x.Floor as real then Some(Int(x.Floor)) else Some(v)
    case List(_) => None
    case Obj(_) => None
    case Tuple(elems) =>
      (match HashKeys(elems) case None => None case Some(ks) => Some(Tuple(ks)))
    case _ => Some(v)
  }

  /** The keys of a tuple's elements, `None` when one of them is unhashable. */
  function HashKeys(vs: seq<Value>): (r: Option<seq<Value>>)
    ensures r.Some? ==> |r.value| == |vs|
    decreases vs, 0
  {
    if vs == [] then Some([])
    else
      match HashKey(vs[0])
      case None => None
      case Some(k) =>
        match HashKeys(vs[1..])
        case None => None
        case Some(ks) => Some([k] + ks)
  }

  /** A key is its own key, and keeps the truth value of what it came from. */
  lemma {:induction false} HashKeyCanonical(v: Value)
    ensures HashKey(v).Some? ==> HashKey(HashKey(v).value) == HashKey(v)
    ensures HashKey(v).Some? ==> (Truthy(HashKey(v).value) <==> Truthy(v))
    decreases v, 1
  {
    if v.Tuple? {
      HashKeysCanonical(v.elems);
    }
  }

  lemma {:induction false} HashKeysCanonical(vs: seq<Value>)
    ensures HashKeys(vs).Some? ==> HashKeys(HashKeys(vs).value) == HashKeys(vs)
    decreases vs, 0
  {
    if vs != [] && HashKeys(vs).Some? {
      HashKeyCanonical(vs[0]);
      HashKeysCanonical(vs[1..]);
      var ks := HashKeys(vs).value;
      assert ks[0] == HashKey(vs[0]).value && ks[1..] == HashKeys(vs[1..]).value;
    }
  }

  /**
   * `True` is the key 1, `2.0` the key 2 and `0.5` a key of its own; a string
   * of digits is not the number; lists and dicts are unhashable.
   */
  lemma HashKeyExamples(n: int, xs: seq<Value>, fs: Fields)
    ensures HashKey(Bool(true)) == HashKey(Int(1)) && HashKey(Bool(false)) == HashKey(Int(0))
    ensures HashKey(Float(n as real)) == HashKey(Int(n)) == Some(Int(n))
    ensures HashKey(Float(0.5)) == Some(Float(0.5))
    ensures HashKey(Str(IntToString(n))) != HashKey(Int(n))
    ensures HashKey(List(xs)).None? && HashKey(Obj(fs)).None?
  {
  }

  /** `str()` of a value; `show` stands for the renderings the model leaves open (floats, containers). */
  function Shown(v: Value, show: Value -> string): (r: string)
    ensures v.Str? ==> r == v.s
    ensures v.Int? ==> r == IntToString(v.i)
  {
    match PyStr(v) case Some(s) => s case None => show(v)
  }

  /** `int(v)` for the values `int()` accepts; `None` stands for the `TypeError`/`ValueError` it raises otherwise. */
  function PyInt(v: Value): Option<int>
  {
    match v
    case Int(i) => Some(i)
    case Bool(b) => Some(if b then 1 else 0)
    case Str(s) => ParseInt(s)
    case Float(r) => Some(TruncateReal(r))
    case _ => None
  }

  /** Python's `int()` of a float: rounds toward zero. */
  function TruncateReal(r: real): (n: int)
    ensures r >= 0.0 ==> 0 <= n && n as real <= r < n as real + 1.0
    ensures r < 0.0 ==> n <= 0 && n as real - 1.0 < r <= n as real
  {
    if r >= 0.0 then r.Floor else -((-r).Floor)
  }
}
