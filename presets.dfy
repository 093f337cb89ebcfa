/**
 * Saved argument presets, kept in the configuration under `presets`
 * either as a list of `{"name", "args"}` dicts or, in the older form, as
 * a dict from name to arguments.
 */
module Presets {
  import opened Wrappers
  import opened Json

  /** The dict a preset is saved as. */
  function PresetEntry(name: string, args: Value): Value
  {
    Obj([("name", Str(name)), ("args", args)])
  }

  /** The entries of a dict-shaped preset configuration, in key order. */
  function FromDict(fs: Fields): (r: seq<Value>)
    ensures |r| == |fs| && forall i :: 0 <= i < |fs| ==> r[i] == PresetEntry(fs[i].0, fs[i].1)
  {
    seq(|fs|, i requires 0 <= i < |fs| => PresetEntry(fs[i].0, fs[i].1))
  }

  /**
   * `load_presets`: `stored` is the configuration's `presets` entry, if
   * any. A dict becomes one entry per key, a list is returned as it is,
   * anything else (and a missing entry) gives no presets.
   */
  function LoadPresets(stored: Option<Value>): (r: seq<Value>)
    ensures stored.None? ==> r == []
    ensures stored.Some? && stored.value.List? ==> r == stored.value.items
    ensures stored.Some? && stored.value.Obj? ==> |r| == |stored.value.fields|
    ensures stored.Some? && stored.value.Obj? ==> forall i :: 0 <= i < |r| ==>
      Field(r[i], "name") == Str(stored.value.fields[i].0) && Field(r[i], "args") == stored.value.fields[i].1
    ensures stored.Some? && !stored.value.List? && !stored.value.Obj? ==> r == []
  {
    if stored.None? then []
    else match stored.value
      case Obj(fs) => FromDict(fs)
      case List(xs) => xs
      case _ => []
  }

  /** `preset.get("name") == name` for a dict preset. */
  predicate Named(preset: Value, name: string)
  {
    Field(preset, "name") == Str(name)
  }

  /**
   * Where the `for` loop of `add_preset` stops: at the first preset that
   * is not a dict (where `.get` raises `AttributeError`) or carries the
   * name; `|presets|` when there is none.
   */
  function StopsAt(presets: seq<Value>, name: string): (k: nat)
    ensures k <= |presets|
    ensures forall i :: 0 <= i < k ==> presets[i].Obj? && !Named(presets[i], name)
    ensures k < |presets| ==> !presets[k].Obj? || Named(presets[k], name)
  {
    if |presets| == 0 then 0
    else if !presets[0].Obj? || Named(presets[0], name) then 0
    else
      var k := StopsAt(presets[1..], name);
      assert forall i :: 0 <= i < |presets[1..]| ==> presets[1..][i] == presets[i + 1];
      k + 1
  }

  /**
   * `add_preset(name, args)` on the loaded presets: the first preset with
   * the name gets `args`, or a new entry is appended when none has it.
   * `None` when a preset before the first match is not a dict.
   */
  method AddPreset(presets: seq<Value>, name: string, args: Value) returns (r: Option<seq<Value>>)
    ensures var k := StopsAt(presets, name);
      r.None? <==> k < |presets| && !presets[k].Obj?
    ensures r.Some? && StopsAt(presets, name) == |presets| ==> r.value == presets + [PresetEntry(name, args)]
    ensures r.Some? && StopsAt(presets, name) < |presets| ==>
      var k := StopsAt(presets, name);
      && |r.value| == |presets|
      && (forall i :: 0 <= i < |presets| && i != k ==> r.value[i] == presets[i])
      && r.value[k].Obj? && Field(r.value[k], "args") == args && Named(r.value[k], name)
      && forall key :: key != "args" ==> Get(r.value[k].fields, key) == Get(presets[k].fields, key)
  {
    var i := 0;
    while i < |presets|
      invariant 0 <= i <= |presets|
      invariant forall j :: 0 <= j < i ==> presets[j].Obj? && !Named(presets[j], name)
    {
      var preset := presets[i];
      if !preset.Obj? {
        return None;
      }
      if Named(preset, name) {
        var updated := Obj(Put(preset.fields, "args", args));
        return Some(presets[i := updated]);
      }
      i := i + 1;
    }
    r := Some(presets + [PresetEntry(name, args)]);
  }

  /**
   * `remove_preset(name)` on the loaded presets: keeps, in order, the
   * presets without the name. `None` when some preset is not a dict.
   */
  function RemovePreset(presets: seq<Value>, name: string): (r: Option<seq<Value>>)
    ensures r.None? <==> exists i :: 0 <= i < |presets| && !presets[i].Obj?
  {
    if |presets| == 0 then Some([])
    else if !presets[0].Obj? then None
    else
      var rest := RemovePreset(presets[1..], name);
      assert forall i :: 0 <= i < |presets[1..]| ==> presets[1..][i] == presets[i + 1];
      if rest.None? then None
      else if Named(presets[0], name) then rest
      else Some([presets[0]] + rest.value)
  }

  /** After `remove_preset` no preset has the name, and every preset without it is still there. */
  lemma {:induction false} RemoveKeepsOthers(presets: seq<Value>, name: string)
    requires RemovePreset(presets, name).Some?
    ensures forall p :: p in RemovePreset(presets, name).value ==> p in presets && !Named(p, name)
    ensures forall p :: p in presets && !Named(p, name) ==> p in RemovePreset(presets, name).value
  {
    if |presets| > 0 {
      RemoveKeepsOthers(presets[1..], name);
      assert forall p :: p in presets ==> p == presets[0] || p in presets[1..];
    }
  }

  /** Removing from a list removes from each part: the presets kept stay in their order. */
  lemma {:induction false} RemoveSplits(a: seq<Value>, b: seq<Value>, name: string)
    requires RemovePreset(a, name).Some? && RemovePreset(b, name).Some?
    ensures RemovePreset(a + b, name) == Some(RemovePreset(a, name).value + RemovePreset(b, name).value)
  {
    if |a| > 0 {
      var tail := RemovePreset(a[1..], name);
      assert (a + b)[0] == a[0] && (a + b)[1..] == a[1..] + b;
      assert a[0].Obj? && tail.Some?;
      RemoveSplits(a[1..], b, name);
      var rb := RemovePreset(b, name).value;
      if !Named(a[0], name) {
        assert [a[0]] + (tail.value + rb) == ([a[0]] + tail.value) + rb;
      }
    } else {
      assert a + b == b;
      assert RemovePreset(a, name).value == [];
      assert [] + RemovePreset(b, name).value == RemovePreset(b, name).value;
    }
  }
}
