/** The property coercion layer of the CAD addon (`set_object_property`):
    every entry of a loosely typed property mapping is assigned to a document
    object inside its own try block, after a chain of shape checks decides
    whether it becomes a placement, a vector, a resolved object reference, a
    list of (object, face) references, a view colour, view attributes, or the
    value as sent. */
module Coercion {

  import opened Values

  /** `FreeCAD.Vector(x, y, z)`, the coordinates kept as they were sent. */
  datatype Vector = Vector(x: Value, y: Value, z: Value)

  /** What a property (of the object or of its view object) holds after an
      assignment. */
  datatype Stored =
    | Raw(v: Value)                              // setattr with the value as sent
    | Vec(vec: Vector)                           // FreeCAD.Vector
    | Placement(position: Vector, axis: Vector, angle: Value)
    | Link(target: string)                       // a resolved object
    | LinkSubs(links: seq<(string, Value)>)      // resolved (object, face) pairs
    | Color(r: real, g: real, b: real, a: real)  // four floats

  /** A document object: its name, type tag, the names in its
      `PropertiesList`, its property values, the attributes of its view
      object, and the names of the objects grouped under it (an analysis). */
  datatype Obj = Obj(
    name: string,
    typeId: string,
    declared: set<string>,
    props: map<string, Stored>,
    view: map<string, Stored>,
    group: seq<string>)

  /** Why the handling of one key raised. */
  datatype Fault =
    | RefNotFound(missing: string)  // ValueError: Referenced object '<name>' not found.
    | NotAMapping(block: Value)     // `.get` on a sub-block that is not a dict
    | NotFloat(component: Value)    // float() refused a colour component
    | TooFewComponents(count: nat)  // a colour index past the end of the list
    | NotIndexable(colour: Value)   // a colour that cannot be indexed by position
    | BadPair(item: Value)          // `for ref_name, face in val`: unpacking failed
    | NameNotString(ref: Value)     // doc.getObject of a non-string
    | NotIterable(refs: Value)      // a loop over a value that is not iterable

  datatype Attempt<+T> = Ok(value: T) | Err(fault: Fault)

  /** The property names whose string value is resolved as an object name. */
  const RefNames: set<string> := {"Base", "Tool", "Source", "Profile"}

  const Zero: Value := Num(0.0)
  const One: Value := Num(1.0)

  /** `m` and `m'` agree on key `k`. */
  predicate MapAgree<K, V(==)>(m: map<K, V>, m': map<K, V>, k: K) {
    (k in m <==> k in m') && (k in m ==> m[k] == m'[k])
  }

  function Set(obj: Obj, prop: string, s: Stored): (r: Obj)
    ensures r.name == obj.name && r.typeId == obj.typeId && r.declared == obj.declared
    ensures r.group == obj.group && r.view == obj.view
    ensures prop in r.props && r.props[prop] == s
    ensures forall p :: p != prop ==> MapAgree(r.props, obj.props, p)
  {
    obj.(props := obj.props[prop := s])
  }

  function SetView(obj: Obj, attr: string, s: Stored): (r: Obj)
    ensures r.name == obj.name && r.typeId == obj.typeId && r.declared == obj.declared
    ensures r.group == obj.group && r.props == obj.props
    ensures attr in r.view && r.view[attr] == s
    ensures forall p :: p != attr ==> MapAgree(r.view, obj.view, p)
  {
    obj.(view := obj.view[attr := s])
  }

  /** `FreeCAD.Vector(d.get("x", 0), d.get("y", 0), d.get("z", 0))`. */
  function VectorOf(d: seq<(string, Value)>): (r: Vector)
    ensures HasKey(d, "x") ==> Some(r.x) == Lookup(d, "x")
    ensures HasKey(d, "y") ==> Some(r.y) == Lookup(d, "y")
    ensures HasKey(d, "z") ==> Some(r.z) == Lookup(d, "z")
    ensures !HasKey(d, "x") ==> r.x == Zero
    ensures !HasKey(d, "y") ==> r.y == Zero
    ensures !HasKey(d, "z") ==> r.z == Zero
  {
    Vector(GetOr(d, "x", Zero), GetOr(d, "y", Zero), GetOr(d, "z", Zero))
  }

  /** The placement built from a `Placement` mapping: the position block is
      `Base` if present, else `Position`, else empty; missing coordinates are
      0; the rotation axis defaults to (0, 0, 1) component by component and
      the angle to 0. A sub-block that is not a mapping raises. */
  function PlacementOf(val: seq<(string, Value)>): (r: Attempt<Stored>)
    ensures r.Ok? ==> r.value.Placement? && PositionBlock(val).Dict?
                      && r.value.position == VectorOf(PositionBlock(val).entries)
    ensures !PositionBlock(val).Dict? ==> r == Err(NotAMapping(PositionBlock(val)))
    ensures PositionBlock(val).Dict? && !GetOr(val, "Rotation", Dict([])).Dict?
            ==> r == Err(NotAMapping(GetOr(val, "Rotation", Dict([]))))
    ensures !HasKey(val, "Rotation") && PositionBlock(val).Dict?
            ==> r.Ok? && r.value.axis == Vector(Zero, Zero, One) && r.value.angle == Zero
  {
    PlacementFrom(PositionBlock(val), GetOr(val, "Rotation", Dict([])))
  }

  /** The position block: `Base` if present, else `Position`, else empty. */
  function PositionBlock(val: seq<(string, Value)>): (r: Value) {
    if HasKey(val, "Base") then Lookup(val, "Base").value
    else if HasKey(val, "Position") then Lookup(val, "Position").value
    else Dict([])
  }

  function PlacementFrom(pos: Value, rot: Value): (r: Attempt<Stored>) {
    if !pos.Dict? then Err(NotAMapping(pos))
    else if !rot.Dict? then Err(NotAMapping(rot))
    else
      var axis := GetOr(rot.entries, "Axis", Dict([]));
      if !axis.Dict? then Err(NotAMapping(axis))
      else
        Ok(Placement(
          VectorOf(pos.entries),
          Vector(GetOr(axis.entries, "x", Zero), GetOr(axis.entries, "y", Zero), GetOr(axis.entries, "z", One)),
          GetOr(rot.entries, "Angle", Zero)))
  }

  /** Python's `float(v)` for the values the model converts: numbers and
      booleans. */
  function FloatOf(v: Value): (r: Option<real>)
    ensures r.Some? <==> v.Num? || v.Bool?
    ensures v.Num? ==> r == Some(v.n)
    ensures v == Bool(true) ==> r == Some(1.0)
    ensures v == Bool(false) ==> r == Some(0.0)
  {
    match v
    case Num(n) => Some(n)
    case Bool(b) => Some(if b then 1.0 else 0.0)
    case _ => None
  }

  /** `float(items[0]), ..., float(items[n - 1])`, evaluated left to right:
      the first index past the end or the first refused component raises. */
  function Floats(items: seq<Value>, n: nat, seen: nat): (r: Attempt<seq<real>>)
    ensures r.Ok? ==> |r.value| == n && n <= |items|
    ensures r.Ok? ==> forall k :: 0 <= k < n ==> FloatOf(items[k]) == Some(r.value[k])
    decreases n
  {
    if n == 0 then Ok([])
    else if items == [] then Err(TooFewComponents(seen))
    else match FloatOf(items[0])
      case None => Err(NotFloat(items[0]))
      case Some(x) =>
        match Floats(items[1..], n - 1, seen + 1)
        case Ok(xs) => Ok([x] + xs)
        case Err(f) => Err(f)
  }

  /** `(float(v[0]), float(v[1]), float(v[2]), float(v[3]))` for a list:
      the first four components as floats; extra components are ignored. */
  function ColorOf(items: seq<Value>): (r: Attempt<Stored>)
    ensures r.Ok? <==> |items| >= 4 && forall k :: 0 <= k < 4 ==> FloatOf(items[k]).Some?
    ensures r.Ok? ==> r.value == Color(FloatOf(items[0]).value, FloatOf(items[1]).value,
                                       FloatOf(items[2]).value, FloatOf(items[3]).value)
  {
    FloatsSucceed(items, 4, 0);
    match Floats(items, 4, 0)
    case Ok(xs) => Ok(Color(xs[0], xs[1], xs[2], xs[3]))
    case Err(f) => Err(f)
  }

  /** `Floats` fails exactly when a component is missing or refused. */
  lemma {:induction false} FloatsSucceed(items: seq<Value>, n: nat, seen: nat)
    ensures Floats(items, n, seen).Ok? <==> n <= |items| && forall k :: 0 <= k < n ==> FloatOf(items[k]).Some?
    decreases n
  {
    if n > 0 && items != [] && FloatOf(items[0]).Some? {
      FloatsSucceed(items[1..], n - 1, seen + 1);
      if n <= |items| && forall k :: 0 <= k < n ==> FloatOf(items[k]).Some? {
        assert forall k :: 0 <= k < n - 1 ==> items[1..][k] == items[k + 1];
      }
      if Floats(items[1..], n - 1, seen + 1).Ok? {
        forall k | 0 <= k < n ensures FloatOf(items[k]).Some? {
          if k > 0 { assert items[k] == items[1..][k - 1]; }
        }
      }
    }
  }

  /** A colour given to the view object: indexable by position only when it
      is a list. */
  function ViewColorOf(v: Value): (r: Attempt<Stored>)
    ensures r.Ok? <==> v.List? && |v.items| >= 4 && forall k :: 0 <= k < 4 ==> FloatOf(v.items[k]).Some?
    ensures r.Ok? ==> r.value == Color(FloatOf(v.items[0]).value, FloatOf(v.items[1]).value,
                                       FloatOf(v.items[2]).value, FloatOf(v.items[3]).value)
    ensures !v.List? ==> r == Err(NotIndexable(v))
  {
    if v.List? then ColorOf(v.items) else Err(NotIndexable(v))
  }

  /** `ref_name, face = item`: unpacking into exactly two names. */
  function Unpack2(item: Value): (r: Option<(Value, Value)>) {
    match item
    case List(xs) => if |xs| == 2 then Some((xs[0], xs[1])) else None
    case Str(s) => if |s| == 2 then Some((Str([s[0]]), Str([s[1]]))) else None
    case Dict(es) => if |es| == 2 then Some((Str(es[0].0), Str(es[1].0))) else None
    case _ => None
  }

  /** The fault one `References` item raises, if any: it must unpack into a
      pair whose first part names an object of the document. */
  function RefFault(names: set<string>, item: Value): (r: Option<Fault>) {
    match Unpack2(item)
    case None => Some(BadPair(item))
    case Some((n, _)) =>
      if !n.Str? then Some(NameNotString(n))
      else if n.s !in names then Some(RefNotFound(n.s))
      else None
  }

  /** The resolved (object, face) pair of an item that raises nothing. */
  function ResolvedPair(names: set<string>, item: Value): (r: (string, Value))
    requires RefFault(names, item).None?
    ensures r.0 in names
  {
    var (n, face) := Unpack2(item).value;
    (n.s, face)
  }

  /** The `(object, face)` list built from `References` items: every item is
      resolved, in order, or the first item that fails decides the fault. */
  function ResolvedRefs(names: set<string>, items: seq<Value>): (r: Attempt<seq<(string, Value)>>)
    ensures r.Ok? <==> forall i :: 0 <= i < |items| ==> RefFault(names, items[i]).None?
    ensures r.Ok? ==> |r.value| == |items|
    ensures r.Ok? ==> forall i :: 0 <= i < |items| ==> r.value[i] == ResolvedPair(names, items[i])
    ensures r.Err? ==> exists k :: 0 <= k < |items|
                        && (forall i :: 0 <= i < k ==> RefFault(names, items[i]).None?)
                        && RefFault(names, items[k]) == Some(r.fault)
    decreases |items|
  {
    if items == [] then Ok([])
    else match RefFault(names, items[0])
      case Some(f) => Err(f)
      case None =>
        var rest := ResolvedRefs(names, items[1..]);
        assert forall i :: 0 <= i < |items| - 1 ==> items[1..][i] == items[i + 1];
        match rest
        case Ok(links) =>
          var r := [ResolvedPair(names, items[0])] + links;
          assert forall i :: 1 <= i < |items| ==> r[i] == links[i - 1];
          Ok(r)
        case Err(f) =>
          ghost var k :| 0 <= k < |items| - 1
                        && (forall i :: 0 <= i < k ==> RefFault(names, items[1..][i]).None?)
                        && RefFault(names, items[1..][k]) == Some(f);
          assert RefFault(names, items[k + 1]) == Some(f);
          Err(f)
  }

  /** The first item that raises decides the fault of the whole list. */
  lemma {:induction false} FirstFaultDecides(names: set<string>, items: seq<Value>, i: nat)
    requires i < |items|
    requires forall j :: 0 <= j < i ==> RefFault(names, items[j]).None?
    requires RefFault(names, items[i]).Some?
    ensures ResolvedRefs(names, items) == Err(RefFault(names, items[i]).value)
    decreases i
  {
    if i > 0 {
      assert RefFault(names, items[0]).None?;
      assert items[1..][i - 1] == items[i];
      assert forall j :: 0 <= j < i - 1 ==> items[1..][j] == items[j + 1];
      FirstFaultDecides(names, items[1..], i - 1);
    }
  }

  /** The `References` loop as the source writes it: resolve every pair,
      appending to `refs`, and raise on the first failure. */
  method ResolveReferences(names: set<string>, items: seq<Value>) returns (r: Attempt<seq<(string, Value)>>)
    ensures r == ResolvedRefs(names, items)
  {
    var refs: seq<(string, Value)> := [];
    var i := 0;
    while i < |items|
      invariant 0 <= i <= |items|
      invariant forall j :: 0 <= j < i ==> RefFault(names, items[j]).None?
      invariant |refs| == i
      invariant forall j :: 0 <= j < i ==> refs[j] == ResolvedPair(names, items[j])
    {
      var fault := RefFault(names, items[i]);
      if fault.Some? {
        r := Err(fault.value);
        FirstFaultDecides(names, items, i);
        return;
      }
      refs := refs + [ResolvedPair(names, items[i])];
      i := i + 1;
    }
    r := Ok(refs);
    var spec := ResolvedRefs(names, items);
    assert spec.Ok?;
    assert spec.value == refs;
  }

  /** The attributes of a `ViewObject` mapping, set one by one on the view
      object; a colour that raises stops the rest of the mapping, and what
      was set before it stays set. */
  function ApplyViewEntries(obj: Obj, entries: seq<(string, Value)>): (r: (Obj, Option<Fault>))
    ensures r.0.name == obj.name && r.0.typeId == obj.typeId && r.0.declared == obj.declared
    ensures r.0.group == obj.group && r.0.props == obj.props
    decreases |entries|
  {
    if entries == [] then (obj, None)
    else
      var (k, v) := entries[0];
      if k == "ShapeColor" then
        match ViewColorOf(v)
        case Err(f) => (obj, Some(f))
        case Ok(c) => ApplyViewEntries(SetView(obj, k, c), entries[1..])
      else ApplyViewEntries(SetView(obj, k, Raw(v)), entries[1..])
  }

  /** One view attribute: the object after it, or the fault it raises. */
  function ViewEntry(obj: Obj, k: string, v: Value): (r: Attempt<Obj>) {
    if k == "ShapeColor" then
      match ViewColorOf(v)
      case Err(f) => Err(f)
      case Ok(c) => Ok(SetView(obj, k, c))
    else Ok(SetView(obj, k, Raw(v)))
  }

  /** Setting the view attributes `a + [e]` where `a` raised nothing is
      setting `a`, then `e`. */
  lemma {:induction false} ViewEntriesSnoc(obj: Obj, a: seq<(string, Value)>, e: (string, Value))
    requires ApplyViewEntries(obj, a).1.None?
    ensures ApplyViewEntries(obj, a + [e])
         == match ViewEntry(ApplyViewEntries(obj, a).0, e.0, e.1)
            case Ok(o) => (o, None)
            case Err(f) => (ApplyViewEntries(obj, a).0, Some(f))
    decreases |a|
  {
    if a == [] {
      assert [e][1..] == [];
    } else {
      assert (a + [e])[0] == a[0];
      assert (a + [e])[1..] == a[1..] + [e];
      var (k, v) := a[0];
      if k == "ShapeColor" {
        ViewEntriesSnoc(SetView(obj, k, ViewColorOf(v).value), a[1..], e);
      } else {
        ViewEntriesSnoc(SetView(obj, k, Raw(v)), a[1..], e);
      }
    }
  }

  /** A `References` item written as a mapping `{"object_name": ...,
      "face": ...}` unpacks into its two keys, so the object looked up is
      one named `object_name`: unless the document has one, the key raises
      and the object keeps what it had. */
  lemma MappingReferenceUnpacksKeys(names: set<string>, obj: Obj, objName: Value, face: Value)
    requires "References" in obj.declared && "object_name" !in names
    ensures ApplyKey(names, obj, "References", List([Dict([("object_name", objName), ("face", face)])]))
            == (obj, Some(RefNotFound("object_name")))
  {
  }

  /** The body of the try block for one key: the object after the key, and
      the fault it raised if any. */
  function ApplyKey(names: set<string>, obj: Obj, prop: string, val: Value): (r: (Obj, Option<Fault>))
    ensures r.0.name == obj.name && r.0.typeId == obj.typeId && r.0.declared == obj.declared
    ensures r.0.group == obj.group
    ensures forall p :: p != prop ==> MapAgree(r.0.props, obj.props, p)
    ensures prop != "ShapeColor" && prop != "ViewObject" ==> r.0.view == obj.view
    // A key that raises changes nothing, except a ViewObject mapping, which
    // keeps the view attributes set before the failing one.
    ensures r.1.Some? && prop != "ViewObject" ==> r.0 == obj
    ensures r.1.Some? ==> r.0.props == obj.props
  {
    if prop in obj.declared then
      if prop == "Placement" && val.Dict? then
        match PlacementOf(val.entries)
        case Ok(p) => (Set(obj, prop, p), None)
        case Err(f) => (obj, Some(f))
      else if prop in obj.props && obj.props[prop].Vec? && val.Dict? then
        (Set(obj, prop, Vec(VectorOf(val.entries))), None)
      else if prop in RefNames && val.Str? then
        if val.s in names then (Set(obj, prop, Link(val.s)), None)
        else (obj, Some(RefNotFound(val.s)))
      else if prop == "References" && val.List? then
        match ResolvedRefs(names, val.items)
        case Ok(links) => (Set(obj, prop, LinkSubs(links)), None)
        case Err(f) => (obj, Some(f))
      else (Set(obj, prop, Raw(val)), None)
    else if prop == "ShapeColor" && val.List? then
      match ColorOf(val.items)
      case Ok(c) => (SetView(obj, prop, c), None)
      case Err(f) => (obj, Some(f))
    else if prop == "ViewObject" && val.Dict? then
      ApplyViewEntries(obj, val.entries)
    else (Set(obj, prop, Raw(val)), None)
  }

  /** The log line for one key that raised: the key and its fault. */
  function Logged(prop: string, fault: Option<Fault>): (r: seq<(string, Fault)>) {
    if fault.Some? then [(prop, fault.value)] else []
  }

  /** Handling the keys of `entries` in order with `step`, each inside its
      own try block: the object afterwards and the (key, fault) pairs logged
      for the keys that raised. */
  function Fold(step: (Obj, string, Value) -> (Obj, Option<Fault>), obj: Obj, entries: seq<(string, Value)>)
    : (r: (Obj, seq<(string, Fault)>))
    ensures |r.1| <= |entries|
    decreases |entries|
  {
    if entries == [] then (obj, [])
    else
      var (o1, f) := step(obj, entries[0].0, entries[0].1);
      var rest := Fold(step, o1, entries[1..]);
      (rest.0, Logged(entries[0].0, f) + rest.1)
  }

  /** Handling `a + b` is handling `a`, then `b` from where `a` left off; the
      logs concatenate. */
  lemma {:induction false} FoldConcat(step: (Obj, string, Value) -> (Obj, Option<Fault>), obj: Obj,
                                      a: seq<(string, Value)>, b: seq<(string, Value)>)
    ensures Fold(step, obj, a + b)
         == (Fold(step, Fold(step, obj, a).0, b).0, Fold(step, obj, a).1 + Fold(step, Fold(step, obj, a).0, b).1)
    decreases |a|
  {
    if a == [] {
      assert a + b == b;
      assert Fold(step, obj, a) == (obj, []);
      assert [] + Fold(step, obj, b).1 == Fold(step, obj, b).1;
    } else {
      var k := step(obj, a[0].0, a[0].1);
      FoldConcat(step, k.0, a[1..], b);
      var x := Fold(step, k.0, a[1..]);
      var y := Fold(step, x.0, b);
      assert Fold(step, obj, a) == (x.0, Logged(a[0].0, k.1) + x.1);
      assert Fold(step, obj, a + b) == (y.0, Logged(a[0].0, k.1) + (x.1 + y.1)) by {
        assert (a + b)[0] == a[0];
        assert (a + b)[1..] == a[1..] + b;
      }
      assert Logged(a[0].0, k.1) + (x.1 + y.1) == (Logged(a[0].0, k.1) + x.1) + y.1;
    }
  }

  /** The try body of `set_object_property` for the objects of a document
      whose object names are `names`. */
  function KeyStep(names: set<string>): (Obj, string, Value) -> (Obj, Option<Fault>) {
    (o, k, v) => ApplyKey(names, o, k, v)
  }

  /** `set_object_property`: every key handled in order inside its own try
      block. Returns the object afterwards and the (key, fault) pairs the
      source logs for the keys that raised. */
  function ApplyProperties(names: set<string>, obj: Obj, entries: seq<(string, Value)>)
    : (r: (Obj, seq<(string, Fault)>))
    ensures |r.1| <= |entries|
  {
    Fold(KeyStep(names), obj, entries)
  }

  /** What `set_object_property` never touches: the object's identity and
      declared properties, every property no key names, and the view object
      unless a `ShapeColor` or `ViewObject` key is sent. */
  lemma {:induction false} ApplyPropertiesFrame(names: set<string>, obj: Obj, entries: seq<(string, Value)>)
    ensures var r := ApplyProperties(names, obj, entries).0;
      r.name == obj.name && r.typeId == obj.typeId && r.declared == obj.declared && r.group == obj.group
    ensures forall p :: !HasKey(entries, p) ==> MapAgree(ApplyProperties(names, obj, entries).0.props, obj.props, p)
    ensures !HasKey(entries, "ShapeColor") && !HasKey(entries, "ViewObject")
            ==> ApplyProperties(names, obj, entries).0.view == obj.view
    decreases |entries|
  {
    if entries != [] {
      var (o1, f) := ApplyKey(names, obj, entries[0].0, entries[0].1);
      ApplyPropertiesFrame(names, o1, entries[1..]);
      assert forall p :: HasKey(entries[1..], p) ==> HasKey(entries, p) by {
        forall p | HasKey(entries[1..], p) ensures HasKey(entries, p) {
          var i :| 0 <= i < |entries[1..]| && entries[1..][i].0 == p;
          assert entries[i + 1].0 == p;
        }
      }
      assert HasKey(entries, entries[0].0) by { assert entries[0].0 == entries[0].0; }
    }
  }

  /** Applying `a + b` is applying `a`, then `b` to what `a` left; the logs
      concatenate. */
  lemma ApplyConcat(names: set<string>, obj: Obj, a: seq<(string, Value)>, b: seq<(string, Value)>)
    ensures ApplyProperties(names, obj, a + b)
         == (ApplyProperties(names, ApplyProperties(names, obj, a).0, b).0,
             ApplyProperties(names, obj, a).1 + ApplyProperties(names, ApplyProperties(names, obj, a).0, b).1)
  {
    FoldConcat(KeyStep(names), obj, a, b);
  }

  /** Per-key isolation: a key that raises without touching the object is
      logged and skipped, and every key after it is applied exactly as if it
      had not been there. */
  lemma FailingKeyIsSkipped(names: set<string>, obj: Obj, a: seq<(string, Value)>,
                            prop: string, val: Value, b: seq<(string, Value)>)
    requires ApplyKey(names, ApplyProperties(names, obj, a).0, prop, val).1.Some?
    requires prop != "ViewObject"
    ensures ApplyProperties(names, obj, a + [(prop, val)] + b).0 == ApplyProperties(names, obj, a + b).0
    ensures ApplyProperties(names, obj, a + [(prop, val)] + b).1
         == ApplyProperties(names, obj, a).1
            + [(prop, ApplyKey(names, ApplyProperties(names, obj, a).0, prop, val).1.value)]
            + ApplyProperties(names, ApplyProperties(names, obj, a).0, b).1
  {
    var mid := ApplyProperties(names, obj, a);
    var f := ApplyKey(names, mid.0, prop, val).1.value;
    assert a + [(prop, val)] + b == a + ([(prop, val)] + b);
    ApplyConcat(names, obj, a, [(prop, val)] + b);
    ApplyConcat(names, obj, a, b);
    assert ([(prop, val)] + b)[0] == (prop, val);
    assert ([(prop, val)] + b)[1..] == b;
    assert ApplyProperties(names, mid.0, [(prop, val)] + b)
        == (ApplyProperties(names, mid.0, b).0, [(prop, f)] + ApplyProperties(names, mid.0, b).1);
  }

  /** Applying one more key: its try body runs on what the earlier keys
      left, and its fault, if any, is logged after theirs. */
  lemma ApplySnoc(names: set<string>, obj: Obj, a: seq<(string, Value)>, prop: string, val: Value)
    ensures var (o, log) := ApplyProperties(names, obj, a);
      var (next, fault) := ApplyKey(names, o, prop, val);
      ApplyProperties(names, obj, a + [(prop, val)]) == (next, log + Logged(prop, fault))
  {
    var (o, log) := ApplyProperties(names, obj, a);
    var (next, fault) := ApplyKey(names, o, prop, val);
    ApplyConcat(names, obj, a, [(prop, val)]);
    assert [(prop, val)][1..] == [];
    assert ApplyProperties(names, next, []) == (next, []);
    assert ApplyProperties(names, o, [(prop, val)]) == (next, Logged(prop, fault) + []);
    assert Logged(prop, fault) + [] == Logged(prop, fault);
  }

  /** The loop over the properties, key by key, each inside its own try. */
  method SetObjectProperty(names: set<string>, obj: Obj, properties: seq<(string, Value)>)
    returns (r: Obj, log: seq<(string, Fault)>)
    ensures (r, log) == ApplyProperties(names, obj, properties)
  {
    r, log := obj, [];
    var i := 0;
    while i < |properties|
      invariant 0 <= i <= |properties|
      invariant (r, log) == ApplyProperties(names, obj, properties[..i])
    {
      var (prop, val) := properties[i];
      var next, fault := AssignProperty(names, r, prop, val);
      ApplySnoc(names, obj, properties[..i], prop, val);
      assert properties[..i + 1] == properties[..i] + [(prop, val)];
      r := next;
      log := log + Logged(prop, fault);
      i := i + 1;
    }
    assert properties[..|properties|] == properties;
  }

  /** The try body for one key, as the source's chain of branches. */
  method AssignProperty(names: set<string>, obj: Obj, prop: string, val: Value)
    returns (r: Obj, fault: Option<Fault>)
    ensures (r, fault) == ApplyKey(names, obj, prop, val)
  {
    r, fault := obj, None;
    if prop in obj.declared {
      if prop == "Placement" && val.Dict? {
        match PlacementOf(val.entries)
        case Ok(p) => r := Set(obj, prop, p);
        case Err(f) => fault := Some(f);
      } else if prop in obj.props && obj.props[prop].Vec? && val.Dict? {
        r := Set(obj, prop, Vec(VectorOf(val.entries)));
      } else if prop in RefNames && val.Str? {
        if val.s in names {
          r := Set(obj, prop, Link(val.s));
        } else {
          fault := Some(RefNotFound(val.s));
        }
      } else if prop == "References" && val.List? {
        var refs := ResolveReferences(names, val.items);
        match refs
        case Ok(links) => r := Set(obj, prop, LinkSubs(links));
        case Err(f) => fault := Some(f);
      } else {
        r := Set(obj, prop, Raw(val));
      }
    } else if prop == "ShapeColor" && val.List? {
      match ColorOf(val.items)
      case Ok(c) => r := SetView(obj, prop, c);
      case Err(f) => fault := Some(f);
    } else if prop == "ViewObject" && val.Dict? {
      var entries := val.entries;
      var j := 0;
      while j < |entries|
        invariant 0 <= j <= |entries|
        decreases |entries| - j
        invariant ApplyViewEntries(obj, entries[..j]) == (r, None)
      {
        var (k, v) := entries[j];
        ViewEntriesSnoc(obj, entries[..j], (k, v));
        assert entries[..j + 1] == entries[..j] + [(k, v)];
        var step := ViewEntry(r, k, v);
        if step.Err? {
          fault := Some(step.fault);
          ViewStopsAtFault(obj, entries[..j + 1], entries[j + 1..]);
          assert entries[..j + 1] + entries[j + 1..] == entries;
          return;
        }
        r := step.value;
        j := j + 1;
      }
      assert entries[..j] == entries;
    } else {
      r := Set(obj, prop, Raw(val));
    }
  }

  /** Once a view attribute raises, the attributes after it are never set. */
  lemma {:induction false} ViewStopsAtFault(obj: Obj, a: seq<(string, Value)>, b: seq<(string, Value)>)
    requires ApplyViewEntries(obj, a).1.Some?
    ensures ApplyViewEntries(obj, a + b) == ApplyViewEntries(obj, a)
    decreases |a|
  {
    assert a != [];
    assert (a + b)[0] == a[0];
    assert (a + b)[1..] == a[1..] + b;
    var (k, v) := a[0];
    if k == "ShapeColor" && ViewColorOf(v).Ok? {
      ViewStopsAtFault(SetView(obj, k, ViewColorOf(v).value), a[1..], b);
    } else if k != "ShapeColor" {
      ViewStopsAtFault(SetView(obj, k, Raw(v)), a[1..], b);
    }
  }

  /** A `Placement` mapping is turned into a placement only when the object
      declares `Placement`; otherwise the mapping is assigned as sent. */
  lemma PlacementOnlyWhenDeclared(names: set<string>, obj: Obj, val: seq<(string, Value)>)
    ensures var r := ApplyKey(names, obj, "Placement", Dict(val));
      if "Placement" in obj.declared then
        (PlacementOf(val).Ok? ==> r == (Set(obj, "Placement", PlacementOf(val).value), None))
        && (PlacementOf(val).Err? ==> r == (obj, Some(PlacementOf(val).fault)))
      else r == (Set(obj, "Placement", Raw(Dict(val))), None)
  {
  }

  /** When both `Base` and `Position` are given, `Position` is ignored. */
  lemma BaseWinsOverPosition(val: seq<(string, Value)>)
    requires HasKey(val, "Base")
    ensures PlacementOf(val) == PlacementOf(RemoveKey(val, "Position"))
  {
    var rest := RemoveKey(val, "Position");
    assert Lookup(rest, "Base") == Lookup(val, "Base");
    assert PositionBlock(rest) == PositionBlock(val);
    assert GetOr(rest, "Rotation", Dict([])) == GetOr(val, "Rotation", Dict([]));
  }

  /** Without `Base`, the `Position` block gives the position, whatever
      the rotation block holds; the placement is built exactly when the
      rotation block and its axis are mappings. */
  lemma PositionUsedWithoutBase(val: seq<(string, Value)>, pos: seq<(string, Value)>)
    requires !HasKey(val, "Base") && Lookup(val, "Position") == Some(Dict(pos))
    ensures var rot := GetOr(val, "Rotation", Dict([]));
      PlacementOf(val).Ok? <==> rot.Dict? && GetOr(rot.entries, "Axis", Dict([])).Dict?
    ensures PlacementOf(val).Ok? ==> PlacementOf(val).value.position == VectorOf(pos)
  {
  }

  /** A placement mapping whose position, rotation and axis blocks are
      mappings: position from the position block (missing coordinates 0),
      axis from the axis block (x and y default to 0, z to 1), angle from the
      rotation block (default 0). */
  lemma PlacementFromBlocks(val: seq<(string, Value)>, pos: seq<(string, Value)>,
                            rot: seq<(string, Value)>, axis: seq<(string, Value)>)
    requires HasKey(val, "Base") ==> Lookup(val, "Base") == Some(Dict(pos))
    requires !HasKey(val, "Base") && HasKey(val, "Position") ==> Lookup(val, "Position") == Some(Dict(pos))
    requires !HasKey(val, "Base") && !HasKey(val, "Position") ==> pos == []
    requires GetOr(val, "Rotation", Dict([])) == Dict(rot)
    requires GetOr(rot, "Axis", Dict([])) == Dict(axis)
    ensures PlacementOf(val)
         == Ok(Placement(VectorOf(pos),
                         Vector(GetOr(axis, "x", Zero), GetOr(axis, "y", Zero), GetOr(axis, "z", One)),
                         GetOr(rot, "Angle", Zero)))
  {
  }

  /** The first block that is not a mapping, in the order position,
      rotation, axis, is the fault. */
  lemma PlacementRaisesOnFirstNonMapping(val: seq<(string, Value)>)
    ensures var pos := PositionBlock(val);
      var rot := GetOr(val, "Rotation", Dict([]));
      (!pos.Dict? ==> PlacementOf(val) == Err(NotAMapping(pos)))
      && (pos.Dict? && !rot.Dict? ==> PlacementOf(val) == Err(NotAMapping(rot)))
      && (pos.Dict? && rot.Dict? && !GetOr(rot.entries, "Axis", Dict([])).Dict?
          ==> PlacementOf(val) == Err(NotAMapping(GetOr(rot.entries, "Axis", Dict([])))))
  {
  }

  /** A placement mapping with no position and no rotation is the identity:
      position (0, 0, 0), axis (0, 0, 1), angle 0. */
  lemma PlacementDefaults(val: seq<(string, Value)>)
    requires !HasKey(val, "Base") && !HasKey(val, "Position") && !HasKey(val, "Rotation")
    ensures PlacementOf(val) == Ok(Placement(Vector(Zero, Zero, Zero), Vector(Zero, Zero, One), Zero))
  {
  }

  /** Missing coordinates of a position block are 0, each on its own. */
  lemma MissingCoordinatesAreZero(pos: seq<(string, Value)>)
    ensures !HasKey(pos, "x") ==> VectorOf(pos).x == Zero
    ensures !HasKey(pos, "y") ==> VectorOf(pos).y == Zero
    ensures !HasKey(pos, "z") ==> VectorOf(pos).z == Zero
    ensures HasKey(pos, "x") ==> VectorOf(pos).x == Lookup(pos, "x").value
    ensures HasKey(pos, "y") ==> VectorOf(pos).y == Lookup(pos, "y").value
    ensures HasKey(pos, "z") ==> VectorOf(pos).z == Lookup(pos, "z").value
  {
  }

  /** Axis components default independently: each one given is taken as
      sent, a missing x or y is 0 and a missing z is 1; a missing angle is
      0. */
  lemma AxisDefaultsIndependently(val: seq<(string, Value)>, rot: seq<(string, Value)>,
                                  axis: seq<(string, Value)>)
    requires PositionBlock(val).Dict?
    requires Lookup(val, "Rotation") == Some(Dict(rot)) && Lookup(rot, "Axis") == Some(Dict(axis))
    ensures PlacementOf(val).Ok?
    ensures var a := PlacementOf(val).value.axis;
      (a.x == if HasKey(axis, "x") then Lookup(axis, "x").value else Zero)
      && (a.y == if HasKey(axis, "y") then Lookup(axis, "y").value else Zero)
      && (a.z == if HasKey(axis, "z") then Lookup(axis, "z").value else One)
    ensures PlacementOf(val).value.angle == if HasKey(rot, "Angle") then Lookup(rot, "Angle").value else Zero
  {
  }

  /** A placement given as a `Base` block and a `Rotation` block with an
      axis and an angle, the shape the tool documentation shows, is taken
      component by component. */
  lemma PlacementComponentwise(x: Value, y: Value, z: Value, ax: Value, ay: Value, az: Value, angle: Value)
    ensures PlacementOf([
              ("Base", Dict([("x", x), ("y", y), ("z", z)])),
              ("Rotation", Dict([("Axis", Dict([("x", ax), ("y", ay), ("z", az)])), ("Angle", angle)]))])
         == Ok(Placement(Vector(x, y, z), Vector(ax, ay, az), angle))
  {
    var base := [("x", x), ("y", y), ("z", z)];
    var axis := [("x", ax), ("y", ay), ("z", az)];
    var rot := [("Axis", Dict(axis)), ("Angle", angle)];
    var val := [("Base", Dict(base)), ("Rotation", Dict(rot))];
    LookupPair(val, "Base", "Rotation");
    assert PositionBlock(val) == Dict(base);
    LookupPair(rot, "Axis", "Angle");
    LookupXYZ(base);
    LookupXYZ(axis);
  }

  lemma LookupPair(d: seq<(string, Value)>, k0: string, k1: string)
    requires |d| == 2 && d[0].0 == k0 && d[1].0 == k1 && k0 != k1
    ensures Lookup(d, k0) == Some(d[0].1) && Lookup(d, k1) == Some(d[1].1)
  {
    assert d[1..][0] == d[1];
  }

  lemma LookupXYZ(d: seq<(string, Value)>)
    requires |d| == 3 && d[0].0 == "x" && d[1].0 == "y" && d[2].0 == "z"
    ensures Lookup(d, "x") == Some(d[0].1) && Lookup(d, "y") == Some(d[1].1) && Lookup(d, "z") == Some(d[2].1)
  {
    assert d[1..][0] == d[1];
    assert d[1..][1..][0] == d[2];
  }

  /** A mapping assigned to a declared vector property becomes the vector
      of its `x`, `y` and `z` entries, missing components 0. */
  lemma VectorFromMapping(names: set<string>, obj: Obj, prop: string, d: seq<(string, Value)>)
    requires prop in obj.declared && prop != "Placement"
    requires prop in obj.props && obj.props[prop].Vec?
    ensures ApplyKey(names, obj, prop, Dict(d)) == (Set(obj, prop, Vec(VectorOf(d))), None)
  {
  }

  /** A reference property given an object name: set to that object when the
      document has it; otherwise the key raises and nothing changes. */
  lemma ReferenceByName(names: set<string>, obj: Obj, prop: string, target: string)
    requires prop in RefNames && prop in obj.declared
    ensures target in names ==> ApplyKey(names, obj, prop, Str(target)) == (Set(obj, prop, Link(target)), None)
    ensures target !in names ==> ApplyKey(names, obj, prop, Str(target)) == (obj, Some(RefNotFound(target)))
  {
  }

  /** `References` is assigned once, after every pair resolved: one missing
      name leaves the property untouched; otherwise it holds one resolved
      pair per item, in order. */
  lemma ReferencesAllOrNothing(names: set<string>, obj: Obj, items: seq<Value>)
    requires "References" in obj.declared
    ensures (exists i :: 0 <= i < |items| && RefFault(names, items[i]).Some?)
            ==> ApplyKey(names, obj, "References", List(items)).0 == obj
    ensures (forall i :: 0 <= i < |items| ==> RefFault(names, items[i]).None?)
            ==> var r := ApplyKey(names, obj, "References", List(items)).0;
                "References" in r.props && r.props["References"].LinkSubs?
                && |r.props["References"].links| == |items|
                && forall i :: 0 <= i < |items| ==> r.props["References"].links[i] == ResolvedPair(names, items[i])
  {
  }

  /** `ShapeColor` given as a list goes to the view object as its first four
      components as floats only when the object does not declare it; a list
      too short or with a component `float` refuses raises and changes
      nothing; a declared `ShapeColor` is assigned as sent. */
  lemma ShapeColorRoute(names: set<string>, obj: Obj, items: seq<Value>)
    ensures var r := ApplyKey(names, obj, "ShapeColor", List(items));
      if "ShapeColor" in obj.declared then r == (Set(obj, "ShapeColor", Raw(List(items))), None)
      else if |items| >= 4 && forall k :: 0 <= k < 4 ==> FloatOf(items[k]).Some? then
        r.1.None? && r.0.props == obj.props && "ShapeColor" in r.0.view
        && r.0.view["ShapeColor"] == Color(FloatOf(items[0]).value, FloatOf(items[1]).value,
                                           FloatOf(items[2]).value, FloatOf(items[3]).value)
      else r == (obj, Some(ColorOf(items).fault))
  {
  }

  /** A `ViewObject` mapping whose entry raises keeps the attributes set
      before that entry and never sets the ones after it. */
  lemma ViewObjectStopsMidMapping(names: set<string>, obj: Obj, a: seq<(string, Value)>,
                                  k: string, v: Value, b: seq<(string, Value)>)
    requires "ViewObject" !in obj.declared
    requires ApplyViewEntries(obj, a).1.None?
    requires ViewEntry(ApplyViewEntries(obj, a).0, k, v).Err?
    ensures ApplyKey(names, obj, "ViewObject", Dict(a + [(k, v)] + b))
         == (ApplyViewEntries(obj, a).0, Some(ViewEntry(ApplyViewEntries(obj, a).0, k, v).fault))
  {
    ViewEntriesSnoc(obj, a, (k, v));
    ViewStopsAtFault(obj, a + [(k, v)], b);
  }
}
