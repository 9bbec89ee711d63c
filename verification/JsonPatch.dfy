/** The patches of the ChatGPT Desktop IPC replica, on JSON trees.  A patch changes one place
    of the tree or throws before it changes anything. */
module JsonPatch {
  import opened Decimals
  import opened Replica
  import opened Wrappers

  /** Undefined fills the holes of a sparse array and stands for a patch without a value. */
  datatype Json = Undefined | Null | Bool(b: bool) | Num(n: int) | Str(s: string) | Arr(items: seq<Json>) | Obj(fields: map<string, Json>)

  /** Bad is a segment that is neither a string nor a safe non-negative integer. */
  datatype Segment = Key(key: string) | Index(index: nat) | Bad

  datatype Op = Add | Remove | Replace | Unknown

  type Path = seq<Segment>

  datatype Patch = Malformed | Patch(op: Op, path: Path, value: Json)

  const FORBIDDEN: set<string> := {"__proto__", "constructor", "prototype"}

  predicate ValidSegment(s: Segment) {
    !s.Bad? && (s.Key? ==> s.key !in FORBIDDEN)
  }

  /** The text of a segment. */
  function Name(s: Segment): string {
    match s
    case Key(key) => key
    case Index(index) => Decimal(index)
    case Bad => ""
  }

  /** The array element a segment names: a number, or its text. */
  function Element(s: Segment): Option<nat> {
    match s
    case Key(key) => if Canonical(key) then Some(Value(key)) else None
    case Index(index) => Some(index)
    case Bad => None
  }

  /** target[segment] where that is a JSON value. */
  function Child(v: Json, s: Segment): Option<Json> {
    match v
    case Arr(items) => (match Element(s) case Some(i) => if i < |items| then Some(items[i]) else None case None => None)
    case Obj(fields) => if Name(s) in fields then Some(fields[Name(s)]) else None
    case _ => None
  }

  function Get(v: Json, path: Path): Option<Json>
    decreases |path|
  {
    if path == [] then Some(v)
    else match Child(v, path[0]) case Some(c) => Get(c, path[1..]) case None => None
  }

  /** v with the child of s replaced. */
  function WithChild(v: Json, s: Segment, c: Json): Json
    requires Child(v, s).Some?
  {
    match v
    case Arr(items) => Arr(items[Element(s).value := c])
    case Obj(fields) => Obj(fields[Name(s) := c])
  }

  /** array[i] = value, padding with holes. */
  function SetAt(items: seq<Json>, i: nat, value: Json): seq<Json> {
    if i < |items| then items[i := value] else items + seq(i - |items|, _ => Undefined) + [value]
  }

  /** Inserted before element i, or at the end if there is none. */
  function InsertAt(items: seq<Json>, i: nat, value: Json): seq<Json> {
    var at := if i < |items| then i else |items|;
    items[..at] + [value] + items[at..]
  }

  /** The array without its element i, if it has one. */
  function RemoveAt(items: seq<Json>, i: nat): seq<Json> {
    if i < |items| then items[..i] + items[i + 1..] else items
  }

  /** The last segment: None where the source throws. */
  function Change(target: Json, s: Segment, op: Op, value: Json): Option<Json> {
    if op.Unknown? then None
    else if target.Arr? && s.Index? then
      Some(Arr(match op
               case Add => InsertAt(target.items, s.index, value)
               case Remove => RemoveAt(target.items, s.index)
               case _ => SetAt(target.items, s.index, value)))
    else if !target.Obj? then None
    else Some(Obj(if op.Remove? then target.fields - {Name(s)} else target.fields[Name(s) := value]))
  }

  function ChangeAt(v: Json, path: Path, op: Op, value: Json): Option<Json>
    requires path != []
    decreases |path|
  {
    if |path| == 1 then Change(v, path[0], op, value)
    else
      match Child(v, path[0])
      case None => None
      case Some(c) =>
        match ChangeAt(c, path[1..], op, value)
        case None => None
        case Some(d) => Some(WithChild(v, path[0], d))
  }

  /** applyPatch */
  function Apply(root: Json, patch: Patch): Option<Json> {
    if patch.Malformed? || patch.path == [] || exists i | 0 <= i < |patch.path| :: !ValidSegment(patch.path[i]) then None
    else ChangeAt(root, patch.path, patch.op, patch.value)
  }

  // ---- What a patch does ----

  function Parent(path: Path): Path
    requires path != []
  {
    path[..|path| - 1]
  }

  function Last(path: Path): Segment
    requires path != []
  {
    path[|path| - 1]
  }

  /** A container that takes the change: an object, or an array under a number. */
  predicate Takes(target: Option<Json>, s: Segment) {
    target.Some? && (target.value.Obj? || (target.value.Arr? && s.Index?))
  }

  lemma GetTail(v: Json, path: Path)
    requires |path| > 1
    ensures Parent(path)[0] == path[0] && Parent(path)[1..] == Parent(path[1..]) && Last(path) == Last(path[1..])
    ensures Get(v, Parent(path)) == match Child(v, path[0]) case Some(c) => Get(c, Parent(path[1..])) case None => None
  {}

  /** A patch applies exactly when its operation is known and its path leads to a container
      that takes it. */
  lemma {:induction false} AppliesExactly(v: Json, path: Path, op: Op, value: Json)
    requires path != []
    ensures ChangeAt(v, path, op, value).Some? <==> !op.Unknown? && Takes(Get(v, Parent(path)), Last(path))
    decreases |path|
  {
    if |path| > 1 {
      GetTail(v, path);
      if Child(v, path[0]).Some? {
        AppliesExactly(Child(v, path[0]).value, path[1..], op, value);
      }
    }
  }

  /** A whole patch applies exactly when it is well formed as well: a path that is not empty,
      of strings and numbers only, none of which names a prototype. */
  lemma PatchAppliesExactly(root: Json, op: Op, path: Path, value: Json)
    ensures Apply(root, Patch(op, path, value)).Some? <==>
              && path != [] && (forall i | 0 <= i < |path| :: !path[i].Bad?)
              && Key("__proto__") !in path && Key("constructor") !in path && Key("prototype") !in path
              && !op.Unknown? && Takes(Get(root, Parent(path)), Last(path))
    ensures Apply(root, Malformed).None?
  {
    if path != [] {
      AppliesExactly(root, path, op, value);
    }
    hide ChangeAt, Get, Takes;
    forall i | 0 <= i < |path|
      ensures ValidSegment(path[i]) <==>
        !path[i].Bad? && path[i] != Key("__proto__") && path[i] != Key("constructor") && path[i] != Key("prototype")
    {}
  }

  lemma ChildWith(v: Json, s: Segment, c: Json, t: Segment)
    requires Child(v, s).Some?
    ensures Child(WithChild(v, s, c), s) == Some(c)
    ensures !SameSlot(v, s, t) ==> Child(WithChild(v, s, c), t) == Child(v, t)
  {}

  /** Two segments name the same place in v. */
  predicate SameSlot(v: Json, s: Segment, t: Segment) {
    if v.Arr? then Element(s) == Element(t) else Name(s) == Name(t)
  }

  /** An addition beyond the end of an array lands at its end. */
  predicate BeyondEnd(v: Json, path: Path)
    requires path != []
  {
    var target := Get(v, Parent(path));
    target.Some? && target.value.Arr? && Last(path).Index? && Last(path).index > |target.value.items|
  }

  /** What a patch adds or replaces is found under its path, except for an addition beyond the
      end of an array. */
  lemma {:induction false} ReadsBackExactly(v: Json, path: Path, op: Op, value: Json)
    requires path != [] && (op.Add? || op.Replace?) && ChangeAt(v, path, op, value).Some?
    ensures Get(ChangeAt(v, path, op, value).value, path) == Some(value) <==> !(op.Add? && BeyondEnd(v, path))
    decreases |path|
  {
    var w := ChangeAt(v, path, op, value).value;
    if |path| > 1 {
      GetTail(v, path);
      var c := Child(v, path[0]).value;
      ReadsBackExactly(c, path[1..], op, value);
      ChildWith(v, path[0], ChangeAt(c, path[1..], op, value).value, path[0]);
    } else {
      assert Parent(path) == [] && path[1..] == [];
    }
  }

  /** The paths part at a place the patch does not move: above its last segment, or in an object. */
  predicate Apart(v: Json, path: Path, other: Path)
    requires path != []
    decreases |path|
  {
    other != [] &&
    if SameSlot(v, path[0], other[0]) then |path| > 1 && Child(v, path[0]).Some? && Apart(Child(v, path[0]).value, path[1..], other[1..])
    else |path| > 1 || v.Obj?
  }

  lemma ChildSame(v: Json, s: Segment, t: Segment)
    requires SameSlot(v, s, t)
    ensures Child(v, s) == Child(v, t)
  {}

  /** A patch leaves everything apart from its path alone. */
  lemma {:induction false} LeavesAlone(v: Json, path: Path, op: Op, value: Json, other: Path)
    requires path != [] && ChangeAt(v, path, op, value).Some? && Apart(v, path, other)
    ensures Get(ChangeAt(v, path, op, value).value, other) == Get(v, other)
    decreases |path|
  {
    if |path| > 1 {
      var c := Child(v, path[0]).value;
      var d := ChangeAt(c, path[1..], op, value).value;
      ChildWith(v, path[0], d, other[0]);
      if SameSlot(v, path[0], other[0]) {
        ChildSame(v, path[0], other[0]);
        ChildSame(WithChild(v, path[0], d), path[0], other[0]);
        LeavesAlone(c, path[1..], op, value, other[1..]);
      }
    }
  }

  lemma PutBack(v: Json, s: Segment, d: Json, e: Json)
    requires Child(v, s).Some?
    ensures Child(WithChild(v, s, d), s).Some?
    ensures WithChild(WithChild(v, s, d), s, e) == v <==> Child(v, s) == Some(e)
  {
    var back := WithChild(WithChild(v, s, d), s, e);
    ChildWith(v, s, d, s);
    ChildWith(WithChild(v, s, d), s, e, s);
    if Child(v, s) == Some(e) {
      if v.Arr? {
        assert back.items == v.items;
      } else {
        assert back.fields == v.fields;
      }
    }
  }

  /** An addition to an object that already has the field. */
  predicate Overwrites(v: Json, path: Path)
    requires path != []
  {
    var target := Get(v, Parent(path));
    target.Some? && target.value.Obj? && Name(Last(path)) in target.value.fields
  }

  lemma SpliceBack(items: seq<Json>, i: nat, value: Json)
    ensures RemoveAt(InsertAt(items, i, value), i) == items <==> i <= |items|
  {
    if i <= |items| {
      assert RemoveAt(InsertAt(items, i, value), i) == items;
    } else {
      assert |RemoveAt(InsertAt(items, i, value), i)| == |items| + 1;
    }
  }

  lemma FieldBack(fields: map<string, Json>, name: string, value: Json)
    ensures fields[name := value] - {name} == fields <==> name !in fields
  {
    assert name !in fields[name := value] - {name};
  }

  /** Removing what was added gives the tree back, unless the addition replaced a field or went
      beyond the end of an array. */
  lemma {:induction false} RemoveUndoesAddExactly(v: Json, path: Path, value: Json)
    requires path != [] && ChangeAt(v, path, Add, value).Some?
    ensures var w := ChangeAt(v, path, Add, value).value;
            ChangeAt(w, path, Remove, Undefined) == Some(v) <==> !BeyondEnd(v, path) && !Overwrites(v, path)
    decreases |path|
  {
    var w := ChangeAt(v, path, Add, value).value;
    if |path| > 1 {
      GetTail(v, path);
      var c := Child(v, path[0]).value;
      var d := ChangeAt(c, path[1..], Add, value).value;
      RemoveUndoesAddExactly(c, path[1..], value);
      ChildWith(v, path[0], d, path[0]);
      var e := ChangeAt(d, path[1..], Remove, Undefined);
      if e.Some? {
        PutBack(v, path[0], d, e.value);
      }
    } else {
      assert Parent(path) == [];
      if v.Arr? {
        SpliceBack(v.items, path[0].index, value);
      } else {
        FieldBack(v.fields, Name(path[0]), value);
      }
    }
  }

  // ---- Half-applied patches ----

  const ROOT := Obj(map["status" := Str("idle")])
  const HALF := [Patch(Replace, [Key("status")], Str("busy")), Patch(Replace, [Key("turns"), Index(0)], Null)]

  /** Patches that fail half way are kept half applied: revision 7 now stores a state that the
      owner never had there, and only the new snapshot that is asked for puts it right. */
  lemma HalfAppliedPatchesCorrupt()
    ensures var r := Receive(Apply, map["t" := Stored(7, ROOT)], "t", Patches(7, 8, HALF));
            r.states["t"] == Stored(7, Obj(map["status" := Str("busy")])) && r.refollow
  {
    var busy := Obj(map["status" := Str("busy")]);
    assert |"status"| == 6 && ValidSegment(Key("status"));
    assert ROOT.fields["status" := Str("busy")] == busy.fields;
    assert ChangeAt(ROOT, [Key("status")], Replace, Str("busy")) == Some(busy);
    assert Apply(ROOT, HALF[0]) == Some(busy);
    assert Apply(busy, HALF[1]) == None;
    assert HALF[1..] == [HALF[1]];
  }
}
