/** Settings as they are written down and changed (config.py, settings.py): building instances from
    dictionaries, setting values by dotted path, and applying changes to a copy that is adopted. */
module Settings {
  import opened Options
  import opened Config

  // ------------------------------------------------------------------------------- files

  /** What a class declares for a field. */
  datatype Declared = AnyValue | Nested(class_: string) | TableOf(class_: string)

  datatype Class = Class(fields: map<string, Declared>, defaults: map<string, Shape>)

  type Classes = map<string, Class>

  datatype Json = JLeaf(text: string) | JObject(members: map<string, Json>)

  function ToDict(v: Shape): Json
  {
    match v
    case Plain(text) => JLeaf(text)
    case Object(_, members) => JObject(map k | k in members :: ToDict(members[k]))
  }

  function Raw(j: Json): Shape
  {
    match j
    case JLeaf(text) => Plain(text)
    case JObject(members) => Object(Table, map k | k in members :: Raw(members[k]))
  }

  /** The classes are declared, and every field has a default. */
  predicate Declares(classes: Classes, c: string)
  {
    c in classes && classes[c].fields.Keys == classes[c].defaults.Keys
  }

  predicate AllDeclared(classes: Classes)
  {
    forall c | c in classes ::
      && Declares(classes, c)
      && forall f | f in classes[c].fields && !classes[c].fields[f].AnyValue? :: classes[c].fields[f].class_ in classes
  }

  /** Rebuilds an instance from a dictionary: unknown keys are ignored, missing ones take their defaults. */
  function Build(classes: Classes, c: string, j: Json): Option<Shape>
    requires AllDeclared(classes) && c in classes
    decreases j, 1
  {
    if j.JLeaf? then None
    else
      var class_ := classes[c];
      if forall f | f in class_.fields && f in j.members ::
           BuildField(classes, class_.fields[f], j.members[f]).Some? then
        Some(Object(Record(c), map f | f in class_.fields ::
          if f in j.members then BuildField(classes, class_.fields[f], j.members[f]).value else class_.defaults[f]))
      else None
  }

  function BuildField(classes: Classes, d: Declared, j: Json): Option<Shape>
    requires AllDeclared(classes) && (!d.AnyValue? ==> d.class_ in classes)
    decreases j, 2
  {
    match d
    case AnyValue => Some(Raw(j))
    case Nested(c) => if j.JObject? then Build(classes, c, j) else Some(Raw(j))
    case TableOf(c) =>
      if j.JLeaf? then Some(Raw(j))
      else if forall k | k in j.members :: Build(classes, c, j.members[k]).Some? then
        Some(Object(Table, map k | k in j.members :: Build(classes, c, j.members[k]).value))
      else None
  }

  /** No instance of a class inside. */
  predicate Bare(v: Shape) { v.Object? ==> v.kind.Table? && forall k | k in v.members :: Bare(v.members[k]) }

  /** The value has the declared form. */
  predicate Typed(classes: Classes, c: string, v: Shape)
    decreases v, 1
  {
    && c in classes && v.Object? && v.kind == Record(c)
    && v.members.Keys == classes[c].fields.Keys
    && forall f | f in v.members :: TypedField(classes, classes[c].fields[f], v.members[f])
  }

  predicate TypedField(classes: Classes, d: Declared, v: Shape)
    decreases v, 2
  {
    match d
    case AnyValue => Bare(v)
    case Nested(c) => v.Plain? || Typed(classes, c, v)
    case TableOf(c) => v.Plain? || (v.kind.Table? && forall k | k in v.members :: Typed(classes, c, v.members[k]))
  }

  lemma {:induction false} RawIff(v: Shape)
    ensures Raw(ToDict(v)) == v <==> Bare(v)
  {
    if v.Object? {
      forall k | k in v.members
        ensures Raw(ToDict(v.members[k])) == v.members[k] <==> Bare(v.members[k])
      {
        RawIff(v.members[k]);
      }
      var raw := Raw(ToDict(v));
      assert raw.members.Keys == v.members.Keys;
      assert (forall k | k in v.members :: raw.members[k] == v.members[k]) <==> raw.members == v.members;
    }
  }

  /** Writing a value out and building an instance of the class from it gives it back exactly when the value
      has the declared form. */
  lemma {:induction false} RebuiltIff(classes: Classes, c: string, v: Shape)
    requires AllDeclared(classes) && c in classes
    ensures Build(classes, c, ToDict(v)) == Some(v) <==> Typed(classes, c, v)
    decreases v, 1
  {
    if v.Object? && v.kind == Record(c) && v.members.Keys == classes[c].fields.Keys {
      forall f | f in v.members
        ensures BuildField(classes, classes[c].fields[f], ToDict(v.members[f])) == Some(v.members[f])
           <==> TypedField(classes, classes[c].fields[f], v.members[f])
      {
        FieldRebuiltIff(classes, classes[c].fields[f], v.members[f]);
      }
      MembersBuilt(classes, c, v);
    }
  }

  /** An instance is rebuilt exactly when each of its fields is. */
  lemma MembersBuilt(classes: Classes, c: string, v: Shape)
    requires AllDeclared(classes) && c in classes
    requires v.Object? && v.kind == Record(c) && v.members.Keys == classes[c].fields.Keys
    ensures Build(classes, c, ToDict(v)) == Some(v) <==>
            forall f | f in v.members ::
              BuildField(classes, classes[c].fields[f], ToDict(v.members[f])) == Some(v.members[f])
  {
    var j := ToDict(v);
    assert j.members.Keys == v.members.Keys;
    var built := Build(classes, c, j);
    if built.Some? {
      assert built.value.members.Keys == v.members.Keys;
      assert (forall f | f in v.members :: built.value.members[f] == v.members[f])
        <==> built.value.members == v.members;
    }
  }

  lemma EntriesBuilt(classes: Classes, c: string, v: Shape)
    requires AllDeclared(classes) && c in classes && v.Object? && v.kind.Table?
    ensures BuildField(classes, TableOf(c), ToDict(v)) == Some(v) <==>
            forall k | k in v.members :: Build(classes, c, ToDict(v.members[k])) == Some(v.members[k])
  {
    var j := ToDict(v);
    assert j.members.Keys == v.members.Keys;
    var built := BuildField(classes, TableOf(c), j);
    if built.Some? {
      assert built.value.members.Keys == v.members.Keys;
      assert (forall k | k in v.members :: built.value.members[k] == v.members[k])
        <==> built.value.members == v.members;
    }
  }

  lemma {:induction false} FieldRebuiltIff(classes: Classes, d: Declared, v: Shape)
    requires AllDeclared(classes) && (!d.AnyValue? ==> d.class_ in classes)
    ensures BuildField(classes, d, ToDict(v)) == Some(v) <==> TypedField(classes, d, v)
    decreases v, 2
  {
    match d
    case AnyValue => RawIff(v);
    case Nested(c) => if v.Object? { RebuiltIff(classes, c, v); }
    case TableOf(c) =>
      if v.Object? && v.kind.Table? {
        forall k | k in v.members
          ensures Build(classes, c, ToDict(v.members[k])) == Some(v.members[k]) <==> Typed(classes, c, v.members[k])
        {
          RebuiltIff(classes, c, v.members[k]);
        }
        EntriesBuilt(classes, c, v);
      }
  }

  /** A field that is not given has its default, one that is given has what is built from it, and there are no
      others. */
  lemma BuiltMeans(classes: Classes, c: string, j: Json)
    requires AllDeclared(classes) && c in classes && Build(classes, c, j).Some?
    ensures var built := Build(classes, c, j).value;
            && j.JObject? && built.Object? && built.kind == Record(c) && built.members.Keys == classes[c].fields.Keys
            && forall f | f in classes[c].fields ::
                 if f !in j.members then built.members[f] == classes[c].defaults[f]
                 else Some(built.members[f]) == BuildField(classes, classes[c].fields[f], j.members[f])
  {
  }

  /** What is given for a field of a class is built as that class, for a dictionary of instances entry by entry, and
      taken as it is where nothing is declared or no dictionary is given. */
  lemma FieldBuiltMeans(classes: Classes, d: Declared, j: Json)
    requires AllDeclared(classes) && (!d.AnyValue? ==> d.class_ in classes)
    ensures d.AnyValue? || j.JLeaf? ==> BuildField(classes, d, j) == Some(Raw(j))
    ensures d.Nested? && j.JObject? ==> BuildField(classes, d, j) == Build(classes, d.class_, j)
    ensures d.TableOf? && j.JObject? && BuildField(classes, d, j).Some? ==>
              var table := BuildField(classes, d, j).value;
              && table.Object? && table.kind.Table? && table.members.Keys == j.members.Keys
              && forall k | k in j.members :: Some(table.members[k]) == Build(classes, d.class_, j.members[k])
  {
  }

  /** Both give the same for a field. */
  predicate SameGiven(a: Json, b: Json, f: string)
    requires a.JObject? && b.JObject?
  {
    (f in a.members <==> f in b.members) && (f in a.members && f in b.members ==> a.members[f] == b.members[f])
  }

  lemma BuildableAlike(classes: Classes, c: string, a: Json, b: Json)
    requires AllDeclared(classes) && c in classes && a.JObject? && b.JObject?
    requires forall f | f in classes[c].fields :: SameGiven(a, b, f)
    ensures Build(classes, c, a).Some? ==> Build(classes, c, b).Some?
  {
  }

  /** What is not declared is ignored: two dictionaries that give the same for every field build the same. */
  lemma UnknownIsIgnored(classes: Classes, c: string, a: Json, b: Json)
    requires AllDeclared(classes) && c in classes && a.JObject? && b.JObject?
    requires forall f | f in classes[c].fields :: SameGiven(a, b, f)
    ensures Build(classes, c, a) == Build(classes, c, b)
  {
    BuildableAlike(classes, c, a, b);
    BuildableAlike(classes, c, b, a);
    if Build(classes, c, a).Some? {
      BuiltMeans(classes, c, a);
      BuiltMeans(classes, c, b);
      var x, y := Build(classes, c, a).value.members, Build(classes, c, b).value.members;
      assert forall f | f in x :: SameGiven(a, b, f);
      assert x == y;
    }
  }

  // ----------------------------------------------------------------- setting by dotted path

  /** What `set` makes of a value given for a field: its form follows the current one. */
  type Coercion = (Shape, Json) -> Option<Json>

  /** The value that `set` stores at the path, if the path leads anywhere. */
  function Stored(v: Shape, path: Path, value: Json, coerce: Coercion): Option<Json>
    requires path != []
    decreases |path|
  {
    if v.Plain? then None
    else if |path| > 1 then
      if path[0] in v.members then Stored(v.members[path[0]], path[1..], value, coerce) else None
    else if v.kind.Table? then Some(value)
    else if path[0] in v.members then coerce(v.members[path[0]], value)
    else None
  }

  /** `Config.set`: a key of a dictionary takes the value as it is, a field takes it coerced. */
  function SetAt(v: Shape, path: Path, value: Json, coerce: Coercion): (r: Option<Shape>)
    requires path != []
    ensures r.Some? <==> Stored(v, path, value, coerce).Some?
    ensures r.Some? ==> v.Object? && r.value.Object? && r.value.kind == v.kind
    decreases |path|
  {
    if v.Plain? then None
    else if |path| > 1 then
      if path[0] !in v.members then None
      else match SetAt(v.members[path[0]], path[1..], value, coerce)
           case None => None
           case Some(member) => Some(Object(v.kind, v.members[path[0] := member]))
    else match Stored(v, path, value, coerce)
         case None => None
         case Some(j) => Some(Object(v.kind, v.members[path[0] := Raw(j)]))
  }

  /** Where a path leads among the declarations: to a field, to an entry of a dictionary of instances, or into
      a value of which nothing is declared. */
  datatype Spot = Field(declared: Declared) | Entry | Anywhere | Nowhere

  function SpotOf(classes: Classes, c: string, path: Path): Spot
    requires path != []
    decreases |path|
  {
    if c !in classes || path[0] !in classes[c].fields then Nowhere
    else
      var d := classes[c].fields[path[0]];
      if |path| == 1 then Field(d)
      else match d
           case AnyValue => Anywhere
           case Nested(inner) => SpotOf(classes, inner, path[1..])
           case TableOf(inner) => if |path| == 2 then Entry else SpotOf(classes, inner, path[2..])
  }

  /** What can be stored there without losing the declared form: no entry among instances, and in a field for
      instances nothing but a plain value or an empty dictionary. */
  predicate KeepsForm(spot: Spot, j: Json)
  {
    match spot
    case Field(d) => d.AnyValue? || j.JLeaf? || (d.TableOf? && j.members == map[])
    case Entry => false
    case Anywhere => true
    case Nowhere => false
  }

  lemma {:induction false} RawIsBare(j: Json)
    ensures Bare(Raw(j))
  {
    if j.JObject? {
      forall k | k in j.members ensures Bare(Raw(j.members[k])) { RawIsBare(j.members[k]); }
    }
  }

  lemma StoredInField(classes: Classes, d: Declared, j: Json)
    ensures TypedField(classes, d, Raw(j)) <==> KeepsForm(Field(d), j)
  {
    RawIsBare(j);
    if d.TableOf? && j.JObject? {
      var raw := Raw(j);
      assert raw.members.Keys == j.members.Keys;
      forall k | k in j.members ensures !Typed(classes, d.class_, raw.members[k]) { RawIsBare(j.members[k]); }
      if j.members != map[] {
        var k :| k in j.members;
        assert !Typed(classes, d.class_, raw.members[k]);
      }
    }
  }

  lemma {:induction false} SetInBare(v: Shape, path: Path, value: Json, coerce: Coercion)
    requires path != [] && Bare(v) && SetAt(v, path, value, coerce).Some?
    ensures Bare(SetAt(v, path, value, coerce).value)
    decreases |path|
  {
    if |path| > 1 {
      SetInBare(v.members[path[0]], path[1..], value, coerce);
    } else {
      RawIsBare(Stored(v, path, value, coerce).value);
    }
  }

  /** Setting one value keeps the declared form of the configuration exactly when what is stored is allowed at
      the place the path leads to. In particular no dictionary can be stored as an entry among instances. */
  lemma {:induction false} SetKeepsFormIff(classes: Classes, c: string, v: Shape, path: Path, value: Json,
                                           coerce: Coercion)
    requires path != [] && Typed(classes, c, v) && SetAt(v, path, value, coerce).Some?
    ensures Typed(classes, c, SetAt(v, path, value, coerce).value)
       <==> KeepsForm(SpotOf(classes, c, path), Stored(v, path, value, coerce).value)
    decreases |path|
  {
    var k := path[0];
    var d, after := classes[c].fields[k], SetAt(v, path, value, coerce).value;
    assert after.members.Keys == v.members.Keys;
    assert Typed(classes, c, after) <==> TypedField(classes, d, after.members[k]) by {
      assert forall f | f in v.members && f != k :: after.members[f] == v.members[f];
    }
    if |path| == 1 {
      StoredInField(classes, d, Stored(v, path, value, coerce).value);
    } else {
      match d
      case AnyValue => SetInBare(v.members[k], path[1..], value, coerce);
      case Nested(inner) => SetKeepsFormIff(classes, inner, v.members[k], path[1..], value, coerce);
      case TableOf(inner) => SetInTable(classes, inner, v.members[k], path[1..], value, coerce);
    }
  }

  lemma {:induction false} SetInTable(classes: Classes, c: string, v: Shape, path: Path, value: Json, coerce: Coercion)
    requires path != [] && v.Object? && TypedField(classes, TableOf(c), v) && SetAt(v, path, value, coerce).Some?
    ensures TypedField(classes, TableOf(c), SetAt(v, path, value, coerce).value) <==>
            |path| > 1 && KeepsForm(SpotOf(classes, c, path[1..]), Stored(v, path, value, coerce).value)
    decreases |path|
  {
    var k, after := path[0], SetAt(v, path, value, coerce).value;
    assert after.members == v.members[k := after.members[k]];
    if |path| == 1 {
      RawIsBare(value);
    } else {
      SetKeepsFormIff(classes, c, v.members[k], path[1..], value, coerce);
    }
  }

  // -------------------------------------------------------------------------------- applying

  datatype Change = Change(path: Path, value: Json)

  /** The changes one after the other; the first that cannot be set rejects them all. */
  function Changed(v: Shape, changes: seq<Change>, coerce: Coercion): Option<Shape>
  {
    if changes == [] then Some(v)
    else
      var last := changes[|changes| - 1];
      match Changed(v, changes[..|changes| - 1], coerce)
      case None => None
      case Some(w) => if last.path == [] then None else SetAt(w, last.path, last.value, coerce)
  }

  lemma {:induction false} ChangedKind(v: Shape, changes: seq<Change>, coerce: Coercion)
    requires v.Object? && Changed(v, changes, coerce).Some?
    ensures Changed(v, changes, coerce).value.Object? && Changed(v, changes, coerce).value.kind == v.kind
  {
    if changes != [] {
      ChangedKind(v, changes[..|changes| - 1], coerce);
    }
  }

  /** `SettingsService.apply` up to the adoption: the configuration is written out and built again, the
      changes go to that copy, and the whole is validated. */
  function Wanted(classes: Classes, c: string, config: Shape, changes: seq<Change>, coerce: Coercion,
                  valid: Shape -> bool):
    (r: Option<Shape>)
    requires AllDeclared(classes) && c in classes
    ensures r.Some? ==> r.value.Object? && r.value.kind == Record(c)
  {
    match Build(classes, c, ToDict(config))
    case None => None
    case Some(copy) =>
      match Changed(copy, changes, coerce)
      case None => None
      case Some(w) => ChangedKind(copy, changes, coerce); if valid(w) then Some(w) else None
  }

  /** The configuration after any number of applies: a rejected one changes nothing. */
  function WantedAfter(classes: Classes, c: string, config: Shape, requests: seq<seq<Change>>, coerce: Coercion,
                       valid: Shape -> bool):
    (r: Shape)
    requires AllDeclared(classes) && c in classes
    ensures config.Object? && config.kind == Record(c) ==> r.Object? && r.kind == Record(c)
  {
    if requests == [] then config
    else
      var before := WantedAfter(classes, c, config, requests[..|requests| - 1], coerce, valid);
      match Wanted(classes, c, before, requests[|requests| - 1], coerce, valid)
      case None => before
      case Some(w) => w
  }

  /** An apply without changes leaves the configuration as it is exactly when it has the declared form: then an
      apply changes what was asked and nothing else. */
  lemma NothingElseChangesIff(classes: Classes, c: string, config: Shape, changes: seq<Change>, coerce: Coercion,
                              valid: Shape -> bool)
    requires AllDeclared(classes) && c in classes && valid(config)
    ensures Wanted(classes, c, config, [], coerce, valid) == Some(config) <==> Typed(classes, c, config)
    ensures Typed(classes, c, config) ==>
              var w := Changed(config, changes, coerce);
              Wanted(classes, c, config, changes, coerce, valid) == if w.Some? && valid(w.value) then w else None
  {
    RebuiltIff(classes, c, config);
  }

  // ------------------------------------------------------------------ many changes at once

  /** Neither path leads through the other. */
  predicate Unrelated(p: Path, q: Path)
    decreases |p|
  {
    p != [] && q != [] && (p[0] == q[0] ==> Unrelated(p[1..], q[1..]))
  }

  /** What lies at a path, if anything. */
  function ShapeAt(v: Shape, path: Path): Option<Shape>
    decreases |path|
  {
    if path == [] then Some(v)
    else if v.Object? && path[0] in v.members then ShapeAt(v.members[path[0]], path[1..])
    else None
  }

  /** What lies at the path breaks the declared form of the whole. */
  predicate Broken(classes: Classes, c: string, v: Shape, path: Path)
  {
    && path != [] && ShapeAt(v, path).Some?
    && match SpotOf(classes, c, path)
       case Field(d) => !TypedField(classes, d, ShapeAt(v, path).value)
       case Entry => Bare(ShapeAt(v, path).value)
       case _ => false
  }

  lemma {:induction false} TypedIsNotBroken(classes: Classes, c: string, v: Shape, path: Path)
    requires Typed(classes, c, v)
    ensures !Broken(classes, c, v, path)
    decreases |path|
  {
    if path != [] && ShapeAt(v, path).Some? {
      var d, w, rest := classes[c].fields[path[0]], v.members[path[0]], path[1..];
      assert ShapeAt(v, path) == ShapeAt(w, rest);
      if rest != [] && d.Nested? {
        TypedIsNotBroken(classes, d.class_, w, rest);
      } else if rest != [] && d.TableOf? {
        var entry := w.members[rest[0]];
        assert ShapeAt(w, rest) == ShapeAt(entry, rest[1..]) && path[2..] == rest[1..];
        assert TypedField(classes, d, w) && Typed(classes, d.class_, entry);
        if |path| > 2 { TypedIsNotBroken(classes, d.class_, entry, path[2..]); }
      }
    }
  }

  lemma {:induction false} SetLeavesOthers(v: Shape, path: Path, value: Json, coerce: Coercion, other: Path)
    requires Unrelated(other, path) && SetAt(v, path, value, coerce).Some?
    ensures ShapeAt(SetAt(v, path, value, coerce).value, other) == ShapeAt(v, other)
    decreases |path|
  {
    if |path| > 1 && other[0] == path[0] {
      SetLeavesOthers(v.members[path[0]], path[1..], value, coerce, other[1..]);
    }
  }

  lemma {:induction false} SetLeavesStored(v: Shape, path: Path, value: Json, coerce: Coercion, other: Path,
                                           given: Json)
    requires Unrelated(other, path) && SetAt(v, path, value, coerce).Some?
    ensures Stored(SetAt(v, path, value, coerce).value, other, given, coerce) == Stored(v, other, given, coerce)
    decreases |path|
  {
    if |path| > 1 && other[0] == path[0] {
      SetLeavesStored(v.members[path[0]], path[1..], value, coerce, other[1..], given);
    }
  }

  lemma {:induction false} SetIsThere(v: Shape, path: Path, value: Json, coerce: Coercion)
    requires path != [] && SetAt(v, path, value, coerce).Some?
    ensures ShapeAt(SetAt(v, path, value, coerce).value, path)
         == Some(Raw(Stored(v, path, value, coerce).value))
    decreases |path|
  {
    if |path| > 1 {
      SetIsThere(v.members[path[0]], path[1..], value, coerce);
    }
  }

  /** What can be set in a value of the declared form lies at a declared place. */
  lemma {:induction false} NotNowhere(classes: Classes, c: string, v: Shape, path: Path, value: Json, coerce: Coercion)
    requires path != [] && Typed(classes, c, v) && Stored(v, path, value, coerce).Some?
    ensures !SpotOf(classes, c, path).Nowhere?
    decreases |path|
  {
    if |path| > 1 {
      var d, w := classes[c].fields[path[0]], v.members[path[0]];
      if d.Nested? {
        NotNowhere(classes, d.class_, w, path[1..], value, coerce);
      } else if d.TableOf? && |path| > 2 {
        assert path[1..][1..] == path[2..];
        NotNowhere(classes, d.class_, w.members[path[1]], path[2..], value, coerce);
      }
    }
  }

  predicate AllUnrelated(changes: seq<Change>)
  {
    forall i, j | 0 <= i < j < |changes| :: Unrelated(changes[i].path, changes[j].path)
                                            && Unrelated(changes[j].path, changes[i].path)
  }

  /** What the change stores is allowed where it is stored. */
  predicate Allowed(classes: Classes, c: string, v: Shape, change: Change, coerce: Coercion)
  {
    && change.path != [] && Stored(v, change.path, change.value, coerce).Some?
    && KeepsForm(SpotOf(classes, c, change.path), Stored(v, change.path, change.value, coerce).value)
  }

  lemma {:induction false} StoredLater(v: Shape, changes: seq<Change>, coerce: Coercion, other: Path, given: Json)
    requires Changed(v, changes, coerce).Some? && forall i | 0 <= i < |changes| :: Unrelated(other, changes[i].path)
    requires other != []
    ensures Stored(Changed(v, changes, coerce).value, other, given, coerce) == Stored(v, other, given, coerce)
  {
    if changes != [] {
      var rest, last := changes[..|changes| - 1], changes[|changes| - 1];
      StoredLater(v, rest, coerce, other, given);
      SetLeavesStored(Changed(v, rest, coerce).value, last.path, last.value, coerce, other, given);
    }
  }

  /** A change that stores what is not allowed breaks the form there. */
  lemma BreaksThere(classes: Classes, c: string, v: Shape, w: Shape, change: Change, coerce: Coercion)
    requires change.path != [] && Typed(classes, c, v) && SetAt(w, change.path, change.value, coerce).Some?
    requires Stored(w, change.path, change.value, coerce) == Stored(v, change.path, change.value, coerce)
    requires !Allowed(classes, c, v, change, coerce)
    ensures Broken(classes, c, SetAt(w, change.path, change.value, coerce).value, change.path)
  {
    var stored := Stored(w, change.path, change.value, coerce).value;
    SetIsThere(w, change.path, change.value, coerce);
    NotNowhere(classes, c, v, change.path, change.value, coerce);
    RawIsBare(stored);
    match SpotOf(classes, c, change.path)
    case Field(d) => StoredInField(classes, d, stored);
    case _ =>
  }

  lemma {:induction false} ManyChanges(classes: Classes, c: string, v: Shape, changes: seq<Change>, coerce: Coercion)
    requires Typed(classes, c, v) && AllUnrelated(changes) && Changed(v, changes, coerce).Some?
    ensures (forall i | 0 <= i < |changes| :: Allowed(classes, c, v, changes[i], coerce)) ==>
              Typed(classes, c, Changed(v, changes, coerce).value)
    ensures forall i | 0 <= i < |changes| && !Allowed(classes, c, v, changes[i], coerce) ::
              Broken(classes, c, Changed(v, changes, coerce).value, changes[i].path)
  {
    if changes != [] {
      var n := |changes| - 1;
      var rest, last := changes[..n], changes[n];
      var w := Changed(v, rest, coerce).value;
      ManyChanges(classes, c, v, rest, coerce);
      StoredLater(v, rest, coerce, last.path, last.value);
      if !Allowed(classes, c, v, last, coerce) {
        BreaksThere(classes, c, v, w, last, coerce);
      } else if Typed(classes, c, w) {
        SetKeepsFormIff(classes, c, w, last.path, last.value, coerce);
      }
      forall i | 0 <= i < n && !Allowed(classes, c, v, changes[i], coerce)
        ensures Broken(classes, c, Changed(v, changes, coerce).value, changes[i].path)
      {
        assert rest[i] == changes[i];
        SetLeavesOthers(w, last.path, last.value, coerce, changes[i].path);
      }
    }
  }

  lemma {:induction false} ChangesLeaveOthers(v: Shape, changes: seq<Change>, coerce: Coercion, other: Path)
    requires Changed(v, changes, coerce).Some? && other != []
    requires forall i | 0 <= i < |changes| :: Unrelated(other, changes[i].path)
    ensures ShapeAt(Changed(v, changes, coerce).value, other) == ShapeAt(v, other)
  {
    if changes != [] {
      var rest, last := changes[..|changes| - 1], changes[|changes| - 1];
      ChangesLeaveOthers(v, rest, coerce, other);
      SetLeavesOthers(Changed(v, rest, coerce).value, last.path, last.value, coerce, other);
    }
  }

  /** Changes to unrelated places are all there, each with what it stores in the value as it was. */
  lemma {:induction false} EveryChangeIsThere(v: Shape, changes: seq<Change>, coerce: Coercion, i: nat)
    requires AllUnrelated(changes) && Changed(v, changes, coerce).Some? && i < |changes|
    ensures changes[i].path != [] && Stored(v, changes[i].path, changes[i].value, coerce).Some?
    ensures ShapeAt(Changed(v, changes, coerce).value, changes[i].path)
         == Some(Raw(Stored(v, changes[i].path, changes[i].value, coerce).value))
  {
    var n := |changes| - 1;
    var rest, last := changes[..n], changes[n];
    var w := Changed(v, rest, coerce).value;
    if i < n {
      EveryChangeIsThere(v, rest, coerce, i);
      SetLeavesOthers(w, last.path, last.value, coerce, changes[i].path);
    } else {
      StoredLater(v, rest, coerce, last.path, last.value);
      SetIsThere(w, last.path, last.value, coerce);
    }
  }

  /** What is stored: in a dictionary the value as it is given, in a field what it is coerced to from there; nothing
      where the path does not lead. */
  lemma StoredMeans(v: Shape, path: Path, key: string, value: Json, coerce: Coercion)
    ensures var owner := ShapeAt(v, path);
            Stored(v, path + [key], value, coerce)
            == if owner.None? || owner.value.Plain? then None
               else if owner.value.kind.Table? then Some(value)
               else if key in owner.value.members then coerce(owner.value.members[key], value) else None
    decreases |path|
  {
    if path == [] {
      assert [] + [key] == [key];
    } else {
      assert (path + [key])[0] == path[0] && (path + [key])[1..] == path[1..] + [key];
      if v.Object? && path[0] in v.members { StoredMeans(v.members[path[0]], path[1..], key, value, coerce); }
    }
  }

  /** Applying changes to unrelated places of a configuration of the declared form leaves one of the declared form
      exactly when each of them stores what is allowed where it is stored. */
  lemma ApplyKeepsFormIff(classes: Classes, c: string, config: Shape, changes: seq<Change>, coerce: Coercion,
                          valid: Shape -> bool)
    requires AllDeclared(classes) && Typed(classes, c, config) && AllUnrelated(changes)
    requires Wanted(classes, c, config, changes, coerce, valid).Some?
    ensures Typed(classes, c, Wanted(classes, c, config, changes, coerce, valid).value)
       <==> forall i | 0 <= i < |changes| :: Allowed(classes, c, config, changes[i], coerce)
  {
    RebuiltIff(classes, c, config);
    var after := Wanted(classes, c, config, changes, coerce, valid).value;
    ManyChanges(classes, c, config, changes, coerce);
    if i :| 0 <= i < |changes| && !Allowed(classes, c, config, changes[i], coerce) {
      assert Broken(classes, c, after, changes[i].path);
      if Typed(classes, c, after) { TypedIsNotBroken(classes, c, after, changes[i].path); }
    }
  }

  lemma EntryStored(v: Shape, field: string, key: string, value: Json, coerce: Coercion)
    requires v.Object? && v.kind.Record? && field in v.members && v.members[field].Object?
    requires v.members[field].kind.Table?
    ensures Stored(v, [field, key], value, coerce) == Some(value)
    ensures SetAt(v, [field, key], value, coerce)
         == Some(Object(v.kind, v.members[field := Object(Table, v.members[field].members[key := Raw(value)])]))
  {
    var path: Path := [field, key];
    assert path[1..] == [key];
  }

  /** A dictionary given for an entry among instances is stored as it is, and the next apply, whatever it
      asks, builds an instance of it: an apply without changes is then not without effect. */
  lemma RawEntryIsRebuilt(classes: Classes, c: string, config: Shape, once: Shape, field: string, key: string,
                          value: Json, coerce: Coercion, valid: Shape -> bool)
    requires AllDeclared(classes) && Typed(classes, c, config)
    requires field in classes[c].fields && classes[c].fields[field].TableOf? && config.members[field].Object?
    requires once == Object(config.kind,
               config.members[field := Object(Table, config.members[field].members[key := Raw(value)])])
    requires valid(once)
    ensures Wanted(classes, c, config, [Change([field, key], value)], coerce, valid) == Some(once)
    ensures Wanted(classes, c, once, [], coerce, valid) != Some(once)
  {
    var path: Path := [field, key];
    RebuiltIff(classes, c, config);
    EntryStored(config, field, key, value, coerce);
    OneChange(config, Change(path, value), coerce);
    SetKeepsFormIff(classes, c, config, path, value, coerce);
    RebuiltIff(classes, c, once);
  }

  lemma OneChange(v: Shape, change: Change, coerce: Coercion)
    requires change.path != []
    ensures Changed(v, [change], coerce) == SetAt(v, change.path, change.value, coerce)
  {
    assert [change][..0] == [];
    assert Changed(v, [], coerce) == Some(v);
  }

  /** All or nothing, on the objects: `candidate` is the tree that was made for what is wanted. */
  lemma AppliedWholeOrNotAtAll(classes: Classes, c: string, config: Tree, candidate: Tree, changes: seq<Change>,
                               coerce: Coercion, valid: Shape -> bool)
    requires AllDeclared(classes) && c in classes && config.Node? && config.kind == Record(c)
    requires Wanted(classes, c, ShapeOf(config), changes, coerce, valid) == Some(ShapeOf(candidate))
    requires Refs(config) !! Refs(candidate)
    ensures Alike(config, candidate)
    ensures ShapeOf(Adopt(config, candidate)) == ShapeOf(candidate) && SameObject(config, Adopt(config, candidate), [])
    ensures Quiet(config, candidate) <==> ShapeOf(config) == ShapeOf(candidate)
  {
    AdoptedEqualsSource(config, candidate);
    NothingReportedIff(config, candidate);
  }
}
