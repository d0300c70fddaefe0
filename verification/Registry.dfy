/** Parameters of a tool: what the planner validates once and the executor validates again
    (runtime/registry.py). */
module Registry {
  import opened Options

  datatype Value =
    | Null | Bool(b: bool) | Int(i: int) | Float(r: real) | Str(s: string)
    | List(items: seq<Value>) | Tuple(items: seq<Value>) | Dict(entries: seq<(string, Value)>)

  /** What the language's own conversions do: text of a value, folding of a word, numbers in a string, and
      its equality, under which 1, 1.0 and True are the same. */
  datatype Host = Host(text: Value -> string, folded: string -> string,
                       parseInt: string -> Option<int>, parseFloat: string -> Option<real>,
                       same: (Value, Value) -> bool)

  datatype Kind = KString | KInt | KFloat | KBool | KList | KDict | KOther

  /** A default of `Null` is no default, an empty `choices` is no restriction. */
  datatype Param = Param(kind: Kind, required: bool, fallback: Value, choices: seq<Value>, maxLength: Option<int>)

  datatype Error =
    | Unknown(names: set<string>)
    | Missing(name: string)
    | BadType(name: string)
    | NotAChoice(name: string)
    | TooLong(name: string)

  datatype Result<+T> = Ok(value: T) | Err(error: Error)

  function Truncated(r: real): int { if r >= 0.0 then r.Floor else -((-r).Floor) }

  function ToInt(host: Host, v: Value): Option<Value>
  {
    match v
    case Int(i) => Some(v)
    case Bool(b) => Some(Int(if b then 1 else 0))
    case Float(r) => Some(Int(Truncated(r)))
    case Str(s) => (match host.parseInt(s) case Some(i) => Some(Int(i)) case None => None)
    case _ => None
  }

  function ToFloat(host: Host, v: Value): Option<Value>
  {
    match v
    case Float(r) => Some(v)
    case Int(i) => Some(Float(i as real))
    case Bool(b) => Some(Float(if b then 1.0 else 0.0))
    case Str(s) => (match host.parseFloat(s) case Some(r) => Some(Float(r)) case None => None)
    case _ => None
  }

  function ToBool(host: Host, v: Value): Option<Value>
  {
    match v
    case Str(s) =>
      if host.folded(s) in {"true", "1", "yes", "tak"} then Some(Bool(true))
      else if host.folded(s) in {"false", "0", "no", "nie"} then Some(Bool(false))
      else None
    case Null => Some(Bool(false))
    case Bool(b) => Some(v)
    case Int(i) => Some(Bool(i != 0))
    case Float(r) => Some(Bool(r != 0.0))
    case List(items) => Some(Bool(items != []))
    case Tuple(items) => Some(Bool(items != []))
    case Dict(entries) => Some(Bool(entries != []))
  }

  function Converted(host: Host, kind: Kind, v: Value): Option<Value>
  {
    match kind
    case KString => Some(if v.Str? then v else Str(host.text(v)))
    case KInt => ToInt(host, v)
    case KFloat => ToFloat(host, v)
    case KBool => ToBool(host, v)
    case KList => Some(if v.List? then v else if v.Tuple? then List(v.items) else List([v]))
    case KDict => if v.Dict? then Some(v) else None
    case KOther => Some(v)
  }

  predicate Allowed(host: Host, p: Param, v: Value) { p.choices == [] || exists c | c in p.choices :: host.same(v, c) }

  predicate Fits(p: Param, v: Value)
  {
    p.maxLength.Some? ==> match v
                          case Str(s) => |s| <= p.maxLength.value
                          case List(items) => |items| <= p.maxLength.value
                          case _ => true
  }

  function Coerce(host: Host, p: Param, name: string, v: Value): Result<Value>
  {
    match Converted(host, p.kind, v)
    case None => Err(BadType(name))
    case Some(out) =>
      if !Allowed(host, p, out) then Err(NotAChoice(name))
      else if !Fits(p, out) then Err(TooLong(name))
      else Ok(out)
  }

  predicate HasKind(kind: Kind, v: Value)
  {
    match kind
    case KString => v.Str?
    case KInt => v.Int?
    case KFloat => v.Float?
    case KBool => v.Bool?
    case KList => v.List?
    case KDict => v.Dict?
    case KOther => true
  }

  /** An accepted value has the declared type, is one of the choices and is not too long; a value that
      already is all of that is accepted as it is, and nothing else is accepted unchanged. */
  lemma CoerceMeans(host: Host, p: Param, name: string, v: Value)
    ensures var r := Coerce(host, p, name, v);
            && (r.Ok? ==> HasKind(p.kind, r.value) && Allowed(host, p, r.value) && Fits(p, r.value))
            && (r == Ok(v) <==> HasKind(p.kind, v) && Allowed(host, p, v) && Fits(p, v))
            && (HasKind(p.kind, v) ==> r != Err(BadType(name)))
  {
  }

  /** What one parameter contributes. */
  datatype Field = Skip | Put(value: Value) | Fail(error: Error)

  function FieldOf(host: Host, p: Param, name: string, params: map<string, Value>): Field
  {
    if name !in params then
      if p.required then Fail(Missing(name)) else if p.fallback != Null then Put(p.fallback) else Skip
    else if params[name].Null? && !p.required then Skip
    else match Coerce(host, p, name, params[name])
         case Ok(v) => Put(v)
         case Err(error) => Fail(error)
  }

  type Schema = seq<(string, Param)>

  predicate Distinct(schema: Schema) { forall i, j | 0 <= i < j < |schema| :: schema[i].0 != schema[j].0 }

  function NamesOf(schema: Schema): set<string> { set i | 0 <= i < |schema| :: schema[i].0 }

  /** The parameters in order; the first that fails decides. */
  function Filled(host: Host, schema: Schema, params: map<string, Value>): Result<map<string, Value>>
  {
    if schema == [] then Ok(map[])
    else
      match Filled(host, schema[..|schema| - 1], params)
      case Err(error) => Err(error)
      case Ok(out) =>
        var last := schema[|schema| - 1];
        match FieldOf(host, last.1, last.0, params)
        case Skip => Ok(out)
        case Put(v) => Ok(out[last.0 := v])
        case Fail(error) => Err(error)
  }

  function Validated(host: Host, schema: Schema, params: map<string, Value>): Result<map<string, Value>>
  {
    if params.Keys - NamesOf(schema) != {} then Err(Unknown(params.Keys - NamesOf(schema)))
    else Filled(host, schema, params)
  }

  method Validate(host: Host, schema: Schema, params: map<string, Value>) returns (result: Result<map<string, Value>>)
    ensures result == Validated(host, schema, params)
  {
    var unknown := params.Keys - NamesOf(schema);
    if unknown != {} {
      return Err(Unknown(unknown));
    }
    var out := map[];
    for i := 0 to |schema|
      invariant Filled(host, schema[..i], params) == Ok(out)
    {
      var (name, p) := schema[i];
      assert schema[..i + 1][..i] == schema[..i];
      if name !in params {
        if p.required {
          FailureStays(host, schema, i + 1, params);
          return Err(Missing(name));
        }
        if p.fallback != Null {
          out := out[name := p.fallback];
        }
      } else if !params[name].Null? || p.required {
        var coerced := Coerce(host, p, name, params[name]);
        if coerced.Err? {
          FailureStays(host, schema, i + 1, params);
          return Err(coerced.error);
        }
        out := out[name := coerced.value];
      }
    }
    assert schema[..|schema|] == schema;
    return Ok(out);
  }

  lemma {:induction false} FailureStays(host: Host, schema: Schema, n: nat, params: map<string, Value>)
    requires n <= |schema| && Filled(host, schema[..n], params).Err?
    ensures Filled(host, schema, params) == Filled(host, schema[..n], params)
  {
    if n < |schema| {
      var rest := schema[..|schema| - 1];
      assert rest[..n] == schema[..n];
      FailureStays(host, rest, n, params);
    } else {
      assert schema[..n] == schema;
    }
  }

  // -------------------------------------------------------------------- what a conversion means

  /** The number of a value that has one without parsing: a truth value counts as one or zero. */
  function NumberIn(v: Value): Option<real>
  {
    match v
    case Int(i) => Some(i as real)
    case Float(r) => Some(r)
    case Bool(b) => Some(if b then 1.0 else 0.0)
    case _ => None
  }

  /** Cut toward zero: the whole number next to it that is not farther from zero. */
  predicate CutTo(r: real, i: int)
  {
    if r >= 0.0 then i as real <= r < (i + 1) as real else (i - 1) as real < r <= i as real
  }

  lemma TruncatedIff(r: real, i: int)
    ensures i == Truncated(r) <==> CutTo(r, i)
  {
  }

  /** A whole number is the parsed text, or what is left of the value's number when it is cut toward zero; anything
      else is refused. */
  lemma ToIntMeans(host: Host, v: Value)
    ensures v.Str? ==> ToInt(host, v) == if host.parseInt(v.s).Some? then Some(Int(host.parseInt(v.s).value)) else None
    ensures !v.Str? ==> (ToInt(host, v).Some? <==> NumberIn(v).Some?)
    ensures !v.Str? && ToInt(host, v).Some? ==>
              ToInt(host, v).value.Int? && CutTo(NumberIn(v).value, ToInt(host, v).value.i)
  {
    if v.Float? { TruncatedIff(v.r, Truncated(v.r)); }
  }

  /** A number is the parsed text or the value's own number; anything else is refused. */
  lemma ToFloatMeans(host: Host, v: Value)
    ensures v.Str? ==>
              ToFloat(host, v) == if host.parseFloat(v.s).Some? then Some(Float(host.parseFloat(v.s).value)) else None
    ensures !v.Str? ==>
              ToFloat(host, v) == if NumberIn(v).Some? then Some(Float(NumberIn(v).value)) else None
  {
  }

  /** Nothing, zero and what is empty are false. */
  predicate Empty(v: Value)
  {
    || v.Null? || NumberIn(v) == Some(0.0)
    || (v.List? && v.items == []) || (v.Tuple? && v.items == []) || (v.Dict? && v.entries == [])
  }

  /** A truth value is a word for it, in either language or as a digit, or whether there is anything; another word is
      refused. */
  lemma ToBoolMeans(host: Host, v: Value)
    ensures v.Str? ==> (ToBool(host, v) == Some(Bool(true)) <==> host.folded(v.s) in ["1", "tak", "true", "yes"])
    ensures v.Str? ==> (ToBool(host, v) == Some(Bool(false)) <==> host.folded(v.s) in ["0", "false", "nie", "no"])
    ensures v.Str? && ToBool(host, v).Some? ==> ToBool(host, v).value.Bool?
    ensures !v.Str? ==> ToBool(host, v) == Some(Bool(!Empty(v)))
  {
  }

  /** Text is the value's text; a list is the value's items, or the value alone; a dictionary and an open type are
      taken as they are. */
  lemma OtherConversions(host: Host, v: Value)
    ensures Converted(host, KString, v) == Some(if v.Str? then v else Str(host.text(v)))
    ensures v.List? || v.Tuple? ==> Converted(host, KList, v) == Some(List(v.items))
    ensures !v.List? && !v.Tuple? ==> Converted(host, KList, v) == Some(List([v]))
    ensures Converted(host, KDict, v) == (if v.Dict? then Some(v) else None)
    ensures Converted(host, KOther, v) == Some(v)
    ensures Converted(host, KInt, v) == ToInt(host, v) && Converted(host, KFloat, v) == ToFloat(host, v)
    ensures Converted(host, KBool, v) == ToBool(host, v)
  {
  }

  /** Which error it is: no conversion, then no choice, then too long. */
  lemma CoerceErrorIff(host: Host, p: Param, name: string, v: Value)
    ensures var out, r := Converted(host, p.kind, v), Coerce(host, p, name, v);
            && (r == Err(BadType(name)) <==> out.None?)
            && (r == Err(NotAChoice(name)) <==> out.Some? && p.choices != []
                                                && forall c | c in p.choices :: !host.same(out.value, c))
            && (r == Err(TooLong(name)) <==> out.Some? && Allowed(host, p, out.value) && p.maxLength.Some?
                                             && ((out.value.Str? && |out.value.s| > p.maxLength.value)
                                                 || (out.value.List? && |out.value.items| > p.maxLength.value)))
            && (r.Ok? ==> out == Some(r.value))
  {
  }

  /** What a parameter contributes: a value that was given and is not an optional nothing is coerced; otherwise the
      default, if there is one and nothing was given; a required one must be given. */
  lemma FieldMeans(host: Host, p: Param, name: string, params: map<string, Value>)
    ensures var f := FieldOf(host, p, name, params);
            && (f == Fail(Missing(name)) <==> p.required && name !in params)
            && (name in params && (p.required || !params[name].Null?) ==>
                  var r := Coerce(host, p, name, params[name]);
                  if r.Ok? then f == Put(r.value) else f == Fail(r.error))
            && (name !in params && !p.required ==> f == if p.fallback.Null? then Skip else Put(p.fallback))
            && (name in params && !p.required && params[name].Null? ==> f.Skip?)
  {
  }

  /** The first parameter that fails, in the order they are declared. */
  predicate FailsFirst(host: Host, schema: Schema, params: map<string, Value>, i: nat, error: Error)
  {
    && i < |schema| && FieldOf(host, schema[i].1, schema[i].0, params) == Fail(error)
    && forall j | 0 <= j < i :: !FieldOf(host, schema[j].1, schema[j].0, params).Fail?
  }

  lemma {:induction false} FilledFails(host: Host, schema: Schema, params: map<string, Value>)
    ensures Filled(host, schema, params).Err? ==>
              exists i :: FailsFirst(host, schema, params, i, Filled(host, schema, params).error)
    ensures Filled(host, schema, params).Ok? ==>
              forall i | 0 <= i < |schema| :: !FieldOf(host, schema[i].1, schema[i].0, params).Fail?
  {
    if schema != [] {
      var n := |schema| - 1;
      var rest := schema[..n];
      FilledFails(host, rest, params);
      var before := Filled(host, rest, params);
      if before.Err? {
        var i :| FailsFirst(host, rest, params, i, before.error);
        assert FailsFirst(host, schema, params, i, before.error);
      } else if Filled(host, schema, params).Err? {
        assert FailsFirst(host, schema, params, n, Filled(host, schema, params).error);
      }
    }
  }

  /** Names that are not declared are refused first, all of them; otherwise the first parameter that fails decides. */
  lemma ValidationError(host: Host, schema: Schema, params: map<string, Value>)
    requires Validated(host, schema, params).Err?
    ensures var error, unknown := Validated(host, schema, params).error, params.Keys - NamesOf(schema);
            if unknown != {} then error == Unknown(unknown) else exists i :: FailsFirst(host, schema, params, i, error)
  {
    FilledFails(host, schema, params);
  }

  // ----------------------------------------------------------------------------- properties

  /** A value that was accepted is accepted again, unchanged, for every kind, choice and length. */
  lemma CoerceTwice(host: Host, p: Param, name: string, v: Value)
    requires Coerce(host, p, name, v).Ok?
    ensures Coerce(host, p, name, Coerce(host, p, name, v).value) == Coerce(host, p, name, v)
  {
  }

  /** The result holds exactly what the fields put. */
  ghost predicate Holds(host: Host, schema: Schema, params: map<string, Value>, out: map<string, Value>)
  {
    && out.Keys <= NamesOf(schema)
    && forall i | 0 <= i < |schema| ::
         match FieldOf(host, schema[i].1, schema[i].0, params)
         case Skip => schema[i].0 !in out
         case Put(v) => schema[i].0 in out && out[schema[i].0] == v
         case Fail(_) => false
  }

  lemma {:induction false} FilledMeans(host: Host, schema: Schema, params: map<string, Value>)
    requires Distinct(schema)
    ensures Filled(host, schema, params).Ok? ==> Holds(host, schema, params, Filled(host, schema, params).value)
    ensures Filled(host, schema, params).Err? <==> SomeFails(host, schema, params)
  {
    if schema != [] {
      var n := |schema| - 1;
      var rest, last := schema[..n], schema[n];
      FilledMeans(host, rest, params);
      FailsMore(host, rest, last, params);
      assert schema == rest + [last];
      if Filled(host, schema, params).Ok? {
        HoldsMore(host, rest, last, params, Filled(host, rest, params).value);
      }
    }
  }

  ghost predicate SomeFails(host: Host, schema: Schema, params: map<string, Value>)
  {
    exists i | 0 <= i < |schema| :: FieldOf(host, schema[i].1, schema[i].0, params).Fail?
  }

  lemma FailsMore(host: Host, rest: Schema, last: (string, Param), params: map<string, Value>)
    ensures SomeFails(host, rest + [last], params)
         <==> SomeFails(host, rest, params) || FieldOf(host, last.1, last.0, params).Fail?
  {
    var schema := rest + [last];
    assert schema[|rest|] == last && forall i | 0 <= i < |rest| :: schema[i] == rest[i];
    if SomeFails(host, rest, params) {
      var i :| 0 <= i < |rest| && FieldOf(host, rest[i].1, rest[i].0, params).Fail?;
      assert FieldOf(host, schema[i].1, schema[i].0, params).Fail?;
    }
  }

  lemma HoldsMore(host: Host, rest: Schema, last: (string, Param), params: map<string, Value>, out: map<string, Value>)
    requires Distinct(rest + [last]) && Holds(host, rest, params, out) && !FieldOf(host, last.1, last.0, params).Fail?
    ensures var f := FieldOf(host, last.1, last.0, params);
            Holds(host, rest + [last], params, if f.Put? then out[last.0 := f.value] else out)
  {
    var schema := rest + [last];
    assert schema[..|schema| - 1] == rest && schema[|rest|] == last;
    NamesOfMore(schema);
    forall i | 0 <= i < |rest|
      ensures schema[i] == rest[i] && schema[i].0 != last.0
    {
    }
  }

  lemma NamesOfMore(schema: Schema)
    requires schema != [] && Distinct(schema)
    ensures NamesOf(schema) == NamesOf(schema[..|schema| - 1]) + {schema[|schema| - 1].0}
    ensures schema[|schema| - 1].0 !in NamesOf(schema[..|schema| - 1])
  {
    var rest := schema[..|schema| - 1];
    forall name | name in NamesOf(schema)
      ensures name in NamesOf(rest) || name == schema[|schema| - 1].0
    {
      var i :| 0 <= i < |schema| && schema[i].0 == name;
      assert i < |rest| ==> rest[i].0 == name;
    }
    forall name | name in NamesOf(rest)
      ensures name in NamesOf(schema)
    {
      var i :| 0 <= i < |rest| && rest[i].0 == name;
      assert schema[i].0 == name;
    }
    assert schema[|schema| - 1].0 in NamesOf(schema);
  }

  /** Only one map holds what the fields put. */
  lemma HoldsOnce(host: Host, schema: Schema, params: map<string, Value>, a: map<string, Value>, b: map<string, Value>)
    requires Holds(host, schema, params, a) && Holds(host, schema, params, b)
    ensures a == b
  {
    forall name
      ensures name in a <==> name in b
      ensures name in a && name in b ==> a[name] == b[name]
    {
      if name in a || name in b {
        var i :| 0 <= i < |schema| && schema[i].0 == name;
        assert !FieldOf(host, schema[i].1, schema[i].0, params).Fail?;
      }
    }
  }

  /** The parameter says the same of its own output: its default is acceptable as it is if it was used, and
      no explicit null hid a default. */
  predicate Settled(host: Host, name: string, p: Param, params: map<string, Value>)
  {
    !p.required && p.fallback != Null ==>
      && (name !in params ==> Coerce(host, p, name, p.fallback) == Ok(p.fallback))
      && (name in params ==> !params[name].Null?)
  }

  lemma FieldAgain(host: Host, p: Param, name: string, params: map<string, Value>, out: map<string, Value>)
    requires var f := FieldOf(host, p, name, params);
             !f.Fail? && (if f.Put? then name in out && out[name] == f.value else name !in out)
    ensures FieldOf(host, p, name, out) == FieldOf(host, p, name, params) <==> Settled(host, name, p, params)
  {
    if name in params && FieldOf(host, p, name, params).Put? {
      CoerceTwice(host, p, name, params[name]);
    }
  }

  /** Validating what was validated gives it back, for every schema and every accepted input, exactly when
      every default that was filled in is acceptable to its own parameter and no default was hidden behind
      an explicit null. */
  lemma ValidateAgainIff(host: Host, schema: Schema, params: map<string, Value>)
    requires Distinct(schema) && Validated(host, schema, params).Ok?
    ensures var out := Validated(host, schema, params).value;
            Validated(host, schema, out) == Ok(out) <==>
            forall i | 0 <= i < |schema| :: Settled(host, schema[i].0, schema[i].1, params)
  {
    var out := Validated(host, schema, params).value;
    FilledMeans(host, schema, params);
    FilledMeans(host, schema, out);
    forall i | 0 <= i < |schema|
      ensures FieldOf(host, schema[i].1, schema[i].0, out) == FieldOf(host, schema[i].1, schema[i].0, params)
         <==> Settled(host, schema[i].0, schema[i].1, params)
    {
      FieldAgain(host, schema[i].1, schema[i].0, params, out);
    }
    if forall i | 0 <= i < |schema| :: Settled(host, schema[i].0, schema[i].1, params) {
      HoldsOnce(host, schema, out, Filled(host, schema, out).value, out);
    }
  }

  /** Every default of an optional parameter is acceptable to it as it is. */
  predicate GoodDefaults(host: Host, schema: Schema)
  {
    forall i | 0 <= i < |schema| && !schema[i].1.required && schema[i].1.fallback != Null ::
      Coerce(host, schema[i].1, schema[i].0, schema[i].1.fallback) == Ok(schema[i].1.fallback)
  }

  lemma SecondPass(host: Host, p: Param, name: string, params: map<string, Value>, out: map<string, Value>)
    requires !p.required && p.fallback != Null ==> Coerce(host, p, name, p.fallback) == Ok(p.fallback)
    requires var f := FieldOf(host, p, name, params);
             !f.Fail? && (if f.Put? then name in out && out[name] == f.value else name !in out)
    ensures !FieldOf(host, p, name, out).Fail? && Settled(host, name, p, out)
  {
    if name in params && FieldOf(host, p, name, params).Put? {
      CoerceTwice(host, p, name, params[name]);
    }
  }

  /** With such defaults the second pass never fails, and the third changes nothing more. */
  lemma TwoPassesSettle(host: Host, schema: Schema, params: map<string, Value>)
    requires Distinct(schema) && GoodDefaults(host, schema) && Validated(host, schema, params).Ok?
    ensures var once := Validated(host, schema, params).value;
            && Validated(host, schema, once).Ok?
            && var twice := Validated(host, schema, once).value;
               Validated(host, schema, twice) == Ok(twice)
  {
    var once := Validated(host, schema, params).value;
    FilledMeans(host, schema, params);
    FilledMeans(host, schema, once);
    forall i | 0 <= i < |schema|
      ensures !FieldOf(host, schema[i].1, schema[i].0, once).Fail? && Settled(host, schema[i].0, schema[i].1, once)
    {
      SecondPass(host, schema[i].1, schema[i].0, params, once);
    }
    ValidateAgainIff(host, schema, once);
  }
}
