/** Taking over another configuration without becoming another object (config.py, settings.py): the trees
    of objects a configuration is made of, and what adopting one into another leaves. */
module Config {
  import opened Options

  type Ref = nat
  type Path = seq<string>

  /** What an object is: an instance of a class, or a dictionary. */
  datatype Kind = Record(class_: string) | Table

  /** A value with the identities of the objects in it. Leaves stand for everything that is compared as a
      whole: numbers, strings, lists, nothing. */
  datatype Tree = Leaf(text: string) | Node(ref: Ref, kind: Kind, children: map<string, Tree>)

  /** The same without identities: two values are equal when their shapes are. */
  datatype Shape = Plain(text: string) | Object(kind: Kind, members: map<string, Shape>)

  function ShapeOf(t: Tree): Shape
  {
    match t
    case Leaf(text) => Plain(text)
    case Node(_, kind, children) => Object(kind, map k | k in children :: ShapeOf(children[k]))
  }

  /** Instances of one class, or two dictionaries. */
  predicate Alike(t: Tree, s: Tree) { t.Node? && s.Node? && t.kind == s.kind }

  /** The pairs that are merged instead of compared: instances of one class anywhere, two dictionaries only as
      a field of an instance. A dictionary inside a dictionary is a plain value. */
  predicate Merges(parent: Kind, t: Tree, s: Tree) { Alike(t, s) && (t.kind.Table? ==> parent.Record?) }

  /** The target after adopting a source of its kind. */
  function Adopt(t: Tree, s: Tree): Tree
    requires Alike(t, s)
    decreases t, 1
  {
    Node(t.ref, t.kind,
         map k | k in s.children ::
           if k in t.children then AdoptChild(t.kind, t.children[k], s.children[k]) else s.children[k])
  }

  /** What one field or key of an object of kind `parent` becomes: equal values are left alone. */
  function AdoptChild(parent: Kind, t: Tree, s: Tree): Tree
    decreases t, 2
  {
    if Merges(parent, t, s) then Adopt(t, s) else if ShapeOf(t) == ShapeOf(s) then t else s
  }

  /** The paths that are reported as changed. */
  predicate Reported(t: Tree, s: Tree, p: Path)
    requires Alike(t, s)
    decreases |p|
  {
    && p != []
    && var k := p[0];
       if k in t.children && k in s.children then
         if Merges(t.kind, t.children[k], s.children[k]) then Reported(t.children[k], s.children[k], p[1..])
         else |p| == 1 && ShapeOf(t.children[k]) != ShapeOf(s.children[k])
       else |p| == 1 && (k in t.children || k in s.children)
  }

  // ------------------------------------------------------------------------------ lemmas

  /** After adoption the target equals the source. */
  lemma {:induction false} AdoptedEqualsSource(t: Tree, s: Tree)
    requires Alike(t, s)
    ensures ShapeOf(Adopt(t, s)) == ShapeOf(s)
    decreases t
  {
    forall k | k in s.children && k in t.children
      ensures ShapeOf(AdoptChild(t.kind, t.children[k], s.children[k])) == ShapeOf(s.children[k])
    {
      if Merges(t.kind, t.children[k], s.children[k]) {
        AdoptedEqualsSource(t.children[k], s.children[k]);
      }
    }
  }

  /** What lies at a path, if anything. */
  function At(t: Tree, p: Path): Option<Tree>
    decreases |p|
  {
    if p == [] then Some(t)
    else if t.Node? && p[0] in t.children then At(t.children[p[0]], p[1..])
    else None
  }

  /** The kind of the object at a path. */
  function KindAt(t: Tree, p: Path): Kind
    decreases |p|
  {
    if t.Leaf? then Table
    else if p == [] || p[0] !in t.children then t.kind
    else KindAt(t.children[p[0]], p[1..])
  }

  /** Every object of a tree. */
  function Refs(t: Tree): set<Ref>
  {
    if t.Leaf? then {} else {t.ref} + set k, r | k in t.children && r in Refs(t.children[k]) :: r
  }

  lemma {:induction false} AtRefs(t: Tree, p: Path)
    requires At(t, p).Some?
    ensures Refs(At(t, p).value) <= Refs(t)
    decreases |p|
  {
    if p != [] {
      AtRefs(t.children[p[0]], p[1..]);
    }
  }

  /** Both trees have, at every step of the path, objects that are merged. */
  predicate MergedAlong(t: Tree, s: Tree, p: Path)
    decreases |p|
  {
    && Alike(t, s)
    && (p != [] ==>
          && p[0] in t.children && p[0] in s.children
          && Merges(t.kind, t.children[p[0]], s.children[p[0]])
          && MergedAlong(t.children[p[0]], s.children[p[0]], p[1..]))
  }

  /** The path leads through merged pairs to the object itself, or to two equal values that hold it. */
  predicate Stays(t: Tree, s: Tree, p: Path)
    decreases |p|
  {
    && Alike(t, s)
    && (p != [] ==>
          && p[0] in t.children && p[0] in s.children
          && if Merges(t.kind, t.children[p[0]], s.children[p[0]]) then
               Stays(t.children[p[0]], s.children[p[0]], p[1..])
             else ShapeOf(t.children[p[0]]) == ShapeOf(s.children[p[0]]))
  }

  /** What lies at the path is still the target's object. */
  ghost predicate SameObject(t: Tree, after: Tree, p: Path)
  {
    var a, b := At(t, p), At(after, p);
    a.Some? && b.Some? && a.value.Node? && b.value.Node? && b.value.ref == a.value.ref
  }

  /** An object of the target keeps its identity exactly when its path leads through merged pairs, to itself
      or to two equal values around it. */
  lemma {:induction false} IdentityKeptIff(t: Tree, s: Tree, p: Path)
    requires Alike(t, s) && Refs(t) !! Refs(s)
    requires At(t, p).Some? && At(t, p).value.Node?
    ensures SameObject(t, Adopt(t, s), p) <==> Stays(t, s, p)
    decreases |p|
  {
    if p != [] && p[0] in s.children {
      var a, b, rest := t.children[p[0]], s.children[p[0]], p[1..];
      ChildRefs(t, p[0]);
      ChildRefs(s, p[0]);
      assert At(Adopt(t, s), p) == At(AdoptChild(t.kind, a, b), rest) && At(t, p) == At(a, rest);
      if Merges(t.kind, a, b) {
        IdentityKeptIff(a, b, rest);
      } else if ShapeOf(a) != ShapeOf(b) {
        ForeignObject(a, b, rest);
      }
    }
  }

  lemma ChildRefs(t: Tree, k: string)
    requires t.Node? && k in t.children
    ensures Refs(t.children[k]) <= Refs(t)
  {
  }

  lemma ForeignObject(t: Tree, s: Tree, p: Path)
    requires Refs(t) !! Refs(s)
    ensures !SameObject(t, s, p)
  {
    if At(t, p).Some? { AtRefs(t, p); }
    if At(s, p).Some? { AtRefs(s, p); }
  }

  /** Where the pairs above are merged but the two values are different and not merged, or the target has
      none, the source's own value is taken over, objects and all. */
  lemma {:induction false} ReplacedWhole(t: Tree, s: Tree, p: Path, k: string)
    requires MergedAlong(t, s, p) && At(s, p + [k]).Some?
    requires var a, b := At(t, p + [k]), At(s, p + [k]).value;
             a.Some? ==> !Merges(KindAt(t, p), a.value, b) && ShapeOf(a.value) != ShapeOf(b)
    ensures At(Adopt(t, s), p + [k]) == At(s, p + [k])
    decreases |p|
  {
    if p == [] {
      assert [] + [k] == [k] && [k][1..] == [];
    } else {
      assert (p + [k])[0] == p[0] && (p + [k])[1..] == p[1..] + [k];
      ReplacedWhole(t.children[p[0]], s.children[p[0]], p[1..], k);
    }
  }

  /** A path is reported exactly when everything above it is merged, and there the two sides differ in a way
      that merging does not settle: one side has nothing, or they are different and not merged. */
  lemma {:induction false} ReportedIff(t: Tree, s: Tree, p: Path, k: string)
    requires Alike(t, s)
    ensures Reported(t, s, p + [k]) <==>
              && MergedAlong(t, s, p)
              && var a, b := At(t, p + [k]), At(s, p + [k]);
                 && (a.Some? || b.Some?)
                 && (a.Some? && b.Some? ==>
                       !Merges(KindAt(t, p), a.value, b.value) && ShapeOf(a.value) != ShapeOf(b.value))
    decreases |p|
  {
    var q := p + [k];
    if p == [] {
      assert q == [k] && q[1..] == [];
    } else {
      assert q[0] == p[0] && q[1..] == p[1..] + [k];
      var i := p[0];
      if i in t.children && i in s.children && Merges(t.kind, t.children[i], s.children[i]) {
        ReportedIff(t.children[i], s.children[i], p[1..], k);
      }
    }
  }

  /** A dictionary inside a dictionary: when both sides have one under the same key and they differ, the
      incoming one is taken over whole and the key itself is reported, no path below it. */
  lemma InnerTableReplaced(t: Tree, s: Tree, k: string, below: Path)
    requires Alike(t, s) && t.kind.Table? && k in t.children && k in s.children && below != []
    requires Alike(t.children[k], s.children[k]) && t.children[k].kind.Table?
    requires ShapeOf(t.children[k]) != ShapeOf(s.children[k])
    ensures Adopt(t, s).children[k] == s.children[k]
    ensures Reported(t, s, [k]) && !Reported(t, s, [k] + below)
  {
  }

  /** A providers dictionary with one provider stored as a plain dictionary. */
  function Providers(outer: Ref, inner: Ref, address: string): Tree
  {
    Node(outer, Table, map["acme" := Node(inner, Table, map["base_url" := Leaf(address)])])
  }

  /** The same rules do not hold one level down: adopting a new address for such a provider replaces the
      provider object and reports the provider, not its address. */
  lemma InnerTableExample(outer: Ref, inner: Ref, outer': Ref, inner': Ref, old': string, new': string, path: Path)
    requires inner != inner' && old' != new' && path == ["acme"]
    ensures var t, s := Providers(outer, inner, old'), Providers(outer', inner', new');
            && Alike(t, s) && Alike(t.children["acme"], s.children["acme"])
            && !SameObject(t, Adopt(t, s), path) && At(Adopt(t, s), path) == Some(s.children["acme"])
            && Reported(t, s, path) && !Reported(t, s, path + ["base_url"])
  {
    var t, s := Providers(outer, inner, old'), Providers(outer', inner', new');
    var a, b := t.children["acme"], s.children["acme"];
    assert ShapeOf(a).members["base_url"] == Plain(old') && ShapeOf(b).members["base_url"] == Plain(new');
    InnerTableReplaced(t, s, "acme", ["base_url"]);
    assert path[1..] == [] && At(t, path) == At(a, []) && At(Adopt(t, s), path) == At(b, []);
  }

  ghost predicate Quiet(t: Tree, s: Tree)
    requires Alike(t, s)
  {
    forall p :: !Reported(t, s, p)
  }

  /** Nothing is reported exactly when the two were equal already. */
  lemma NothingReportedIff(t: Tree, s: Tree)
    requires Alike(t, s)
    ensures Quiet(t, s) <==> ShapeOf(t) == ShapeOf(s)
  {
    if ShapeOf(t) == ShapeOf(s) {
      forall p
        ensures !Reported(t, s, p)
      {
        EqualReportsNothing(t, s, p);
      }
    } else {
      var p := DifferenceReported(t, s);
      assert Reported(t, s, p);
    }
  }

  lemma {:induction false} EqualReportsNothing(t: Tree, s: Tree, p: Path)
    requires Alike(t, s) && ShapeOf(t) == ShapeOf(s)
    ensures !Reported(t, s, p)
    decreases |p|
  {
    if p != [] {
      assert ShapeOf(t).members.Keys == t.children.Keys && ShapeOf(s).members.Keys == s.children.Keys;
      if p[0] in t.children {
        assert ShapeOf(t).members[p[0]] == ShapeOf(s).members[p[0]];
        if Merges(t.kind, t.children[p[0]], s.children[p[0]]) {
          EqualReportsNothing(t.children[p[0]], s.children[p[0]], p[1..]);
        }
      }
    }
  }

  lemma {:induction false} DifferenceReported(t: Tree, s: Tree) returns (p: Path)
    requires Alike(t, s) && ShapeOf(t) != ShapeOf(s)
    ensures Reported(t, s, p)
    decreases t
  {
    SameMembers(t, s);
    var k :| k in t.children.Keys + s.children.Keys && Differ(t, s, k);
    p := [k];
    if k in t.children && k in s.children && Merges(t.kind, t.children[k], s.children[k]) {
      var rest := DifferenceReported(t.children[k], s.children[k]);
      p := [k] + rest;
      assert p[1..] == rest;
    }
  }

  predicate Differ(t: Tree, s: Tree, k: string)
    requires t.Node? && s.Node?
  {
    k !in t.children || k !in s.children || ShapeOf(t.children[k]) != ShapeOf(s.children[k])
  }

  lemma SameMembers(t: Tree, s: Tree)
    requires Alike(t, s)
    ensures (forall k | k in t.children.Keys + s.children.Keys :: !Differ(t, s, k)) ==> ShapeOf(t) == ShapeOf(s)
  {
    if forall k | k in t.children.Keys + s.children.Keys :: !Differ(t, s, k) {
      assert forall k :: k in t.children <==> k in t.children.Keys + s.children.Keys;
      assert forall k :: k in s.children <==> k in t.children.Keys + s.children.Keys;
      assert ShapeOf(t).members == ShapeOf(s).members;
    }
  }
}
