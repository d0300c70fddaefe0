/** `Config.adopt` on a memory of objects that refer to each other (config.py): the objects of the target are
    changed in place, and the result is the tree that `Config` describes. */
module ConfigStore {
  import opened Config
  import opened Settings

  datatype Val = Scalar(text: string) | Link(ref: Ref)

  type Slots = map<string, Val>

  datatype Obj = Obj(kind: Kind, slots: Slots)

  type Objects = map<Ref, Obj>

  /** The value is a tree at most `depth` objects deep. */
  predicate Deep(objects: Objects, v: Val, depth: nat)
    decreases depth, 0
  {
    v.Link? ==> depth > 0 && v.ref in objects && AllDeep(objects, objects[v.ref].slots, depth - 1)
  }

  predicate AllDeep(objects: Objects, slots: Slots, depth: nat)
    decreases depth, 1
  {
    forall k | k in slots :: Deep(objects, slots[k], depth)
  }

  function TreeOf(objects: Objects, v: Val, depth: nat): Tree
    requires Deep(objects, v, depth)
    decreases depth, 0
  {
    match v
    case Scalar(text) => Leaf(text)
    case Link(r) => Node(r, objects[r].kind, Branches(objects, objects[r].slots, depth - 1))
  }

  function Branches(objects: Objects, slots: Slots, depth: nat): map<string, Tree>
    requires AllDeep(objects, slots, depth)
    decreases depth, 1
  {
    map k | k in slots :: TreeOf(objects, slots[k], depth)
  }

  /** Every object of the tree. */
  function Reach(objects: Objects, v: Val, depth: nat): set<Ref>
    requires Deep(objects, v, depth)
    decreases depth, 0
  {
    if v.Scalar? then {} else {v.ref} + Below(objects, objects[v.ref].slots, depth - 1)
  }

  function Below(objects: Objects, slots: Slots, depth: nat): set<Ref>
    requires AllDeep(objects, slots, depth)
    decreases depth, 1
  {
    set k, r | k in slots && r in Reach(objects, slots[k], depth) :: r
  }

  /** No object is reached twice. */
  predicate Unshared(objects: Objects, v: Val, depth: nat)
    requires Deep(objects, v, depth)
    decreases depth, 0
  {
    v.Link? ==>
      && v.ref !in Below(objects, objects[v.ref].slots, depth - 1)
      && Apart(objects, objects[v.ref].slots, depth - 1)
  }

  predicate Apart(objects: Objects, slots: Slots, depth: nat)
    requires AllDeep(objects, slots, depth)
    decreases depth, 1
  {
    && (forall k | k in slots :: Unshared(objects, slots[k], depth))
    && (forall k, l | k in slots && l in slots && k != l ::
         Reach(objects, slots[k], depth) !! Reach(objects, slots[l], depth))
  }

  ghost predicate Agree(a: Objects, b: Objects, refs: set<Ref>)
  {
    forall r | r in refs :: r in a && r in b && a[r] == b[r]
  }

  ghost predicate SameAs(a: Objects, b: Objects, v: Val, depth: nat)
    requires Deep(a, v, depth)
  {
    && Deep(b, v, depth) && TreeOf(b, v, depth) == TreeOf(a, v, depth) && Reach(b, v, depth) == Reach(a, v, depth)
    && Unshared(b, v, depth) == Unshared(a, v, depth)
  }

  /** A tree depends only on the objects it reaches. */
  lemma {:induction false} SameTree(a: Objects, b: Objects, v: Val, depth: nat)
    requires Deep(a, v, depth) && Agree(a, b, Reach(a, v, depth))
    ensures SameAs(a, b, v, depth)
    decreases depth
  {
    if v.Link? {
      var slots, d := a[v.ref].slots, depth - 1;
      forall k | k in slots
        ensures SameAs(a, b, slots[k], d)
      {
        ReachBelow(a, slots, d, k);
        SameTree(a, b, slots[k], d);
      }
      SameBranches(a, b, slots, d);
    }
  }

  lemma {:induction false} ReachExists(objects: Objects, v: Val, d: nat)
    requires Deep(objects, v, d)
    ensures Reach(objects, v, d) <= objects.Keys
    decreases d
  {
    if v.Link? {
      var slots := objects[v.ref].slots;
      forall k | k in slots
        ensures Reach(objects, slots[k], d - 1) <= objects.Keys
      {
        ReachExists(objects, slots[k], d - 1);
      }
    }
  }

  lemma ReachBelow(objects: Objects, slots: Slots, d: nat, k: string)
    requires AllDeep(objects, slots, d) && k in slots
    ensures Reach(objects, slots[k], d) <= Below(objects, slots, d)
  {
  }

  lemma SameBranches(a: Objects, b: Objects, slots: Slots, d: nat)
    requires AllDeep(a, slots, d) && forall k | k in slots :: SameAs(a, b, slots[k], d)
    ensures AllDeep(b, slots, d) && Branches(b, slots, d) == Branches(a, slots, d)
    ensures Below(b, slots, d) == Below(a, slots, d)
    ensures Apart(b, slots, d) == Apart(a, slots, d)
  {
  }

  // ------------------------------------------------------------------- the names of one object

  ghost predicate Rooted(objects: Objects, r: Ref, d: nat) { r in objects && AllDeep(objects, objects[r].slots, d) }

  /** The object and everything below it. */
  ghost function Whole(objects: Objects, r: Ref, d: nat): set<Ref>
    requires Rooted(objects, r, d)
  {
    {r} + Below(objects, objects[r].slots, d)
  }

  ghost function Top(objects: Objects, r: Ref, d: nat): Tree
    requires Rooted(objects, r, d)
  {
    Node(r, objects[r].kind, Branches(objects, objects[r].slots, d))
  }

  /** Nothing in the tree of the object is reached twice. */
  ghost predicate Separate(objects: Objects, r: Ref, d: nat)
  {
    Rooted(objects, r, d) && r !in Below(objects, objects[r].slots, d) && Apart(objects, objects[r].slots, d)
  }

  /** Two objects of one kind with separate trees below them: what `adopt` is called on. */
  ghost predicate Adoptable(objects: Objects, t: Ref, s: Ref, d: nat)
  {
    && Separate(objects, t, d) && Separate(objects, s, d)
    && Whole(objects, t, d) !! Whole(objects, s, d)
    && objects[t].kind == objects[s].kind
  }

  /** What holds for one name of the target once it has been dealt with. */
  ghost predicate Settled(before: Objects, after: Objects, t: Ref, s: Ref, d: nat, k: string)
    requires Rooted(before, t, d) && Rooted(before, s, d) && t in after
  {
    var was, new_, now := before[t].slots, before[s].slots, after[t].slots;
    && (k in now <==> k in new_)
    && (k in new_ ==>
          && Deep(after, now[k], d) && Unshared(after, now[k], d)
          && (if k in was then
                && TreeOf(after, now[k], d)
                     == AdoptChild(before[t].kind, TreeOf(before, was[k], d), TreeOf(before, new_[k], d))
                && Reach(after, now[k], d) <= Reach(before, new_[k], d) + Reach(before, was[k], d)
              else
                && TreeOf(after, now[k], d) == TreeOf(before, new_[k], d)
                && Reach(after, now[k], d) <= Reach(before, new_[k], d)))
  }

  /** A name that was not dealt with yet is as it was. */
  ghost predicate Untouched(before: Objects, after: Objects, t: Ref, d: nat, k: string)
    requires Rooted(before, t, d) && t in after
  {
    && (k in after[t].slots <==> k in before[t].slots)
    && (k in before[t].slots ==>
          && after[t].slots[k] == before[t].slots[k]
          && Agree(before, after, Reach(before, before[t].slots[k], d)))
  }

  /** The objects below one name. */
  ghost function Under(objects: Objects, t: Ref, d: nat, k: string): set<Ref>
    requires Rooted(objects, t, d)
  {
    if k in objects[t].slots then Reach(objects, objects[t].slots[k], d) else {}
  }

  ghost predicate OnlyChanged(before: Objects, after: Objects, refs: set<Ref>)
  {
    && after.Keys == before.Keys
    && forall r | r in before && r !in refs :: after[r] == before[r]
  }

  /** One step changed at most what is below `k`, and the slot `k` of the target. */
  ghost predicate ChangedName(before: Objects, mid: Objects, after: Objects, t: Ref, d: nat, k: string)
    requires Rooted(before, t, d)
  {
    && OnlyChanged(mid, after, {t} + Under(before, t, d, k))
    && t in mid && t in after && after[t].kind == mid[t].kind
    && forall l | l != k ::
         (l in after[t].slots <==> l in mid[t].slots) && (l in mid[t].slots ==> after[t].slots[l] == mid[t].slots[l])
  }

  lemma Disjoint(objects: Objects, t: Ref, s: Ref, d: nat, k: string, j: string)
    requires Adoptable(objects, t, s, d) && k != j
    ensures Under(objects, t, d, k) !! Under(objects, t, d, j) && t !in Under(objects, t, d, k)
    ensures Under(objects, t, d, k) !! Under(objects, s, d, j) && Under(objects, t, d, k) !! Under(objects, s, d, k)
    ensures t !in Under(objects, s, d, j) && Under(objects, s, d, k) !! Under(objects, s, d, j)
    ensures Under(objects, t, d, k) <= Whole(objects, t, d) && Under(objects, s, d, k) <= Whole(objects, s, d)
  {
    Inside(objects, t, d, k);
    Inside(objects, t, d, j);
    Inside(objects, s, d, k);
    Inside(objects, s, d, j);
  }

  lemma Inside(objects: Objects, r: Ref, d: nat, k: string)
    requires Rooted(objects, r, d)
    ensures Under(objects, r, d, k) <= Below(objects, objects[r].slots, d)
  {
    if k in objects[r].slots { ReachBelow(objects, objects[r].slots, d, k); }
  }

  lemma UntouchedStays(before: Objects, mid: Objects, after: Objects, t: Ref, s: Ref, d: nat, k: string, j: string)
    requires Adoptable(before, t, s, d) && ChangedName(before, mid, after, t, d, k) && j != k
    requires Untouched(before, mid, t, d, j)
    ensures Untouched(before, after, t, d, j)
  {
    Disjoint(before, t, s, d, k, j);
  }

  lemma SettledStays(before: Objects, mid: Objects, after: Objects, t: Ref, s: Ref, d: nat, k: string, j: string)
    requires Adoptable(before, t, s, d) && ChangedName(before, mid, after, t, d, k) && j != k
    requires Settled(before, mid, t, s, d, j)
    ensures Settled(before, after, t, s, d, j)
  {
    Disjoint(before, t, s, d, k, j);
    if j in mid[t].slots {
      var v := mid[t].slots[j];
      assert Reach(mid, v, d) <= Under(before, s, d, j) + Under(before, t, d, j);
      ReachExists(mid, v, d);
      SameTree(mid, after, v, d);
    }
  }

  lemma OneNameDone(before: Objects, mid: Objects, after: Objects, t: Ref, s: Ref, d: nat, k: string, left: set<string>)
    requires Adoptable(before, t, s, d) && ChangedName(before, mid, after, t, d, k)
    requires Settled(before, after, t, s, d, k)
    requires OnlyChanged(before, mid, Whole(before, t, d))
    requires forall j | j !in left :: Settled(before, mid, t, s, d, j)
    requires forall j | j in left :: Untouched(before, mid, t, d, j)
    ensures OnlyChanged(before, after, Whole(before, t, d))
    ensures forall j | j !in left - {k} :: Settled(before, after, t, s, d, j)
    ensures forall j | j in left - {k} :: Untouched(before, after, t, d, j)
  {
    forall j | j != k && j !in left
      ensures Settled(before, after, t, s, d, j)
    {
      SettledStays(before, mid, after, t, s, d, k, j);
    }
    forall j | j != k && j in left
      ensures Untouched(before, after, t, d, j)
    {
      UntouchedStays(before, mid, after, t, s, d, k, j);
    }
    Inside(before, t, d, k);
  }

  lemma AllSettled(before: Objects, after: Objects, t: Ref, s: Ref, d: nat)
    requires Adoptable(before, t, s, d) && t in after && after[t].kind == before[t].kind
    requires forall k :: Settled(before, after, t, s, d, k)
    ensures Rooted(after, t, d) && Top(after, t, d) == Adopt(Top(before, t, d), Top(before, s, d))
    ensures Below(after, after[t].slots, d) <= Below(before, before[t].slots, d) + Below(before, before[s].slots, d)
    ensures Separate(after, t, d)
  {
    assert AllDeep(after, after[t].slots, d) by {
      forall k | k in after[t].slots
        ensures Deep(after, after[t].slots[k], d)
      {
        assert Settled(before, after, t, s, d, k);
      }
    }
    forall k | k in after[t].slots
      ensures Reach(after, after[t].slots[k], d)
           <= Below(before, before[t].slots, d) + Below(before, before[s].slots, d)
    {
      assert Settled(before, after, t, s, d, k);
      Inside(before, t, d, k);
      Inside(before, s, d, k);
    }
    SettledBranches(before, after, t, s, d);
    SettledApart(before, after, t, s, d);
  }

  /** What is below one name afterwards was below it on one of the two sides. */
  lemma SettledUnder(before: Objects, after: Objects, t: Ref, s: Ref, d: nat, k: string)
    requires Rooted(before, t, d) && Rooted(before, s, d) && Rooted(after, t, d) && Settled(before, after, t, s, d, k)
    ensures Under(after, t, d, k) <= Under(before, t, d, k) + Under(before, s, d, k)
  {
  }

  lemma SettledApart(before: Objects, after: Objects, t: Ref, s: Ref, d: nat)
    requires Adoptable(before, t, s, d) && Rooted(after, t, d) && forall k :: Settled(before, after, t, s, d, k)
    ensures Apart(after, after[t].slots, d)
  {
    var now := after[t].slots;
    forall k, l | k in now && l in now && k != l
      ensures Reach(after, now[k], d) !! Reach(after, now[l], d)
    {
      SettledUnder(before, after, t, s, d, k);
      SettledUnder(before, after, t, s, d, l);
      Disjoint(before, t, s, d, k, l);
      Disjoint(before, t, s, d, l, k);
    }
    forall k | k in now
      ensures Unshared(after, now[k], d)
    {
      assert Settled(before, after, t, s, d, k);
    }
  }

  lemma SettledBranches(before: Objects, after: Objects, t: Ref, s: Ref, d: nat)
    requires Rooted(before, t, d) && Rooted(before, s, d) && Rooted(after, t, d)
    requires before[t].kind == before[s].kind && after[t].kind == before[t].kind
    requires forall k :: Settled(before, after, t, s, d, k)
    ensures Top(after, t, d) == Adopt(Top(before, t, d), Top(before, s, d))
  {
    var now, wanted := Branches(after, after[t].slots, d), Adopt(Top(before, t, d), Top(before, s, d)).children;
    forall k
      ensures (k in now <==> k in wanted) && (k in now ==> now[k] == wanted[k])
    {
      assert Settled(before, after, t, s, d, k);
    }
    assert now == wanted;
  }

  /** The reported paths that begin with a name. */
  ghost predicate ReportedUnder(t: Tree, s: Tree, k: string, p: Path) { Alike(t, s) && Reported(t, s, p) && p[0] == k }

  /** Everything below one name can be adopted in its own right. */
  lemma NameAdoptable(before: Objects, mid: Objects, t: Ref, s: Ref, d: nat, k: string)
    requires Adoptable(before, t, s, d) && OnlyChanged(before, mid, Whole(before, t, d)) && t in mid
    requires Untouched(before, mid, t, d, k)
    requires k in before[s].slots
    ensures SameAs(before, mid, before[s].slots[k], d)
    ensures k in before[t].slots ==> SameAs(before, mid, before[t].slots[k], d)
    ensures var was, new_ := before[t].slots, before[s].slots;
            k in was && was[k].Link? && new_[k].Link? && mid[was[k].ref].kind == mid[new_[k].ref].kind ==>
              d > 0 && Adoptable(mid, was[k].ref, new_[k].ref, d - 1)
  {
    var was, new_ := before[t].slots, before[s].slots;
    Disjoint(before, t, s, d, k, k + "x");
    ReachExists(before, new_[k], d);
    SameTree(before, mid, new_[k], d);
    if k in was {
      SameTree(before, mid, was[k], d);
      assert Unshared(before, was[k], d);
    }
  }

  lemma AtFirst(before: Objects, t: Ref, d: nat, k: string)
    requires Rooted(before, t, d)
    ensures Untouched(before, before, t, d, k)
  {
    if k in before[t].slots { ReachExists(before, before[t].slots[k], d); }
  }

  /** Under this name both sides have values that are neither merged nor equal, or the target has none. */
  ghost predicate Replaces(before: Objects, t: Ref, s: Ref, d: nat, k: string)
    requires Rooted(before, t, d) && Rooted(before, s, d) && k in before[s].slots
  {
    k in before[t].slots ==>
      var was, new_ := TreeOf(before, before[t].slots[k], d), TreeOf(before, before[s].slots[k], d);
      !Merges(before[t].kind, was, new_) && ShapeOf(was) != ShapeOf(new_)
  }

  /** The slot now holds the value of the source. */
  lemma PlacedName(before: Objects, mid: Objects, after: Objects, t: Ref, s: Ref, d: nat, k: string)
    requires Adoptable(before, t, s, d) && OnlyChanged(before, mid, Whole(before, t, d)) && t in mid
    requires Untouched(before, mid, t, d, k) && k in before[s].slots && Replaces(before, t, s, d, k)
    requires after == mid[t := Obj(mid[t].kind, mid[t].slots[k := before[s].slots[k]])]
    ensures ChangedName(before, mid, after, t, d, k) && Settled(before, after, t, s, d, k)
  {
    var v := before[s].slots[k];
    Disjoint(before, t, s, d, k + "x", k);
    ReachExists(before, v, d);
    Inside(before, s, d, k);
    SameTree(before, after, v, d);
  }

  /** The slot keeps a value that is equal to the one of the source. */
  lemma EqualName(before: Objects, mid: Objects, t: Ref, s: Ref, d: nat, k: string)
    requires Adoptable(before, t, s, d) && OnlyChanged(before, mid, Whole(before, t, d)) && t in mid
    requires Untouched(before, mid, t, d, k) && k in before[t].slots && k in before[s].slots
    requires var was, new_ := TreeOf(before, before[t].slots[k], d), TreeOf(before, before[s].slots[k], d);
             !Merges(before[t].kind, was, new_) && ShapeOf(was) == ShapeOf(new_)
    ensures ChangedName(before, mid, mid, t, d, k) && Settled(before, mid, t, s, d, k)
  {
    SameTree(before, mid, before[t].slots[k], d);
  }

  /** The object `a` now equals what `b` was. */
  ghost predicate Merged(mid: Objects, after: Objects, a: Ref, b: Ref, d: nat)
  {
    && Rooted(mid, a, d) && Rooted(mid, b, d) && Rooted(after, a, d) && mid[a].kind == mid[b].kind
    && OnlyChanged(mid, after, Whole(mid, a, d))
    && Top(after, a, d) == Adopt(Top(mid, a, d), Top(mid, b, d))
    && Below(after, after[a].slots, d) <= Below(mid, mid[a].slots, d) + Below(mid, mid[b].slots, d)
    && Separate(after, a, d)
  }

  /** The same said of the values that point at them. */
  lemma MergedValue(mid: Objects, after: Objects, v: Val, w: Val, d: nat)
    requires d > 0 && v.Link? && w.Link? && Merged(mid, after, v.ref, w.ref, d - 1)
    ensures Deep(mid, v, d) && Deep(mid, w, d) && Deep(after, v, d) && Alike(TreeOf(mid, v, d), TreeOf(mid, w, d))
    ensures OnlyChanged(mid, after, Reach(mid, v, d))
    ensures TreeOf(after, v, d) == Adopt(TreeOf(mid, v, d), TreeOf(mid, w, d))
    ensures Reach(after, v, d) <= Reach(mid, w, d) + Reach(mid, v, d) && Unshared(after, v, d)
  {
    assert Top(mid, v.ref, d - 1) == TreeOf(mid, v, d) && Top(mid, w.ref, d - 1) == TreeOf(mid, w, d);
    assert Top(after, v.ref, d - 1) == TreeOf(after, v, d);
  }

  /** The slot keeps its object, which was adopted into. */
  lemma MergedName(before: Objects, mid: Objects, after: Objects, t: Ref, s: Ref, d: nat, k: string, v: Val, w: Val)
    requires Adoptable(before, t, s, d) && OnlyChanged(before, mid, Whole(before, t, d)) && t in mid
    requires Untouched(before, mid, t, d, k)
    requires k in before[t].slots && k in before[s].slots && before[t].slots[k] == v && before[s].slots[k] == w
    requires SameAs(before, mid, v, d) && SameAs(before, mid, w, d)
    requires Merges(before[t].kind, TreeOf(before, v, d), TreeOf(before, w, d))
    requires d > 0 && v.Link? && w.Link? && Merged(mid, after, v.ref, w.ref, d - 1)
    ensures ChangedName(before, mid, after, t, d, k) && Settled(before, after, t, s, d, k)
  {
    Disjoint(before, t, s, d, k, k + "x");
    MergedValue(mid, after, v, w, d);
    assert Under(before, t, d, k) == Reach(mid, v, d);
    assert after[t] == mid[t];
  }

  /** What is reported below one name. */
  lemma NamePaths(t: Tree, s: Tree, k: string)
    requires Alike(t, s)
    ensures (k in t.children) != (k in s.children) ==> forall p :: ReportedUnder(t, s, k, p) <==> p == [k]
    ensures k in t.children && k in s.children && !Merges(t.kind, t.children[k], s.children[k]) ==>
              forall p :: ReportedUnder(t, s, k, p) <==> p == [k] && ShapeOf(t.children[k]) != ShapeOf(s.children[k])
    ensures k in t.children && k in s.children && Merges(t.kind, t.children[k], s.children[k]) ==>
              forall p :: ReportedUnder(t, s, k, p) <==>
                            p != [] && p[0] == k && Reported(t.children[k], s.children[k], p[1..])
  {
  }

  /** The paths found so far, with those that begin with one more name. */
  lemma MorePaths(t: Tree, s: Tree, left: set<string>, k: string, changed: set<Path>, more: set<Path>)
    requires Alike(t, s) && k in left && forall p :: p in more <==> ReportedUnder(t, s, k, p)
    requires forall p :: p in changed <==> Reported(t, s, p) && p[0] !in left
    ensures forall p :: p in changed + more <==> Reported(t, s, p) && p[0] !in left - {k}
  {
  }

  lemma PrefixedPaths(t: Tree, s: Tree, k: string, more: set<Path>, changed: set<Path>)
    requires Alike(t, s) && k in t.children && k in s.children && Merges(t.kind, t.children[k], s.children[k])
    requires forall p :: p in more <==> Reported(t.children[k], s.children[k], p)
    requires changed == set p | p in more :: [k] + p
    ensures forall p :: p in changed <==> ReportedUnder(t, s, k, p)
  {
    NamePaths(t, s, k);
    forall p
      ensures p in changed <==> ReportedUnder(t, s, k, p)
    {
      if p in changed {
        var q :| q in more && p == [k] + q;
        assert p[1..] == q;
      } else if p != [] && p[0] == k {
        assert p == [k] + p[1..];
      }
    }
  }

  // ------------------------------------------------------------------------- making objects

  /** At most `depth` objects deep. */
  ghost predicate Shallow(v: Shape, depth: nat)
    decreases depth
  {
    v.Object? ==> depth > 0 && forall k | k in v.members :: Shallow(v.members[k], depth - 1)
  }

  ghost predicate Extends(before: Objects, after: Objects)
  {
    forall r | r in before :: r in after && after[r] == before[r]
  }

  /** The value stands for the shape, in objects that are not older than `since`. */
  ghost predicate Stands(objects: Objects, v: Val, depth: nat, shape: Shape, since: Ref)
  {
    && Deep(objects, v, depth) && ShapeOf(TreeOf(objects, v, depth)) == shape && Unshared(objects, v, depth)
    && forall r | r in Reach(objects, v, depth) :: since <= r
  }

  lemma StandsLonger(before: Objects, after: Objects, v: Val, depth: nat, shape: Shape, since: Ref)
    requires Stands(before, v, depth, shape, since) && Extends(before, after)
    ensures Stands(after, v, depth, shape, since)
  {
    ReachExists(before, v, depth);
    SameTree(before, after, v, depth);
  }

  lemma StandsTop(objects: Objects, r: Ref, depth: nat, shape: Shape, since: Ref)
    requires depth > 0 && shape.Object? && r in objects && since <= r && objects[r].kind == shape.kind
    requires objects[r].slots.Keys == shape.members.Keys
    requires forall k | k in shape.members :: Stands(objects, objects[r].slots[k], depth - 1, shape.members[k], since)
    requires Separate(objects, r, depth - 1)
    ensures Stands(objects, Link(r), depth, shape, since)
  {
    var slots, d := objects[r].slots, depth - 1;
    assert forall k :: k in slots <==> k in slots.Keys;
    assert forall k | k in slots :: k in shape.members && Stands(objects, slots[k], d, shape.members[k], since);
    assert AllDeep(objects, slots, d);
    var branches := Branches(objects, slots, d);
    assert TreeOf(objects, Link(r), depth) == Node(r, shape.kind, branches);
    assert ShapeOf(Node(r, shape.kind, branches)).members == shape.members;
    assert forall q | q in Below(objects, slots, d) :: since <= q;
  }

  /** One more value, in objects that are newer than all others. */
  lemma ApartMore(before: Objects, after: Objects, slots: Slots, d: nat, k: string, w: Val, shape: Shape, since: Ref)
    requires AllDeep(before, slots, d) && Apart(before, slots, d) && (forall r | r in before :: r < since)
    requires Extends(before, after) && k !in slots && Stands(after, w, d, shape, since)
    ensures AllDeep(after, slots[k := w], d) && Apart(after, slots[k := w], d)
  {
    forall l | l in slots
      ensures SameAs(before, after, slots[l], d) && Reach(before, slots[l], d) <= before.Keys
    {
      ReachExists(before, slots[l], d);
      SameTree(before, after, slots[l], d);
    }
    AddedApart(after, slots, d, k, w, before.Keys);
  }

  lemma AddedApart(objects: Objects, slots: Slots, d: nat, k: string, w: Val, known: set<Ref>)
    requires AllDeep(objects, slots, d) && Apart(objects, slots, d) && k !in slots
    requires Deep(objects, w, d) && Unshared(objects, w, d) && Reach(objects, w, d) !! known
    requires forall l | l in slots :: Reach(objects, slots[l], d) <= known
    ensures AllDeep(objects, slots[k := w], d) && Apart(objects, slots[k := w], d)
  {
  }

  /** A new object on top of values that were there. */
  lemma TopSeparate(before: Objects, after: Objects, slots: Slots, d: nat, r: Ref)
    requires AllDeep(before, slots, d) && Apart(before, slots, d) && r !in before
    requires Extends(before, after) && r in after && after[r].slots == slots
    ensures Separate(after, r, d)
  {
    forall l | l in slots
      ensures SameAs(before, after, slots[l], d) && Reach(before, slots[l], d) <= before.Keys
    {
      ReachExists(before, slots[l], d);
      SameTree(before, after, slots[l], d);
    }
    SameBranches(before, after, slots, d);
  }

  /** New objects are separate from old ones. */
  lemma NewApart(before: Objects, after: Objects, config: Ref, v: Val, d: nat, shape: Shape, since: Ref)
    requires Extends(before, after) && (forall r | r in before :: r < since)
    requires Separate(before, config, d)
    requires v.Link? && shape.Object? && shape.kind == before[config].kind && Stands(after, v, d + 1, shape, since)
    ensures Adoptable(after, config, v.ref, d) && ShapeOf(Top(after, v.ref, d)) == shape
    ensures Whole(after, config, d) == Whole(before, config, d) && Top(after, config, d) == Top(before, config, d)
    ensures forall r | r in Whole(after, v.ref, d) :: r >= since
  {
    var whole := Link(config);
    assert Reach(before, whole, d + 1) == Whole(before, config, d) && Unshared(before, whole, d + 1);
    ReachExists(before, whole, d + 1);
    SameTree(before, after, whole, d + 1);
    assert Reach(after, whole, d + 1) == Whole(after, config, d) && Unshared(after, whole, d + 1);
    assert TreeOf(after, whole, d + 1) == Top(after, config, d);
    assert TreeOf(before, whole, d + 1) == Top(before, config, d);
    assert TreeOf(after, v, d + 1) == Top(after, v.ref, d) && Reach(after, v, d + 1) == Whole(after, v.ref, d);
  }

  lemma SomeReported(t: Tree, s: Tree, changed: set<Path>)
    requires Alike(t, s) && forall p :: p in changed <==> Reported(t, s, p)
    ensures changed == {} <==> Quiet(t, s)
  {
    if changed != {} {
      var p :| p in changed;
      assert Reported(t, s, p);
    }
  }

  // ------------------------------------------------------------------ depth is no restriction

  lemma {:induction false} ShallowMore(v: Shape, n: nat, m: nat)
    requires Shallow(v, n) && n <= m
    ensures Shallow(v, m)
    decreases n
  {
    if v.Object? {
      forall k | k in v.members ensures Shallow(v.members[k], m - 1) { ShallowMore(v.members[k], n - 1, m - 1); }
    }
  }

  /** Every value is as deep as some number. */
  lemma {:induction false} SomeDepth(v: Shape) returns (n: nat)
    ensures Shallow(v, n)
    decreases v
  {
    n := 1;
    if v.Object? {
      var left := v.members.Keys;
      while left != {}
        invariant left <= v.members.Keys && n >= 1
        invariant forall k | k in v.members && k !in left :: Shallow(v.members[k], n - 1)
      {
        var k :| k in left;
        var m := SomeDepth(v.members[k]);
        var more := if m + 1 > n then m + 1 else n;
        forall l | l in v.members && l !in left - {k}
          ensures Shallow(v.members[l], more - 1)
        {
          ShallowMore(v.members[l], if l == k then m else n - 1, more - 1);
        }
        left, n := left - {k}, more;
      }
    }
  }

  ghost predicate SameDeeper(objects: Objects, v: Val, n: nat, m: nat)
    requires Deep(objects, v, n)
  {
    && Deep(objects, v, m) && TreeOf(objects, v, m) == TreeOf(objects, v, n)
    && Reach(objects, v, m) == Reach(objects, v, n) && Unshared(objects, v, m) == Unshared(objects, v, n)
  }

  lemma {:induction false} Deeper(objects: Objects, v: Val, n: nat, m: nat)
    requires Deep(objects, v, n) && n <= m
    ensures SameDeeper(objects, v, n, m)
    decreases n
  {
    if v.Link? {
      var slots := objects[v.ref].slots;
      forall k | k in slots ensures SameDeeper(objects, slots[k], n - 1, m - 1) {
        Deeper(objects, slots[k], n - 1, m - 1);
      }
      DeeperBranches(objects, slots, n - 1, m - 1);
    }
  }

  lemma DeeperBranches(objects: Objects, slots: Slots, n: nat, m: nat)
    requires AllDeep(objects, slots, n) && forall k | k in slots :: SameDeeper(objects, slots[k], n, m)
    ensures AllDeep(objects, slots, m) && Branches(objects, slots, m) == Branches(objects, slots, n)
    ensures Below(objects, slots, m) == Below(objects, slots, n)
    ensures Apart(objects, slots, m) == Apart(objects, slots, n)
  {
  }

  /** No configuration that the requests lead to is deeper than this. */
  ghost predicate Holds(classes: Classes, c: string, config: Shape, requests: seq<seq<Change>>, coerce: Coercion,
                        valid: Shape -> bool, d: nat)
    requires AllDeclared(classes) && c in classes
  {
    forall i | 0 <= i <= |requests| :: Shallow(WantedAfter(classes, c, config, requests[..i], coerce, valid), d + 1)
  }

  lemma HoldsMore(classes: Classes, c: string, config: Shape, requests: seq<seq<Change>>, coerce: Coercion,
                  valid: Shape -> bool, last: Shape, n: nat, d: nat)
    requires AllDeclared(classes) && c in classes && n <= d
    requires requests != [] ==> Holds(classes, c, config, requests[..|requests| - 1], coerce, valid, n)
    requires last == WantedAfter(classes, c, config, requests, coerce, valid) && Shallow(last, d + 1)
    ensures Holds(classes, c, config, requests, coerce, valid, d)
  {
    forall i | 0 <= i <= |requests|
      ensures Shallow(WantedAfter(classes, c, config, requests[..i], coerce, valid), d + 1)
    {
      if i == |requests| {
        assert requests[..i] == requests;
      } else {
        assert requests[..|requests| - 1][..i] == requests[..i];
        ShallowMore(WantedAfter(classes, c, config, requests[..i], coerce, valid), n + 1, d + 1);
      }
    }
  }

  lemma {:induction false} HoldsAtSome(classes: Classes, c: string, config: Shape, requests: seq<seq<Change>>,
                                       coerce: Coercion, valid: Shape -> bool, least: nat) returns (d: nat)
    requires AllDeclared(classes) && c in classes
    ensures d >= least && Holds(classes, c, config, requests, coerce, valid, d)
    decreases |requests|
  {
    var n := least;
    if requests != [] {
      n := HoldsAtSome(classes, c, config, requests[..|requests| - 1], coerce, valid, least);
    }
    var last := WantedAfter(classes, c, config, requests, coerce, valid);
    var m := SomeDepth(last);
    d := if m > n then m else n;
    ShallowMore(last, m, d + 1);
    HoldsMore(classes, c, config, requests, coerce, valid, last, n, d);
  }

  /** Any list of applies fits some depth at which the configuration is the same tree. */
  lemma SomeDepthServes(objects: Objects, classes: Classes, c: string, config: Ref, requests: seq<seq<Change>>,
                        coerce: Coercion, valid: Shape -> bool, d: nat) returns (e: nat)
    requires AllDeclared(classes) && c in classes && Separate(objects, config, d)
    ensures Separate(objects, config, e) && Top(objects, config, e) == Top(objects, config, d)
    ensures Whole(objects, config, e) == Whole(objects, config, d)
    ensures Holds(classes, c, ShapeOf(Top(objects, config, d)), requests, coerce, valid, e)
  {
    e := HoldsAtSome(classes, c, ShapeOf(Top(objects, config, d)), requests, coerce, valid, d);
    var slots := objects[config].slots;
    forall k | k in slots ensures SameDeeper(objects, slots[k], d, e) { Deeper(objects, slots[k], d, e); }
    DeeperBranches(objects, slots, d, e);
  }

  /** What adopting a new object into the configuration leaves. */
  lemma AdoptedNew(before: Objects, mid: Objects, after: Objects, config: Ref, v: Ref, d: nat, since: Ref)
    requires Separate(before, config, d) && Extends(before, mid) && Rooted(mid, config, d) && Rooted(mid, v, d)
    requires Whole(mid, config, d) == Whole(before, config, d) && forall r | r in Whole(mid, v, d) :: r >= since
    requires OnlyChanged(mid, after, Whole(mid, config, d)) && Separate(after, config, d)
    requires Below(after, after[config].slots, d) <= Below(mid, mid[config].slots, d) + Below(mid, mid[v].slots, d)
    ensures Spares(before, after, config, d)
    ensures forall r | r in Whole(after, config, d) :: r in Whole(before, config, d) || r >= since
  {
  }

  /** Nothing outside the tree of the object changed. */
  ghost predicate Spares(before: Objects, after: Objects, config: Ref, d: nat)
    requires Rooted(before, config, d)
  {
    forall r | r in before && r !in Whole(before, config, d) :: r in after && after[r] == before[r]
  }

  /** The configuration equals the shape, and the reported paths say whether that is news. */
  lemma AdoptedShape(mine: Tree, theirs: Tree, adopted: Tree, shape: Shape, changed: set<Path>)
    requires Alike(mine, theirs) && adopted == Adopt(mine, theirs) && ShapeOf(theirs) == shape
    requires forall p :: p in changed <==> Reported(mine, theirs, p)
    ensures ShapeOf(adopted) == shape && (changed == {} <==> shape == ShapeOf(mine))
  {
    AdoptedEqualsSource(mine, theirs);
    NothingReportedIff(mine, theirs);
    SomeReported(mine, theirs, changed);
  }

  class Memory {
    var objects: Objects
    /** Every object that is made gets the next number. */
    var next: Ref

    ghost predicate Valid()
      reads this
    {
      forall r | r in objects :: r < next
    }

    constructor ()
      ensures objects == map[] && Valid()
    {
      objects, next := map[], 0;
    }

    /** Makes new objects for a value. */
    method Place(shape: Shape, ghost depth: nat) returns (v: Val)
      requires Valid() && Shallow(shape, depth)
      modifies this
      ensures Valid() && next >= old(next) && Extends(old(objects), objects)
      ensures Stands(objects, v, depth, shape, old(next)) && (v.Scalar? <==> shape.Plain?)
      decreases depth
    {
      if shape.Plain? {
        return Scalar(shape.text);
      }
      var slots: Slots := map[];
      var left := shape.members.Keys;
      while left != {}
        invariant left <= shape.members.Keys && slots.Keys == shape.members.Keys - left
        invariant Valid() && next >= old(next) && Extends(old(objects), objects)
        invariant forall k | k in slots :: Stands(objects, slots[k], depth - 1, shape.members[k], old(next))
        invariant AllDeep(objects, slots, depth - 1) && Apart(objects, slots, depth - 1)
      {
        var k :| k in left;
        ghost var before, since := objects, next;
        var w := Place(shape.members[k], depth - 1);
        forall l | l in slots ensures Stands(objects, slots[l], depth - 1, shape.members[l], old(next)) {
          StandsLonger(before, objects, slots[l], depth - 1, shape.members[l], old(next));
        }
        ApartMore(before, objects, slots, depth - 1, k, w, shape.members[k], since);
        slots, left := slots[k := w], left - {k};
      }
      ghost var before := objects;
      v, objects, next := Link(next), objects[next := Obj(shape.kind, slots)], next + 1;
      forall k | k in slots ensures Stands(objects, slots[k], depth - 1, shape.members[k], old(next)) {
        StandsLonger(before, objects, slots[k], depth - 1, shape.members[k], old(next));
      }
      TopSeparate(before, objects, slots, depth - 1, v.ref);
      StandsTop(objects, v.ref, depth, shape, old(next));
    }

    /** `SettingsService.apply` on the objects: rejected changes leave every object as it was; accepted ones
        make the configuration, still the same object, equal to what is wanted and change no object outside
        it. */
    method Apply(classes: Classes, c: string, config: Ref, changes: seq<Change>, coerce: Coercion,
                 valid: Shape -> bool, d: nat)
      returns (applied: bool, changed: set<Path>)
      requires Valid() && AllDeclared(classes) && c in classes
      requires Separate(objects, config, d) && objects[config].kind == Record(c)
      requires var wanted := Wanted(classes, c, ShapeOf(Top(objects, config, d)), changes, coerce, valid);
               wanted.Some? ==> Shallow(wanted.value, d + 1)
      modifies this
      ensures Valid() && Separate(objects, config, d) && objects[config].kind == Record(c) && next >= old(next)
      ensures forall r | r in Whole(objects, config, d) :: r in Whole(old(objects), config, d) || r >= old(next)
      ensures var wanted := Wanted(classes, c, ShapeOf(Top(old(objects), config, d)), changes, coerce, valid);
              && (applied <==> wanted.Some?)
              && (!applied ==> objects == old(objects) && changed == {})
              && (applied ==>
                    && ShapeOf(Top(objects, config, d)) == wanted.value
                    && (changed == {} <==> wanted.value == ShapeOf(Top(old(objects), config, d))))
      ensures Spares(old(objects), objects, config, d)
    {
      ghost var before := objects;
      var mine := TreeOf(objects, Link(config), d + 1);
      assert mine == Top(objects, config, d);
      var wanted := Wanted(classes, c, ShapeOf(mine), changes, coerce, valid);
      if wanted.None? {
        return false, {};
      }
      changed := TakeOver(config, wanted.value, d);
      applied := true;
    }

    /** Any number of applies, one after the other: it is the same configuration object, equal to what they lead
        to, still separate, and nothing outside it changed. */
    method ApplyAll(classes: Classes, c: string, config: Ref, requests: seq<seq<Change>>, coerce: Coercion,
                    valid: Shape -> bool, d: nat)
      requires Valid() && AllDeclared(classes) && c in classes
      requires Separate(objects, config, d) && objects[config].kind == Record(c)
      requires Holds(classes, c, ShapeOf(Top(objects, config, d)), requests, coerce, valid, d)
      modifies this
      ensures Valid() && Separate(objects, config, d)
      ensures ShapeOf(Top(objects, config, d))
           == WantedAfter(classes, c, ShapeOf(Top(old(objects), config, d)), requests, coerce, valid)
      ensures Spares(old(objects), objects, config, d)
    {
      ghost var before, first := objects, ShapeOf(Top(objects, config, d));
      for i := 0 to |requests|
        invariant Valid() && next >= old(next) && Separate(objects, config, d) && objects[config].kind == Record(c)
        invariant forall r | r in Whole(objects, config, d) :: r in Whole(before, config, d) || r >= old(next)
        invariant ShapeOf(Top(objects, config, d)) == WantedAfter(classes, c, first, requests[..i], coerce, valid)
        invariant Spares(before, objects, config, d)
      {
        assert requests[..i + 1][..i] == requests[..i];
        assert Shallow(WantedAfter(classes, c, first, requests[..i + 1], coerce, valid), d + 1);
        var applied, changed := Apply(classes, c, config, requests[i], coerce, valid, d);
      }
      assert requests[..|requests|] == requests;
    }

    /** Makes the configuration equal to a shape of its kind: a copy is made for the shape and adopted. */
    method TakeOver(config: Ref, shape: Shape, d: nat) returns (changed: set<Path>)
      requires Valid() && Separate(objects, config, d) && Shallow(shape, d + 1)
      requires shape.Object? && shape.kind == objects[config].kind
      modifies this
      ensures Valid() && next >= old(next) && Separate(objects, config, d)
      ensures objects[config].kind == old(objects)[config].kind
      ensures forall r | r in Whole(objects, config, d) :: r in Whole(old(objects), config, d) || r >= old(next)
      ensures ShapeOf(Top(objects, config, d)) == shape
      ensures changed == {} <==> shape == ShapeOf(Top(old(objects), config, d))
      ensures Spares(old(objects), objects, config, d)
    {
      ghost var before := objects;
      var v := Place(shape, d + 1);
      NewApart(before, objects, config, v, d, shape, old(next));
      ghost var mid := objects;
      changed := AdoptInto(config, v.ref, d);
      AdoptedNew(before, mid, objects, config, v.ref, d, old(next));
      AdoptedShape(Top(mid, config, d), Top(mid, v.ref, d), Top(objects, config, d), shape, changed);
    }

    /** Makes the target equal to the source in place, one name after the other, and returns the paths that
        changed. Nothing outside the target changes, and the target keeps every object that has a counterpart
        of its kind. */
    method AdoptInto(t: Ref, s: Ref, d: nat) returns (changed: set<Path>)
      requires Adoptable(objects, t, s, d)
      modifies `objects
      ensures OnlyChanged(old(objects), objects, Whole(old(objects), t, d))
      ensures Separate(objects, t, d) && Top(objects, t, d) == Adopt(Top(old(objects), t, d), Top(old(objects), s, d))
      ensures Below(objects, objects[t].slots, d)
           <= Below(old(objects), old(objects)[t].slots, d) + Below(old(objects), old(objects)[s].slots, d)
      ensures forall p :: p in changed <==> Reported(Top(old(objects), t, d), Top(old(objects), s, d), p)
      decreases d, 2
    {
      ghost var before := objects;
      forall k ensures Untouched(before, before, t, d, k) { AtFirst(before, t, d, k); }
      changed := {};
      var left := objects[t].slots.Keys + objects[s].slots.Keys;
      while left != {}
        invariant OnlyChanged(before, objects, Whole(before, t, d)) && objects[t].kind == before[t].kind
        invariant forall k | k !in left :: Settled(before, objects, t, s, d, k)
        invariant forall k | k in left :: Untouched(before, objects, t, d, k)
        invariant forall p :: p in changed <==> Reported(Top(before, t, d), Top(before, s, d), p) && p[0] !in left
      {
        var k :| k in left;
        ghost var mid := objects;
        var more := AdoptName(t, s, d, k, before);
        OneNameDone(before, mid, objects, t, s, d, k, left);
        MorePaths(Top(before, t, d), Top(before, s, d), left, k, changed, more);
        changed := changed + more;
        left := left - {k};
      }
      AllSettled(before, objects, t, s, d);
    }

    method AdoptName(t: Ref, s: Ref, d: nat, k: string, ghost before: Objects) returns (changed: set<Path>)
      requires Adoptable(before, t, s, d) && (k in before[t].slots || k in before[s].slots)
      requires OnlyChanged(before, objects, Whole(before, t, d)) && objects[t].kind == before[t].kind
      requires Untouched(before, objects, t, d, k)
      modifies `objects
      ensures ChangedName(before, old(objects), objects, t, d, k)
      ensures Settled(before, objects, t, s, d, k)
      ensures forall p :: p in changed <==> ReportedUnder(Top(before, t, d), Top(before, s, d), k, p)
      decreases d, 1
    {
      ghost var mid := objects;
      NamePaths(Top(before, t, d), Top(before, s, d), k);
      var was, new_ := objects[t].slots, objects[s].slots;
      if k !in new_ {
        objects := objects[t := Obj(objects[t].kind, was - {k})];
        return {[k]};
      }
      NameAdoptable(before, mid, t, s, d, k);
      if k !in was {
        objects := objects[t := Obj(objects[t].kind, was[k := new_[k]])];
        PlacedName(before, mid, objects, t, s, d, k);
        return {[k]};
      }
      var mine, incoming := TreeOf(objects, was[k], d), TreeOf(objects, new_[k], d);
      if Merges(objects[t].kind, mine, incoming) {
        changed := MergeName(t, s, d, k, was[k], new_[k], before);
      } else if ShapeOf(mine) != ShapeOf(incoming) {
        objects := objects[t := Obj(objects[t].kind, was[k := new_[k]])];
        PlacedName(before, mid, objects, t, s, d, k);
        changed := {[k]};
      } else {
        EqualName(before, mid, t, s, d, k);
        changed := {};
      }
    }

    method MergeName(t: Ref, s: Ref, d: nat, k: string, v: Val, w: Val, ghost before: Objects)
      returns (changed: set<Path>)
      requires Adoptable(before, t, s, d) && OnlyChanged(before, objects, Whole(before, t, d)) && t in objects
      requires Untouched(before, objects, t, d, k)
      requires k in before[t].slots && k in before[s].slots && before[t].slots[k] == v && before[s].slots[k] == w
      requires SameAs(before, objects, v, d) && SameAs(before, objects, w, d)
      requires d > 0 && v.Link? && w.Link? && Adoptable(objects, v.ref, w.ref, d - 1)
      requires Merges(before[t].kind, TreeOf(before, v, d), TreeOf(before, w, d))
      modifies `objects
      ensures ChangedName(before, old(objects), objects, t, d, k)
      ensures Settled(before, objects, t, s, d, k)
      ensures forall p :: p in changed <==> ReportedUnder(Top(before, t, d), Top(before, s, d), k, p)
      decreases d, 0
    {
      ghost var mid := objects;
      var more := AdoptInto(v.ref, w.ref, d - 1);
      MergedName(before, mid, objects, t, s, d, k, v, w);
      changed := set p | p in more :: [k] + p;
      assert TreeOf(before, v, d) == Top(mid, v.ref, d - 1) && TreeOf(before, w, d) == Top(mid, w.ref, d - 1);
      PrefixedPaths(Top(before, t, d), Top(before, s, d), k, more, changed);
    }
  }
}
