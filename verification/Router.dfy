/** The order in which models are tried when some of them fail (models/router.py). */
module Router {
  type Provider = string

  datatype Choice = Choice(provider: Provider, model: string, score: real)

  /** The choices of one provider, in order. */
  function Of(choices: seq<Choice>, p: Provider): seq<Choice>
  {
    if choices == [] then []
    else
      var last := choices[|choices| - 1];
      Of(choices[..|choices| - 1], p) + if last.provider == p then [last] else []
  }

  /** The providers, by their first appearance. */
  function Names(choices: seq<Choice>): seq<Provider>
  {
    if choices == [] then []
    else
      var names, p := Names(choices[..|choices| - 1]), choices[|choices| - 1].provider;
      if p in names then names else names + [p]
  }

  type Groups = map<Provider, seq<Choice>>

  ghost predicate Distinct(names: seq<Provider>) { forall i, j | 0 <= i < j < |names| :: names[i] != names[j] }

  /** Every name has a group of choices of that provider, and at least one. */
  ghost predicate Grouped(names: seq<Provider>, groups: Groups)
  {
    && Distinct(names)
    && forall p | p in names :: p in groups && groups[p] != [] && forall c | c in groups[p] :: c.provider == p
  }

  /** What provider `p` owns. */
  function Own(names: seq<Provider>, groups: Groups, p: Provider): seq<Choice>
  {
    if p in names && p in groups then groups[p] else []
  }

  function Nth(own: seq<Choice>, k: nat): seq<Choice> { if k < |own| then [own[k]] else [] }

  /** The `k`-th choice of every provider that has one. */
  function Round(names: seq<Provider>, groups: Groups, k: nat): seq<Choice>
    requires forall p | p in names :: p in groups
  {
    if names == [] then [] else Round(names[..|names| - 1], groups, k) + Nth(groups[names[|names| - 1]], k)
  }

  function Rounds(names: seq<Provider>, groups: Groups, n: nat): seq<Choice>
    requires forall p | p in names :: p in groups
  {
    if n == 0 then [] else Rounds(names, groups, n - 1) + Round(names, groups, n - 1)
  }

  function GroupsOf(choices: seq<Choice>): Groups
  {
    map p | p in Names(choices) :: Of(choices, p)
  }

  /** Best of each provider, then second best of each, and so on. */
  function Spread(choices: seq<Choice>): seq<Choice> { Rounds(Names(choices), GroupsOf(choices), |choices|) }

  // --------------------------------------------------------------------- lists and providers

  lemma {:induction false} OfConcat(a: seq<Choice>, b: seq<Choice>, p: Provider)
    ensures Of(a + b, p) == Of(a, p) + Of(b, p)
  {
    if b == [] {
      assert a + b == a;
    } else {
      OfConcat(a, b[..|b| - 1], p);
      assert (a + b)[..|a + b| - 1] == a + b[..|b| - 1];
    }
  }

  lemma {:induction false} OfShort(choices: seq<Choice>, p: Provider)
    ensures |Of(choices, p)| <= |choices|
    ensures forall c | c in Of(choices, p) :: c.provider == p
  {
    if choices != [] {
      OfShort(choices[..|choices| - 1], p);
    }
  }

  lemma {:induction false} NamesDistinct(choices: seq<Choice>)
    ensures Distinct(Names(choices))
  {
    if choices != [] {
      NamesDistinct(choices[..|choices| - 1]);
    }
  }

  lemma {:induction false} Named(choices: seq<Choice>, p: Provider)
    ensures p in Names(choices) <==> Of(choices, p) != []
  {
    if choices != [] {
      Named(choices[..|choices| - 1], p);
    }
  }

  lemma IsGrouped(choices: seq<Choice>)
    ensures Grouped(Names(choices), GroupsOf(choices))
    ensures forall p :: Own(Names(choices), GroupsOf(choices), p) == Of(choices, p)
    ensures forall p :: |Of(choices, p)| <= |choices|
  {
    NamesDistinct(choices);
    forall p
      ensures p in Names(choices) <==> Of(choices, p) != []
      ensures |Of(choices, p)| <= |choices| && forall c | c in Of(choices, p) :: c.provider == p
    {
      Named(choices, p);
      OfShort(choices, p);
    }
  }

  // ----------------------------------------------------------------------------- one round

  /** What one provider gets of a round: its own `k`-th choice, once. */
  lemma {:induction false} OfRound(names: seq<Provider>, groups: Groups, k: nat, p: Provider, own: seq<Choice>,
                                   round: seq<Choice>)
    requires Grouped(names, groups) && own == Own(names, groups, p) && round == Round(names, groups, k)
    ensures Of(round, p) == Nth(own, k)
    decreases |names|
  {
    if names != [] {
      var rest, q := names[..|names| - 1], names[|names| - 1];
      var before, last := Round(rest, groups, k), Nth(groups[q], k);
      assert q !in rest;
      OfRound(rest, groups, k, p, Own(rest, groups, p), before);
      OfNth(groups[q], k, q, p);
      OfConcat(before, last, p);
    }
  }

  lemma OfNth(own: seq<Choice>, k: nat, q: Provider, p: Provider)
    requires forall c | c in own :: c.provider == q
    ensures Of(Nth(own, k), p) == if p == q then Nth(own, k) else []
  {
    if k < |own| {
      assert own[k] in own && [own[k]][..0] == [];
    }
  }

  predicate NamedBefore(names: seq<Provider>, p: Provider, q: Provider)
  {
    exists i, j | 0 <= i < j < |names| :: names[i] == p && names[j] == q
  }

  lemma {:induction false} RoundOrder(names: seq<Provider>, groups: Groups, k: nat)
    requires Grouped(names, groups)
    ensures |Round(names, groups, k)| <= |names|
    ensures forall c | c in Round(names, groups, k) :: c.provider in names
    ensures forall i, j | 0 <= i < j < |Round(names, groups, k)| ::
              NamedBefore(names, Round(names, groups, k)[i].provider, Round(names, groups, k)[j].provider)
  {
    if names != [] {
      var rest := names[..|names| - 1];
      RoundOrder(rest, groups, k);
      LongerOrder(rest, names[|names| - 1], Round(rest, groups, k), Nth(groups[names[|names| - 1]], k));
      assert names == rest + [names[|names| - 1]];
    }
  }

  lemma LongerOrder(rest: seq<Provider>, p: Provider, before: seq<Choice>, last: seq<Choice>)
    requires |last| <= 1 && forall c | c in last :: c.provider == p
    requires forall c | c in before :: c.provider in rest
    requires forall i, j | 0 <= i < j < |before| :: NamedBefore(rest, before[i].provider, before[j].provider)
    ensures forall i, j | 0 <= i < j < |before + last| ::
              NamedBefore(rest + [p], (before + last)[i].provider, (before + last)[j].provider)
  {
    var names, round := rest + [p], before + last;
    forall i, j | 0 <= i < j < |round|
      ensures NamedBefore(names, round[i].provider, round[j].provider)
    {
      if j < |before| {
        var a, b :| 0 <= a < b < |rest| && rest[a] == before[i].provider && rest[b] == before[j].provider;
        assert names[a] == round[i].provider && names[b] == round[j].provider;
      } else {
        assert round[j] in last && before[i] in before;
        var a :| 0 <= a < |rest| && rest[a] == before[i].provider;
        assert names[a] == round[i].provider && names[|rest|] == round[j].provider;
      }
    }
  }

  /** A round has at most one choice of a provider. */
  lemma OncePerRound(names: seq<Provider>, groups: Groups, k: nat, at: nat)
    requires Grouped(names, groups) && at < |Round(names, groups, k)|
    ensures var round := Round(names, groups, k);
            Of(round[..at], round[at].provider) == [] && k < |Own(names, groups, round[at].provider)|
  {
    var round := Round(names, groups, k);
    var p := round[at].provider;
    OfRound(names, groups, k, p, Own(names, groups, p), round);
    SplitAt(round, at, p);
  }

  /** If a list holds at most one choice of the provider at `at`, none comes before it. */
  lemma SplitAt(round: seq<Choice>, at: nat, p: Provider)
    requires at < |round| && round[at].provider == p && |Of(round, p)| <= 1
    ensures Of(round[..at], p) == [] && |Of(round, p)| == 1
  {
    var head, tail := round[..at + 1], round[at + 1..];
    assert round == head + tail && head[..at] == round[..at];
    OfConcat(head, tail, p);
  }

  // ---------------------------------------------------------------------------- all rounds

  function Min(a: nat, b: nat): nat { if a < b then a else b }

  lemma {:induction false} OfRounds(names: seq<Provider>, groups: Groups, n: nat, p: Provider, own: seq<Choice>,
                                    all: seq<Choice>)
    requires Grouped(names, groups) && own == Own(names, groups, p) && all == Rounds(names, groups, n)
    ensures Of(all, p) == First(own, n)
  {
    if n > 0 {
      var before, round := Rounds(names, groups, n - 1), Round(names, groups, n - 1);
      OfRounds(names, groups, n - 1, p, own, before);
      OfRound(names, groups, n - 1, p, own, round);
      OneMoreRound(before, round, own, n - 1, p);
    }
  }

  function First(own: seq<Choice>, n: nat): seq<Choice> { own[..Min(n, |own|)] }

  lemma OneMoreRound(before: seq<Choice>, round: seq<Choice>, own: seq<Choice>, n: nat, p: Provider)
    requires Of(before, p) == First(own, n) && Of(round, p) == Nth(own, n)
    ensures Of(before + round, p) == First(own, n + 1)
  {
    OfConcat(before, round, p);
  }

  /** Every provider keeps exactly its own choices, in the order of the ranking. */
  lemma SpreadKeepsEachProvider(choices: seq<Choice>, p: Provider)
    ensures Of(Spread(choices), p) == Of(choices, p)
  {
    IsGrouped(choices);
    OfRounds(Names(choices), GroupsOf(choices), |choices|, p, Of(choices, p), Spread(choices));
  }

  lemma {:induction false} CountOf(choices: seq<Choice>, c: Choice)
    ensures multiset(choices)[c] == multiset(Of(choices, c.provider))[c]
  {
    if choices != [] {
      var rest, last := choices[..|choices| - 1], choices[|choices| - 1];
      CountOf(rest, c);
      assert choices == rest + [last];
    }
  }

  /** Nothing is lost and nothing is tried twice. */
  lemma SpreadIsAPermutation(choices: seq<Choice>)
    ensures multiset(Spread(choices)) == multiset(choices)
  {
    forall c
      ensures multiset(Spread(choices))[c] == multiset(choices)[c]
    {
      CountOf(Spread(choices), c);
      CountOf(choices, c);
      SpreadKeepsEachProvider(choices, c.provider);
    }
  }

  /** How many choices of its own provider come before the one at `i`. */
  function RankAt(order: seq<Choice>, i: nat): nat
    requires i < |order|
  {
    |Of(order[..i], order[i].provider)|
  }

  /** The lexicographic order of rounds, and of first appearance within a round. */
  predicate InOrder(order: seq<Choice>, names: seq<Provider>, i: nat, j: nat)
    requires i < j < |order|
  {
    || RankAt(order, i) < RankAt(order, j)
    || (RankAt(order, i) == RankAt(order, j) && NamedBefore(names, order[i].provider, order[j].provider))
  }

  /** The rank of the choice at `at` when `round` comes after `before`. */
  function RankBehind(before: seq<Choice>, round: seq<Choice>, at: nat): nat
    requires at < |round|
  {
    RankAt(before + round, |before| + at)
  }

  /** In round `n` every choice has exactly `n` of its provider before it. */
  lemma RankInRound(names: seq<Provider>, groups: Groups, n: nat, before: seq<Choice>, round: seq<Choice>, at: nat)
    requires Grouped(names, groups) && before == Rounds(names, groups, n) && round == Round(names, groups, n)
    requires at < |round|
    ensures RankBehind(before, round, at) == n
  {
    OncePerRound(names, groups, n, at);
    OfRounds(names, groups, n, round[at].provider, Own(names, groups, round[at].provider), before);
    RankAfter(before, round, at, n, Own(names, groups, round[at].provider));
  }

  lemma RankAfter(before: seq<Choice>, round: seq<Choice>, at: nat, n: nat, own: seq<Choice>)
    requires at < |round| && n < |own|
    requires Of(before, round[at].provider) == First(own, n) && Of(round[..at], round[at].provider) == []
    ensures RankBehind(before, round, at) == n
  {
    Beginning(before, round, at);
    OfConcat(before, round[..at], round[at].provider);
  }

  lemma Beginning(before: seq<Choice>, round: seq<Choice>, at: nat)
    requires at < |round|
    ensures (before + round)[..|before| + at] == before + round[..at] && (before + round)[|before| + at] == round[at]
  {
  }

  /** The ranks of `n` rounds are below `n`, and grow. */
  ghost predicate Ordered(order: seq<Choice>, names: seq<Provider>, n: nat)
  {
    && (forall i | 0 <= i < |order| :: RankAt(order, i) < n)
    && (forall i, j | 0 <= i < j < |order| :: InOrder(order, names, i, j))
  }

  lemma AppendOrder(before: seq<Choice>, round: seq<Choice>, names: seq<Provider>, n: nat)
    requires Ordered(before, names, n)
    requires forall at | 0 <= at < |round| :: RankBehind(before, round, at) == n
    requires forall i, j | 0 <= i < j < |round| :: NamedBefore(names, round[i].provider, round[j].provider)
    ensures Ordered(before + round, names, n + 1)
  {
    var all := before + round;
    forall i | 0 <= i < |all|
      ensures if i < |before| then RankAt(all, i) == RankAt(before, i) else RankAt(all, i) == n
    {
      if i < |before| {
        assert all[..i] == before[..i];
      } else {
        assert RankBehind(before, round, i - |before|) == n;
      }
    }
    forall i, j | 0 <= i < j < |all|
      ensures InOrder(all, names, i, j)
    {
      if j < |before| {
        assert InOrder(before, names, i, j);
      } else if |before| <= i {
        assert all[i] == round[i - |before|] && all[j] == round[j - |before|];
      }
    }
  }

  lemma {:induction false} RoundsInOrder(names: seq<Provider>, groups: Groups, n: nat)
    requires Grouped(names, groups)
    ensures Ordered(Rounds(names, groups, n), names, n)
  {
    if n > 0 {
      var before, round := Rounds(names, groups, n - 1), Round(names, groups, n - 1);
      RoundsInOrder(names, groups, n - 1);
      RoundOrder(names, groups, n - 1);
      forall at | 0 <= at < |round|
        ensures RankBehind(before, round, at) == n - 1
      {
        RankInRound(names, groups, n - 1, before, round, at);
      }
      AppendOrder(before, round, names, n - 1);
    }
  }

  /** The order of the spread: every provider's k-th choice before any (k+1)-th, and within a round by first
      appearance. */
  lemma SpreadOrder(choices: seq<Choice>, i: nat, j: nat)
    requires i < j < |Spread(choices)|
    ensures InOrder(Spread(choices), Names(choices), i, j)
  {
    IsGrouped(choices);
    RoundsInOrder(Names(choices), GroupsOf(choices), |choices|);
  }

  /** The next choice of a provider that has not had all of its own yet. */
  lemma {:induction false} NextOf(order: seq<Choice>, n: nat, q: Provider) returns (j: nat)
    requires n <= |order| && |Of(order[..n], q)| < |Of(order, q)|
    ensures n <= j < |order| && order[j].provider == q && RankAt(order, j) == |Of(order[..n], q)|
    decreases |order| - n
  {
    assert order[..|order|] == order;
    if order[n].provider == q {
      j := n;
    } else {
      assert order[..n + 1][..n] == order[..n];
      j := NextOf(order, n + 1, q);
    }
  }

  ghost predicate Follows(order: seq<Choice>, names: seq<Provider>)
  {
    forall i, j | 0 <= i < j < |order| :: InOrder(order, names, i, j)
  }

  ghost predicate SameOwn(a: seq<Choice>, b: seq<Choice>) { forall p :: Of(a, p) == Of(b, p) }

  /** Two lists that give each provider the same and both follow the order agree on their next provider. */
  lemma SameNext(a: seq<Choice>, b: seq<Choice>, names: seq<Provider>, n: nat)
    requires Distinct(names) && SameOwn(a, b) && Follows(a, names) && Follows(b, names)
    requires n < |a| && n < |b| && a[..n] == b[..n]
    ensures a[n].provider == b[n].provider
  {
    var p, q := a[n].provider, b[n].provider;
    HasMore(a, n);
    HasMore(b, n);
    NotBoth(names, p, q);
    if p != q {
      NextIsFirst(a, names, n, q);
      NextIsFirst(b, names, n, p);
    }
  }

  lemma NotBoth(names: seq<Provider>, p: Provider, q: Provider)
    requires Distinct(names)
    ensures !NamedBefore(names, p, q) || !NamedBefore(names, q, p)
  {
  }

  /** Whoever comes next goes before any other provider that still has choices to come. */
  lemma NextIsFirst(order: seq<Choice>, names: seq<Provider>, n: nat, q: Provider)
    requires Follows(order, names) && n < |order| && q != order[n].provider && |Of(order[..n], q)| < |Of(order, q)|
    ensures var p := order[n].provider;
            || |Of(order[..n], p)| < |Of(order[..n], q)|
            || (|Of(order[..n], p)| == |Of(order[..n], q)| && NamedBefore(names, p, q))
  {
    var j := NextOf(order, n, q);
    assert InOrder(order, names, n, j);
  }

  lemma HasMore(order: seq<Choice>, n: nat)
    requires n < |order|
    ensures var p := order[n].provider;
            && |Of(order[..n], p)| < |Of(order, p)|
            && Of(order, p)[|Of(order[..n], p)|] == order[n]
  {
    var p, upTo := order[n].provider, order[..n + 1];
    assert upTo[..n] == order[..n] && order == upTo + order[n + 1..];
    OfConcat(upTo, order[n + 1..], p);
  }

  lemma {:induction false} OnlyOneOrder(a: seq<Choice>, b: seq<Choice>, names: seq<Provider>, n: nat)
    requires Distinct(names) && SameOwn(a, b) && Follows(a, names) && Follows(b, names)
    requires n <= |a| && |a| == |b|
    ensures a[..n] == b[..n]
  {
    if n > 0 {
      OnlyOneOrder(a, b, names, n - 1);
      SameNext(a, b, names, n - 1);
      HasMore(a, n - 1);
      HasMore(b, n - 1);
      assert a[..n] == a[..n - 1] + [a[n - 1]] && b[..n] == b[..n - 1] + [b[n - 1]];
    }
  }

  lemma SameLength(a: seq<Choice>, b: seq<Choice>)
    requires SameOwn(a, b)
    ensures |a| == |b|
  {
    forall c
      ensures multiset(a)[c] == multiset(b)[c]
    {
      CountOf(a, c);
      CountOf(b, c);
    }
    assert multiset(a) == multiset(b) && |multiset(a)| == |a| && |multiset(b)| == |b|;
  }

  /** The spread is the one list that gives every provider its own choices in the order of the ranking and
      goes by rounds, and by first appearance within a round. */
  lemma SpreadIff(choices: seq<Choice>, order: seq<Choice>)
    ensures order == Spread(choices) <==> SameOwn(order, choices) && Follows(order, Names(choices))
  {
    forall p ensures Of(Spread(choices), p) == Of(choices, p) { SpreadKeepsEachProvider(choices, p); }
    var names, spread := Names(choices), Spread(choices);
    IsGrouped(choices);
    forall i, j | 0 <= i < j < |spread| ensures InOrder(spread, names, i, j) { SpreadOrder(choices, i, j); }
    if SameOwn(order, choices) && Follows(order, names) {
      SameLength(order, spread);
      OnlyOneOrder(order, spread, names, |order|);
      assert order[..|order|] == order && spread[..|order|] == spread;
    }
  }

  predicate Reached(tried: seq<Choice>, p: Provider) { exists t | t in tried :: t.provider == p }

  /** The first tries, one per provider, reach every provider. */
  lemma FirstRoundReaches(choices: seq<Choice>, n: nat, c: Choice)
    requires n >= |Names(choices)| && c in choices
    ensures Reached(Spread(choices)[..Min(n, |Spread(choices)|)], c.provider)
  {
    var names, groups := Names(choices), GroupsOf(choices);
    OwnIsNotEmpty(choices, c);
    IsGrouped(choices);
    var t := InFirstRound(names, groups, c.provider);
    RoundOrder(names, groups, 0);
    FirstRoundFirst(names, groups, |choices|);
    InPrefix(Round(names, groups, 0), Spread(choices), Min(n, |Spread(choices)|), t);
  }

  lemma {:induction false} InFirstRound(names: seq<Provider>, groups: Groups, p: Provider) returns (t: Choice)
    requires Grouped(names, groups) && p in names
    ensures t in Round(names, groups, 0) && t.provider == p
  {
    var rest := names[..|names| - 1];
    if p in rest {
      t := InFirstRound(rest, groups, p);
    } else {
      t := groups[p][0];
    }
  }

  lemma {:induction false} OwnIsNotEmpty(choices: seq<Choice>, c: Choice)
    requires c in choices
    ensures Of(choices, c.provider) != []
  {
    if c in choices[..|choices| - 1] {
      OwnIsNotEmpty(choices[..|choices| - 1], c);
    } else {
      assert choices == choices[..|choices| - 1] + [choices[|choices| - 1]];
    }
  }

  lemma InPrefix(start: seq<Choice>, order: seq<Choice>, n: nat, t: Choice)
    requires start <= order && |start| <= n <= |order| && t in start
    ensures t in order[..n]
  {
    var i :| 0 <= i < |start| && start[i] == t;
    assert order[..n][i] == t;
  }

  lemma {:induction false} FirstRoundFirst(names: seq<Provider>, groups: Groups, n: nat)
    requires Grouped(names, groups) && n > 0
    ensures Round(names, groups, 0) <= Rounds(names, groups, n)
  {
    if n > 1 {
      FirstRoundFirst(names, groups, n - 1);
    } else {
      assert Rounds(names, groups, 0) == [];
    }
  }

  lemma {:induction false} EmptyRound(names: seq<Provider>, groups: Groups, k: nat)
    requires forall p | p in names :: p in groups && |groups[p]| <= k
    ensures Round(names, groups, k) == []
  {
    if names != [] {
      EmptyRound(names[..|names| - 1], groups, k);
    }
  }

  /** Rounds past the longest group are empty. */
  lemma {:induction false} RoundsStop(names: seq<Provider>, groups: Groups, n: nat, m: nat)
    requires n <= m && forall p | p in names :: p in groups && |groups[p]| <= n
    ensures Rounds(names, groups, m) == Rounds(names, groups, n)
  {
    if n < m {
      RoundsStop(names, groups, n, m - 1);
      EmptyRound(names, groups, m - 1);
    }
  }

  // --------------------------------------------------------------------------- the program

  method Group(ranked: seq<Choice>) returns (names: seq<Provider>, groups: Groups)
    ensures names == Names(ranked) && groups == GroupsOf(ranked)
  {
    names, groups := [], map[];
    for i := 0 to |ranked|
      invariant names == Names(ranked[..i])
      invariant forall p :: p in groups <==> p in names
      invariant forall p | p in groups :: groups[p] == Of(ranked[..i], p)
    {
      var p := ranked[i].provider;
      assert ranked[..i + 1][..i] == ranked[..i];
      Named(ranked[..i], p);
      if p !in groups {
        names, groups := names + [p], groups[p := []];
      }
      groups := groups[p := groups[p] + [ranked[i]]];
    }
    assert ranked[..|ranked|] == ranked;
  }

  method Reorder(ranked: seq<Choice>) returns (out: seq<Choice>)
    ensures out == Spread(ranked)
  {
    var names, groups := Group(ranked);
    var longest := Longest(names, groups);
    out := [];
    for k := 0 to longest
      invariant out == Rounds(names, groups, k)
    {
      var round := Layer(names, groups, k);
      out := out + round;
    }
    LongEnough(ranked, longest);
  }

  lemma LongEnough(choices: seq<Choice>, longest: nat)
    requires var groups := GroupsOf(choices);
             && (forall p | p in Names(choices) :: |groups[p]| <= longest)
             && (longest == 0 || exists p | p in Names(choices) :: |groups[p]| == longest)
    ensures Rounds(Names(choices), GroupsOf(choices), longest) == Spread(choices)
  {
    IsGrouped(choices);
    RoundsStop(Names(choices), GroupsOf(choices), longest, |choices|);
  }

  /** One round of the interleaving. */
  method Layer(names: seq<Provider>, groups: Groups, k: nat) returns (round: seq<Choice>)
    requires forall p | p in names :: p in groups
    ensures round == Round(names, groups, k)
  {
    round := [];
    for i := 0 to |names|
      invariant round == Round(names[..i], groups, k)
    {
      assert names[..i + 1][..i] == names[..i];
      if k < |groups[names[i]]| {
        round := round + [groups[names[i]][k]];
      }
    }
    assert names[..|names|] == names;
  }

  method Longest(names: seq<Provider>, groups: Groups) returns (longest: nat)
    requires forall p | p in names :: p in groups
    ensures forall p | p in names :: |groups[p]| <= longest
    ensures longest == 0 || exists p | p in names :: |groups[p]| == longest
  {
    longest := 0;
    for i := 0 to |names|
      invariant forall p | p in names[..i] :: |groups[p]| <= longest
      invariant longest == 0 || exists p | p in names[..i] :: |groups[p]| == longest
    {
      assert names[..i + 1] == names[..i] + [names[i]];
      assert names[i] in names[..i + 1];
      if |groups[names[i]]| > longest {
        longest := |groups[names[i]]|;
      }
    }
    assert names[..|names|] == names;
  }

  datatype Completion = Completed(chosen: Choice) | NoModel

  /** Tries the choices in spread order until one works. `works(i)` is whether the i-th call succeeds;
      `calls` is what was called. It gives up only after every provider with an eligible model was called. */
  method Complete(ranked: seq<Choice>, maxAttempts: int, works: nat -> bool)
    returns (result: Completion, calls: seq<Choice>)
    ensures calls <= Spread(ranked)
    ensures multiset(calls) <= multiset(ranked)
    ensures forall i | 0 <= i < |calls| - 1 :: !works(i)
    ensures result.Completed? ==> calls != [] && works(|calls| - 1) && result.chosen == calls[|calls| - 1]
    ensures result.NoModel? ==> forall i | 0 <= i < |calls| :: !works(i)
    ensures result.NoModel? ==> forall c | c in ranked :: Reached(calls, c.provider)
    ensures result.NoModel? ==> |calls| == |ranked| || |calls| >= maxAttempts
  {
    var order := Reorder(ranked);
    var names, groups := Group(ranked);
    var attempts := if maxAttempts > |names| then maxAttempts else |names|;
    calls, result := [], NoModel;
    var i := 0;
    while i < Min(attempts, |order|) && result.NoModel?
      invariant i <= Min(attempts, |order|) && calls == order[..i]
      invariant forall j | 0 <= j < i - 1 :: !works(j)
      invariant if result.Completed? then i > 0 && works(i - 1) && result.chosen == calls[i - 1]
                else i > 0 ==> !works(i - 1)
    {
      calls := calls + [order[i]];
      if works(i) {
        result := Completed(order[i]);
      }
      i := i + 1;
    }
    CalledOnce(ranked, i);
    if result.NoModel? {
      forall c | c in ranked ensures Reached(calls, c.provider) { FirstRoundReaches(ranked, attempts, c); }
    }
  }

  lemma CalledOnce(choices: seq<Choice>, n: nat)
    requires n <= |Spread(choices)|
    ensures multiset(Spread(choices)[..n]) <= multiset(choices) && |Spread(choices)| == |choices|
  {
    var order := Spread(choices);
    SpreadIsAPermutation(choices);
    assert |multiset(order)| == |order| && |multiset(choices)| == |choices|;
    assert order == order[..n] + order[n..];
  }
}
