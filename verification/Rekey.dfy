/** Step keys (agent/goal.py): the slug of a key, and the pass that makes the keys of a plan unique. */
module Rekey {

  // ------------------------------------------------------------------------------- slugs

  const SLUG_LIMIT := 48

  predicate Allowed(c: char) { 'a' <= c <= 'z' || '0' <= c <= '9' || c == '-' }

  predicate AllAllowed(text: string) { forall i | 0 <= i < |text| :: Allowed(text[i]) }

  function Lower(c: char): char { if 'A' <= c <= 'Z' then c - 'A' + 'a' else c }

  /** Every run of characters that are not allowed becomes one dash. */
  function Collapsed(text: string, inRun: bool): string
  {
    if text == "" then ""
    else if Allowed(Lower(text[0])) then [Lower(text[0])] + Collapsed(text[1..], false)
    else (if inRun then "" else "-") + Collapsed(text[1..], true)
  }

  function StripLeft(text: string): string
  {
    if text == "" || text[0] != '-' then text else StripLeft(text[1..])
  }

  function StripRight(text: string): string
  {
    if text == "" || text[|text| - 1] != '-' then text else StripRight(text[..|text| - 1])
  }

  function Slug(text: string): string
  {
    var stripped := StripRight(StripLeft(Collapsed(text, false)));
    if |stripped| <= SLUG_LIMIT then stripped else stripped[..SLUG_LIMIT]
  }

  /** The shape every non-empty slug has. A slug cut at the limit may end in a dash. */
  predicate SlugShaped(key: string)
  {
    && key != ""
    && key[0] != '-'
    && AllAllowed(key)
  }

  lemma {:induction false} CollapsedAllowed(text: string, inRun: bool)
    ensures AllAllowed(Collapsed(text, inRun))
  {
    if text != "" {
      CollapsedAllowed(text[1..], !Allowed(Lower(text[0])));
    }
  }

  lemma {:induction false} StrippedLeft(text: string)
    requires AllAllowed(text)
    ensures AllAllowed(StripLeft(text)) && (StripLeft(text) != "" ==> StripLeft(text)[0] != '-')
  {
    if text != "" && text[0] == '-' {
      StrippedLeft(text[1..]);
    }
  }

  lemma {:induction false} StrippedRight(text: string)
    ensures StripRight(text) <= text
  {
    if text != "" && text[|text| - 1] == '-' {
      StrippedRight(text[..|text| - 1]);
    }
  }

  lemma SlugHasShape(text: string)
    ensures Slug(text) != "" ==> SlugShaped(Slug(text)) && |Slug(text)| <= SLUG_LIMIT
  {
    var collapsed := Collapsed(text, false);
    CollapsedAllowed(text, false);
    StrippedLeft(collapsed);
    StrippedRight(StripLeft(collapsed));
    assert Slug(text) <= StripLeft(collapsed);
  }

  lemma {:induction false} CollapsedKeeps(text: string, inRun: bool)
    requires AllAllowed(text)
    ensures Collapsed(text, inRun) == text
  {
    if text != "" {
      assert Allowed(text[0]);
      CollapsedKeeps(text[1..], false);
    }
  }

  predicate IsDash(c: char) { c == '-' }

  predicate AllDashes(text: string) { forall i | 0 <= i < |text| :: IsDash(text[i]) }

  /** A letter in lower case, which is 32 places after upper case, or a digit; nothing for anything else. */
  function LetterOf(c: char): string
  {
    if 'a' <= c <= 'z' || '0' <= c <= '9' then [c] else if 'A' <= c <= 'Z' then [(c as int + 32) as char] else ""
  }

  /** The letters and digits of a text, in order. */
  function Letters(text: string): string { if text == "" then "" else LetterOf(text[0]) + Letters(text[1..]) }

  lemma LettersBehind(c: char, rest: string)
    ensures Letters([c] + rest) == LetterOf(c) + Letters(rest)
  {
    assert ([c] + rest)[1..] == rest;
  }

  lemma LetterLower(c: char)
    ensures if Allowed(Lower(c)) then LetterOf(Lower(c)) == LetterOf(c) else LetterOf(c) == ""
  {
  }

  /** Collapsing keeps the letters and digits, in order and in lower case. */
  lemma {:induction false} CollapsedLetters(text: string, inRun: bool)
    ensures Letters(Collapsed(text, inRun)) == Letters(text)
  {
    if text != "" {
      var c, stop := text[0], !Allowed(Lower(text[0]));
      CollapsedLetters(text[1..], stop);
      LetterLower(c);
      var rest := Collapsed(text[1..], stop);
      LettersBehind(if stop then '-' else Lower(c), rest);
      assert "" + rest == rest && "" + Letters(rest) == Letters(rest);
    }
  }

  /** A character that a slug does not have as it is, in either case. */
  predicate Foreign(c: char) { !('a' <= c <= 'z' || 'A' <= c <= 'Z' || '0' <= c <= '9' || c == '-') }

  lemma {:induction false} RunCollapses(run: string, rest: string, inRun: bool)
    requires run != "" && (forall i | 0 <= i < |run| :: Foreign(run[i])) && (rest != "" ==> !Foreign(rest[0]))
    ensures Collapsed(run + rest, inRun) == (if inRun then "" else "-") + Collapsed(rest, false)
  {
    assert (run + rest)[1..] == run[1..] + rest;
    if |run| > 1 {
      RunCollapses(run[1..], rest, true);
    } else {
      assert run[1..] + rest == rest;
      assert rest != "" ==> Collapsed(rest, true) == Collapsed(rest, false);
    }
  }

  /** A run of foreign characters between others becomes one dash. */
  lemma {:induction false} RunIsOneDash(before: string, run: string, rest: string, inRun: bool)
    requires run != "" && (forall i | 0 <= i < |run| :: Foreign(run[i])) && (rest != "" ==> !Foreign(rest[0]))
    requires if before == "" then !inRun else !Foreign(before[|before| - 1])
    ensures Collapsed(before + run + rest, inRun) == Collapsed(before, inRun) + "-" + Collapsed(rest, false)
  {
    if before == "" {
      assert before + run + rest == run + rest;
      RunCollapses(run, rest, inRun);
    } else {
      var stop := !Allowed(Lower(before[0]));
      var head := if stop then (if inRun then "" else "-") else [Lower(before[0])];
      RunIsOneDash(before[1..], run, rest, stop);
      CollapsedBehind(before, run + rest, inRun, stop);
      Regrouped(before, run, rest);
      Regrouped(before[1..], run, rest);
      Regrouped4(head, Collapsed(before[1..], stop), "-", Collapsed(rest, false));
    }
  }

  lemma Regrouped(a: string, b: string, c: string)
    ensures a + (b + c) == a + b + c
  {
  }

  lemma Regrouped4(a: string, b: string, c: string, d: string)
    ensures a + (b + c + d) == a + b + c + d
  {
  }

  lemma CollapsedBehind(before: string, rest: string, inRun: bool, stop: bool)
    requires before != "" && stop == !Allowed(Lower(before[0]))
    ensures var head := if stop then (if inRun then "" else "-") else [Lower(before[0])];
            && Collapsed(before + rest, inRun) == head + Collapsed(before[1..] + rest, stop)
            && Collapsed(before, inRun) == head + Collapsed(before[1..], stop)
  {
    assert (before + rest)[1..] == before[1..] + rest;
  }

  lemma {:induction false} LeftStripped(text: string) returns (n: nat)
    ensures n <= |text| && AllDashes(text[..n]) && StripLeft(text) == text[n..]
    ensures n < |text| ==> !IsDash(text[n])
  {
    n := 0;
    if text != "" && text[0] == '-' {
      var m := LeftStripped(text[1..]);
      n := m + 1;
      assert forall i | 0 < i < n :: text[i] == text[1..][..m][i - 1];
    }
  }

  lemma {:induction false} RightStripped(text: string) returns (n: nat)
    ensures n <= |text| && AllDashes(text[n..]) && StripRight(text) == text[..n]
    ensures n > 0 ==> !IsDash(text[n - 1])
  {
    n := |text|;
    if text != "" && text[|text| - 1] == '-' {
      var rest := text[..|text| - 1];
      n := RightStripped(rest);
      assert forall i | n <= i < |text| - 1 :: text[i] == rest[n..][i - n];
      assert rest[..n] == text[..n];
    } else {
      assert text[..n] == text;
    }
  }

  lemma Middle(c: string, left: nat, n: nat)
    requires left + n <= |c|
    ensures c[left..][n..] == c[left + n..] && c[left..][..n] == c[left..left + n]
    ensures n > 0 ==> c[left..][0] == c[left] && c[left..][n - 1] == c[left + n - 1]
  {
  }

  /** A slug is the collapsed text without the dashes at both ends, cut at the limit. */
  lemma SlugMeans(text: string) returns (left: nat, right: nat)
    ensures var c := Collapsed(text, false);
            && left <= right <= |c| && AllDashes(c[..left]) && AllDashes(c[right..])
            && (left < right ==> !IsDash(c[left]) && !IsDash(c[right - 1]))
            && Slug(text) == if right - left <= 48 then c[left..right] else c[left..left + 48]
  {
    var c := Collapsed(text, false);
    left := LeftStripped(c);
    var n := RightStripped(c[left..]);
    right := left + n;
    Middle(c, left, n);
  }

  /** A key that slugging leaves alone. */
  predicate Stable(key: string) { key != "" && Slug(key) == key }

  lemma {:induction false} EndsWithoutDash(text: string)
    ensures StripRight(text) != "" ==> StripRight(text)[|StripRight(text)| - 1] != '-'
  {
    if text != "" && text[|text| - 1] == '-' {
      EndsWithoutDash(text[..|text| - 1]);
    }
  }

  /** Slugging leaves a shaped key alone exactly when it fits the limit and does not end in a dash. */
  lemma StableIff(key: string)
    requires SlugShaped(key)
    ensures Stable(key) <==> |key| <= SLUG_LIMIT && key[|key| - 1] != '-'
  {
    CollapsedKeeps(key, false);
    assert StripLeft(key) == key;
    StrippedRight(key);
    EndsWithoutDash(key);
  }

  // ---------------------------------------------------------------------------- decimals

  function Digit(n: nat): char
    requires n < 10
  {
    '0' + n as char
  }

  /** The decimal numeral of `n`. */
  function Dec(n: nat): (out: string)
    ensures out != "" && forall i | 0 <= i < |out| :: '0' <= out[i] <= '9'
  {
    if n < 10 then [Digit(n)] else Dec(n / 10) + [Digit(n % 10)]
  }

  lemma {:induction false} DecInjective(m: nat, n: nat)
    requires Dec(m) == Dec(n)
    ensures m == n
  {
    var s := Dec(m);
    assert s[|s| - 1] == Digit(m % 10) == Digit(n % 10);
    assert (|Dec(m)| == 1 <==> m < 10) && (|Dec(n)| == 1 <==> n < 10);
    if m >= 10 {
      assert s[..|s| - 1] == Dec(m / 10) == Dec(n / 10);
      DecInjective(m / 10, n / 10);
    }
  }

  /** The number a numeral stands for. */
  function NumberOf(s: string): int { if s == "" then 0 else 10 * NumberOf(s[..|s| - 1]) + (s[|s| - 1] as int - 48) }

  lemma {:induction false} DecMeans(n: nat)
    ensures NumberOf(Dec(n)) == n && (|Dec(n)| > 1 ==> Dec(n)[0] != '0')
  {
    if n >= 10 {
      DecMeans(n / 10);
      assert Dec(n)[..|Dec(n)| - 1] == Dec(n / 10);
      if n / 10 < 10 { assert Dec(n / 10) == [Digit(n / 10)]; }
    } else {
      assert Dec(n)[..0] == "" && Dec(n)[0] == Digit(n);
    }
  }

  /** Behind its last dash a numbered key has its number, before it its base. */
  lemma LastDash(b: string, m: nat, s: string)
    requires s == b + "-" + Dec(m)
    ensures |b| < |s| && s[|b|] == '-' && s[..|b|] == b && s[|b| + 1..] == Dec(m)
    ensures forall i | |b| < i < |s| :: s[i] != '-'
  {
    assert forall i | |b| < i < |s| :: s[i] == Dec(m)[i - |b| - 1];
  }

  /** A numbered key splits in one way only: at its last dash. */
  lemma NumberedInjective(b: string, m: nat, c: string, n: nat)
    requires b + "-" + Dec(m) == c + "-" + Dec(n)
    ensures b == c && m == n
  {
    var s := b + "-" + Dec(m);
    LastDash(b, m, s);
    LastDash(c, n, s);
    DecInjective(m, n);
  }

  // ------------------------------------------------------------------------------- rekey

  function Base(raw: string, index: nat): (base: string)
    ensures base != ""
  {
    if Slug(raw) != "" then Slug(raw) else "step-" + Dec(index + 1)
  }

  function Bases(raws: seq<string>): (bases: seq<string>)
    ensures |bases| == |raws| && forall i | 0 <= i < |raws| :: bases[i] == Base(raws[i], i)
  {
    seq(|raws|, i requires 0 <= i < |raws| => Base(raws[i], i))
  }

  /** How often `base` occurs among the first `n`. */
  function Count(bases: seq<string>, n: nat, base: string): (count: nat)
    requires n <= |bases|
    ensures count <= n
  {
    if n == 0 then 0 else Count(bases, n - 1, base) + if bases[n - 1] == base then 1 else 0
  }

  function Numbered(base: string, count: nat): string
  {
    if count == 0 then base else base + "-" + Dec(count + 1)
  }

  function KeyAt(bases: seq<string>, i: nat): string
    requires i < |bases|
  {
    Numbered(bases[i], Count(bases, i, bases[i]))
  }

  /** The keys of a plan after `rekey`. */
  function Rekeyed(raws: seq<string>): (keys: seq<string>)
    ensures |keys| == |raws|
  {
    seq(|raws|, i requires 0 <= i < |raws| => KeyAt(Bases(raws), i))
  }

  /** Steps without a usable key are named by their place, counted from one. */
  lemma UnnamedKeys(raw: string, place: nat)
    requires place > 0 && Slug(raw) == ""
    ensures Base(raw, place - 1) == "step-" + Dec(place)
  {
  }

  predicate Unique(keys: seq<string>)
  {
    forall i, j | 0 <= i < j < |keys| :: keys[i] != keys[j]
  }

  /** The n-th use of base `j` gets a number that spells base `i`. */
  predicate Collides(bases: seq<string>, i: nat, j: nat, n: nat)
    requires i < |bases| && j < |bases|
  {
    2 <= n <= Count(bases, |bases|, bases[j]) && bases[i] == bases[j] + "-" + Dec(n)
  }

  ghost predicate SomeCollision(bases: seq<string>)
  {
    exists i: nat, j: nat, n: nat | i < |bases| && j < |bases| :: Collides(bases, i, j, n)
  }

  lemma {:induction false} CountMonotone(bases: seq<string>, i: nat, j: nat, base: string)
    requires i < j <= |bases|
    ensures Count(bases, i, base) <= Count(bases, j, base)
    ensures bases[i] == base ==> Count(bases, i, base) < Count(bases, j, base)
  {
    if i < j - 1 {
      CountMonotone(bases, i, j - 1, base);
    }
  }

  /** The use of `base` that has `count` earlier ones. */
  lemma {:induction false} UseAt(bases: seq<string>, n: nat, base: string, count: nat) returns (k: nat)
    requires n <= |bases| && count < Count(bases, n, base)
    ensures k < n && bases[k] == base && Count(bases, k, base) == count
  {
    k := n - 1;
    if bases[k] != base || Count(bases, k, base) != count {
      k := UseAt(bases, n - 1, base, count);
    }
  }

  lemma CollisionRepeatsAKey(bases: seq<string>, i: nat, j: nat, n: nat) returns (first: nat, repeat: nat)
    requires i < |bases| && j < |bases| && Collides(bases, i, j, n)
    ensures first < |bases| && repeat < |bases| && first != repeat
    ensures KeyAt(bases, first) == KeyAt(bases, repeat) == bases[i]
  {
    CountMonotone(bases, i, |bases|, bases[i]);
    first := UseAt(bases, |bases|, bases[i], 0);
    repeat := UseAt(bases, |bases|, bases[j], n - 1);
    assert |bases[first]| > |bases[repeat]|;
  }

  lemma EqualKeysCollide(bases: seq<string>, x: nat, y: nat)
    requires x < y < |bases| && KeyAt(bases, x) == KeyAt(bases, y)
    ensures SomeCollision(bases)
  {
    var cx, cy := Count(bases, x, bases[x]), Count(bases, y, bases[y]);
    CountMonotone(bases, x, y, bases[x]);
    CountMonotone(bases, x, |bases|, bases[x]);
    CountMonotone(bases, y, |bases|, bases[y]);
    if cx > 0 && cy > 0 {
      NumberedInjective(bases[x], cx + 1, bases[y], cy + 1);
    } else if cx > 0 {
      assert Collides(bases, y, x, cx + 1);
    } else if cy > 0 {
      assert Collides(bases, x, y, cy + 1);
    }
  }

  /** The keys of a plan are pairwise distinct if and only if no base is another base followed by the
      number of one of its repetitions. */
  lemma UniqueIff(raws: seq<string>)
    ensures Unique(Rekeyed(raws)) <==> !SomeCollision(Bases(raws))
  {
    var bases, keys := Bases(raws), Rekeyed(raws);
    if SomeCollision(bases) {
      var i: nat, j: nat, n: nat :| i < |bases| && j < |bases| && Collides(bases, i, j, n);
      var first, repeat := CollisionRepeatsAKey(bases, i, j, n);
      assert keys[first] == keys[repeat];
    }
    forall x, y | 0 <= x < y < |keys| && keys[x] == keys[y]
      ensures SomeCollision(bases)
    {
      EqualKeysCollide(bases, x, y);
    }
  }

  // ------------------------------------------------------------------------- keying again

  lemma {:induction false} CountPrefix(bases: seq<string>, more: seq<string>, n: nat, base: string)
    requires n <= |bases| && bases <= more
    ensures Count(bases, n, base) == Count(more, n, base)
  {
    if n > 0 {
      CountPrefix(bases, more, n - 1, base);
    }
  }

  /** The key of a step depends only on the steps before it. */
  lemma RekeyedPrefix(raws: seq<string>, more: seq<string>)
    ensures Rekeyed(raws + more)[..|raws|] == Rekeyed(raws)
  {
    forall i | 0 <= i < |raws|
      ensures Rekeyed(raws + more)[i] == Rekeyed(raws)[i]
    {
      assert Bases(raws) <= Bases(raws + more);
      CountPrefix(Bases(raws), Bases(raws + more), i, Bases(raws)[i]);
    }
  }

  lemma {:induction false} CountNone(bases: seq<string>, n: nat, base: string)
    requires n <= |bases| && forall i | 0 <= i < n :: bases[i] != base
    ensures Count(bases, n, base) == 0
  {
    if n > 0 {
      CountNone(bases, n - 1, base);
    }
  }

  /** Keys survive being keyed again in front of any new steps exactly when keying them again leaves them
      alone. */
  lemma KeysKeptIff(keys: seq<string>)
    ensures (forall more :: Rekeyed(keys + more)[..|keys|] == keys) <==> Rekeyed(keys) == keys
  {
    forall more: seq<string>
      ensures Rekeyed(keys + more)[..|keys|] == Rekeyed(keys)
    {
      RekeyedPrefix(keys, more);
    }
    assert Rekeyed(keys + [])[..|keys|] == Rekeyed(keys);
  }

  /** Every key that `rekey` gives is shaped like a slug. */
  lemma KeyShaped(raws: seq<string>, i: nat)
    requires i < |raws|
    ensures SlugShaped(Bases(raws)[i]) && SlugShaped(Rekeyed(raws)[i])
  {
    SlugHasShape(raws[i]);
    if Slug(raws[i]) == "" {
      assert AllAllowed("step-");
    }
  }

  /** A key that `rekey` produced is stable exactly when it fits the slug limit and was not cut right
      after a dash. */
  lemma KeyStableIff(raws: seq<string>, i: nat)
    requires i < |raws|
    ensures var key := Rekeyed(raws)[i]; Stable(key) <==> |key| <= SLUG_LIMIT && key[|key| - 1] != '-'
  {
    KeyShaped(raws, i);
    StableIff(Rekeyed(raws)[i]);
  }

  /** The slug of a shaped key: trailing dashes go, and what exceeds the limit. */
  lemma SlugOfShaped(key: string)
    requires SlugShaped(key)
    ensures Slug(key) == (if |StripRight(key)| <= SLUG_LIMIT then StripRight(key) else StripRight(key)[..SLUG_LIMIT])
    ensures Slug(key) != "" && (key[|key| - 1] != '-' ==> StripRight(key) == key)
    ensures key[|key| - 1] == '-' ==> |Slug(key)| < |key|
  {
    CollapsedKeeps(key, false);
    assert StripLeft(key) == key;
    StrippedRight(key);
    StripsSome(key);
  }

  lemma {:induction false} StripsSome(key: string)
    requires key != "" && key[0] != '-'
    ensures StripRight(key) != ""
  {
    if key[|key| - 1] == '-' {
      StripsSome(key[..|key| - 1]);
    }
  }

  lemma DigitEnds(base: string, n: nat)
    ensures var key := base + "-" + Dec(n); key[|key| - 1] != '-'
  {
    var key := base + "-" + Dec(n);
    assert key[|key| - 1] == Dec(n)[|Dec(n)| - 1];
  }

  /** A list that keying again leaves alone has no key twice. */
  lemma FixpointUnique(keys: seq<string>)
    requires Rekeyed(keys) == keys
    ensures Unique(keys)
  {
    var bases := Bases(keys);
    forall x, y | 0 <= x < y < |keys|
      ensures keys[x] != keys[y]
    {
      KeyShaped(keys, x);
      KeyShaped(keys, y);
      SlugOfShaped(keys[x]);
      SlugOfShaped(keys[y]);
      assert keys[x] == KeyAt(bases, x) && keys[y] == KeyAt(bases, y);
      if bases[x] == bases[y] {
        CountMonotone(bases, x, y, bases[x]);
        NumberedTwice(bases[x], Count(bases, x, bases[x]), Count(bases, y, bases[x]));
      }
    }
  }

  lemma NumberedTwice(base: string, m: nat, n: nat)
    requires m < n
    ensures Numbered(base, m) != Numbered(base, n)
  {
    if m == 0 {
      assert |Numbered(base, n)| > |base|;
    } else if base + "-" + Dec(m + 1) == base + "-" + Dec(n + 1) {
      NumberedInjective(base, m + 1, base, n + 1);
    }
  }

  /** A key that `rekey` produced can be keyed again: as the first use of its base it fits the
      limit and does not end in a dash; with a number it fits the limit, or its base alone fills it. */
  predicate Survives(bases: seq<string>, i: nat)
    requires i < |bases|
  {
    SurvivesAs(bases[i], Count(bases, i, bases[i]), KeyAt(bases, i))
  }

  predicate SurvivesAs(base: string, count: nat, key: string)
  {
    if count == 0 then |key| <= SLUG_LIMIT && (key != "" ==> key[|key| - 1] != '-')
    else |key| <= SLUG_LIMIT || |base| == SLUG_LIMIT
  }

  ghost predicate AllSurvive(bases: seq<string>) { forall i | 0 <= i < |bases| :: Survives(bases, i) }

  /** The base that a surviving key has when it is keyed again: itself, or its old base. */
  lemma BaseAgain(raws: seq<string>, i: nat)
    requires i < |raws| && Survives(Bases(raws), i)
    ensures var key := Rekeyed(raws)[i];
            && Bases(Rekeyed(raws))[i] == Slug(key)
            && Slug(key) == (if |key| <= SLUG_LIMIT then key else Bases(raws)[i])
            && (|key| > SLUG_LIMIT ==> |Bases(raws)[i]| == SLUG_LIMIT && Count(Bases(raws), i, Bases(raws)[i]) > 0)
  {
    var base, key := Bases(raws)[i], Rekeyed(raws)[i];
    KeyShaped(raws, i);
    SlugAgain(base, Count(Bases(raws), i, base), key);
  }

  lemma SlugAgain(base: string, count: nat, key: string)
    requires key == Numbered(base, count) && SlugShaped(key) && SurvivesAs(base, count, key)
    ensures Slug(key) != "" && Slug(key) == (if |key| <= SLUG_LIMIT then key else base)
    ensures |key| > SLUG_LIMIT ==> |base| == SLUG_LIMIT && count > 0
  {
    SlugOfShaped(key);
    if count > 0 {
      DigitEnds(base, count + 1);
    }
  }

  /** Among surviving keys without repetition, a base has as many earlier uses when they are keyed again as
      before: none for a key that fits the limit, the old ones otherwise. */
  lemma CountAgain(raws: seq<string>, i: nat, first: nat)
    requires i < |raws| && Unique(Rekeyed(raws)) && AllSurvive(Bases(raws))
    requires |Rekeyed(raws)[i]| > SLUG_LIMIT
    requires first < i && Bases(raws)[first] == Bases(raws)[i] && Count(Bases(raws), first, Bases(raws)[i]) == 0
    ensures Count(Bases(Rekeyed(raws)), i, Bases(raws)[i]) == Count(Bases(raws), i, Bases(raws)[i])
  {
    var bases, keys := Bases(raws), Rekeyed(raws);
    assert Survives(bases, i) && keys[first] == bases[i];
    BaseAgain(raws, i);
    forall j | 0 <= j < i
      ensures Bases(keys)[j] == bases[i] <==> bases[j] == bases[i]
    {
      assert Survives(bases, j) && keys[j] == KeyAt(bases, j);
      BaseAgain(raws, j);
      if bases[j] == bases[i] && j != first {
        assert keys[j] != keys[first];
      }
    }
    CountSame(Bases(keys), bases, i, bases[i]);
  }

  lemma {:induction false} CountSame(a: seq<string>, b: seq<string>, n: nat, base: string)
    requires n <= |a| && n <= |b| && forall j | 0 <= j < n :: a[j] == base <==> b[j] == base
    ensures Count(a, n, base) == Count(b, n, base)
  {
    if n > 0 {
      CountSame(a, b, n - 1, base);
    }
  }

  lemma SurvivorsKept(raws: seq<string>, i: nat)
    requires i < |raws| && Unique(Rekeyed(raws)) && AllSurvive(Bases(raws))
    ensures Rekeyed(Rekeyed(raws))[i] == Rekeyed(raws)[i]
  {
    var bases, keys := Bases(raws), Rekeyed(raws);
    assert Survives(bases, i) && keys[i] == KeyAt(bases, i);
    BaseAgain(raws, i);
    if |keys[i]| > SLUG_LIMIT {
      var first := UseAt(bases, i, bases[i], 0);
      CountAgain(raws, i, first);
    } else {
      forall j | 0 <= j < i
        ensures Bases(keys)[j] != keys[i]
      {
        assert Survives(bases, j) && keys[j] == KeyAt(bases, j);
        BaseAgain(raws, j);
        if |keys[j]| > SLUG_LIMIT {
          var first := UseAt(bases, j, bases[j], 0);
          assert keys[first] == bases[j];
        }
      }
      CountNone(Bases(keys), i, keys[i]);
    }
  }

  lemma KeptSurvives(raws: seq<string>, i: nat)
    requires i < |raws| && Rekeyed(Rekeyed(raws))[i] == Rekeyed(raws)[i]
    ensures Survives(Bases(raws), i)
  {
    var keys, base := Rekeyed(raws), Bases(raws)[i];
    var key := keys[i];
    KeyShaped(raws, i);
    SlugOfShaped(key);
    assert key == KeyAt(Bases(raws), i) && key == KeyAt(Bases(keys), i) && Bases(keys)[i] == Slug(key);
    SlugHasShape(raws[i]);
    SlugKept(base, i, Count(Bases(raws), i, base), key, Count(Bases(keys), i, Slug(key)));
  }

  lemma PlainKeyHasOneDash(base: string, i: nat)
    requires base == "step-" + Dec(i + 1) && |base| > SLUG_LIMIT
    ensures base[SLUG_LIMIT] != '-'
  {
    assert base[SLUG_LIMIT] == Dec(i + 1)[SLUG_LIMIT - 5];
  }

  lemma SlugKept(base: string, i: nat, count: nat, key: string, again: nat)
    requires |base| <= SLUG_LIMIT || base == "step-" + Dec(i + 1)
    requires SlugShaped(key) && key == Numbered(base, count) && key == Numbered(Slug(key), again)
    ensures SurvivesAs(base, count, key)
  {
    SlugOfShaped(key);
    if again > 0 {
      DigitEnds(Slug(key), again + 1);
      if count > 0 {
        NumberedInjective(base, count + 1, Slug(key), again + 1);
      } else if |base| > SLUG_LIMIT {
        PlainKeyHasOneDash(base, i);
      }
    }
  }

  /** Keying the keys of a plan again leaves them alone exactly when no base spells the number of another
      one's repetition, no first use exceeds the limit or ends in a dash, and no number pushed a key over
      the limit whose base is shorter than the limit. */
  lemma FixpointIff(raws: seq<string>)
    ensures Rekeyed(Rekeyed(raws)) == Rekeyed(raws) <==> !SomeCollision(Bases(raws)) && AllSurvive(Bases(raws))
  {
    var keys := Rekeyed(raws);
    UniqueIff(raws);
    if Rekeyed(keys) == keys {
      FixpointUnique(keys);
      forall i | 0 <= i < |raws| ensures Survives(Bases(raws), i) { KeptSurvives(raws, i); }
    }
    if !SomeCollision(Bases(raws)) && AllSurvive(Bases(raws)) {
      forall i | 0 <= i < |raws| ensures Rekeyed(keys)[i] == keys[i] { SurvivorsKept(raws, i); }
    }
  }

  lemma SlugCutsTheNumber(base: string)
    requires Stable(base) && |base| == SLUG_LIMIT - 1
    ensures Slug(base + "-2") == base + "-"
  {
    var long := base + "-2";
    SlugHasShape(base);
    assert AllAllowed(long);
    CollapsedKeeps(long, false);
    assert StripLeft(long) == long && StripRight(long) == long;
    assert long[..SLUG_LIMIT] == base + "-";
  }

  /** Keying again renames a step once its number has pushed it over the limit: of two steps with the same
      47-character base the second one loses its number, and a new step with that base gets the key the
      second one had. */
  lemma TruncationRenames(base: string)
    requires Stable(base) && |base| == SLUG_LIMIT - 1
    ensures Rekeyed([base, base]) == [base, base + "-2"]
    ensures Rekeyed([base, base + "-2", base]) == [base, base + "-", base + "-2"]
  {
    RenamedOf(base, [base, base], [base, base]);
    SlugCutsTheNumber(base);
    RenamedOf(base, [base, base + "-2", base], [base, base + "-", base]);
  }

  lemma RenamedOf(base: string, raws: seq<string>, bases: seq<string>)
    requires 2 <= |bases| <= 3 && |raws| == |bases| && base != ""
    requires forall i | 0 <= i < |bases| :: Slug(raws[i]) == bases[i] && bases[i] != ""
    requires bases[0] == base && (|bases| == 2 ==> bases[1] == base)
    requires (|bases| == 3 ==> bases[1] != base && bases[2] == base)
    ensures Rekeyed(raws) == if |bases| == 2 then [base, base + "-2"] else [base, bases[1], base + "-2"]
  {
    assert Bases(raws) == bases;
    KeysOfTwoUses(bases, base);
  }

  /** A new step with the base of a step that ran twice over gets the key the second one ran under, unless the
      base fills the limit. */
  lemma ThirdUseIff(base: string)
    requires Stable(base)
    ensures Rekeyed([base, base]) == [base, base + "-2"]
    ensures |Rekeyed([base, base + "-2", base])| == 3
    ensures Rekeyed([base, base + "-2", base])[2] == base + "-2" <==> |base| < SLUG_LIMIT
  {
    RenamedOf(base, [base, base], [base, base]);
    var second := base + "-2";
    SlugHasShape(base);
    DigitEnds(base, 2);
    assert Dec(2) == "2" && Dec(3) == "3";
    SlugOfShaped(second);
    var bases := Bases([base, second, base]);
    assert bases == [base, Slug(second), base];
    assert Count(bases, 1, base) == 1;
    if |base| == SLUG_LIMIT {
      assert second[..SLUG_LIMIT] == base;
      assert Count(bases, 2, base) == 2;
      assert KeyAt(bases, 2) == base + "-3";
      assert (base + "-3")[|base| + 1] == '3' && second[|base| + 1] == '2';
    } else {
      ShorterSlug(base);
      assert Count(bases, 2, base) == 1;
      assert KeyAt(bases, 2) == second;
    }
  }

  lemma ShorterSlug(base: string)
    requires Stable(base) && |base| < SLUG_LIMIT && SlugShaped(base + "-2")
    ensures Slug(base + "-2") != base
  {
    DigitEnds(base, 2);
    assert Dec(2) == "2";
    SlugOfShaped(base + "-2");
    assert |Slug(base + "-2")| > |base|;
  }

  lemma KeysOfTwoUses(bases: seq<string>, base: string)
    requires 2 <= |bases| <= 3 && bases[0] == base && (|bases| == 2 ==> bases[1] == base)
    requires |bases| == 3 ==> bases[1] != base && bases[2] == base
    ensures KeyAt(bases, 0) == base
    ensures KeyAt(bases, |bases| - 1) == base + "-2"
    ensures |bases| == 3 ==> KeyAt(bases, 1) == bases[1]
  {
    assert Dec(2) == "2";
    TwoUses(bases, |bases| - 1, base);
    if |bases| == 3 {
      CountNone(bases, 1, bases[1]);
    }
  }

  lemma TwoUses(bases: seq<string>, i: nat, base: string)
    requires 1 <= i <= 2 && i < |bases| && bases[0] == base && (i == 2 ==> bases[1] != base)
    ensures Count(bases, 0, base) == 0 && Count(bases, i, base) == 1
  {
    assert Count(bases, 1, base) == 1;
  }

  // -------------------------------------------------------------------------- the program

  class PlanStep {
    var key: string

    constructor (key: string)
      ensures this.key == key
    {
      this.key := key;
    }
  }

  function KeysOf(steps: seq<PlanStep>): (keys: seq<string>)
    reads steps
    ensures |keys| == |steps| && forall i | 0 <= i < |steps| :: keys[i] == steps[i].key
  {
    seq(|steps|, i requires 0 <= i < |steps| reads steps => steps[i].key)
  }

  function Seen(seen: map<string, nat>, base: string): nat { if base in seen then seen[base] else 0 }

  /** `seen` has counted the first `n` bases. */
  ghost predicate Tallies(bases: seq<string>, n: nat, seen: map<string, nat>)
    requires n <= |bases|
  {
    forall base :: Seen(seen, base) == Count(bases, n, base)
  }

  /** Rewrites the key of every step, left to right, counting each base as it is used. */
  method RekeySteps(steps: seq<PlanStep>)
    requires forall i, j | 0 <= i < j < |steps| :: steps[i] != steps[j]
    modifies steps
    ensures KeysOf(steps) == Rekeyed(old(KeysOf(steps)))
  {
    ghost var raws := KeysOf(steps);
    AssignKeys(steps, raws, Bases(raws), Rekeyed(raws));
    assert KeysOf(steps) == Rekeyed(raws);
  }

  method AssignKeys(steps: seq<PlanStep>, ghost raws: seq<string>, ghost bases: seq<string>, ghost keys: seq<string>)
    requires forall i, j | 0 <= i < j < |steps| :: steps[i] != steps[j]
    requires |steps| == |raws| == |bases| == |keys|
    requires forall i | 0 <= i < |steps| :: steps[i].key == raws[i] && bases[i] == Base(raws[i], i)
    requires forall i | 0 <= i < |steps| :: keys[i] == KeyAt(bases, i)
    modifies steps
    ensures forall i | 0 <= i < |steps| :: steps[i].key == keys[i]
  {
    var seen: map<string, nat> := map[];
    for i := 0 to |steps|
      invariant Tallies(bases, i, seen)
      invariant forall k | 0 <= k < i :: steps[k].key == keys[k]
      invariant forall k | i <= k < |steps| :: steps[k].key == raws[k]
    {
      var key;
      key, seen := NextKey(steps[i].key, i, seen, bases);
      steps[i].key := key;
    }
  }

  method NextKey(raw: string, index: nat, seen: map<string, nat>, ghost bases: seq<string>)
    returns (key: string, nowSeen: map<string, nat>)
    requires index < |bases| && bases[index] == Base(raw, index) && Tallies(bases, index, seen)
    ensures key == KeyAt(bases, index) && Tallies(bases, index + 1, nowSeen)
  {
    var slug := Slug(raw);
    var base := if slug != "" then slug else "step-" + Dec(index + 1);
    var count := if base in seen then seen[base] else 0;
    nowSeen := seen[base := count + 1];
    key := if count == 0 then base else base + "-" + Dec(count + 1);
    assert Seen(seen, base) == Count(bases, index, base);
    CountMore(bases, index, seen, nowSeen);
  }

  lemma CountMore(bases: seq<string>, i: nat, seen: map<string, nat>, nowSeen: map<string, nat>)
    requires i < |bases| && Tallies(bases, i, seen)
    requires nowSeen == seen[bases[i] := Seen(seen, bases[i]) + 1]
    ensures Tallies(bases, i + 1, nowSeen)
  {
    forall base
      ensures Seen(nowSeen, base) == Count(bases, i + 1, base)
    {
      assert Seen(seen, base) == Count(bases, i, base);
    }
  }
}
