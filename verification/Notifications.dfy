/** The gate between what was noticed and what a person hears (notifications.py). */
module Notifications {
  const CRITICAL := 5
  const DEDUPE_WINDOW := 900.0
  const HOUR := 3600.0

  /** `fingerprint` stands for the hash of the source and the folded message. */
  datatype Notice = Notice(message: string, importance: int, source: string, at: real, fingerprint: string)

  /** The part of the configuration the gate reads. */
  datatype Rules = Rules(minImportance: int, suppressWhileGaming: bool, maxPerHour: int)

  datatype Verdict = Deliver | Hold | Drop

  /** A remembered notice, in the window that suppresses repetitions. */
  datatype Mark = Mark(at: real, fingerprint: string)

  /** Something the person heard; `limited` if it was a notice the hourly limit applies to. */
  datatype Told = Told(at: real, limited: bool)

  /** Everything ever remembered and everything ever told, oldest first. The program keeps only the newest
      64 and 256 of them. */
  datatype State = State(marks: seq<Mark>, told: seq<Told>, held: seq<Notice>, gaming: bool)

  const START := State([], [], [], false)

  function Tail<T>(s: seq<T>, n: nat): (t: seq<T>)
    ensures |t| == (if |s| <= n then |s| else n) && t == s[|s| - |t|..]
  {
    if |s| <= n then s else s[|s| - n..]
  }

  predicate Repeats(marks: seq<Mark>, n: Notice)
  {
    exists m | m in marks :: m.at >= n.at - DEDUPE_WINDOW && m.fingerprint == n.fingerprint
  }

  function Since(told: seq<Told>, moment: real): nat
  {
    if told == [] then 0 else Since(told[..|told| - 1], moment) + if told[|told| - 1].at >= moment then 1 else 0
  }

  predicate OverLimit(told: seq<Told>, moment: real, cap: int)
  {
    cap > 0 && Since(Tail(told, 256), moment - HOUR) >= cap
  }

  function Decide(s: State, n: Notice, quiet: bool, rules: Rules): Verdict
  {
    if Repeats(Tail(s.marks, 64), n) then Drop
    else if n.importance < rules.minImportance then Drop
    else if n.importance >= CRITICAL then Deliver
    else if quiet then Hold
    else if s.gaming && rules.suppressWhileGaming then Hold
    else if OverLimit(s.told, n.at, rules.maxPerHour) then Hold
    else Deliver
  }

  /** Heard are the notices that are new and important enough, if they are critical or if nothing holds them
      back; kept for later are the others that are new and important enough. */
  lemma VerdictIff(s: State, n: Notice, quiet: bool, rules: Rules)
    ensures var wanted := !Repeats(Tail(s.marks, 64), n) && n.importance >= rules.minImportance;
            var limited := OverLimit(s.told, n.at, rules.maxPerHour);
            var open := !quiet && !(s.gaming && rules.suppressWhileGaming) && !limited;
            && (Decide(s, n, quiet, rules).Deliver? <==> wanted && (n.importance >= CRITICAL || open))
            && (Decide(s, n, quiet, rules).Hold? <==> wanted && n.importance < CRITICAL && !open)
  {
  }

  datatype Step =
    | Consider(notice: Notice, quiet: bool, rules: Rules)
    | Release(limit: int, now: real)
    | DropHeld
    | SetGaming(playing: bool)

  /** More important first, then older first. */
  predicate Before(a: Notice, b: Notice)
  {
    a.importance > b.importance || (a.importance == b.importance && a.at <= b.at)
  }

  function Insert(n: Notice, ordered: seq<Notice>): (longer: seq<Notice>)
    ensures |longer| == |ordered| + 1
  {
    if ordered == [] || Before(ordered[|ordered| - 1], n) then ordered + [n]
    else Insert(n, ordered[..|ordered| - 1]) + [ordered[|ordered| - 1]]
  }

  function Ordered(held: seq<Notice>): (ordered: seq<Notice>)
    ensures |ordered| == |held|
  {
    if held == [] then [] else Insert(held[|held| - 1], Ordered(held[..|held| - 1]))
  }

  /** How many elements `s[:limit]` has. */
  function Cut(length: nat, limit: int): (n: nat)
    ensures n <= length
  {
    if limit < 0 then (if length + limit < 0 then 0 else length + limit) else if limit < length then limit else length
  }

  function Released(held: seq<Notice>, limit: int): seq<Notice>
  {
    var ordered := Ordered(held);
    ordered[..Cut(|ordered|, limit)]
  }

  /** What is not in the batch, by equality of notices. */
  function Kept(held: seq<Notice>, batch: seq<Notice>): seq<Notice>
  {
    if held == [] then []
    else Kept(held[..|held| - 1], batch) + if held[|held| - 1] in batch then [] else [held[|held| - 1]]
  }

  function Repeat(now: real, n: nat): (told: seq<Told>)
    ensures |told| == n && forall t | t in told :: t == Told(now, false)
  {
    seq(n, _ => Told(now, false))
  }

  function Next(s: State, step: Step): State
  {
    match step
    case Consider(n, quiet, rules) =>
      (match Decide(s, n, quiet, rules)
       case Deliver =>
         s.(marks := s.marks + [Mark(n.at, n.fingerprint)], told := s.told + [Told(n.at, n.importance < CRITICAL)])
       case Hold => s.(marks := s.marks + [Mark(n.at, n.fingerprint)], held := s.held + [n])
       case Drop => s)
    case Release(limit, now) =>
      var batch := Released(s.held, limit);
      s.(held := Kept(s.held, batch), told := s.told + Repeat(now, |batch|))
    case DropHeld => s.(held := [])
    case SetGaming(playing) => s.(gaming := playing)
  }

  // ------------------------------------------------------------------------------ repetitions

  predicate Repetition(before: Mark, after: Mark)
  {
    before.fingerprint == after.fingerprint && before.at >= after.at - DEDUPE_WINDOW
  }

  /** Two equal fingerprints within the window have at least 64 other remembered notices between them. */
  ghost predicate Spaced(marks: seq<Mark>)
  {
    forall i, j | 0 <= i < j < |marks| && Repetition(marks[i], marks[j]) :: j - i > 64
  }

  lemma MarkKeepsSpaced(marks: seq<Mark>, n: Notice)
    requires Spaced(marks) && !Repeats(Tail(marks, 64), n)
    ensures Spaced(marks + [Mark(n.at, n.fingerprint)])
  {
    var recent := Tail(marks, 64);
    forall i | 0 <= i < |marks| && |marks| - i <= 64
      ensures marks[i] in recent
    {
      assert marks[i] == recent[i - (|marks| - |recent|)];
    }
  }

  lemma StepSpaced(s: State, step: Step)
    requires Spaced(s.marks)
    ensures Spaced(Next(s, step).marks)
  {
    if step.Consider? && !Decide(s, step.notice, step.quiet, step.rules).Drop? {
      MarkKeepsSpaced(s.marks, step.notice);
    }
  }

  function After(s: State, steps: seq<Step>): State
    decreases |steps|
  {
    if steps == [] then s else After(Next(s, steps[0]), steps[1..])
  }

  lemma {:induction false} RunSpaced(s: State, steps: seq<Step>)
    requires Spaced(s.marks)
    ensures Spaced(After(s, steps).marks)
    decreases |steps|
  {
    if steps != [] {
      StepSpaced(s, steps[0]);
      RunSpaced(Next(s, steps[0]), steps[1..]);
    }
  }

  /** Over every run, whatever was delivered, held, dropped or released in between, and in whatever order the
      times come. */
  lemma DuplicatesAreSpaced(steps: seq<Step>, i: nat, j: nat)
    requires var marks := After(START, steps).marks;
             i < j < |marks| && Repetition(marks[i], marks[j])
    ensures j - i > 64
  {
    RunSpaced(START, steps);
  }

  // ---------------------------------------------------------------------------- the hourly limit

  ghost predicate Rising(told: seq<Told>) { forall i, j | 0 <= i < j < |told| :: told[i].at <= told[j].at }

  /** How many limited deliveries lie in the closed window. */
  function Within(told: seq<Told>, from: real, to: real): nat
  {
    if told == [] then 0
    else
      var last := told[|told| - 1];
      Within(told[..|told| - 1], from, to) + if last.limited && from <= last.at <= to then 1 else 0
  }

  function InHour(told: seq<Told>, from: real): nat { Within(told, from, from + HOUR) }

  ghost predicate Bounded(told: seq<Told>, cap: nat) { forall from :: InHour(told, from) <= cap }

  lemma {:induction false} SinceConcat(a: seq<Told>, b: seq<Told>, moment: real)
    ensures Since(a + b, moment) == Since(a, moment) + Since(b, moment)
  {
    if b == [] {
      assert a + b == a;
    } else {
      SinceConcat(a, b[..|b| - 1], moment);
      assert (a + b)[..|a + b| - 1] == a + b[..|b| - 1];
    }
  }

  lemma {:induction false} SinceFull(told: seq<Told>, moment: real)
    ensures Since(told, moment) <= |told|
    ensures Since(told, moment) == |told| <==> forall i | 0 <= i < |told| :: told[i].at >= moment
  {
    if told != [] {
      SinceFull(told[..|told| - 1], moment);
    }
  }

  lemma {:induction false} SinceNone(told: seq<Told>, moment: real)
    requires forall i | 0 <= i < |told| :: told[i].at < moment
    ensures Since(told, moment) == 0
  {
    if told != [] {
      SinceNone(told[..|told| - 1], moment);
    }
  }

  /** Forgetting all but the newest `n` does not change a count that is below `n`. */
  lemma TailSuffices(told: seq<Told>, n: nat, moment: real)
    requires Rising(told) && Since(Tail(told, n), moment) < n
    ensures Since(told, moment) == Since(Tail(told, n), moment)
  {
    if |told| > n {
      var head, tail := told[..|told| - n], Tail(told, n);
      assert told == head + tail;
      HeadIsOld(head, tail, moment);
    }
  }

  lemma HeadIsOld(head: seq<Told>, tail: seq<Told>, moment: real)
    requires Rising(head + tail) && Since(tail, moment) < |tail|
    ensures Since(head + tail, moment) == Since(tail, moment)
  {
    SinceConcat(head, tail, moment);
    SinceFull(tail, moment);
    var k :| 0 <= k < |tail| && tail[k].at < moment;
    forall i | 0 <= i < |head|
      ensures head[i].at < moment
    {
      assert (head + tail)[i] == head[i] && (head + tail)[|head| + k] == tail[k];
    }
    SinceNone(head, moment);
  }

  lemma {:induction false} WithinSince(told: seq<Told>, from: real, to: real, moment: real)
    requires moment <= from
    ensures Within(told, from, to) <= Since(told, moment)
  {
    if told != [] {
      WithinSince(told[..|told| - 1], from, to, moment);
    }
  }

  /** When the limit lets a delivery through, fewer than the limit were told in the hour before. */
  lemma LetThrough(told: seq<Told>, at: real, limit: int, cap: nat)
    requires Rising(told) && !OverLimit(told, at, limit) && 0 < limit <= cap <= 256
    ensures Since(told, at - HOUR) < cap
  {
    TailSuffices(told, 256, at - HOUR);
  }

  /** A delivery the limit let through keeps every window within the limit. */
  lemma TellingKeepsBound(told: seq<Told>, cap: nat, at: real)
    requires Bounded(told, cap) && Since(told, at - HOUR) < cap
    ensures Bounded(told + [Told(at, true)], cap)
  {
    var more := told + [Told(at, true)];
    assert more[..|told|] == told;
    forall from
      ensures InHour(more, from) <= cap
    {
      assert InHour(told, from) <= cap;
      if from <= at <= from + HOUR {
        WithinSince(told, from, from + HOUR, at - HOUR);
      }
    }
  }

  lemma UnlimitedKeepsBound(told: seq<Told>, cap: nat, t: Told)
    requires Bounded(told, cap) && !t.limited
    ensures Bounded(told + [t], cap)
  {
    var more := told + [t];
    assert more[..|told|] == told;
    forall from
      ensures InHour(more, from) <= cap
    {
      assert InHour(told, from) <= cap;
    }
  }

  lemma {:induction false} BatchKeepsBound(told: seq<Told>, cap: nat, now: real, n: nat)
    requires Bounded(told, cap)
    ensures Bounded(told + Repeat(now, n), cap)
  {
    if n == 0 {
      assert told + Repeat(now, 0) == told;
    } else {
      BatchKeepsBound(told, cap, now, n - 1);
      UnlimitedKeepsBound(told + Repeat(now, n - 1), cap, Told(now, false));
      assert told + Repeat(now, n) == told + Repeat(now, n - 1) + [Told(now, false)];
    }
  }

  /** Nothing is told in the past of what was told before. */
  ghost predicate Timely(s: State, step: Step)
  {
    match step
    case Consider(n, _, _) => forall t | t in s.told :: t.at <= n.at
    case Release(_, now) => forall t | t in s.told :: t.at <= now
    case _ => true
  }

  lemma RisingConcat(told: seq<Told>, more: seq<Told>, at: real)
    requires Rising(told) && (forall t | t in told :: t.at <= at) && forall t | t in more :: t.at == at
    ensures Rising(told + more)
  {
    forall i, j | 0 <= i < j < |told + more|
      ensures (told + more)[i].at <= (told + more)[j].at
    {
      assert i < |told| ==> told[i] in told;
      assert i >= |told| ==> more[i - |told|] in more;
      assert j >= |told| ==> more[j - |told|] in more;
    }
  }

  lemma StepBounded(s: State, step: Step, cap: nat)
    requires Rising(s.told) && Bounded(s.told, cap) && Timely(s, step) && cap <= 256
    requires step.Consider? ==> 0 < step.rules.maxPerHour <= cap
    ensures Rising(Next(s, step).told) && Bounded(Next(s, step).told, cap)
  {
    match step
    case Consider(n, quiet, rules) =>
      if Decide(s, n, quiet, rules).Deliver? {
        RisingConcat(s.told, [Told(n.at, n.importance < CRITICAL)], n.at);
        if n.importance < CRITICAL {
          LetThrough(s.told, n.at, rules.maxPerHour, cap);
          TellingKeepsBound(s.told, cap, n.at);
        } else {
          UnlimitedKeepsBound(s.told, cap, Told(n.at, false));
        }
      }
    case Release(limit, now) =>
      var batch := Repeat(now, |Released(s.held, limit)|);
      RisingConcat(s.told, batch, now);
      BatchKeepsBound(s.told, cap, now, |Released(s.held, limit)|);
    case _ =>
  }

  ghost predicate AlwaysTimely(s: State, steps: seq<Step>)
    decreases |steps|
  {
    steps == [] || (Timely(s, steps[0]) && AlwaysTimely(Next(s, steps[0]), steps[1..]))
  }

  /** The limit is on and at most `cap` at every step. */
  predicate Capped(steps: seq<Step>, cap: int)
  {
    forall i | 0 <= i < |steps| && steps[i].Consider? :: 0 < steps[i].rules.maxPerHour <= cap
  }

  lemma {:induction false} RunBounded(s: State, steps: seq<Step>, cap: nat)
    requires Rising(s.told) && Bounded(s.told, cap) && AlwaysTimely(s, steps) && Capped(steps, cap) && cap <= 256
    ensures Rising(After(s, steps).told) && Bounded(After(s, steps).told, cap)
    decreases |steps|
  {
    if steps != [] {
      StepBounded(s, steps[0], cap);
      RunBounded(Next(s, steps[0]), steps[1..], cap);
    }
  }

  /** Over every run with rising times and a limit between 1 and `cap`, `cap` at most 256: no closed hour
      holds more than `cap` deliveries the limit applies to, although only the newest 256 are remembered,
      and critical and released notices take places among them. */
  lemma HourlyLimitHolds(steps: seq<Step>, cap: nat, from: real)
    requires AlwaysTimely(START, steps) && Capped(steps, cap) && cap <= 256
    ensures InHour(After(START, steps).told, from) <= cap
  {
    forall at ensures InHour([], at) <= cap { }
    RunBounded(START, steps, cap);
  }

  lemma {:induction false} AfterMore(s: State, steps: seq<Step>, step: Step)
    ensures After(s, steps + [step]) == Next(After(s, steps), step)
    ensures AlwaysTimely(s, steps + [step]) <==> AlwaysTimely(s, steps) && Timely(After(s, steps), step)
    decreases |steps|
  {
    if steps == [] {
      assert [step][1..] == [];
    } else {
      AfterMore(Next(s, steps[0]), steps[1..], step);
      assert (steps + [step])[1..] == steps[1..] + [step];
    }
  }

  /** One of many notices that differ in nothing but their text, all at the same moment. */
  function Nth(i: nat): Notice
  {
    var text := seq(i, _ => 'x');
    Notice(text, 3, "", 0.0, text)
  }

  lemma NthDiffers(i: nat, j: nat)
    requires i != j
    ensures Nth(i).fingerprint != Nth(j).fingerprint
  {
    assert |Nth(i).fingerprint| != |Nth(j).fingerprint|;
  }

  /** The first `n` of these notices, one after another. */
  function Flood(n: nat, quiet: bool, cap: int): (steps: seq<Step>)
    ensures |steps| == n && forall i | 0 <= i < n :: steps[i] == Consider(Nth(i), quiet, Rules(0, false, cap))
  {
    if n == 0 then [] else Flood(n - 1, quiet, cap) + [Consider(Nth(n - 1), quiet, Rules(0, false, cap))]
  }

  function Flooded(n: nat, quiet: bool): State
  {
    State(seq(n, i requires i >= 0 => Mark(0.0, Nth(i).fingerprint)),
          if quiet then [] else seq(n, _ => Told(0.0, true)),
          if quiet then seq(n, i requires i >= 0 => Nth(i)) else [],
          false)
  }

  lemma NewToTheWindow(marks: seq<Mark>, n: Notice)
    requires forall i | 0 <= i < |marks| :: marks[i].fingerprint != n.fingerprint
    ensures !Repeats(Tail(marks, 64), n)
  {
    forall m | m in Tail(marks, 64)
      ensures m.fingerprint != n.fingerprint
    {
      var i :| 0 <= i < |Tail(marks, 64)| && Tail(marks, 64)[i] == m;
      assert m == marks[|marks| - |Tail(marks, 64)| + i];
    }
  }

  lemma NeverOver(told: seq<Told>, moment: real, cap: int)
    requires cap <= 0 || cap > 256
    ensures !OverLimit(told, moment, cap)
  {
    SinceFull(Tail(told, 256), moment - HOUR);
  }

  lemma FloodedVerdict(n: nat, quiet: bool, cap: int)
    requires quiet || cap <= 0 || cap > 256
    ensures Decide(Flooded(n, quiet), Nth(n), quiet, Rules(0, false, cap)) == if quiet then Hold else Deliver
  {
    var s := Flooded(n, quiet);
    forall i | 0 <= i < n
      ensures s.marks[i].fingerprint != Nth(n).fingerprint
    {
      NthDiffers(i, n);
    }
    NewToTheWindow(s.marks, Nth(n));
    if !quiet {
      NeverOver(s.told, 0.0, cap);
    }
  }

  lemma FloodedNext(n: nat, quiet: bool, cap: int)
    requires quiet || cap <= 0 || cap > 256
    ensures Next(Flooded(n, quiet), Consider(Nth(n), quiet, Rules(0, false, cap))) == Flooded(n + 1, quiet)
  {
    FloodedVerdict(n, quiet, cap);
    FloodedGrows(n, quiet, Nth(n));
  }

  lemma FloodedGrows(n: nat, quiet: bool, notice: Notice)
    requires notice == Nth(n)
    ensures Flooded(n + 1, quiet).marks == Flooded(n, quiet).marks + [Mark(0.0, notice.fingerprint)]
    ensures Flooded(n + 1, quiet).told == if quiet then [] else Flooded(n, quiet).told + [Told(0.0, true)]
    ensures Flooded(n + 1, quiet).held == if quiet then Flooded(n, quiet).held + [notice] else []
  {
  }

  /** Such a run is all heard, or all held if it is quiet, unless a limit the gate can count to is on. */
  lemma {:induction false} FloodRuns(n: nat, quiet: bool, cap: int, steps: seq<Step>)
    requires (quiet || cap <= 0 || cap > 256) && steps == Flood(n, quiet, cap)
    ensures RunsTo(steps, Flooded(n, quiet))
  {
    if n > 0 {
      var rest, step := Flood(n - 1, quiet, cap), Consider(Nth(n - 1), quiet, Rules(0, false, cap));
      FloodRuns(n - 1, quiet, cap, rest);
      FloodedNext(n - 1, quiet, cap);
      RunsOneMore(rest, Flooded(n - 1, quiet), step, Flooded(n, quiet));
    }
  }

  ghost predicate RunsTo(steps: seq<Step>, s: State) { After(START, steps) == s && AlwaysTimely(START, steps) }

  lemma RunsOneMore(steps: seq<Step>, s: State, step: Step, t: State)
    requires RunsTo(steps, s) && Timely(s, step) && t == Next(s, step)
    ensures RunsTo(steps + [step], t)
  {
    AfterMore(START, steps, step);
  }

  lemma {:induction false} AllInHour(told: seq<Told>)
    requires forall i | 0 <= i < |told| :: told[i] == Told(0.0, true)
    ensures InHour(told, 0.0) == |told|
  {
    if told != [] {
      AllInHour(told[..|told| - 1]);
    }
  }

  predicate Fixed(steps: seq<Step>, cap: int)
  {
    forall i | 0 <= i < |steps| && steps[i].Consider? :: steps[i].rules.maxPerHour == cap
  }

  /** With the limit `cap` at every step, this run keeps it. */
  ghost predicate KeepsLimit(steps: seq<Step>, cap: int)
  {
    AlwaysTimely(START, steps) && Fixed(steps, cap) ==> forall from :: InHour(After(START, steps).told, from) <= cap
  }

  /** A fixed limit is kept by every run with rising times if and only if the gate can count to it: 0 and
      less mean no limit, and above 256 the limit never binds, so `cap + 1` notices in one moment are all
      heard. */
  lemma HourlyLimitIff(cap: int)
    ensures (forall steps :: KeepsLimit(steps, cap)) <==> 1 <= cap <= 256
  {
    if 1 <= cap <= 256 {
      forall steps
        ensures KeepsLimit(steps, cap)
      {
        LimitKept(steps, cap);
      }
    } else {
      var n := if cap < 0 then 1 else cap + 1;
      FloodBreaksLimit(n, cap, Flood(n, false, cap), Flooded(n, false));
    }
  }

  lemma FloodBreaksLimit(n: nat, cap: int, steps: seq<Step>, s: State)
    requires (cap <= 0 || cap > 256) && n > cap && steps == Flood(n, false, cap) && s == Flooded(n, false)
    ensures !KeepsLimit(steps, cap)
  {
    FloodRuns(n, false, cap, steps);
    FloodedHour(n, s);
    assert Fixed(steps, cap);
  }

  lemma FloodedHour(n: nat, s: State)
    requires s == Flooded(n, false)
    ensures InHour(s.told, 0.0) == n
  {
    AllInHour(s.told);
  }

  lemma LimitKept(steps: seq<Step>, cap: int)
    requires 1 <= cap <= 256
    ensures KeepsLimit(steps, cap)
  {
    if AlwaysTimely(START, steps) && Capped(steps, cap) {
      forall from
        ensures InHour(After(START, steps).told, from) <= cap
      {
        HourlyLimitHolds(steps, cap, from);
      }
    }
  }

  // --------------------------------------------------------------------------- what was held

  ghost predicate Sorted(s: seq<Notice>) { forall i, j | 0 <= i < j < |s| :: Before(s[i], s[j]) }

  lemma SortedLonger(s: seq<Notice>, last: Notice)
    requires Sorted(s) && forall x | x in s :: Before(x, last)
    ensures Sorted(s + [last])
  {
  }

  lemma {:induction false} InsertSorted(n: Notice, ordered: seq<Notice>)
    requires Sorted(ordered)
    ensures Sorted(Insert(n, ordered)) && multiset(Insert(n, ordered)) == multiset(ordered) + multiset{n}
  {
    if ordered != [] && !Before(ordered[|ordered| - 1], n) {
      var rest, last := ordered[..|ordered| - 1], ordered[|ordered| - 1];
      InsertSorted(n, rest);
      assert ordered == rest + [last];
      forall x | x in Insert(n, rest)
        ensures Before(x, last)
      {
        assert x in multiset(rest) + multiset{n};
        if x in rest { FrontFirst(rest, [last], x, last); }
      }
      SortedLonger(Insert(n, rest), last);
    }
  }

  lemma {:induction false} OrderedMeans(held: seq<Notice>)
    ensures Sorted(Ordered(held)) && multiset(Ordered(held)) == multiset(held)
  {
    if held != [] {
      var rest, last := held[..|held| - 1], held[|held| - 1];
      OrderedMeans(rest);
      InsertSorted(last, Ordered(rest));
      assert held == rest + [last];
    }
  }

  lemma {:induction false} KeptCount(held: seq<Notice>, batch: seq<Notice>, n: Notice)
    ensures multiset(Kept(held, batch))[n] == if n in batch then 0 else multiset(held)[n]
  {
    if held != [] {
      var rest, last := held[..|held| - 1], held[|held| - 1];
      KeptCount(rest, batch, n);
      assert held == rest + [last];
      assert multiset(held) == multiset(rest) + multiset{last};
      assert multiset(Kept(held, batch))
          == multiset(Kept(rest, batch)) + multiset(if last in batch then [] else [last]);
    }
  }

  /** A batch and what was cut off behind it, against what is kept. */
  lemma BatchCount(held: seq<Notice>, batch: seq<Notice>, cut: seq<Notice>, n: Notice)
    requires multiset(batch) + multiset(cut) == multiset(held)
    ensures multiset(held)[n]
         == multiset(batch)[n] + multiset(Kept(held, batch))[n] + if n in batch then multiset(cut)[n] else 0
  {
    KeptCount(held, batch, n);
    assert (multiset(batch) + multiset(cut))[n] == multiset(held)[n];
    assert n in batch <==> n in multiset(batch);
  }

  lemma ConservedIff(held: seq<Notice>, batch: seq<Notice>, cut: seq<Notice>)
    requires multiset(batch) + multiset(cut) == multiset(held)
    ensures multiset(batch) + multiset(Kept(held, batch)) == multiset(held) <==> !Share(batch, cut)
  {
    var all, left := multiset(held), multiset(batch) + multiset(Kept(held, batch));
    if !Share(batch, cut) {
      forall n
        ensures all[n] == left[n]
      {
        BatchCount(held, batch, cut, n);
        assert n in cut <==> n in multiset(cut);
      }
      assert left == all;
    } else {
      var n :| n in cut && n in batch;
      BatchCount(held, batch, cut, n);
      assert n in multiset(cut);
      assert all[n] != left[n];
    }
  }

  lemma KeptIsCut(held: seq<Notice>, batch: seq<Notice>, cut: seq<Notice>, b: Notice)
    requires multiset(batch) + multiset(cut) == multiset(held) && b in Kept(held, batch)
    ensures b in cut && b !in batch
  {
    BatchCount(held, batch, cut, b);
    KeptCount(held, batch, b);
    assert b in multiset(Kept(held, batch));
    assert b in multiset(cut);
  }

  lemma FrontFirst(front: seq<Notice>, back: seq<Notice>, a: Notice, b: Notice)
    requires Sorted(front + back) && a in front && b in back
    ensures Before(a, b)
  {
    var i :| 0 <= i < |front| && front[i] == a;
    var j :| 0 <= j < |back| && back[j] == b;
    assert (front + back)[i] == a && (front + back)[|front| + j] == b;
  }

  /** The notice at `j` is handed over before the one at `i`: it is more important, or older, or was held
      earlier. */
  predicate Ahead(held: seq<Notice>, j: nat, i: nat)
    requires i < |held| && j < |held|
  {
    if j < i then Before(held[j], held[i]) else !Before(held[i], held[j])
  }

  /** How many of the first `n` are handed over before the one at `i`. */
  function RankAmong(held: seq<Notice>, n: nat, i: nat): (rank: nat)
    requires i < |held| && n <= |held|
    ensures rank <= n
  {
    if n == 0 then 0 else RankAmong(held, n - 1, i) + if n - 1 != i && Ahead(held, n - 1, i) then 1 else 0
  }

  function Rank(held: seq<Notice>, i: nat): nat
    requires i < |held|
  {
    RankAmong(held, |held|, i)
  }

  /** The limit falls between two equal notices. */
  ghost predicate Splits(held: seq<Notice>, limit: int) { SplitAt(held, Cut(|held|, limit)) }

  ghost predicate SplitAt(held: seq<Notice>, cut: nat)
  {
    exists i: nat, j: nat | i < |held| && j < |held| :: SplitBy(held, cut, i, j)
  }

  predicate SplitBy(held: seq<Notice>, cut: nat, i: nat, j: nat)
    requires i < |held| && j < |held|
  {
    held[i] == held[j] && Rank(held, i) < cut <= Rank(held, j)
  }

  lemma {:induction false} RankAmongPrefix(held: seq<Notice>, more: seq<Notice>, n: nat, i: nat)
    requires i < |held| && n <= |held| && held <= more
    ensures RankAmong(held, n, i) == RankAmong(more, n, i)
  {
    if n > 0 {
      RankAmongPrefix(held, more, n - 1, i);
    }
  }

  /** How many of an ordered list come before a newcomer. */
  function Place(ordered: seq<Notice>, n: Notice): (place: nat)
    ensures place <= |ordered|
  {
    if ordered == [] || Before(ordered[|ordered| - 1], n) then |ordered| else Place(ordered[..|ordered| - 1], n)
  }

  lemma {:induction false} InsertPlaces(n: Notice, ordered: seq<Notice>)
    requires Sorted(ordered)
    ensures Insert(n, ordered) == ordered[..Place(ordered, n)] + [n] + ordered[Place(ordered, n)..]
    ensures forall k | 0 <= k < |ordered| :: k < Place(ordered, n) <==> Before(ordered[k], n)
  {
    if ordered != [] && !Before(ordered[|ordered| - 1], n) {
      var rest, last := ordered[..|ordered| - 1], ordered[|ordered| - 1];
      InsertPlaces(n, rest);
      assert rest[Place(rest, n)..] + [last] == ordered[Place(rest, n)..];
    } else if ordered != [] {
      forall k | 0 <= k < |ordered|
        ensures Before(ordered[k], n)
      {
        assert k < |ordered| - 1 ==> Before(ordered[k], ordered[|ordered| - 1]);
      }
    }
  }

  /** How many of the first `n` notices come before a later one. */
  function Earlier(held: seq<Notice>, n: Notice): nat
  {
    if held == [] then 0 else Earlier(held[..|held| - 1], n) + if Before(held[|held| - 1], n) then 1 else 0
  }

  lemma {:induction false} EarlierInsert(x: Notice, ordered: seq<Notice>, n: Notice)
    ensures Earlier(Insert(x, ordered), n) == Earlier(ordered, n) + if Before(x, n) then 1 else 0
  {
    if ordered == [] || Before(ordered[|ordered| - 1], x) {
      assert (ordered + [x])[..|ordered|] == ordered;
    } else {
      var rest, last := ordered[..|ordered| - 1], ordered[|ordered| - 1];
      EarlierInsert(x, rest, n);
      assert (Insert(x, rest) + [last])[..|Insert(x, rest)|] == Insert(x, rest);
    }
  }

  lemma {:induction false} EarlierOrdered(held: seq<Notice>, n: Notice)
    ensures Earlier(Ordered(held), n) == Earlier(held, n)
  {
    if held != [] {
      var m := |held| - 1;
      EarlierOrdered(held[..m], n);
      EarlierInsert(held[m], Ordered(held[..m]), n);
    }
  }

  lemma {:induction false} EarlierIsPlace(ordered: seq<Notice>, n: Notice)
    requires Sorted(ordered)
    ensures Earlier(ordered, n) == Place(ordered, n)
  {
    if ordered != [] {
      var rest := ordered[..|ordered| - 1];
      EarlierIsPlace(rest, n);
      InsertPlaces(n, ordered);
      InsertPlaces(n, rest);
      if Before(ordered[|ordered| - 1], n) && rest != [] {
        assert Before(ordered[|rest| - 1], n);
      }
    }
  }

  lemma {:induction false} EarlierIsRank(held: seq<Notice>, n: nat)
    requires n < |held|
    ensures Earlier(held[..n], held[n]) == RankAmong(held, n, n)
  {
    EarlierIsRankAmong(held, n, n);
  }

  lemma {:induction false} EarlierIsRankAmong(held: seq<Notice>, k: nat, n: nat)
    requires k <= n < |held|
    ensures Earlier(held[..k], held[n]) == RankAmong(held, k, n)
  {
    if k > 0 {
      EarlierIsRankAmong(held, k - 1, n);
      assert held[..k][..k - 1] == held[..k - 1];
    }
  }

  /** The newest notice goes to its rank, and pushes back those that are not before it. */
  lemma NewestPlaced(held: seq<Notice>)
    requires held != []
    ensures var m := |held| - 1;
            var place := Rank(held, m);
            && place <= m
            && Ordered(held) == Ordered(held[..m])[..place] + [held[m]] + Ordered(held[..m])[place..]
            && (forall k | 0 <= k < m :: k < place <==> Before(Ordered(held[..m])[k], held[m]))
            && (forall i | 0 <= i < m ::
                  Rank(held, i) == Rank(held[..m], i) + if Before(held[i], held[m]) then 0 else 1)
  {
    var m := |held| - 1;
    var rest := held[..m];
    OrderedMeans(rest);
    InsertPlaces(held[m], Ordered(rest));
    EarlierIsPlace(Ordered(rest), held[m]);
    EarlierOrdered(rest, held[m]);
    EarlierIsRank(held, m);
    forall i | 0 <= i < m
      ensures Rank(held, i) == Rank(rest, i) + if Before(held[i], held[m]) then 0 else 1
    {
      RankAmongPrefix(rest, held, m, i);
    }
  }

  /** Every notice is handed over at its rank. */
  lemma {:induction false} Ranked(held: seq<Notice>, i: nat)
    requires i < |held|
    ensures Rank(held, i) < |held| && Ordered(held)[Rank(held, i)] == held[i]
  {
    NewestPlaced(held);
    var m := |held| - 1;
    if i < m {
      Ranked(held[..m], i);
    }
  }

  /** Every place is some notice's rank. */
  lemma {:induction false} Unranked(held: seq<Notice>, p: nat) returns (i: nat)
    requires p < |held|
    ensures i < |held| && Rank(held, i) == p && Ordered(held)[p] == held[i]
  {
    NewestPlaced(held);
    var m := |held| - 1;
    var place := Rank(held, m);
    if p == place {
      i := m;
    } else {
      i := Unranked(held[..m], if p < place then p else p - 1);
    }
  }

  /** Releasing hands over the most important notices, oldest first, and never keeps one that was handed
      over. It loses none exactly when the limit does not fall between equal notices. */
  lemma ReleaseConservesIff(held: seq<Notice>, limit: int, batch: seq<Notice>)
    requires batch == Released(held, limit)
    ensures |batch| == Cut(|held|, limit)
    ensures forall a, b | a in batch && b in Kept(held, batch) :: Before(a, b) && a != b
    ensures multiset(batch) + multiset(Kept(held, batch)) == multiset(held) <==> !Splits(held, limit)
  {
    var ordered := Ordered(held);
    var cut := ordered[|batch|..];
    OrderedMeans(held);
    Rejoined(ordered, Cut(|ordered|, limit), batch, cut);
    CutMeans(held, batch, cut);
    SplitsMeans(held, batch, cut);
  }

  predicate Share(batch: seq<Notice>, cut: seq<Notice>) { exists n :: n in cut && n in batch }

  lemma SplitsMeans(held: seq<Notice>, batch: seq<Notice>, cut: seq<Notice>)
    requires batch + cut == Ordered(held)
    ensures SplitAt(held, |batch|) <==> Share(batch, cut)
  {
    if SplitAt(held, |batch|) {
      var i: nat, j: nat :| i < |held| && j < |held| && SplitBy(held, |batch|, i, j);
      SplitIsShared(held, i, j, batch, cut);
    }
    if Share(batch, cut) {
      var n :| n in cut && n in batch;
      SharedIsSplit(held, n, batch, cut);
    }
  }

  lemma SplitIsShared(held: seq<Notice>, i: nat, j: nat, batch: seq<Notice>, cut: seq<Notice>)
    requires batch + cut == Ordered(held) && i < |held| && j < |held| && SplitBy(held, |batch|, i, j)
    ensures held[i] in cut && held[i] in batch
  {
    Ranked(held, i);
    Ranked(held, j);
    InBoth(batch, cut, Rank(held, i), Rank(held, j), held[i]);
  }

  lemma InBoth(batch: seq<Notice>, cut: seq<Notice>, p: nat, q: nat, n: Notice)
    requires p < |batch| <= q < |batch + cut| && (batch + cut)[p] == n && (batch + cut)[q] == n
    ensures n in batch && n in cut
  {
    assert batch[p] == n && cut[q - |batch|] == n;
  }

  lemma SharedIsSplit(held: seq<Notice>, n: Notice, batch: seq<Notice>, cut: seq<Notice>)
    requires batch + cut == Ordered(held) && n in cut && n in batch
    ensures SplitAt(held, |batch|)
  {
    var p: nat :| p < |batch| && batch[p] == n;
    var q: nat :| q < |cut| && cut[q] == n;
    var i := Unranked(held, p);
    var j := Unranked(held, |batch| + q);
    Positions(batch, cut, p, q);
    assert SplitBy(held, |batch|, i, j);
  }

  lemma Positions(batch: seq<Notice>, cut: seq<Notice>, p: nat, q: nat)
    requires p < |batch| && q < |cut|
    ensures (batch + cut)[p] == batch[p] && (batch + cut)[|batch| + q] == cut[q]
  {
  }

  /** A run of the gate: the same notice is held twice, since 64 others came between, and releasing one notice
      makes both of them disappear from what is held, while only one is handed over. */
  lemma ReleaseLosesANotice(cap: int)
    ensures var steps := Flood(65, true, cap) + [Consider(Nth(0), true, Rules(0, false, cap))];
            var held := After(START, steps).held;
            var batch := Released(held, 1);
            && AlwaysTimely(START, steps) && batch == [Nth(0)]
            && multiset(held)[Nth(0)] == 2 && multiset(Kept(held, batch))[Nth(0)] == 0
  {
    FloodRuns(65, true, cap, Flood(65, true, cap));
    AfterMore(START, Flood(65, true, cap), Consider(Nth(0), true, Rules(0, false, cap)));
    HeldAgain(cap);
    var held := Flooded(65, true).held + [Nth(0)];
    TwiceHeld(held);
    KeptCount(held, [Nth(0)], Nth(0));
  }

  /** The window that suppresses repetitions has forgotten the first of 65 notices. */
  lemma HeldAgain(cap: int)
    ensures Next(Flooded(65, true), Consider(Nth(0), true, Rules(0, false, cap))).held
         == Flooded(65, true).held + [Nth(0)]
  {
    var s := Flooded(65, true);
    forall i | 0 <= i < 64
      ensures s.marks[1..][i].fingerprint != Nth(0).fingerprint
    {
      NthDiffers(i + 1, 0);
    }
    NewToTheWindow(s.marks[1..], Nth(0));
    assert Tail(s.marks, 64) == s.marks[1..] == Tail(s.marks[1..], 64);
  }

  lemma TwiceHeld(held: seq<Notice>)
    requires held == Flooded(65, true).held + [Nth(0)]
    ensures Released(held, 1) == [Nth(0)] && multiset(held)[Nth(0)] == 2
  {
    RankOfTies(held, |held|, 0);
    Ranked(held, 0);
    assert held[0] == Nth(0);
    forall i | 1 <= i < 65
      ensures held[i] != Nth(0)
    {
      NthDiffers(i, 0);
    }
    FirstAndLast(held, Nth(0));
  }

  lemma FirstAndLast(held: seq<Notice>, n: Notice)
    requires |held| >= 2 && held[0] == n == held[|held| - 1]
    requires forall i | 1 <= i < |held| - 1 :: held[i] != n
    ensures multiset(held)[n] == 2
  {
    var middle := held[1..|held| - 1];
    assert n !in middle;
    assert held == [n] + middle + [n];
  }

  lemma {:induction false} RankOfTies(held: seq<Notice>, n: nat, i: nat)
    requires i < |held| && n <= |held|
    requires forall j, k | 0 <= j < |held| && 0 <= k < |held| :: Before(held[j], held[k])
    ensures RankAmong(held, n, i) == if n <= i then n else i
  {
    if n > 0 {
      RankOfTies(held, n - 1, i);
    }
  }

  lemma Rejoined(ordered: seq<Notice>, n: nat, batch: seq<Notice>, cut: seq<Notice>)
    requires n <= |ordered| && batch == ordered[..n] && cut == ordered[|batch|..]
    ensures batch + cut == ordered
  {
  }

  lemma CutMeans(held: seq<Notice>, batch: seq<Notice>, cut: seq<Notice>)
    requires Sorted(batch + cut) && multiset(batch + cut) == multiset(held)
    ensures forall a, b | a in batch && b in Kept(held, batch) :: Before(a, b) && a != b
    ensures multiset(batch) + multiset(Kept(held, batch)) == multiset(held) <==> !Share(batch, cut)
  {
    ConservedIff(held, batch, cut);
    forall a, b | a in batch && b in Kept(held, batch)
      ensures Before(a, b) && a != b
    {
      KeptIsCut(held, batch, cut, b);
      FrontFirst(batch, cut, a, b);
    }
  }

  // ---------------------------------------------------------------- the rules, told apart from the code

  /** One of the newest 64 remembered notices is the same, not older than a quarter of an hour. */
  predicate HeardOf(marks: seq<Mark>, n: Notice)
  {
    exists i | 0 <= i < |marks| && |marks| - i <= 64 ::
      marks[i].fingerprint == n.fingerprint && marks[i].at >= n.at - 900.0
  }

  lemma RepeatsIff(marks: seq<Mark>, n: Notice)
    ensures Repeats(Tail(marks, 64), n) <==> HeardOf(marks, n)
  {
    var recent := Tail(marks, 64);
    var start := |marks| - |recent|;
    assert forall i | 0 <= i < |recent| :: recent[i] == marks[start + i];
    assert forall i | start <= i < |marks| :: marks[i] == recent[i - start] && marks[i] in recent;
    if Repeats(recent, n) {
      var i :| 0 <= i < |recent| && recent[i].at >= n.at - DEDUPE_WINDOW && recent[i].fingerprint == n.fingerprint;
      assert marks[start + i].fingerprint == n.fingerprint;
    }
  }

  /** The places of what was told since a moment. */
  function PlacesSince(told: seq<Told>, moment: real): set<nat>
  {
    set i | 0 <= i < |told| && told[i].at >= moment :: i
  }

  lemma {:induction false} SinceCounts(told: seq<Told>, moment: real)
    ensures Since(told, moment) == |PlacesSince(told, moment)|
  {
    if told != [] {
      var n := |told| - 1;
      SinceCounts(told[..n], moment);
      assert PlacesSince(told, moment)
          == PlacesSince(told[..n], moment) + if told[n].at >= moment then {n} else {};
    }
  }

  /** With rising times the limit is reached exactly if it lies between 1 and 256 and that many were told within the
      hour; a larger one never is. */
  lemma LimitReachedIff(told: seq<Told>, moment: real, cap: int)
    requires Rising(told)
    ensures OverLimit(told, moment, cap) <==> 0 < cap <= 256 && |PlacesSince(told, moment - 3600.0)| >= cap
  {
    var tail := Tail(told, 256);
    SinceCounts(told, moment - HOUR);
    SinceFull(tail, moment - HOUR);
    SinceConcat(told[..|told| - |tail|], tail, moment - HOUR);
    assert told == told[..|told| - |tail|] + tail;
    if 0 < cap <= 256 && !OverLimit(told, moment, cap) {
      TailSuffices(told, 256, moment - HOUR);
    }
  }

  /** What becomes of a notice: forgotten if it is a repetition or not important enough; heard if it is critical, or
      if it is not quiet, no game keeps it back and the hourly limit is not reached; kept for later otherwise. What is
      heard or kept is remembered, what is heard counts as told, and nothing else changes. */
  lemma ConsiderMeans(s: State, n: Notice, quiet: bool, rules: Rules, next: State)
    requires Rising(s.told) && next == Next(s, Consider(n, quiet, rules))
    ensures var wanted := !HeardOf(s.marks, n) && n.importance >= rules.minImportance;
            var full := 0 < rules.maxPerHour <= 256 && |PlacesSince(s.told, n.at - 3600.0)| >= rules.maxPerHour;
            var free := !quiet && !(s.gaming && rules.suppressWhileGaming) && !full;
            && next.marks == s.marks + (if wanted then [Mark(n.at, n.fingerprint)] else [])
            && next.told
               == s.told + (if wanted && (n.importance >= 5 || free) then [Told(n.at, n.importance < 5)] else [])
            && next.held == s.held + (if wanted && n.importance < 5 && !free then [n] else [])
            && next.gaming == s.gaming
  {
    RepeatsIff(s.marks, n);
    LimitReachedIff(s.told, n.at, rules.maxPerHour);
    VerdictIff(s, n, quiet, rules);
  }

  lemma {:induction false} MarksGrow(s: State, steps: seq<Step>)
    ensures s.marks <= After(s, steps).marks
    decreases |steps|
  {
    if steps != [] {
      MarksGrow(Next(s, steps[0]), steps[1..]);
    }
  }

  /** Whatever was heard or kept, critical or not, is not heard or kept again within a quarter of an hour, as long as
      fewer than 64 others were remembered since. */
  lemma RepetitionIsDropped(s: State, n: Notice, quiet: bool, rules: Rules, steps: seq<Step>, later: State,
                            again: Notice, quiet': bool, rules': Rules)
    requires !Decide(s, n, quiet, rules).Drop? && later == After(Next(s, Consider(n, quiet, rules)), steps)
    requires |later.marks| - |s.marks| <= 64
    requires again.fingerprint == n.fingerprint && n.at >= again.at - 900.0
    ensures Next(later, Consider(again, quiet', rules')) == later
  {
    var next := Next(s, Consider(n, quiet, rules));
    MarksGrow(next, steps);
    assert next.marks[|s.marks|] == Mark(n.at, n.fingerprint) == later.marks[|s.marks|];
    RepeatsIff(later.marks, again);
    assert HeardOf(later.marks, again);
  }

  /** At least as important, and not newer if equally so. */
  predicate NotLess(a: Notice, b: Notice)
  {
    a.importance >= b.importance && (a.importance == b.importance ==> a.at <= b.at)
  }

  lemma BeforeIff(a: Notice, b: Notice)
    ensures Before(a, b) <==> NotLess(a, b)
  {
  }

  lemma SortedFront(ordered: seq<Notice>, n: nat)
    requires Sorted(ordered) && n <= |ordered|
    ensures forall i, j | 0 <= i < j < n :: NotLess(ordered[i], ordered[j])
  {
    forall i, j | 0 <= i < j < n
      ensures NotLess(ordered[i], ordered[j])
    {
      BeforeIff(ordered[i], ordered[j]);
    }
  }

  /** The notices that are handed over come by importance, then by age, and before all that stay. A negative limit
      keeps back that many. */
  lemma ImportantFirst(held: seq<Notice>, limit: int, batch: seq<Notice>, kept: seq<Notice>)
    requires batch == Released(held, limit) && kept == Kept(held, batch)
    ensures |batch| == if limit >= |held| then |held| else if limit >= 0 then limit
                       else if |held| + limit >= 0 then |held| + limit else 0
    ensures forall i, j | 0 <= i < j < |batch| :: NotLess(batch[i], batch[j])
    ensures forall a, b | a in batch && b in kept :: NotLess(a, b)
  {
    OrderedMeans(held);
    SortedFront(Ordered(held), |batch|);
    ReleaseConservesIff(held, limit, batch);
    forall a, b | a in batch && b in kept
      ensures NotLess(a, b)
    {
      BeforeIff(a, b);
    }
  }

  /** A release tells every notice it hands over, at that moment and outside the limit; giving up what is held, or
      starting and ending a game, changes just that. */
  lemma OtherStepsMean(s: State, limit: int, now: real, playing: bool)
    ensures var next, batch := Next(s, Release(limit, now)), Released(s.held, limit);
            && next.marks == s.marks && next.gaming == s.gaming && next.held == Kept(s.held, batch)
            && s.told <= next.told && |next.told| == |s.told| + |batch|
            && forall i | |s.told| <= i < |next.told| :: next.told[i] == Told(now, false)
    ensures Next(s, DropHeld) == State(s.marks, s.told, [], s.gaming)
    ensures Next(s, SetGaming(playing)) == State(s.marks, s.told, s.held, playing)
  {
  }

  // ----------------------------------------------------------------------------- the program

  /** Appending to a bounded queue. */
  lemma TailOfMore<T>(s: seq<T>, x: T, n: nat)
    requires n > 0
    ensures var more := Tail(s, n) + [x];
            Tail(s + [x], n) == if |more| > n then more[1..] else more
  {
  }

  ghost predicate Times(times: seq<real>, told: seq<Told>)
  {
    |times| == |told| && forall i | 0 <= i < |times| :: times[i] == told[i].at
  }

  class NotificationGate {
    var recent: seq<Mark>
    var deliveredAt: seq<real>
    var held: seq<Notice>
    var gaming: bool
    ghost var marks: seq<Mark>
    ghost var told: seq<Told>

    ghost predicate Valid()
      reads this
    {
      && recent == Tail(marks, 64)
      && Times(deliveredAt, Tail(told, 256))
    }

    ghost function View(): State
      reads this
    {
      State(marks, told, held, gaming)
    }

    constructor ()
      ensures Valid() && View() == START
    {
      recent, deliveredAt, held, gaming, marks, told := [], [], [], false, [], [];
    }

    method IsDuplicate(n: Notice) returns (duplicate: bool)
      requires Valid()
      ensures duplicate == Repeats(Tail(marks, 64), n)
    {
      duplicate := exists m | m in recent :: m.at >= n.at - DEDUPE_WINDOW && m.fingerprint == n.fingerprint;
    }

    method OverRateLimit(moment: real, cap: int) returns (over: bool)
      requires Valid()
      ensures over == OverLimit(told, moment, cap)
    {
      if cap <= 0 {
        return false;
      }
      ghost var tail := Tail(told, 256);
      var count := 0;
      for i := 0 to |deliveredAt|
        invariant count == Since(tail[..i], moment - HOUR)
      {
        assert tail[..i + 1][..i] == tail[..i];
        if deliveredAt[i] >= moment - HOUR {
          count := count + 1;
        }
      }
      assert tail[..|deliveredAt|] == tail;
      return count >= cap;
    }

    method Verdict(n: Notice, quiet: bool, rules: Rules) returns (verdict: Verdict)
      requires Valid()
      ensures verdict == Decide(View(), n, quiet, rules)
    {
      var duplicate := IsDuplicate(n);
      if duplicate || n.importance < rules.minImportance {
        return Drop;
      }
      if n.importance >= CRITICAL {
        return Deliver;
      }
      if quiet || (gaming && rules.suppressWhileGaming) {
        return Hold;
      }
      var over := OverRateLimit(n.at, rules.maxPerHour);
      return if over then Hold else Deliver;
    }

    method Remember(n: Notice)
      requires Valid()
      modifies `recent, `marks
      ensures Valid() && View() == old(View()).(marks := old(marks) + [Mark(n.at, n.fingerprint)])
    {
      TailOfMore(marks, Mark(n.at, n.fingerprint), 64);
      recent, marks := recent + [Mark(n.at, n.fingerprint)], marks + [Mark(n.at, n.fingerprint)];
      if |recent| > 64 {
        recent := recent[1..];
      }
    }

    method Tell(at: real, ghost limited: bool)
      requires Valid()
      modifies `deliveredAt, `told
      ensures Valid() && View() == old(View()).(told := old(told) + [Told(at, limited)])
    {
      TailOfMore(told, Told(at, limited), 256);
      deliveredAt, told := deliveredAt + [at], told + [Told(at, limited)];
      if |deliveredAt| > 256 {
        deliveredAt := deliveredAt[1..];
      }
    }

    method ConsiderNotice(n: Notice, quiet: bool, rules: Rules) returns (verdict: Verdict)
      requires Valid()
      modifies this
      ensures Valid() && View() == Next(old(View()), Consider(n, quiet, rules))
      ensures verdict == Decide(old(View()), n, quiet, rules)
    {
      verdict := Verdict(n, quiet, rules);
      if verdict.Deliver? {
        Remember(n);
        Tell(n.at, n.importance < CRITICAL);
      } else if verdict.Hold? {
        held := held + [n];
        Remember(n);
      }
    }

    method InOrder() returns (ordered: seq<Notice>)
      ensures ordered == Ordered(held)
    {
      ordered := [];
      for i := 0 to |held|
        invariant ordered == Ordered(held[..i])
      {
        assert held[..i + 1][..i] == held[..i];
        ordered := Insert(held[i], ordered);
      }
      assert held[..|held|] == held;
    }

    method ReleaseHeld(limit: int, now: real) returns (batch: seq<Notice>)
      requires Valid()
      modifies this
      ensures Valid() && View() == Next(old(View()), Release(limit, now))
      ensures batch == Released(old(held), limit)
    {
      var ordered := InOrder();
      batch := ordered[..Cut(|ordered|, limit)];
      held := Kept(held, batch);
      ghost var before := told;
      for i := 0 to |batch|
        invariant Valid() && told == before + Repeat(now, i)
        invariant marks == old(marks) && gaming == old(gaming) && held == Kept(old(held), batch)
      {
        Tell(now, false);
      }
    }

    method DropAllHeld() returns (count: nat)
      requires Valid()
      modifies `held
      ensures Valid() && View() == Next(old(View()), DropHeld) && count == |old(held)|
    {
      count := |held|;
      held := [];
    }
  }
}
