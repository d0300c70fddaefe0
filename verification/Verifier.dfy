/** The verdict over the evidence of a run (agent/verify.py, kernel/contracts.py). */
module Verifier {
  import opened Options

  type Value = string

  datatype Origin = FromModel | FromReflex

  /** What a step produced. */
  datatype Evidence = Evidence(tool: string, expects: string, ok: bool, skipped: bool, resumed: bool,
                               value: Option<Value>)

  datatype CheckedBy = Rules | Model | Nobody

  datatype Verification = Verification(goalMet: bool, checked: bool, checkedBy: CheckedBy, unmet: nat)

  /** What asking a model to judge came back with. */
  datatype Judgement = Unavailable | Canned | Unreadable | Judged(ok: bool, unmet: nat)

  predicate Ran(e: Evidence) { e.ok && !e.skipped }

  predicate RequiredFailed(e: Evidence) { !e.ok && !e.skipped }

  function Select(evidence: seq<Evidence>, keep: Evidence -> bool): (out: seq<Evidence>)
    ensures forall e :: e in out <==> e in evidence && keep(e)
  {
    if evidence == [] then []
    else
      var e := evidence[|evidence| - 1];
      Select(evidence[..|evidence| - 1], keep) + if keep(e) then [e] else []
  }

  function CheckReflex(ran: seq<Evidence>, usable: (string, Option<Value>) -> bool): Verification
  {
    var problems := Select(ran, (e: Evidence) => !usable(e.tool, e.value));
    if problems != [] then Verification(false, true, Rules, |problems|) else Verification(true, true, Rules, 0)
  }

  function Check(evidence: seq<Evidence>, origin: Origin, hasCriteria: bool,
                 usable: (string, Option<Value>) -> bool, judgement: Judgement): Verification
  {
    var failed, ran := Select(evidence, RequiredFailed), Select(evidence, Ran);
    if failed != [] then Verification(false, true, Rules, if |failed| < 3 then |failed| else 3)
    else if ran == [] then Verification(false, true, Rules, 0)
    else if origin.FromReflex? then CheckReflex(ran, usable)
    else if !hasCriteria && forall e | e in evidence :: e.expects == "" then Verification(true, false, Nobody, 0)
    else match judgement
      case Judged(ok, unmet) => Verification(ok, true, Model, unmet)
      case _ => Verification(true, false, Nobody, 0)
  }

  /** The goal counts as met only if no required step failed and some step ran; beyond that it says who
      was asked, and a check is claimed only for rules over a reflex plan or a model that answered. */
  lemma CheckMeans(evidence: seq<Evidence>, origin: Origin, hasCriteria: bool,
                   usable: (string, Option<Value>) -> bool, judgement: Judgement)
    ensures var v := Check(evidence, origin, hasCriteria, usable, judgement);
            var asks := hasCriteria || exists e :: e in evidence && e.expects != "";
            && (v.goalMet <==>
                  && (forall e | e in evidence :: !RequiredFailed(e))
                  && (exists e :: e in evidence && Ran(e))
                  && (origin.FromReflex? ==> forall e | e in evidence && Ran(e) :: usable(e.tool, e.value))
                  && (origin.FromModel? && asks && judgement.Judged? ==> judgement.ok))
            && (v.goalMet && v.checked <==>
                  && v.goalMet
                  && (origin.FromReflex? || (asks && judgement.Judged?)))
  {
    SelectedMeans(evidence, usable);
  }

  lemma SelectedMeans(evidence: seq<Evidence>, usable: (string, Option<Value>) -> bool)
    ensures Select(evidence, RequiredFailed) == [] <==> forall e | e in evidence :: !RequiredFailed(e)
    ensures Select(evidence, Ran) == [] <==> !exists e :: e in evidence && Ran(e)
    ensures CheckReflex(Select(evidence, Ran), usable).goalMet
         <==> forall e | e in evidence && Ran(e) :: usable(e.tool, e.value)
  {
    var failed, ran := Select(evidence, RequiredFailed), Select(evidence, Ran);
    var problems := Select(ran, (e: Evidence) => !usable(e.tool, e.value));
    assert failed != [] <==> exists e :: e in evidence && RequiredFailed(e) by {
      if failed != [] { assert failed[0] in evidence; }
    }
    assert ran != [] <==> exists e :: e in evidence && Ran(e) by {
      if ran != [] { assert ran[0] in evidence; }
    }
    assert problems != [] <==> exists e :: e in evidence && Ran(e) && !usable(e.tool, e.value) by {
      if problems != [] { assert problems[0] in ran; }
    }
  }

  /** How many entries are of a kind. */
  function Tally(evidence: seq<Evidence>, keep: Evidence -> bool): nat
  {
    if evidence == [] then 0
    else Tally(evidence[..|evidence| - 1], keep) + if keep(evidence[|evidence| - 1]) then 1 else 0
  }

  lemma {:induction false} SelectedCount(evidence: seq<Evidence>, keep: Evidence -> bool)
    ensures |Select(evidence, keep)| == Tally(evidence, keep)
  {
    if evidence != [] {
      SelectedCount(evidence[..|evidence| - 1], keep);
    }
  }

  /** Who is said to have judged: the rules when a required step failed, nothing ran or the plan is a reflex; a model
      when it was asked and answered; nobody otherwise, and then nothing is claimed to be checked. What is unmet are
      the failures, at most three of them, or what the model says. */
  lemma CheckedByIff(evidence: seq<Evidence>, origin: Origin, hasCriteria: bool,
                     usable: (string, Option<Value>) -> bool, judgement: Judgement)
    ensures var v := Check(evidence, origin, hasCriteria, usable, judgement);
            var failed, ran := Tally(evidence, RequiredFailed), Tally(evidence, Ran);
            var asked := origin.FromModel? && (hasCriteria || exists e :: e in evidence && e.expects != "");
            && (v.checkedBy.Rules? <==> failed > 0 || ran == 0 || origin.FromReflex?)
            && (v.checkedBy.Model? <==> failed == 0 && ran > 0 && asked && judgement.Judged?)
            && (v.checked <==> !v.checkedBy.Nobody?)
            && (v.checkedBy.Nobody? ==> v.goalMet)
            && (failed > 0 ==> v.unmet == if failed < 3 then failed else 3)
            && (v.checkedBy.Model? ==> v.unmet == judgement.unmet)
            && (failed == 0 && (ran == 0 || v.checkedBy.Nobody?) ==> v.unmet == 0)
            && (failed == 0 && ran > 0 && origin.FromReflex? ==> (v.unmet == 0 <==> v.goalMet))
  {
    SelectedCount(evidence, RequiredFailed);
    SelectedCount(evidence, Ran);
  }
}
