/** What runs silently, what needs a yes and what never runs (runtime/policy.py). */
module Policy {
  import opened Options

  datatype Effect =
    | Read | Write | DeletePermanent | Exec | Install | Network | Payment | Publish | SendMessage
    | Credentials | SystemConfig | InputControl | Capture | Elevate | Remote

  function EffectNamed(name: string): Option<Effect>
  {
    match name
    case "read" => Some(Read)
    case "write" => Some(Write)
    case "delete_permanent" => Some(DeletePermanent)
    case "exec" => Some(Exec)
    case "install" => Some(Install)
    case "network" => Some(Network)
    case "payment" => Some(Payment)
    case "publish" => Some(Publish)
    case "send_message" => Some(SendMessage)
    case "credentials" => Some(Credentials)
    case "system_config" => Some(SystemConfig)
    case "input_control" => Some(InputControl)
    case "capture" => Some(Capture)
    case "elevate" => Some(Elevate)
    case "remote" => Some(Remote)
    case _ => None
  }

  /** The name of an effect in the configuration. */
  function NameOf(effect: Effect): string
  {
    match effect
    case Read => "read"
    case Write => "write"
    case DeletePermanent => "delete_permanent"
    case Exec => "exec"
    case Install => "install"
    case Network => "network"
    case Payment => "payment"
    case Publish => "publish"
    case SendMessage => "send_message"
    case Credentials => "credentials"
    case SystemConfig => "system_config"
    case InputControl => "input_control"
    case Capture => "capture"
    case Elevate => "elevate"
    case Remote => "remote"
  }

  /** Every effect has one name, and no other text names an effect. */
  lemma NamedIff(name: string, effect: Effect)
    ensures EffectNamed(name) == Some(effect) <==> name == NameOf(effect)
  {
  }

  const NON_NEGOTIABLE: set<Effect> := {Payment, Publish, SendMessage, Credentials, DeletePermanent}

  /** The part of the configuration the policy reads. */
  datatype Autonomy = Autonomy(confirmEffects: seq<string>, spendNotice: real, downloadNotice: int,
                               autoInstall: bool, allowElevation: bool)

  datatype Spec = Spec(name: string, effects: set<Effect>, category: string, reversible: bool, trusted: bool)

  /** An action as the policy sees it: whether one of its string parameters is the path of the key file, the
      vault or the state database, the "key" parameter, and what it is estimated to take. */
  datatype Action = Action(namesProtected: bool, key: string, reversible: bool, bytes: int, cost: real)

  datatype Decision = Allow | Confirm | Deny

  datatype Verdict = Verdict(decision: Decision, rule: string)

  function Configured(names: seq<string>): set<Effect>
  {
    set i | 0 <= i < |names| && EffectNamed(names[i]).Some? :: EffectNamed(names[i]).value
  }

  /** The effects that need a yes: the configured ones that exist, and always the non-negotiable ones. */
  method ConfirmEffects(names: seq<string>) returns (effects: set<Effect>)
    ensures effects == Configured(names) + NON_NEGOTIABLE
  {
    effects := {};
    for i := 0 to |names|
      invariant effects == Configured(names[..i])
    {
      var effect := EffectNamed(names[i]);
      ConfiguredMore(names, i);
      if effect.Some? {
        effects := effects + {effect.value};
      }
    }
    assert names[..|names|] == names;
    effects := effects + NON_NEGOTIABLE;
  }

  /** An effect is configured exactly if its name is among those given. */
  lemma ConfiguredIff(names: seq<string>, effect: Effect)
    ensures effect in Configured(names) <==> NameOf(effect) in names
  {
    if effect in Configured(names) {
      var i :| 0 <= i < |names| && EffectNamed(names[i]) == Some(effect);
      NamedIff(names[i], effect);
    }
    if NameOf(effect) in names {
      var i :| 0 <= i < |names| && names[i] == NameOf(effect);
      NamedIff(names[i], effect);
    }
  }

  lemma ConfiguredMore(names: seq<string>, n: nat)
    requires n < |names|
    ensures Configured(names[..n + 1])
         == Configured(names[..n]) + if EffectNamed(names[n]).Some? then {EffectNamed(names[n]).value} else {}
  {
    var shorter, longer := names[..n], names[..n + 1];
    assert forall i | 0 <= i < n :: shorter[i] == longer[i];
    forall e | e in Configured(shorter)
      ensures e in Configured(longer)
    {
      var i :| 0 <= i < n && EffectNamed(shorter[i]) == Some(e);
      assert EffectNamed(longer[i]) == Some(e);
    }
    assert longer[n] == names[n];
  }

  predicate StartsWith(text: string, prefix: string) { prefix <= text }

  function HardDeny(spec: Spec, action: Action): Option<Verdict>
  {
    var mutating := spec.effects * {Write, DeletePermanent, Exec, SystemConfig};
    if mutating != {} && spec.category != "vault" && action.namesProtected then Some(Verdict(Deny, "guardrails"))
    else if spec.name == "config_set"
         && (StartsWith(action.key, "autonomy.confirm_effects") || StartsWith(action.key, "autonomy.allow"))
    then Some(Verdict(Deny, "policy_self_edit"))
    else None
  }

  function Evaluate(autonomy: Autonomy, spec: Spec, action: Action): Verdict
  {
    var denied := HardDeny(spec, action);
    if denied.Some? then denied.value
    else if (Configured(autonomy.confirmEffects) + NON_NEGOTIABLE) * spec.effects != {} then Verdict(Confirm, "effect")
    else if !spec.reversible || !action.reversible then Verdict(Confirm, "irreversible")
    else if action.cost > autonomy.spendNotice then Verdict(Confirm, "cost")
    else if action.bytes > autonomy.downloadNotice then Verdict(Confirm, "download_size")
    else if Install in spec.effects
         && !(autonomy.autoInstall && spec.trusted && action.cost <= 0.0 && spec.reversible)
    then Verdict(Confirm, "install")
    else if Elevate in spec.effects && !autonomy.allowElevation then Verdict(Confirm, "elevation")
    else Verdict(Allow, "default")
  }

  /** The order of the rules decides only which one is named: a refusal needs a guardrail, and an action
      runs silently exactly when no rule has anything against it. */
  lemma VerdictIff(autonomy: Autonomy, spec: Spec, action: Action)
    ensures Evaluate(autonomy, spec, action).decision.Deny? <==>
              || (&& spec.effects * {Write, DeletePermanent, Exec, SystemConfig} != {}
                  && spec.category != "vault" && action.namesProtected)
              || (spec.name == "config_set"
                  && (StartsWith(action.key, "autonomy.confirm_effects") || StartsWith(action.key, "autonomy.allow")))
    ensures Evaluate(autonomy, spec, action).decision.Deny? ==>
              (Evaluate(autonomy, spec, action).rule == "guardrails" <==>
                 && spec.effects * {Write, DeletePermanent, Exec, SystemConfig} != {}
                 && spec.category != "vault" && action.namesProtected)
    ensures Evaluate(autonomy, spec, action).decision.Allow? <==>
              && !Evaluate(autonomy, spec, action).decision.Deny?
              && (forall e | e in spec.effects :: e !in NON_NEGOTIABLE && e !in Configured(autonomy.confirmEffects))
              && spec.reversible && action.reversible
              && action.cost <= autonomy.spendNotice && action.bytes <= autonomy.downloadNotice
              && (Install in spec.effects ==> autonomy.autoInstall && spec.trusted && action.cost <= 0.0)
              && (Elevate in spec.effects ==> autonomy.allowElevation)
  {
    var gated := (Configured(autonomy.confirmEffects) + NON_NEGOTIABLE) * spec.effects;
    assert gated == {}
      <==> forall e | e in spec.effects :: e !in NON_NEGOTIABLE && e !in Configured(autonomy.confirmEffects) by {
      if gated != {} {
        var e :| e in gated;
        assert e in spec.effects;
      }
      forall e | e in spec.effects && (e in NON_NEGOTIABLE || e in Configured(autonomy.confirmEffects))
        ensures e in gated
      {
      }
    }
  }

  /** No configuration lets a non-negotiable effect run without a person, and none turns a refusal of the
      guardrails into anything else. */
  lemma ConfigurationCannotLoosen(autonomy: Autonomy, other: Autonomy, spec: Spec, action: Action)
    ensures spec.effects * NON_NEGOTIABLE != {} ==> !Evaluate(autonomy, spec, action).decision.Allow?
    ensures Evaluate(autonomy, spec, action).decision.Deny? <==> Evaluate(other, spec, action).decision.Deny?
    ensures Evaluate(autonomy, spec, action).decision.Deny? ==>
              Evaluate(other, spec, action) == Evaluate(autonomy, spec, action)
  {
    if spec.effects * NON_NEGOTIABLE != {} {
      var e :| e in spec.effects * NON_NEGOTIABLE;
      assert e in (Configured(autonomy.confirmEffects) + NON_NEGOTIABLE) * spec.effects;
    }
  }

  /** A stricter configuration confirms more effects, notices less money and smaller downloads, and
      permits less by itself. */
  predicate Stricter(strict: Autonomy, loose: Autonomy)
  {
    && Configured(loose.confirmEffects) <= Configured(strict.confirmEffects)
    && strict.spendNotice <= loose.spendNotice
    && strict.downloadNotice <= loose.downloadNotice
    && (strict.autoInstall ==> loose.autoInstall)
    && (strict.allowElevation ==> loose.allowElevation)
  }

  /** Whatever a stricter configuration lets run silently, a looser one does too. */
  lemma StricterAllowsLess(strict: Autonomy, loose: Autonomy, spec: Spec, action: Action)
    requires Stricter(strict, loose) && Evaluate(strict, spec, action).decision.Allow?
    ensures Evaluate(loose, spec, action).decision.Allow?
  {
    var gatedLoose := (Configured(loose.confirmEffects) + NON_NEGOTIABLE) * spec.effects;
    var gatedStrict := (Configured(strict.confirmEffects) + NON_NEGOTIABLE) * spec.effects;
    assert gatedLoose <= gatedStrict;
  }
}
