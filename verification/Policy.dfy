/** `policy()`: how sensitive is this provider and scope (crates/custodly-core/src/policy.rs). */
module Policy {
  import opened Wrappers
  import Text
  import opened Tiers
  import ScopeAlgebra

  datatype PolicyResponse = PolicyResponse(tier: nat, requirements: seq<string>)

  const ONBOARDING := "onboarding_complete"
  const APPROVAL := "gate:human_approval"

  /** The assessment behind an answer; only the pilot provider has an adapter. */
  function AssessmentFor(provider: string, scope: string): Option<ScopeAssessment> {
    if provider == "github" then Assess(scope) else None
  }

  /** The two requirements in the order they are pushed, each present or not. */
  function RequirementList(onboarding: bool, approval: bool): seq<string> {
    (if onboarding then [ONBOARDING] else []) + (if approval then [APPROVAL] else [])
  }

  function Answer(provider: string, scope: string): PolicyResponse {
    var assessment := AssessmentFor(provider, scope);
    var tier := Score(assessment);
    PolicyResponse(tier.AsU8(), RequirementList(assessment.None?, tier == Tier2))
  }

  /** `evaluate`: the requirement vector is built by conditional pushes. */
  method Evaluate(provider: string, scope: string) returns (response: PolicyResponse)
    ensures response == Answer(provider, scope)
    ensures APPROVAL in response.requirements <==> response.tier == 2
  {
    var assessment := None;
    if provider == "github" {
      assessment := AssessGithubScope(scope);
    }
    var tier := Score(assessment);
    var requirements := [];
    if assessment.None? {
      requirements := requirements + [ONBOARDING];
    }
    if tier == Tier2 {
      requirements := requirements + [APPROVAL];
    }
    response := PolicyResponse(tier.AsU8(), requirements);
  }

  /** What either list asks for, in the fixed order, without repetition. */
  function OrderedUnion(a: seq<string>, b: seq<string>): seq<string> {
    RequirementList(ONBOARDING in a || ONBOARDING in b, APPROVAL in a || APPROVAL in b)
  }

  /**
    Splitting a GitHub request into two never changes what is demanded for it:
    the joint answer carries the larger tier and the ordered union of the two
    requirement lists.
   */
  lemma PolicyCompositional(s: string, t: string)
    ensures var whole, left, right := Answer("github", s + "," + t), Answer("github", s), Answer("github", t);
            && whole.tier == (if left.tier >= right.tier then left.tier else right.tier)
            && whole.requirements == OrderedUnion(left.requirements, right.requirements)
            && (APPROVAL in whole.requirements <==> APPROVAL in left.requirements || APPROVAL in right.requirements)
  {
    ScopeAlgebra.ScoringHomomorphism(s, t);
    ScopeAlgebra.AssessedConcat(s, t);
  }

  /** Human approval is demanded exactly at Tier 2, and an unclassified scope never escapes it. */
  lemma ApprovalIffTier2(provider: string, scope: string)
    ensures APPROVAL in Answer(provider, scope).requirements <==> Answer(provider, scope).tier == 2
    ensures ONBOARDING in Answer(provider, scope).requirements ==> APPROVAL in Answer(provider, scope).requirements
    ensures ONBOARDING in Answer(provider, scope).requirements <==>
            provider != "github" || !AllRecognized(Text.Split(scope, ','))
  {
    ScopeAlgebra.AssessedIffRecognized(scope);
  }

  lemma AnswerByTier(provider: string, scope: string)
    ensures Answer(provider, scope) ==
            if provider != "github" || Assess(scope).None?
            then PolicyResponse(2, ["onboarding_complete", "gate:human_approval"])
            else if ScopeAlgebra.ScopeTier(scope) == Tier2 then PolicyResponse(2, ["gate:human_approval"])
            else PolicyResponse(if ScopeAlgebra.ScopeTier(scope) == Tier0 then 0 else 1, [])
  {}

  /**
    Every answer, told by the pieces of the scope: nothing is demanded for reading
    or writing own repositories, approval for anything sensitive, and onboarding
    and approval for whatever is not known.
   */
  lemma AnswerTable(provider: string, scope: string)
    ensures Answer(provider, scope) ==
            if provider != "github" || !ScopeAlgebra.OnlyKnown(scope)
            then PolicyResponse(2, ["onboarding_complete", "gate:human_approval"])
            else if !ScopeAlgebra.OnlyOwn(scope) then PolicyResponse(2, ["gate:human_approval"])
            else PolicyResponse(if ScopeAlgebra.OnlyReads(scope) then 0 else 1, [])
  {
    AnswerByTier(provider, scope);
    ScopeAlgebra.AssessmentTable(scope);
    ScopeAlgebra.ScopeTable(scope);
  }
}
