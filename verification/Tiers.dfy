/** The risk-tiering model (crates/custodly-core/src/tier.rs). */
module Tiers {
  import opened Wrappers
  import opened Text

  datatype Reversibility = Reversible | Irreversible

  datatype BlastRadius = Own | Shared

  datatype FinancialExposure = NoExposure | CanMoveMoney

  datatype ScopeAssessment = ScopeAssessment(
    reversibility: Reversibility,
    blastRadius: BlastRadius,
    financialExposure: FinancialExposure,
    readOnly: bool)

  datatype Tier = Tier0 | Tier1 | Tier2 {
    /** The wire value; the derived order on tiers is the order of these numbers. */
    function AsU8(): nat {
      match this
      case Tier0 => 0
      case Tier1 => 1
      case Tier2 => 2
    }

    /** The derived `Ord`: `other` is at least as sensitive as `this`. */
    predicate AtMost(other: Tier) {
      AsU8() <= other.AsU8()
    }
  }

  function Max(a: Tier, b: Tier): Tier {
    if a.AtMost(b) then b else a
  }

  /** `Tier::score`: an unclassified scope fails closed to Tier 2. */
  function Score(assessment: Option<ScopeAssessment>): Tier {
    match assessment
    case None => Tier2
    case Some(a) =>
      if a.reversibility == Irreversible || a.blastRadius == Shared || a.financialExposure == CanMoveMoney then Tier2
      else if a.readOnly then Tier0
      else Tier1
  }

  // ---------- Scope strings ----------

  /** Resources that reach this installation's own repositories only. */
  const BOUNDED: set<string> := {"repo", "pr", "issues", "contents", "metadata", "actions", "checks"}

  /** Account-level or money-adjacent resources. */
  const SENSITIVE: set<string> := {"admin", "billing", "secrets"}

  const LEVELS: set<string> := {"read", "write"}

  /** One comma-separated piece of a scope string, read as a trimmed `resource:level` pair. */
  function ParsePair(piece: string): Option<(string, string)> {
    match SplitOnce(Trim(piece), ':')
    case None => None
    case Some((resource, level)) => Some((Trim(resource), Trim(level)))
  }

  predicate Recognized(piece: string) {
    match ParsePair(piece)
    case None => false
    case Some((resource, level)) => level in LEVELS && (resource in BOUNDED || resource in SENSITIVE)
  }

  /** The resource named by a recognized piece. */
  function ResourceOf(piece: string): string
    requires Recognized(piece)
  {
    ParsePair(piece).value.0
  }

  function LevelOf(piece: string): string
    requires Recognized(piece)
  {
    ParsePair(piece).value.1
  }

  predicate AllRecognized(pieces: seq<string>) {
    forall piece | piece in pieces :: Recognized(piece)
  }

  predicate AllRead(pieces: seq<string>)
    requires AllRecognized(pieces)
  {
    forall piece | piece in pieces :: LevelOf(piece) == "read"
  }

  predicate AnySensitive(pieces: seq<string>)
    requires AllRecognized(pieces)
  {
    exists piece | piece in pieces :: ResourceOf(piece) in SENSITIVE
  }

  /** What the assessment of a scope string means, with no order of evaluation in it. */
  function Assess(scope: string): Option<ScopeAssessment> {
    var pieces := Split(scope, ',');
    if Trim(scope) == "" || !AllRecognized(pieces) then None
    else
      Some(ScopeAssessment(
             if AnySensitive(pieces) then Irreversible else Reversible,
             if AnySensitive(pieces) then Shared else Own,
             if Contains(scope, "billing") then CanMoveMoney else NoExposure,
             AllRead(pieces)))
  }

  lemma AppendPiece(pieces: seq<string>, piece: string)
    requires AllRecognized(pieces)
    ensures AllRecognized(pieces + [piece]) <==> Recognized(piece)
    ensures Recognized(piece) ==>
              && AllRead(pieces + [piece]) == (AllRead(pieces) && LevelOf(piece) == "read")
              && AnySensitive(pieces + [piece]) == (AnySensitive(pieces) || ResourceOf(piece) in SENSITIVE)
  {
    assert forall p :: p in pieces + [piece] <==> p in pieces || p == piece;
  }

  lemma PrefixRecognized(pieces: seq<string>, i: nat)
    requires i < |pieces| && !Recognized(pieces[i])
    ensures !AllRecognized(pieces)
  {
    assert pieces[i] in pieces;
  }

  lemma EmptyPartUnrecognized(piece: string)
    requires ParsePair(piece).Some? && (ParsePair(piece).value.0 == "" || ParsePair(piece).value.1 == "")
    ensures !Recognized(piece)
  {}

  /** `assess_github_scope`: the flag loop, leaving early at the first piece it does not recognize. */
  method AssessGithubScope(scope: string) returns (assessment: Option<ScopeAssessment>)
    ensures assessment == Assess(scope)
  {
    if Trim(scope) == "" {
      return None;
    }
    var readOnly, tripsTier2 := true, false;
    var pieces := Split(scope, ',');
    for i := 0 to |pieces|
      invariant AllRecognized(pieces[..i])
      invariant readOnly == AllRead(pieces[..i])
      invariant tripsTier2 == AnySensitive(pieces[..i])
    {
      assert pieces[..i + 1] == pieces[..i] + [pieces[i]];
      AppendPiece(pieces[..i], pieces[i]);
      if !Recognized(pieces[i]) {
        PrefixRecognized(pieces, i);
      }
      var pair := SplitOnce(Trim(pieces[i]), ':');
      if pair.None? {
        return None;
      }
      var resource, level := Trim(pair.value.0), Trim(pair.value.1);
      assert ParsePair(pieces[i]) == Some((resource, level));
      if resource == "" || level == "" {
        EmptyPartUnrecognized(pieces[i]);
        return None;
      }
      if level == "write" {
        readOnly := false;
      } else if level != "read" {
        return None;
      }
      if resource in SENSITIVE {
        tripsTier2 := true;
      } else if resource !in BOUNDED {
        return None;
      }
    }
    assert pieces[..|pieces|] == pieces;
    return Some(ScopeAssessment(
                  if tripsTier2 then Irreversible else Reversible,
                  if tripsTier2 then Shared else Own,
                  if Contains(scope, "billing") then CanMoveMoney else NoExposure,
                  readOnly));
  }
}
