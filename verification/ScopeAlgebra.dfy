/**
  Laws of scope-string tiering over every string: the tier of a scope is the
  worst tier of its comma-separated pieces, so joining scopes with a comma is
  taking a maximum.
 */
module ScopeAlgebra {
  import opened Wrappers
  import opened Text
  import opened Tiers

  // ---------- Reference definition: tier by tier of each pair ----------

  /** How a `resource:level` pair is classified, one pair at a time. */
  function PairTier(resource: string, level: string): Tier {
    if level !in LEVELS || (resource !in BOUNDED && resource !in SENSITIVE) then Tier2
    else if resource in SENSITIVE then Tier2
    else if level == "read" then Tier0
    else Tier1
  }

  function PieceTier(piece: string): Tier {
    match ParsePair(piece)
    case None => Tier2
    case Some((resource, level)) => PairTier(resource, level)
  }

  /** The least tier that is at least the tier of every piece. */
  function WorstPiece(pieces: seq<string>): (worst: Tier)
    ensures forall piece :: piece in pieces ==> PieceTier(piece).AtMost(worst)
    ensures worst == Tier0 || exists piece :: piece in pieces && PieceTier(piece) == worst
  {
    if pieces == [] then Tier0 else Max(PieceTier(pieces[0]), WorstPiece(pieces[1..]))
  }

  function ScopeTier(scope: string): Tier {
    Score(Assess(scope))
  }

  // ---------- The substring test for "billing" ----------

  lemma BillingInResource(resource: string)
    requires resource in BOUNDED || resource in SENSITIVE
    ensures Contains(resource, "billing") <==> resource == "billing"
  {
    assert OccursAt("billing", "billing", 0);
    if Contains(resource, "billing") {
      var i :| 0 <= i <= |resource| && OccursAt(resource, "billing", i);
      assert resource[i..i + 7][0] == resource[i];
    }
  }

  /** In a recognized piece the word can only be the whole resource. */
  lemma BillingInPiece(piece: string)
    requires Recognized(piece)
    ensures Contains(piece, "billing") <==> ResourceOf(piece) == "billing"
  {
    var t := Trim(piece);
    var (l, r) := SplitOnce(t, ':').value;
    assert t == l + [':'] + r;
    ContainsInTrim(piece, "billing");
    ContainsAround(l, ':', r, "billing");
    ContainsInTrim(l, "billing");
    ContainsInTrim(r, "billing");
    BillingInResource(Trim(l));
    assert |Trim(r)| < 7;
  }

  /**
    The textual search for "billing" is exact on every scope that is assessed
    at all: it succeeds just when some pair names that resource. Money is then
    never flagged without the other two Tier 2 axes.
   */
  lemma BillingSubstringIsToken(scope: string)
    requires Assess(scope).Some?
    ensures Contains(scope, "billing") <==>
            exists piece :: piece in Split(scope, ',') && ResourceOf(piece) == "billing"
    ensures Assess(scope).value.financialExposure == CanMoveMoney ==>
              Assess(scope).value.reversibility == Irreversible && Assess(scope).value.blastRadius == Shared
  {
    ContainsInSplit(scope, ',', "billing");
    forall piece | piece in Split(scope, ',')
      ensures Contains(piece, "billing") <==> ResourceOf(piece) == "billing"
    {
      BillingInPiece(piece);
    }
  }

  // ---------- The tier of a scope is its worst piece ----------

  lemma BlankScopeIsTier2(scope: string)
    requires Trim(scope) == ""
    ensures Split(scope, ',') == [scope] && PieceTier(scope) == Tier2 && !Recognized(scope)
  {
    BlankIffAllSpace(scope);
    assert ',' !in scope && ':' !in "";
    SplitLacking(scope, ',');
  }

  lemma RecognizedPieceTier(piece: string)
    requires Recognized(piece)
    ensures PieceTier(piece) == (if ResourceOf(piece) in SENSITIVE then Tier2
                                 else if LevelOf(piece) == "read" then Tier0 else Tier1)
  {}

  lemma WorstOfConcat(a: seq<string>, b: seq<string>)
    ensures WorstPiece(a + b) == Max(WorstPiece(a), WorstPiece(b))
  {
    assert forall piece :: piece in a + b <==> piece in a || piece in b;
  }

  lemma WorstOfCons(piece: string, pieces: seq<string>)
    ensures WorstPiece([piece] + pieces) == Max(PieceTier(piece), WorstPiece(pieces))
  {
    assert ([piece] + pieces)[1..] == pieces;
  }

  lemma {:induction false} WorstRecognized(pieces: seq<string>)
    requires AllRecognized(pieces)
    ensures WorstPiece(pieces) == if AnySensitive(pieces) then Tier2 else if AllRead(pieces) then Tier0 else Tier1
  {
    if pieces != [] {
      var n := |pieces| - 1;
      var init := pieces[..n];
      assert pieces == init + [pieces[n]];
      AppendPiece(init, pieces[n]);
      WorstRecognized(init);
      RecognizedPieceTier(pieces[n]);
      WorstOfConcat(init, [pieces[n]]);
      WorstOfCons(pieces[n], []);
    }
  }

  lemma UnrecognizedIsTier2(pieces: seq<string>)
    requires !AllRecognized(pieces)
    ensures WorstPiece(pieces) == Tier2
  {
    var piece :| piece in pieces && !Recognized(piece);
    assert PieceTier(piece) == Tier2;
  }

  lemma BillingPieceIsSensitive(scope: string)
    requires Assess(scope).Some? && Contains(scope, "billing")
    ensures AnySensitive(Split(scope, ','))
  {
    BillingSubstringIsToken(scope);
    var piece :| piece in Split(scope, ',') && ResourceOf(piece) == "billing";
  }

  /** The early-returning loop, the flags and the substring test together compute a maximum. */
  lemma TierIsWorstPiece(scope: string)
    ensures ScopeTier(scope) == WorstPiece(Split(scope, ','))
  {
    var pieces := Split(scope, ',');
    if Trim(scope) == "" {
      BlankScopeIsTier2(scope);
      WorstOfCons(scope, []);
    } else if !AllRecognized(pieces) {
      UnrecognizedIsTier2(pieces);
    } else {
      WorstRecognized(pieces);
      if Contains(scope, "billing") {
        BillingPieceIsSensitive(scope);
      }
    }
  }

  lemma WorstOfSubset(a: seq<string>, b: seq<string>)
    requires forall piece :: piece in a ==> piece in b
    ensures WorstPiece(a).AtMost(WorstPiece(b))
  {}

  /** Scoring is a homomorphism from comma-concatenation to maximum, with no side condition. */
  lemma ScoringHomomorphism(s: string, t: string)
    ensures ScopeTier(s + "," + t) == Max(ScopeTier(s), ScopeTier(t))
  {
    TierIsWorstPiece(s);
    TierIsWorstPiece(t);
    TierIsWorstPiece(s + "," + t);
    assert s + "," + t == s + [','] + t;
    SplitConcat(s, ',', t);
    WorstOfConcat(Split(s, ','), Split(t, ','));
  }

  /**
    Only the set of pieces matters: keeping, reordering or repeating pieces
    never raises the tier, and dropping one never does either.
   */
  lemma TierDependsOnPieces(s: string, t: string)
    requires forall piece :: piece in Split(s, ',') ==> piece in Split(t, ',')
    ensures ScopeTier(s).AtMost(ScopeTier(t))
    ensures (forall piece :: piece in Split(t, ',') ==> piece in Split(s, ',')) ==> ScopeTier(s) == ScopeTier(t)
  {
    TierIsWorstPiece(s);
    TierIsWorstPiece(t);
    WorstOfSubset(Split(s, ','), Split(t, ','));
    if forall piece :: piece in Split(t, ',') ==> piece in Split(s, ',') {
      WorstOfSubset(Split(t, ','), Split(s, ','));
    }
  }

  /** A scope is classified at all just when it is nothing but recognized pieces; blank scopes are not. */
  lemma AssessedIffRecognized(scope: string)
    ensures Assess(scope).Some? <==> AllRecognized(Split(scope, ','))
  {
    if Trim(scope) == "" {
      BlankScopeIsTier2(scope);
    }
  }

  lemma AssessedConcat(s: string, t: string)
    ensures Assess(s + "," + t).Some? <==> Assess(s).Some? && Assess(t).Some?
  {
    AssessedIffRecognized(s);
    AssessedIffRecognized(t);
    AssessedIffRecognized(s + "," + t);
    assert s + "," + t == s + [','] + t;
    SplitConcat(s, ',', t);
    assert forall piece :: piece in Split(s, ',') + Split(t, ',') <==> piece in Split(s, ',') || piece in Split(t, ',');
  }

  // ---------- The shape of one printed pair ----------

  /** A pair printed with `:` between its halves is read back as the two halves, trimmed. */
  lemma ParsePrintedPair(resource: string, level: string)
    requires ':' !in resource
    ensures ParsePair(resource + ":" + level) == Some((Trim(resource), Trim(level)))
  {
    var piece := resource + ":" + level;
    assert piece == resource + (":" + level);
    TrimLeftAppend(resource, ":" + level);
    assert TrimLeft(piece) == (TrimLeft(resource) + ":") + level;
    TrimRightAppend(TrimLeft(resource) + ":", level);
    assert Trim(piece) == TrimLeft(resource) + [':'] + TrimRight(level);
    TrimKeepsAbsence(resource, ':');
    SplitOnceAfter(TrimLeft(resource), ':', TrimRight(level));
    TrimOfTrimLeft(resource);
    TrimOfTrimRight(level);
  }

  /** A resource holding a `:` leaves one in the level, which no level has. */
  lemma ColonInResource(resource: string, level: string)
    requires ':' in resource
    ensures PieceTier(resource + ":" + level) == Tier2
  {
    var a, b := CutAtFirst(resource, ':');
    var rest := b + ":" + level;
    assert resource + ":" + level == a + ":" + rest;
    ParsePrintedPair(a, rest);
    assert rest[|b|] == ':';
    TrimKeepsSolid(rest, ':');
    assert ':' in Trim(rest);
  }

  lemma PrintedPieceTier(resource: string, level: string)
    ensures PieceTier(resource + ":" + level) ==
            if ':' in resource then Tier2 else PairTier(Trim(resource), Trim(level))
  {
    if ':' in resource { ColonInResource(resource, level); } else { ParsePrintedPair(resource, level); }
  }

  // ---------- How the level of a printed permission moves its tier ----------

  /** The tier of a permission once printed: its key and level may hold any text. */
  function PrintedTier(key: string, level: string): Tier {
    WorstPiece(Split(key + ":" + level, ','))
  }

  lemma SplitPrintedKey(key: string, level: string)
    requires ',' in key
    ensures var i := Find(key, ',');
            Split(key + ":" + level, ',') == [key[..i]] + Split(key[i + 1..] + ":" + level, ',')
  {
    var a, b := CutAtFirst(key, ',');
    Regroup(a, ',', b, ":", level);
    SplitAfter(a, ',', b + ":" + level);
  }

  lemma SplitPrintedLevel(key: string, level: string)
    requires ',' !in key && ',' in level
    ensures var i := Find(level, ',');
            Split(key + ":" + level, ',') == [key + ":" + level[..i]] + Split(level[i + 1..], ',')
  {
    var a, b := CutAtFirst(level, ',');
    RegroupLeft(key, ":", a, ',', b);
    SplitAfter(key + ":" + a, ',', b);
  }

  lemma WorstOfSplit(s: string, first: string, rest: string)
    requires Split(s, ',') == [first] + Split(rest, ',')
    ensures WorstPiece(Split(s, ',')) == Max(PieceTier(first), WorstPiece(Split(rest, ',')))
  {
    WorstOfCons(first, Split(rest, ','));
  }

  /** A comma inside the key moves on to the last piece of the key. */
  lemma PrintedTierStep(key: string, level: string)
    requires ',' in key
    ensures var i := Find(key, ',');
            PrintedTier(key, level) == Max(PieceTier(key[..i]), PrintedTier(key[i + 1..], level))
  {
    var i := Find(key, ',');
    SplitPrintedKey(key, level);
    WorstOfSplit(key + ":" + level, key[..i], key[i + 1..] + ":" + level);
  }

  /** Without one, the piece that pairs key and level ends at the first comma of the level. */
  lemma PrintedTierBase(key: string, level: string)
    requires ',' !in key
    ensures PieceTier(key + ":" + level[..Find(level, ',')]).AtMost(PrintedTier(key, level))
    ensures ',' !in level ==> PrintedTier(key, level) == PieceTier(key + ":" + level)
  {
    var i := Find(level, ',');
    FindMeaning(level, ',');
    if ',' in level {
      SplitPrintedLevel(key, level);
      WorstOfCons(key + ":" + level[..i], Split(level[i + 1..], ','));
    } else {
      assert level[..i] == level;
      SplitLacking(key + ":" + level, ',');
      WorstOfCons(key + ":" + level, []);
    }
  }

  /** `read` is the least level a resource can have, and `write` adds at most Tier 1 to any other. */
  lemma PairTierMonotone(resource: string, granted: string, requested: string)
    requires granted in LEVELS
    ensures granted == "read" || requested == granted ==>
              PairTier(resource, granted).AtMost(PairTier(resource, requested))
    ensures PairTier(resource, granted).AtMost(Max(Tier1, PairTier(resource, requested)))
  {}

  lemma LevelsAreTrimmed(level: string)
    requires level in LEVELS
    ensures Trim(level) == level && ',' !in level
  {
    TrimFixed(level);
  }

  lemma PrintedBaseMonotone(key: string, granted: string, requested: string)
    requires granted in LEVELS && ',' !in key
    ensures granted == "read" || requested == granted ==>
              PrintedTier(key, granted).AtMost(PrintedTier(key, requested))
    ensures PrintedTier(key, granted).AtMost(Max(Tier1, PrintedTier(key, requested)))
  {
    var first := requested[..Find(requested, ',')];
    PrintedTierBase(key, granted);
    PrintedTierBase(key, requested);
    PrintedPieceTier(key, granted);
    PrintedPieceTier(key, first);
    LevelsAreTrimmed(granted);
    PairTierMonotone(Trim(key), granted, Trim(first));
    if requested == granted {
      FindMeaning(requested, ',');
      assert first == requested;
    }
  }

  /**
    Against any requested level, recognized or not, and any key: granting plain
    `read` never scores above what was requested, and granting `write` scores
    above it only as far as Tier 1.
   */
  lemma {:induction false} PrintedTierMonotone(key: string, granted: string, requested: string)
    requires granted in LEVELS
    ensures granted == "read" || requested == granted ==>
              PrintedTier(key, granted).AtMost(PrintedTier(key, requested))
    ensures PrintedTier(key, granted).AtMost(Max(Tier1, PrintedTier(key, requested)))
    decreases |key|
  {
    if ',' in key {
      PrintedTierStep(key, granted);
      PrintedTierStep(key, requested);
      PrintedTierMonotone(key[Find(key, ',') + 1..], granted, requested);
    } else {
      PrintedBaseMonotone(key, granted, requested);
    }
  }

  lemma WritePairIsNotTier0(resource: string)
    ensures PairTier(resource, "write") != Tier0
  {}

  /** Whatever the key, printing it with `write` never scores Tier 0. */
  lemma {:induction false} WriteIsNotTier0(key: string, level: string)
    requires level == "write"
    ensures PrintedTier(key, level) != Tier0
    decreases |key|
  {
    if ',' in key {
      PrintedTierStep(key, level);
      WriteIsNotTier0(key[Find(key, ',') + 1..], level);
    } else {
      LevelsAreTrimmed(level);
      PrintedTierBase(key, level);
      PrintedPieceTier(key, level);
      WritePairIsNotTier0(Trim(key));
    }
  }

  /** A printed permission without separators in it is tiered as the trimmed pair. */
  lemma PlainPrintedTier(key: string, level: string)
    requires ',' !in key && ',' !in level && ':' !in key
    ensures PrintedTier(key, level) == PairTier(Trim(key), Trim(level))
  {
    PrintedTierBase(key, level);
    PrintedPieceTier(key, level);
  }

  lemma ResourcesArePlain(resource: string)
    requires resource in BOUNDED || resource in SENSITIVE
    ensures ',' !in resource && ':' !in resource && Trim(resource) == resource
  {
    assert IsTrimmed(resource);
    TrimFixed(resource);
  }

  lemma BoundedPair(resource: string, level: string)
    requires resource in BOUNDED && level in LEVELS
    ensures PairTier(resource, level) == if level == "read" then Tier0 else Tier1
  {}

  lemma BoundedPrintedTier(resource: string, level: string, trimmed: string)
    requires resource in BOUNDED && ',' !in level && Trim(level) == trimmed && trimmed in LEVELS
    ensures PrintedTier(resource, level) == if trimmed == "read" then Tier0 else Tier1
  {
    ResourcesArePlain(resource);
    BoundedPair(resource, trimmed);
    PlainPrintedTier(resource, level);
  }

  lemma SensitivePrintedTier(resource: string, level: string)
    requires resource in SENSITIVE && level in LEVELS
    ensures PrintedTier(resource, level) == Tier2
  {
    ResourcesArePlain(resource);
    LevelsAreTrimmed(level);
    PlainPrintedTier(resource, level);
  }

  // ---------- Which resources are which ----------

  /** The resources that reach an installation's own repositories, and those that are sensitive whatever the level. */
  predicate IsOwn(resource: string) {
    || resource == "repo" || resource == "pr" || resource == "issues" || resource == "contents"
    || resource == "metadata" || resource == "actions" || resource == "checks"
  }

  predicate IsSensitive(resource: string) {
    resource == "admin" || resource == "billing" || resource == "secrets"
  }

  /** A piece that reads, around its first colon and without the whitespace, as this pair. */
  ghost predicate Names(piece: string, resource: string, level: string) {
    exists a, b :: ':' !in a && piece == a + ":" + b && Trim(a) == resource && Trim(b) == level
  }

  lemma ColonOfTrimmed(piece: string)
    requires ParsePair(piece).Some?
    ensures ':' in piece
  {
    FindMeaning(Trim(piece), ':');
    if ':' !in piece {
      TrimKeepsAbsence(piece, ':');
    }
  }

  lemma NamesIsParsePair(piece: string, resource: string, level: string)
    ensures Names(piece, resource, level) <==> ParsePair(piece) == Some((resource, level))
  {
    if a, b :| ':' !in a && piece == a + ":" + b && Trim(a) == resource && Trim(b) == level {
      ParsePrintedPair(a, b);
    }
    if ParsePair(piece) == Some((resource, level)) {
      ColonOfTrimmed(piece);
      var a, b := CutAtFirst(piece, ':');
      assert piece == a + ":" + b;
      ParsePrintedPair(a, b);
    }
  }

  /** The table of single pairs: Tier 0 and 1 are reading and writing one of the seven, all else is Tier 2. */
  lemma PairTierTable(resource: string, level: string)
    ensures PairTier(resource, level) == Tier0 <==> IsOwn(resource) && level == "read"
    ensures PairTier(resource, level) == Tier1 <==> IsOwn(resource) && level == "write"
    ensures resource in BOUNDED <==> IsOwn(resource)
    ensures resource in SENSITIVE <==> IsSensitive(resource)
    ensures level in LEVELS <==> level == "read" || level == "write"
  {}

  ghost predicate ReadsOwn(piece: string) {
    exists resource :: IsOwn(resource) && Names(piece, resource, "read")
  }

  ghost predicate WritesOwn(piece: string) {
    exists resource :: IsOwn(resource) && Names(piece, resource, "write")
  }

  ghost predicate NamesSensitive(piece: string) {
    exists resource, level :: IsSensitive(resource) && (level == "read" || level == "write")
                              && Names(piece, resource, level)
  }

  /** The table of pieces: exactly the ten names at the two levels are recognised. */
  lemma PieceTable(piece: string)
    ensures PieceTier(piece) == Tier0 <==> ReadsOwn(piece)
    ensures PieceTier(piece) == Tier1 <==> WritesOwn(piece)
    ensures Recognized(piece) <==> ReadsOwn(piece) || WritesOwn(piece) || NamesSensitive(piece)
    ensures Recognized(piece) ==> (ResourceOf(piece) in SENSITIVE <==> NamesSensitive(piece))
    ensures Recognized(piece) ==> (LevelOf(piece) == "read" <==> exists resource :: Names(piece, resource, "read"))
  {
    forall resource, level
      ensures Names(piece, resource, level) <==> ParsePair(piece) == Some((resource, level))
    {
      NamesIsParsePair(piece, resource, level);
    }
    match ParsePair(piece)
    case None =>
    case Some((resource, level)) =>
      PairTierTable(resource, level);
      assert Names(piece, resource, level);
  }

  lemma WorstByTier(pieces: seq<string>)
    ensures WorstPiece(pieces) == Tier0 <==> forall piece :: piece in pieces ==> PieceTier(piece) == Tier0
    ensures WorstPiece(pieces) == Tier1 <==>
            && (forall piece :: piece in pieces ==> PieceTier(piece) == Tier0 || PieceTier(piece) == Tier1)
            && (exists piece :: piece in pieces && PieceTier(piece) == Tier1)
  {}

  ghost predicate OnlyReads(scope: string) {
    forall piece :: piece in Split(scope, ',') ==> ReadsOwn(piece)
  }

  ghost predicate OnlyOwn(scope: string) {
    forall piece :: piece in Split(scope, ',') ==> ReadsOwn(piece) || WritesOwn(piece)
  }

  ghost predicate OnlyKnown(scope: string) {
    forall piece :: piece in Split(scope, ',') ==> ReadsOwn(piece) || WritesOwn(piece) || NamesSensitive(piece)
  }

  /**
    The table of scopes: Tier 0 just when every piece reads one of the seven, and
    Tier 1 just when every piece reads or writes one of them and some piece writes.
   */
  lemma ScopeTable(scope: string)
    ensures ScopeTier(scope) == Tier0 <==> OnlyReads(scope)
    ensures ScopeTier(scope) == Tier1 <==>
            OnlyOwn(scope) && exists piece :: piece in Split(scope, ',') && WritesOwn(piece)
    ensures ScopeTier(scope) == Tier2 <==> !OnlyOwn(scope)
  {
    TierIsWorstPiece(scope);
    WorstByTier(Split(scope, ','));
    forall piece ensures (PieceTier(piece) == Tier0 <==> ReadsOwn(piece))
                         && (PieceTier(piece) == Tier1 <==> WritesOwn(piece)) {
      PieceTable(piece);
    }
  }

  /** A scope that names `admin`, `billing` or `secrets` anywhere is Tier 2, whatever else is in it. */
  lemma SensitiveScopeIsTier2(scope: string, piece: string, resource: string, level: string)
    requires piece in Split(scope, ',') && IsSensitive(resource) && Names(piece, resource, level)
    ensures ScopeTier(scope) == Tier2
  {
    TierIsWorstPiece(scope);
    NamesIsParsePair(piece, resource, level);
    PairTierTable(resource, level);
  }

  /** A scope with any other name, or any other level, is not assessed. */
  lemma UnlistedScopeIsNotAssessed(scope: string, piece: string, resource: string, level: string)
    requires piece in Split(scope, ',') && Names(piece, resource, level)
    requires (!IsOwn(resource) && !IsSensitive(resource)) || (level != "read" && level != "write")
    ensures Assess(scope).None? && ScopeTier(scope) == Tier2
  {
    NamesIsParsePair(piece, resource, level);
    PairTierTable(resource, level);
    AssessedIffRecognized(scope);
  }

  lemma NamesResource(piece: string, resource: string)
    requires Recognized(piece)
    ensures ResourceOf(piece) == resource <==> exists level :: Names(piece, resource, level)
  {
    forall level ensures Names(piece, resource, level) <==> ParsePair(piece) == Some((resource, level)) {
      NamesIsParsePair(piece, resource, level);
    }
    assert ResourceOf(piece) == resource ==> Names(piece, resource, LevelOf(piece));
  }

  /** The four answers of an assessment, each by the pieces alone. */
  lemma AssessmentTable(scope: string)
    ensures var pieces := Split(scope, ',');
            && (Assess(scope).Some? <==> OnlyKnown(scope))
            && (Assess(scope).Some? ==>
                  var a := Assess(scope).value;
                  && (a.reversibility == Irreversible <==> exists piece :: piece in pieces && NamesSensitive(piece))
                  && (a.blastRadius == Shared <==> exists piece :: piece in pieces && NamesSensitive(piece))
                  && (a.readOnly <==> forall piece :: piece in pieces ==> exists r :: Names(piece, r, "read"))
                  && (a.financialExposure == CanMoveMoney <==>
                        exists piece, level :: piece in pieces && Names(piece, "billing", level)))
  {
    AssessedIffRecognized(scope);
    if Assess(scope).Some? {
      BillingSubstringIsToken(scope);
    }
    forall piece | piece in Split(scope, ',')
      ensures Recognized(piece) <==> ReadsOwn(piece) || WritesOwn(piece) || NamesSensitive(piece)
      ensures Recognized(piece) ==> (ResourceOf(piece) in SENSITIVE <==> NamesSensitive(piece))
      ensures Recognized(piece) ==> (LevelOf(piece) == "read" <==> exists r :: Names(piece, r, "read"))
      ensures Recognized(piece) ==> (ResourceOf(piece) == "billing" <==> exists level :: Names(piece, "billing", level))
    {
      PieceTable(piece);
      if Recognized(piece) {
        NamesResource(piece, "billing");
      }
    }
  }

  /** The score of any assessment: three axes each suffice for Tier 2, and reading alone separates the others. */
  lemma ScoreTable(a: ScopeAssessment)
    ensures Score(Some(a)) == Tier2 <==>
            a.reversibility != Reversible || a.blastRadius != Own || a.financialExposure != NoExposure
    ensures Score(Some(a)) == Tier0 <==> a == ScopeAssessment(Reversible, Own, NoExposure, true)
    ensures Score(None) == Tier2
    ensures Tier0.AsU8() == 0 && Tier1.AsU8() == 1 && Tier2.AsU8() == 2
  {}
}
