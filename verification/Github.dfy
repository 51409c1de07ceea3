/** Minting an installation token and checking the grant (crates/custodly-github/src/app.rs). */
module Github {
  import opened Wrappers
  import opened Text
  import Timestamps
  import opened Tiers
  import opened ScopeAlgebra
  import opened OrderedMaps

  datatype GithubError =
    | JwtFailed
    | RequestFailed
    | Api(status: nat)
    | ScopeCreep(requested: StringMap, granted: StringMap)
    | UnrecognizedPermission(permissions: StringMap)

  // ---------- The scope-creep check ----------

  function LevelRank(level: string): Option<nat> {
    if level == "read" then Some(0)
    else if level == "write" then Some(1)
    else None
  }

  const U8_MAX: nat := 255

  /** What the check makes of one granted permission: fine, or the error it stops with. */
  function Objection(requested: StringMap, granted: StringMap, e: Entry): Option<GithubError> {
    if e.key == "metadata" && e.value == "read" then None
    else
      match Lookup(requested, e.key)
      case None => Some(ScopeCreep(requested, granted))
      case Some(level) =>
        if LevelRank(e.value).None? then Some(UnrecognizedPermission(granted))
        else
          var requestedRank := match LevelRank(level) case None => U8_MAX case Some(rank) => rank;
          if LevelRank(e.value).value > requestedRank then Some(ScopeCreep(requested, granted)) else None
  }

  /** The check passes: no granted permission is objected to. */
  ghost predicate NoCreep(requested: StringMap, granted: StringMap) {
    forall e :: e in granted ==> Objection(requested, granted, e).None?
  }

  /** Position `i` holds the first permission, in key order, that is objected to. */
  ghost predicate FirstObjection(requested: StringMap, granted: StringMap, i: nat) {
    && i < |granted|
    && Objection(requested, granted, granted[i]).Some?
    && forall j :: 0 <= j < i ==> Objection(requested, granted, granted[j]).None?
  }

  function VerdictFrom(requested: StringMap, granted: StringMap, i: nat): Result<(), GithubError>
    requires i <= |granted|
    decreases |granted| - i
  {
    if i == |granted| then Ok(())
    else
      match Objection(requested, granted, granted[i])
      case Some(error) => Err(error)
      case None => VerdictFrom(requested, granted, i + 1)
  }

  /** The verdict of the check as a value, for the state machines that use it. */
  function Verdict(requested: StringMap, granted: StringMap): Result<(), GithubError> {
    VerdictFrom(requested, granted, 0)
  }

  lemma {:induction false} VerdictFromMeaning(requested: StringMap, granted: StringMap, i: nat)
    requires i <= |granted|
    requires forall j :: 0 <= j < i ==> Objection(requested, granted, granted[j]).None?
    ensures VerdictFrom(requested, granted, i).Ok? <==> NoCreep(requested, granted)
    ensures VerdictFrom(requested, granted, i).Err? ==>
              exists k: nat :: FirstObjection(requested, granted, k)
                          && Objection(requested, granted, granted[k]) == Some(VerdictFrom(requested, granted, i).error)
    decreases |granted| - i
  {
    if i < |granted| {
      if Objection(requested, granted, granted[i]).Some? {
        assert FirstObjection(requested, granted, i);
        assert granted[i] in granted;
      } else {
        VerdictFromMeaning(requested, granted, i + 1);
      }
    }
  }

  /** `verify_no_scope_creep`. */
  method VerifyNoScopeCreep(requested: StringMap, granted: StringMap) returns (verdict: Result<(), GithubError>)
    ensures verdict == Verdict(requested, granted)
    ensures verdict.Ok? <==> NoCreep(requested, granted)
    ensures verdict.Err? ==> exists i: nat :: FirstObjection(requested, granted, i)
                                         && Objection(requested, granted, granted[i]) == Some(verdict.error)
  {
    VerdictFromMeaning(requested, granted, 0);
    for i := 0 to |granted|
      invariant Verdict(requested, granted) == VerdictFrom(requested, granted, i)
    {
      var resource, grantedLevel := granted[i].key, granted[i].value;
      if resource == "metadata" && grantedLevel == "read" {
        continue;
      }
      var requestedLevel := Lookup(requested, resource);
      if requestedLevel.None? {
        return Err(ScopeCreep(requested, granted));
      }
      var grantedRank := LevelRank(grantedLevel);
      if grantedRank.None? {
        return Err(UnrecognizedPermission(granted));
      }
      var requestedRank := LevelRank(requestedLevel.value);
      if grantedRank.value > (if requestedRank.Some? then requestedRank.value else U8_MAX) {
        return Err(ScopeCreep(requested, granted));
      }
    }
    return Ok(());
  }

  /**
    What an accepted permission is, with no rank in it: the `metadata: read`
    baseline, or one that was asked for by name, is `read` or `write`, and is
    `write` only where the request said something other than plain `read`.
   */
  ghost predicate Covers(requested: StringMap, e: Entry) {
    || e == Entry("metadata", "read")
    || (&& e.value in LEVELS
        && (exists level :: Entry(e.key, level) in requested)
        && (e.value == "write" ==> Entry(e.key, "read") !in requested))
  }

  ghost predicate WithinRequest(requested: StringMap, granted: StringMap) {
    forall e :: e in granted ==> Covers(requested, e)
  }

  lemma ObjectionMeaning(requested: StringMap, granted: StringMap, e: Entry)
    ensures Objection(requested, granted, e).None? <==> Covers(requested, e)
  {
    GetIsEntry(requested, e.key);
    if Lookup(requested, e.key).Some? {
      assert Entry(e.key, Lookup(requested, e.key).value) in requested;
    }
  }

  lemma CreepCheckSoundAndComplete(requested: StringMap, granted: StringMap)
    ensures Verdict(requested, granted).Ok? <==> WithinRequest(requested, granted)
  {
    VerdictFromMeaning(requested, granted, 0);
    forall e | e in granted ensures Objection(requested, granted, e).None? <==> Covers(requested, e) {
      ObjectionMeaning(requested, granted, e);
    }
  }

  /**
    On failure the reported error is decided by the least offending key: it is
    `UnrecognizedPermission` just when that key was requested and its granted
    level has no rank.
   */
  lemma CreepErrorFromLeastKey(requested: StringMap, granted: StringMap)
    requires Verdict(requested, granted).Err?
    ensures exists i: nat :: && FirstObjection(requested, granted, i)
                        && (forall e :: e in granted && Objection(requested, granted, e).Some? && e != granted[i] ==>
                                          Less(granted[i].key, e.key))
                        && Verdict(requested, granted).error ==
                           (if Lookup(requested, granted[i].key).Some? && granted[i].value !in LEVELS
                            then UnrecognizedPermission(granted) else ScopeCreep(requested, granted))
  {
    VerdictFromMeaning(requested, granted, 0);
    var i: nat :| FirstObjection(requested, granted, i)
             && Objection(requested, granted, granted[i]) == Some(Verdict(requested, granted).error);
    forall e | e in granted && Objection(requested, granted, e).Some? && e != granted[i]
      ensures Less(granted[i].key, e.key)
    {
      var j :| 0 <= j < |granted| && granted[j] == e;
      assert j > i;
    }
  }

  lemma CoversTransitive(a: StringMap, b: StringMap, e: Entry)
    requires WithinRequest(a, b) && Covers(b, e)
    ensures Covers(a, e)
  {
    if e != Entry("metadata", "read") {
      var level :| Entry(e.key, level) in b;
      var middle := Entry(e.key, level);
      assert Covers(a, middle);
      if middle != Entry("metadata", "read") {
        assert e.value == "write" ==> middle.value == "write";
      }
    }
  }

  /** Passing the check twice in a row is passing it once: nothing can be widened in two steps. */
  lemma CreepCheckTransitive(a: StringMap, b: StringMap, c: StringMap)
    requires Verdict(a, b).Ok? && Verdict(b, c).Ok?
    ensures Verdict(a, c).Ok?
  {
    CreepCheckSoundAndComplete(a, b);
    CreepCheckSoundAndComplete(b, c);
    CreepCheckSoundAndComplete(a, c);
    forall e | e in c ensures Covers(a, e) {
      CoversTransitive(a, b, e);
    }
  }

  /** A grant that is the request itself passes exactly when every level has a rank. */
  lemma ExactGrantPassesIff(m: StringMap)
    ensures Verdict(m, m).Ok? <==> forall e :: e in m ==> e.value in LEVELS
  {
    CreepCheckSoundAndComplete(m, m);
    forall e | e in m && e.value in LEVELS ensures Covers(m, e) {
      GetIsEntry(m, e.key);
      if Entry(e.key, "read") in m {
        assert Lookup(m, e.key) == Some("read") && Lookup(m, e.key) == Some(e.value);
      }
    }
    if WithinRequest(m, m) {
      forall e | e in m ensures e.value in LEVELS { assert Covers(m, e); }
    }
  }

  // ---------- The minted token ----------

  datatype MintedToken = MintedToken(
    token: string, expiresAt: Timestamps.Timestamp, grantedPermissions: StringMap, scopeString: string, tier: Tier)

  function Printed(m: seq<Entry>): (pieces: seq<string>)
    ensures |pieces| == |m|
  {
    seq(|m|, i requires 0 <= i < |m| => m[i].key + ":" + m[i].value)
  }

  /** The scope string of a permission map: its entries printed in key order. */
  function ScopeString(m: seq<Entry>): string {
    Join(Printed(m), ",")
  }

  /** `MintedToken::from_response`. */
  function FromResponse(token: string, expiresAt: Timestamps.Timestamp, permissions: StringMap): MintedToken {
    var scopeString := ScopeString(permissions);
    MintedToken(token, expiresAt, permissions, scopeString, Score(Assess(scopeString)))
  }

  /** The tier of one permission after printing and parsing. */
  function EntryTier(e: Entry): Tier {
    PrintedTier(e.key, e.value)
  }

  ghost predicate IsWorstEntry(m: seq<Entry>, tier: Tier) {
    && (forall e :: e in m ==> EntryTier(e).AtMost(tier))
    && exists e :: e in m && EntryTier(e) == tier
  }

  lemma PrintedScopeTier(m: seq<Entry>)
    requires m != []
    ensures ScopeTier(ScopeString(m)) == WorstPiece(SplitAll(Printed(m), ','))
  {
    TierIsWorstPiece(ScopeString(m));
    assert "," == [','];
    SplitJoin(Printed(m), ',');
  }

  /** `tier` is the largest of `tiers`. */
  ghost predicate IsLargest(tiers: seq<Tier>, tier: Tier) {
    && (forall i :: 0 <= i < |tiers| ==> tiers[i].AtMost(tier))
    && exists i :: 0 <= i < |tiers| && tiers[i] == tier
  }

  lemma LargestCons(first: Tier, rest: seq<Tier>, tier: Tier)
    requires rest == [] || IsLargest(rest, tier)
    ensures IsLargest([first] + rest, if rest == [] then first else Max(first, tier))
  {
    var tiers := [first] + rest;
    assert tiers[0] == first;
    if rest != [] {
      var i :| 0 <= i < |rest| && rest[i] == tier;
      assert tiers[i + 1] == tier;
    }
  }

  function TiersOf(m: seq<Entry>): (tiers: seq<Tier>)
    ensures |tiers| == |m|
    ensures forall i :: 0 <= i < |m| ==> tiers[i] == EntryTier(m[i])
  {
    if m == [] then [] else [EntryTier(m[0])] + TiersOf(m[1..])
  }

  lemma PrintedCons(m: seq<Entry>)
    requires m != []
    ensures Printed(m) == [m[0].key + ":" + m[0].value] + Printed(m[1..])
  {}

  lemma SplitAllCons(part: string, rest: seq<string>)
    ensures SplitAll([part] + rest, ',') == Split(part, ',') + SplitAll(rest, ',')
  {
    assert ([part] + rest)[1..] == rest;
  }

  /** The worst piece of everything printed is the largest tier of an entry. */
  lemma {:induction false} WorstOfPrinted(m: seq<Entry>)
    requires m != []
    ensures IsLargest(TiersOf(m), WorstPiece(SplitAll(Printed(m), ',')))
  {
    var part, rest := m[0].key + ":" + m[0].value, m[1..];
    PrintedCons(m);
    SplitAllCons(part, Printed(rest));
    WorstOfConcat(Split(part, ','), SplitAll(Printed(rest), ','));
    if rest != [] {
      WorstOfPrinted(rest);
    }
    LargestCons(EntryTier(m[0]), TiersOf(rest), WorstPiece(SplitAll(Printed(rest), ',')));
  }

  /** The scope tier of a printed map is the worst of its entries, whatever text they hold. */
  lemma PrintedTierIsWorstEntry(m: seq<Entry>)
    requires m != []
    ensures IsWorstEntry(m, ScopeTier(ScopeString(m)))
  {
    var tier := ScopeTier(ScopeString(m));
    PrintedScopeTier(m);
    WorstOfPrinted(m);
    forall e | e in m ensures EntryTier(e).AtMost(tier) {
      var i :| 0 <= i < |m| && m[i] == e;
      assert TiersOf(m)[i] == EntryTier(e);
    }
    var i :| 0 <= i < |m| && TiersOf(m)[i] == tier;
    assert m[i] in m && EntryTier(m[i]) == tier;
  }

  // ---------- End-to-end tier monotonicity ----------

  lemma MetadataReadIsTier0()
    ensures EntryTier(Entry("metadata", "read")) == Tier0
  {
    BoundedPrintedTier("metadata", "read", "read");
  }

  /** Every level is one the check can rank. */
  ghost predicate AllRanked(m: StringMap) {
    forall e :: e in m ==> e.value in LEVELS
  }

  ghost predicate AllPlainRead(m: StringMap) {
    forall e :: e in m ==> e.value == "read"
  }

  /** A request that scores Tier 0 spells every level exactly `read`. */
  ghost predicate TierHonest(requested: StringMap) {
    ScopeTier(ScopeString(requested)) == Tier0 ==> AllPlainRead(requested)
  }

  lemma RankedRequestsAreHonest(requested: StringMap)
    requires AllRanked(requested)
    ensures TierHonest(requested)
  {
    if !AllPlainRead(requested) {
      var e :| e in requested && e.value == "write";
      PrintedTierIsWorstEntry(requested);
      WriteIsNotTier0(e.key, "write");
    }
  }

  lemma AcceptedEntryTier(requested: StringMap, granted: StringMap, e: Entry)
    requires WithinRequest(requested, granted) && TierHonest(requested) && e in granted
    ensures EntryTier(e).AtMost(ScopeTier(ScopeString(requested)))
  {
    if e == Entry("metadata", "read") {
      MetadataReadIsTier0();
    } else {
      var level :| Entry(e.key, level) in requested;
      PrintedTierIsWorstEntry(requested);
      PrintedTierMonotone(e.key, e.value, level);
    }
  }

  lemma AcceptedGrantTier(requested: StringMap, granted: StringMap)
    requires Verdict(requested, granted).Ok? && granted != [] && TierHonest(requested)
    ensures ScopeTier(ScopeString(granted)).AtMost(ScopeTier(ScopeString(requested)))
  {
    CreepCheckSoundAndComplete(requested, granted);
    PrintedTierIsWorstEntry(granted);
    var e :| e in granted && EntryTier(e) == ScopeTier(ScopeString(granted));
    AcceptedEntryTier(requested, granted, e);
  }

  /**
    End-to-end monotonicity: an accepted, non-empty grant is never tiered above
    the request it answers, for arbitrary resource names, provided every
    requested level is `read` or `write`.
   */
  lemma GrantNeverOutranksRequest(requested: StringMap, granted: StringMap, token: string,
                                  expiresAt: Timestamps.Timestamp)
    requires Verdict(requested, granted).Ok? && granted != [] && AllRanked(requested)
    ensures FromResponse(token, expiresAt, granted).tier.AtMost(ScopeTier(ScopeString(requested)))
  {
    RankedRequestsAreHonest(requested);
    AcceptedGrantTier(requested, granted);
  }

  /**
    The exact condition: every accepted non-empty grant stays within the tier of
    the request if and only if the request is honest about Tier 0.
   */
  lemma MonotoneExactlyForHonestRequests(requested: StringMap)
    ensures TierHonest(requested) <==>
            forall granted: StringMap :: Verdict(requested, granted).Ok? && granted != [] ==>
                                           ScopeTier(ScopeString(granted)).AtMost(ScopeTier(ScopeString(requested)))
  {
    if TierHonest(requested) {
      forall granted: StringMap | Verdict(requested, granted).Ok? && granted != []
        ensures ScopeTier(ScopeString(granted)).AtMost(ScopeTier(ScopeString(requested)))
      {
        AcceptedGrantTier(requested, granted);
      }
    } else {
      var e :| e in requested && e.value != "read";
      var granted: StringMap := [Entry(e.key, "write")];
      GetIsEntry(requested, e.key);
      assert Lookup(requested, e.key) == Some(e.value);
      CreepCheckSoundAndComplete(requested, granted);
      assert Entry(e.key, "read") !in requested;
      assert Verdict(requested, granted).Ok?;
      PrintedTierIsWorstEntry(granted);
      WriteIsNotTier0(e.key, "write");
    }
  }

  lemma SingleEntryTier(e: Entry)
    ensures ScopeTier(ScopeString([e])) == EntryTier(e)
  {
    assert Printed([e]) == [e.key + ":" + e.value];
    TierIsWorstPiece(ScopeString([e]));
  }

  /** Asking for one sensitive resource and getting it is accepted, at Tier 2. */
  lemma SensitiveGrant(resource: string, level: string, m: StringMap)
    requires resource in SENSITIVE && level in LEVELS && m == [Entry(resource, level)]
    ensures Verdict(m, m).Ok? && ScopeTier(ScopeString(m)) == Tier2
  {
    ExactGrantPassesIff(m);
    SingleEntryTier(Entry(resource, level));
    SensitivePrintedTier(resource, level);
  }

  lemma PaddedReadTrims()
    ensures Trim("read ") == "read" && Trim("write") == "write"
  {
    assert "read " == "read" + " ";
    TrimIgnoresTail("read", " ");
    TrimFixed("read");
    TrimFixed("write");
  }

  lemma WriteAnswersPaddedRead(requested: StringMap, granted: StringMap)
    requires requested == [Entry("repo", "read ")] && granted == [Entry("repo", "write")]
    ensures Verdict(requested, granted).Ok?
  {
    CreepCheckSoundAndComplete(requested, granted);
    assert requested[0] in requested;
  }

  /** Such a request exists: a level spelled with a trailing space has no rank, yet scores as `read`. */
  lemma PaddedReadIsDishonest(requested: StringMap, granted: StringMap)
    requires requested == [Entry("repo", "read ")] && granted == [Entry("repo", "write")]
    ensures Verdict(requested, granted).Ok?
    ensures ScopeTier(ScopeString(requested)) == Tier0 && ScopeTier(ScopeString(granted)) == Tier1
  {
    WriteAnswersPaddedRead(requested, granted);
    SingleEntryTier(Entry("repo", "read "));
    SingleEntryTier(Entry("repo", "write"));
    PaddedReadTrims();
    BoundedPrintedTier("repo", "read ", "read");
    BoundedPrintedTier("repo", "write", "write");
  }

  lemma EmptyGrantIsTier2()
    ensures ScopeTier(ScopeString([])) == Tier2
  {
    assert ScopeString([]) == "";
  }

  /** With empty grants included, only requests that already score Tier 2 bound what they are answered with. */
  lemma EmptyGrantsNeedTier2Requests(requested: StringMap)
    ensures ScopeTier(ScopeString(requested)) == Tier2 <==>
            forall granted: StringMap :: Verdict(requested, granted).Ok? ==>
                                           ScopeTier(ScopeString(granted)).AtMost(ScopeTier(ScopeString(requested)))
  {
    EmptyGrantIsTier2();
    var none: StringMap := [];
    assert Verdict(requested, none).Ok?;
  }

  // ---------- Print/parse agreement ----------

  ghost predicate Plain(m: seq<Entry>) {
    forall e :: e in m ==> ',' !in e.key && ',' !in e.value && ':' !in e.key && ':' !in e.value
  }

  /** Splitting a printed plain map gives its entries back, trimmed, in key order; the tier is their direct maximum. */
  lemma PrintParseAgreement(m: StringMap)
    requires m != [] && Plain(m)
    ensures Split(ScopeString(m), ',') == Printed(m)
    ensures forall i :: 0 <= i < |m| ==> ParsePair(Printed(m)[i]) == Some((Trim(m[i].key), Trim(m[i].value)))
    ensures forall e :: e in m ==> PairTier(Trim(e.key), Trim(e.value)).AtMost(ScopeTier(ScopeString(m)))
    ensures exists e :: e in m && PairTier(Trim(e.key), Trim(e.value)) == ScopeTier(ScopeString(m))
  {
    forall i | 0 <= i < |m|
      ensures ',' !in Printed(m)[i]
      ensures ParsePair(Printed(m)[i]) == Some((Trim(m[i].key), Trim(m[i].value)))
    {
      assert m[i] in m;
      ParsePrintedPair(m[i].key, m[i].value);
    }
    SplitJoin(Printed(m), ',');
    SplitAllClean(Printed(m), ',');
    PrintedTierIsWorstEntry(m);
    forall e | e in m ensures EntryTier(e) == PairTier(Trim(e.key), Trim(e.value)) {
      PlainPrintedTier(e.key, e.value);
    }
  }

  // ---------- mint_installation_token ----------

  /** What GitHub, or the road to it, answers. */
  datatype GithubReply =
    | BadKey
    | Unreachable
    | Status(status: nat)
    | Unreadable
    | Issued(token: string, expiresAt: Timestamps.Timestamp, permissions: StringMap)

  /** `mint_installation_token` after the network: nothing is returned for a grant that was not verified. */
  function Mint(requested: StringMap, reply: GithubReply): (minted: Result<MintedToken, GithubError>)
    ensures minted.Ok? <==> reply.Issued? && Verdict(requested, reply.permissions).Ok?
    ensures minted.Ok? ==> minted.value.token == reply.token && minted.value.grantedPermissions == reply.permissions
    ensures minted.Ok? ==> minted.value.expiresAt == reply.expiresAt
    ensures minted.Ok? ==> minted.value.tier == ScopeTier(minted.value.scopeString)
  {
    match reply
    case BadKey => Err(JwtFailed)
    case Unreachable => Err(RequestFailed)
    case Status(status) => Err(Api(status))
    case Unreadable => Err(RequestFailed)
    case Issued(token, expiresAt, permissions) =>
      match Verdict(requested, permissions)
      case Err(error) => Err(error)
      case Ok(_) => Ok(FromResponse(token, expiresAt, permissions))
  }

  /** `mint_installation_token`, the reply standing for the request and the road there and back. */
  method MintInstallationToken(requested: StringMap, reply: GithubReply)
    returns (minted: Result<MintedToken, GithubError>)
    ensures minted == Mint(requested, reply)
  {
    match reply
    case BadKey => return Err(JwtFailed);
    case Unreachable => return Err(RequestFailed);
    case Status(status) => return Err(Api(status));
    case Unreadable => return Err(RequestFailed);
    case Issued(token, expiresAt, permissions) =>
      var verdict := VerifyNoScopeCreep(requested, permissions);
      if verdict.Err? {
        return Err(verdict.error);
      }
      return Ok(FromResponse(token, expiresAt, permissions));
  }
}
