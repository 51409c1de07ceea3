/** What holds in every state that any interleaving of `mint-github` runs can reach. */
module CustodyTheorems {
  import opened Wrappers
  import opened Text
  import Timestamps
  import Tiers
  import ScopeAlgebra
  import opened Github
  import opened Entries
  import Metadata
  import opened Vaults
  import opened Sealing
  import opened Custody

  function Reached(suite: Suite, initial: World, events: seq<Event>): System {
    Play(suite, Initial(initial), events)
  }

  // ---------- Nothing recorded is ever unrecorded ----------

  /** Arguments, facts, deposits, vault entries and unlock passwords are as they were, and there may be more of them. */
  ghost predicate Continues(s: System, s': System) {
    && (forall id :: id in s.runs ==> id in s'.runs && s'.runs[id].args == s.runs[id].args)
    && s.log <= s'.log
    && s.ferryman <= s'.ferryman
    && Extends(s.world, s'.world)
    && s.filed <= s'.filed
  }

  /** From any state, whatever happens next. */
  lemma {:induction false} HistoryIsKept(suite: Suite, s: System, events: seq<Event>)
    ensures Continues(s, Play(suite, s, events))
    decreases |events|
  {
    if events != [] {
      NextIsStepOf(suite, s, events[0]);
      HistoryIsKept(suite, Next(suite, s, events[0]), events[1..]);
    }
  }

  // ---------- What the vault holds ----------

  /** Position `i` of the log caches `m` at `path` for run `id`, and everything owed beforehand came before. */
  ghost predicate ProperlyCached(suite: Suite, s: System, path: string, i: nat, id: RunId, m: MintedToken) {
    && i < |s.log| && s.log[i] == Cached(id, m, path)
    && id in s.runs && !s.runs[id].args.forRecipient && path == PathOf(s.runs[id].args)
    && path in s.world.db.entries && IsCacheOf(s.runs[id].args, m, s.world.db.entries[path])
    && (s.world.db.entries[path].password == m.token <==> LineSafe(m.token))
    && Verdict(s.runs[id].args.requested, m.grantedPermissions).Ok?
    && m.tier == ScopeAlgebra.ScopeTier(ScopeString(m.grantedPermissions))
    && Verified(id, m) in s.log[..i]
    && (m.tier == Tiers.Tier2 ==>
          && Receipt(id, m) in s.log[..i]
          && exists d, recipientHex :: d in s.ferryman && HoldsSealed(suite, s.runs[id].args, m, d, recipientHex))
  }

  lemma VerifiedIsHonest(suite: Suite, initial: World, s: System, id: RunId, m: MintedToken)
    requires Inv(suite, initial, s) && Verified(id, m) in s.log
    ensures id in s.runs && HonestlyMinted(s.runs[id].args, m)
  {
    var j: nat :| j < |s.log| && s.log[j] == Verified(id, m);
    assert FactOk(suite, s, j);
  }

  lemma CachedIsProper(suite: Suite, initial: World, s: System, path: string, i: nat, id: RunId,
        m: MintedToken)
    requires Inv(suite, initial, s) && i < |s.log| && s.log[i] == Cached(id, m, path)
    ensures ProperlyCached(suite, s, path, i, id, m)
  {
    assert FactOk(suite, s, i);
    VerifiedIsHonest(suite, initial, s, id, m);
    FirstReadIsWholeIff(m.token);
    if m.tier == Tiers.Tier2 {
      var j: nat :| j < i && s.log[j] == Receipt(id, m);
      assert FactOk(suite, s, j);
    }
  }

  /**
    Custody safety: entries that were in the working vault are never touched,
    and every other entry that nobody else has put holds the first line of a token that passed the
    scope-creep check of a run without `--for-recipient`, with the record of that
    run and the tier of what was granted in its notes, and, at Tier 2, was cached
    only after Ferryman had taken the token and answered for it.
   */
  lemma CustodySafety(suite: Suite, initial: World, events: seq<Event>)
    requires Sound(initial.passwords)
    ensures var s := Reached(suite, initial, events);
            && Extends(initial, s.world)
            && (forall path :: BoundByRuns(initial, s, path) ==>
                                 exists i, id, m :: ProperlyCached(suite, s, path, i, id, m))
  {
    ReachableInv(suite, initial, events);
    var s := Reached(suite, initial, events);
    forall path | BoundByRuns(initial, s, path)
      ensures exists i, id, m :: ProperlyCached(suite, s, path, i, id, m)
    {
      var id, m :| Cached(id, m, path) in s.log;
      var i: nat :| i < |s.log| && s.log[i] == Cached(id, m, path);
      CachedIsProper(suite, initial, s, path, i, id, m);
    }
  }

  // ---------- Tokens that must not be in the vault ----------

  lemma OneMintPerToken(s: System, i: nat, j: nat, line: string)
    requires TokensFresh(s) && i < |s.log| && j < |s.log| && Mints(s.log[i], line) && Mints(s.log[j], line)
    ensures i == j
  {}

  /** A new vault entry that reads as a recorded token was cached by the very run that minted it. */
  lemma VaultedTokenHasOneSource(suite: Suite, initial: World, s: System, path: string, k: nat)
    returns (m: MintedToken)
    requires Inv(suite, initial, s) && BoundByRuns(initial, s, path)
    requires k < |s.log| && Mints(s.log[k], s.world.db.entries[path].password)
    ensures s.log[k] == Verified(s.log[k].run, m) && Cached(s.log[k].run, m, path) in s.log
  {
    var id, n :| Cached(id, n, path) in s.log;
    var i: nat :| i < |s.log| && s.log[i] == Cached(id, n, path);
    assert FactOk(suite, s, i);
    var j: nat :| j < i && s.log[j] == Verified(id, n);
    OneMintPerToken(s, j, k, FirstRead(n.token));
    m := n;
  }

  /** No new vault entry can be read as a quarantined token, and it was never sealed or sent. */
  lemma QuarantineHolds(suite: Suite, initial: World, events: seq<Event>, id: RunId, token: string)
    requires Sound(initial.passwords) && Quarantined(id, token) in Reached(suite, initial, events).log
    ensures var s := Reached(suite, initial, events);
            && (forall path :: BoundByRuns(initial, s, path) ==>
                                 s.world.db.entries[path].password != FirstRead(token))
            && (forall r, m :: SealMade(r, m) in s.log || Sent(r, m) in s.log ==> m.token != token)
  {
    ReachableInv(suite, initial, events);
    var s := Reached(suite, initial, events);
    var k: nat :| k < |s.log| && s.log[k] == Quarantined(id, token);
    forall path | BoundByRuns(initial, s, path)
      ensures s.world.db.entries[path].password != FirstRead(token)
    {
      if s.world.db.entries[path].password == FirstRead(token) {
        var _ := VaultedTokenHasOneSource(suite, initial, s, path, k);
      }
    }
    forall r, m | SealMade(r, m) in s.log || Sent(r, m) in s.log ensures m.token != token {
      var i: nat :| i < |s.log| && (s.log[i] == SealMade(r, m) || s.log[i] == Sent(r, m));
      assert FactOk(suite, s, i);
      var j: nat :| j < i && s.log[j] == Verified(r, m);
      if m.token == token { OneMintPerToken(s, j, k, FirstRead(token)); }
    }
  }

  ghost predicate Vaulted(s: System, initial: World, token: string) {
    exists path :: && BoundByRuns(initial, s, path)
                   && s.world.db.entries[path].password == FirstRead(token)
  }

  /** The run has left its token in the vault, whether or not it was told so. */
  predicate Caches(s: System, id: RunId) {
    && id in s.runs
    && (s.runs[id].stage.CachedUnreported? || (s.runs[id].stage.Finished? && !s.runs[id].args.forRecipient))
  }

  lemma CachedFactMeans(suite: Suite, initial: World, s: System, id: RunId, m: MintedToken, path: string)
    requires Inv(suite, initial, s) && Cached(id, m, path) in s.log
    ensures Caches(s, id) && s.runs[id].stage.minted == m
  {
    var i: nat :| i < |s.log| && s.log[i] == Cached(id, m, path);
    assert FactOk(suite, s, i);
    assert StageOk(suite, s, id) && s.log[i].run == id;
  }

  /** The caching runs are those with a `Cached` fact, which is about their own token. */
  lemma CachesIffCached(suite: Suite, initial: World, s: System, id: RunId)
    requires Inv(suite, initial, s)
    ensures Caches(s, id) <==> exists m, path :: Cached(id, m, path) in s.log
    ensures Caches(s, id) ==> Cached(id, s.runs[id].stage.minted, PathOf(s.runs[id].args)) in s.log
    ensures forall m, path :: Cached(id, m, path) in s.log ==> Caches(s, id) && s.runs[id].stage.minted == m
  {
    forall m, path | Cached(id, m, path) in s.log ensures Caches(s, id) && s.runs[id].stage.minted == m {
      CachedFactMeans(suite, initial, s, id, m, path);
    }
    if Caches(s, id) {
      assert StageOk(suite, s, id);
    }
  }

  /**
    A minted token can be read from a new vault entry exactly when its run has
    cached it: runs that failed, wait or deliver to someone else leave nothing of
    theirs behind, except one whose `add` failed only after doing its work.
   */
  lemma VaultedIffFinishedLocally(suite: Suite, initial: World, events: seq<Event>, id: RunId, m: MintedToken)
    requires Sound(initial.passwords) && Verified(id, m) in Reached(suite, initial, events).log
    ensures var s := Reached(suite, initial, events);
            Vaulted(s, initial, m.token) <==> Caches(s, id) && s.runs[id].stage.minted == m
  {
    ReachableInv(suite, initial, events);
    var s := Reached(suite, initial, events);
    CachesIffCached(suite, initial, s, id);
    if Vaulted(s, initial, m.token) {
      var path :| && BoundByRuns(initial, s, path)
                  && s.world.db.entries[path].password == FirstRead(m.token);
      var k: nat :| k < |s.log| && s.log[k] == Verified(id, m);
      var n := VaultedTokenHasOneSource(suite, initial, s, path, k);
      assert Cached(id, m, path) in s.log;
    }
    if Caches(s, id) && s.runs[id].stage.minted == m {
      var i: nat :| i < |s.log| && s.log[i] == Cached(id, m, PathOf(s.runs[id].args));
      assert FactOk(suite, s, i);
    }
  }

  // ---------- The vault is the initial one and the cached tokens ----------

  function CachingRuns(s: System): set<RunId> {
    set id | id in s.runs && Caches(s, id)
  }

  function PathsOf(s: System, ids: set<RunId>): set<string>
    requires ids <= s.runs.Keys
  {
    set id | id in ids :: PathOf(s.runs[id].args)
  }

  ghost predicate DistinctPaths(s: System, ids: set<RunId>)
    requires ids <= s.runs.Keys
  {
    forall a, b :: a in ids && b in ids && PathOf(s.runs[a].args) == PathOf(s.runs[b].args) ==> a == b
  }

  lemma {:induction false} OnePathEach(s: System, ids: set<RunId>)
    requires ids <= s.runs.Keys && DistinctPaths(s, ids)
    ensures |PathsOf(s, ids)| == |ids|
  {
    if ids != {} {
      var id :| id in ids;
      OnePathEach(s, ids - {id});
      assert PathsOf(s, ids) == PathsOf(s, ids - {id}) + {PathOf(s.runs[id].args)};
    }
  }

  /** Two runs never cache at one path, and no run caches at a path that was bound before. */
  lemma CachingRunsAreApart(suite: Suite, initial: World, s: System)
    requires Inv(suite, initial, s)
    ensures DistinctPaths(s, CachingRuns(s))
    ensures PathsOf(s, CachingRuns(s)) !! initial.db.entries.Keys + s.filed
  {
    forall a | a in CachingRuns(s) ensures BoundByRuns(initial, s, PathOf(s.runs[a].args)) {
      CachesIffCached(suite, initial, s, a);
      var i: nat :| i < |s.log| && s.log[i] == Cached(a, s.runs[a].stage.minted, PathOf(s.runs[a].args));
    }
    forall a, b | a in CachingRuns(s) && b in CachingRuns(s) && PathOf(s.runs[a].args) == PathOf(s.runs[b].args)
      ensures a == b
    {
      CachesIffCached(suite, initial, s, a);
      CachesIffCached(suite, initial, s, b);
      var i: nat :| i < |s.log| && s.log[i] == Cached(a, s.runs[a].stage.minted, PathOf(s.runs[a].args));
      var j: nat :| j < |s.log| && s.log[j] == Cached(b, s.runs[b].stage.minted, PathOf(s.runs[b].args));
      assert i == j;
    }
  }

  lemma CachedEntryOf(suite: Suite, initial: World, s: System, id: RunId)
    requires Inv(suite, initial, s) && Caches(s, id)
    ensures var Run(args, stage) := s.runs[id];
            && PathOf(args) in s.world.db.entries && IsCacheOf(args, stage.minted, s.world.db.entries[PathOf(args)])
  {
    CachesIffCached(suite, initial, s, id);
    var i: nat :| i < |s.log| && s.log[i] == Cached(id, s.runs[id].stage.minted, PathOf(s.runs[id].args));
    assert FactOk(suite, s, i);
  }

  lemma BoundPathIsCached(suite: Suite, initial: World, s: System, path: string)
    requires Inv(suite, initial, s)
    ensures BoundByRuns(initial, s, path) <==> path in PathsOf(s, CachingRuns(s))
  {
    if BoundByRuns(initial, s, path) {
      var id, m :| Cached(id, m, path) in s.log;
      CachesIffCached(suite, initial, s, id);
      var i: nat :| i < |s.log| && s.log[i] == Cached(id, m, path);
      assert FactOk(suite, s, i);
    }
    if path in PathsOf(s, CachingRuns(s)) {
      CachingRunsAreApart(suite, initial, s);
      var id :| id in CachingRuns(s) && PathOf(s.runs[id].args) == path;
      CachedEntryOf(suite, initial, s, id);
    }
  }

  lemma KeysOfThree(initial: World, s: System, paths: set<string>)
    requires VaultOk(initial, s) && paths !! initial.db.entries.Keys + s.filed
    requires forall path :: BoundByRuns(initial, s, path) <==> path in paths
    ensures s.world.db.entries.Keys == initial.db.entries.Keys + s.filed + paths
    ensures |s.world.db.entries| == |initial.db.entries| + |s.filed| + |paths|
  {
    forall path ensures path in s.world.db.entries.Keys <==> path in initial.db.entries.Keys + s.filed + paths {
      assert BoundByRuns(initial, s, path) <==> path in paths;
    }
    assert s.world.db.entries.Keys == initial.db.entries.Keys + s.filed + paths;
  }

  /**
    The vault of every reached state is the initial one, entry for entry, what
    others have put, and exactly one new entry for each caching run, at the path
    its arguments name; failing, waiting and delivering runs have left no trace.
   */
  lemma VaultIsInitialPlusCachingRuns(suite: Suite, initial: World, events: seq<Event>)
    requires Sound(initial.passwords)
    ensures var s := Reached(suite, initial, events);
            var ids := CachingRuns(s);
            && Extends(initial, s.world)
            && s.world.db.entries.Keys == initial.db.entries.Keys + s.filed + PathsOf(s, ids)
            && |s.world.db.entries| == |initial.db.entries| + |s.filed| + |ids|
            && forall id :: id in ids ==>
                 var Run(args, stage) := s.runs[id];
                 IsCacheOf(args, stage.minted, s.world.db.entries[PathOf(args)])
  {
    ReachableInv(suite, initial, events);
    var s := Reached(suite, initial, events);
    forall path ensures BoundByRuns(initial, s, path) <==> path in PathsOf(s, CachingRuns(s)) {
      BoundPathIsCached(suite, initial, s, path);
    }
    CachingRunsAreApart(suite, initial, s);
    KeysOfThree(initial, s, PathsOf(s, CachingRuns(s)));
    OnePathEach(s, CachingRuns(s));
    forall id | id in CachingRuns(s)
      ensures IsCacheOf(s.runs[id].args, s.runs[id].stage.minted, s.world.db.entries[PathOf(s.runs[id].args)])
    {
      CachedEntryOf(suite, initial, s, id);
    }
  }

  // ---------- Local confinement ----------

  /** Only a Tier 2 token, or one of a run for a recipient, is ever sealed or sent. */
  lemma LocalConfinement(suite: Suite, initial: World, events: seq<Event>, id: RunId, m: MintedToken)
    requires Sound(initial.passwords)
    requires var log := Reached(suite, initial, events).log; SealMade(id, m) in log || Sent(id, m) in log
    ensures var s := Reached(suite, initial, events);
            && id in s.runs && (m.tier == Tiers.Tier2 || s.runs[id].args.forRecipient)
            && Verdict(s.runs[id].args.requested, m.grantedPermissions).Ok?
            && m.tier == ScopeAlgebra.ScopeTier(ScopeString(m.grantedPermissions))
  {
    ReachableInv(suite, initial, events);
    var s := Reached(suite, initial, events);
    var i: nat :| i < |s.log| && (s.log[i] == SealMade(id, m) || s.log[i] == Sent(id, m));
    assert FactOk(suite, s, i);
    VerifiedIsHonest(suite, initial, s, id, m);
  }

  // ---------- What Ferryman and the vault can be read for ----------

  /** Sealed with `recipientHex` for `project`, and openable to `token` by its holder alone. */
  ghost predicate OpensOnlyTo(suite: Suite, sealed: SealedSecret, recipientHex: string, project: string,
        token: string)
  {
    && (forall secret, projectId ::
          FerrymanOpen(suite, secret, projectId, sealed) ==
          if HexDecode(recipientHex) == Some(suite.publicKey(secret)) && projectId == project
          then Some(token) else None)
    && (forall secret, info, aad ::
          Open(suite, secret, info, aad, sealed) ==
          if && HexDecode(recipientHex) == Some(suite.publicKey(secret))
             && aad == "boundary/v1" + "\n" + "custodly-ingestion" + "\n" + project && info == "ferryman-secret/v1"
          then Some(token) else None)
  }

  lemma SealedOpensOnlyTo(suite: Suite, args: Args, m: MintedToken, sealed: SealedSecret, recipientHex: string)
    requires Lawful(suite) && SealedFrom(suite, args, m, sealed, recipientHex)
    ensures OpensOnlyTo(suite, sealed, recipientHex, args.ferrymanProject.value, m.token)
  {
    var project := args.ferrymanProject.value;
    var seed, nonce :|
      |nonce| == 24 && Seal(suite, recipientHex, DepositAad(project), m.token, seed, nonce) == Ok(sealed);
    DepositAadText(project);
    forall secret, info, aad
      ensures Open(suite, secret, info, aad, sealed) ==
              if && HexDecode(recipientHex) == Some(suite.publicKey(secret))
                 && aad == "boundary/v1" + "\n" + "custodly-ingestion" + "\n" + project && info == "ferryman-secret/v1"
              then Some(m.token) else None
    {
      SealOpenAgreement(suite, recipientHex, DepositAad(project), m.token, seed, nonce, secret, info, aad);
    }
    forall secret, projectId
      ensures FerrymanOpen(suite, secret, projectId, sealed) ==
              if HexDecode(recipientHex) == Some(suite.publicKey(secret)) && projectId == project
              then Some(m.token) else None
    {
      SealOpenAgreement(suite, recipientHex, DepositAad(project), m.token, seed, nonce, secret, "ferryman-secret/v1",
                        "boundary/v1" + "\n" + "custodly-ingestion" + "\n" + projectId);
      DepositAadText(projectId);
      DepositAadInjective(projectId, project);
    }
  }

  ghost predicate DepositFrom(suite: Suite, s: System, d: Deposit, id: RunId, m: MintedToken, recipientHex: string) {
    && Sent(id, m) in s.log && id in s.runs
    && (m.tier == Tiers.Tier2 || s.runs[id].args.forRecipient)
    && s.runs[id].args.ferrymanProject == Some(d.ferrymanProject)
    && Describes(d.metadata, s.runs[id].args, m)
    && d.metadata.tier == ScopeAlgebra.ScopeTier(ScopeString(m.grantedPermissions)).AsU8()
    && OpensOnlyTo(suite, d.sealed, recipientHex, d.ferrymanProject, m.token)
  }

  /**
    Whatever Ferryman holds, receipt or no receipt, is the verified token of one
    run that had to be deposited, and opens to it for the ingestion key it was
    sealed to, under its own project, and in no other way.
   */
  lemma DepositsOpenToTheirTokens(suite: Suite, initial: World, events: seq<Event>, d: Deposit)
    requires Lawful(suite) && Sound(initial.passwords) && d in Reached(suite, initial, events).ferryman
    ensures exists id, m, recipientHex :: DepositFrom(suite, Reached(suite, initial, events), d, id, m, recipientHex)
  {
    ReachableInv(suite, initial, events);
    var s := Reached(suite, initial, events);
    var id, m, recipientHex :| DepositOk(suite, s, d, id, m, recipientHex);
    LocalConfinement(suite, initial, events, id, m);
    SealedOpensOnlyTo(suite, s.runs[id].args, m, d.sealed, recipientHex);
    assert DepositFrom(suite, s, d, id, m, recipientHex);
  }

  /** The texts of a run that reach the Notes field are on one line. */
  predicate OneLine(args: Args, m: MintedToken) {
    '\n' !in args.project && '\n' !in m.scopeString
  }

  /** What cached notes say of the token if they decode: everything that comes after the texts, whatever these hold. */
  ghost predicate TellsTruth(decoded: EntryMetadata, args: Args, m: MintedToken) {
    && decoded.tier == m.tier == ScopeAlgebra.ScopeTier(ScopeString(m.grantedPermissions))
    && decoded.expiresAt == Some(m.expiresAt)
    && decoded.acquiredVia == GithubAppInstallationToken
    && (OneLine(args, m) ==>
          && decoded.provider == "github" && decoded.project == Trim(args.project)
          && decoded.sourceDescription ==
             Trim("GitHub App " + "installation token" + ", app " + Decimal(args.appId)
                  + ", installation " + Decimal(args.installationId) + ", " + m.scopeString))
  }

  lemma DescriptionIsOneLine(appId: string, installationId: string, scope: string)
    requires '\n' !in appId && '\n' !in installationId && '\n' !in scope
    ensures '\n' !in "GitHub App " + "installation token" + ", app " + appId + ", installation " + installationId
                     + ", " + scope
  {
    assert '\n' !in "GitHub App " && '\n' !in "installation token" && '\n' !in ", app ";
    assert '\n' !in ", installation " && '\n' !in ", ";
  }

  lemma GithubIsTrimmed()
    ensures Trim("github") == "github" && '\n' !in "github"
  {
    TrimFixed("github");
  }

  lemma DecodedRecordTellsTruth(record: EntryMetadata, args: Args, m: MintedToken)
    requires RecordsRun(record, args, m) && HonestlyMinted(args, m) && Metadata.Decode(Metadata.Encode(record)).Some?
    ensures TellsTruth(Metadata.Decode(Metadata.Encode(record)).value, args, m)
  {
    Metadata.LateFieldIntegrity(record);
    if OneLine(args, m) {
      GithubIsTrimmed();
      DescriptionIsOneLine(Decimal(args.appId), Decimal(args.installationId), m.scopeString);
      Metadata.CodecNormalForm(record);
    }
  }

  /**
    Across components: whatever text GitHub put into the permission names, if
    the Notes of a cached token decode at all, they report the tier of what was
    granted, GitHub's own expiry and the way the token was acquired; texts on one
    line come back as well.
   */
  lemma CachedNotesTellTheTruth(suite: Suite, initial: World, events: seq<Event>, path: string)
    requires Sound(initial.passwords)
    requires BoundByRuns(initial, Reached(suite, initial, events), path)
    ensures var s := Reached(suite, initial, events);
            var decoded := Metadata.Decode(s.world.db.entries[path].notes);
            exists i, id, m ::
              && ProperlyCached(suite, s, path, i, id, m)
              && (decoded.Some? ==> TellsTruth(decoded.value, s.runs[id].args, m))
  {
    CustodySafety(suite, initial, events);
    ReachableInv(suite, initial, events);
    var s := Reached(suite, initial, events);
    var i, id, m :| ProperlyCached(suite, s, path, i, id, m);
    VerifiedIsHonest(suite, initial, s, id, m);
    var record :| RecordsRun(record, s.runs[id].args, m)
               && s.world.db.entries[path].notes == Metadata.Encode(record);
    if Metadata.Decode(Metadata.Encode(record)).Some? {
      DecodedRecordTellsTruth(record, s.runs[id].args, m);
    }
  }

  // ---------- What Ferryman is told ----------

  /** A deposit that Ferryman keeps carries exactly this, with the time of the step. */
  lemma DepositIsDescribed(suite: Suite, s: System, id: RunId, now: Timestamps.Timestamp, reply: DepositReply)
    requires id in s.runs && s.runs[id].stage.SealedFor? && FerrymanGiven(s.runs[id].args) && reply != Rejected
    ensures var Run(args, stage) := s.runs[id];
            var m := stage.minted;
            Next(suite, s, DepositStep(id, now, reply)).ferryman ==
            s.ferryman + [Deposit(args.ferrymanProject.value, stage.sealed,
                                  DepositMetadata(args.project, "github", m.scopeString,
                                                  if m.tier == Tiers.Tier0 then 0 else if m.tier == Tiers.Tier1 then 1
                                                  else 2,
                                                  Track1Api, now, Some(m.expiresAt), args.entryLabel))]
  {}
}
