/**
  From the mint to the git credential helper: what `mint-github` caches, in any
  interleaving of runs, is what `git-credential get` serves afterwards.
 */
module EndToEnd {
  import opened Wrappers
  import opened Text
  import opened Timestamps
  import Tiers
  import ScopeAlgebra
  import OrderedMaps
  import opened Github
  import opened Entries
  import opened Metadata
  import opened Vaults
  import VaultPaths
  import VaultRefinement
  import Sealing
  import opened Custody
  import opened CustodyTheorems

  lemma {:induction false} JoinEnd(parts: seq<string>, sep: string)
    requires parts != [] && parts[|parts| - 1] != ""
    ensures Join(parts, sep) != ""
    ensures var last := parts[|parts| - 1];
            Join(parts, sep)[|Join(parts, sep)| - 1] == last[|last| - 1]
  {
    if |parts| > 1 {
      assert parts[1..][|parts| - 2] == parts[|parts| - 1];
      JoinEnd(parts[1..], sep);
    }
  }

  lemma LevelEnds(level: string)
    requires level in Tiers.LEVELS
    ensures level != "" && !IsSpace(level[|level| - 1])
  {}

  /** The scope string of an accepted grant ends in the last granted level. */
  lemma AcceptedScopeEnds(requested: OrderedMaps.StringMap, granted: OrderedMaps.StringMap)
    requires Verdict(requested, granted).Ok?
    ensures granted == [] ==> ScopeString(granted) == ""
    ensures granted != [] ==> ScopeString(granted) != "" && IsRightTrimmed(ScopeString(granted))
  {
    if granted != [] {
      CreepCheckSoundAndComplete(requested, granted);
      var n := |granted| - 1;
      assert granted[n] in granted;
      LevelEnds(granted[n].value);
      var part := Printed(granted)[n];
      assert part[|part| - 1] == granted[n].value[|granted[n].value| - 1];
      JoinEnd(Printed(granted), ",");
    }
  }

  lemma DescriptionShape(args: Args, m: MintedToken)
    ensures var d := SourceDescription(args, m);
            && d != "" && d[0] == 'G'
            && ('\n' in d <==> '\n' in m.scopeString)
            && d[|d| - 1] == if m.scopeString == "" then ' ' else m.scopeString[|m.scopeString| - 1]
  {
    var front := "GitHub App " + "installation token" + ", app " + Decimal(args.appId)
    + ", installation " + Decimal(args.installationId);
    assert SourceDescription(args, m) == front + ", " + m.scopeString;
    assert '\n' !in "GitHub App " && '\n' !in "installation token" && '\n' !in ", app ";
    assert '\n' !in ", installation " && '\n' !in ", ";
  }

  /** The record of a run survives the Notes field: a project on one trimmed line and a grant that is there to tell. */
  predicate KeepsRecord(args: Args, m: MintedToken) {
    args.project != "" && CleanValue(args.project) && '\n' !in m.scopeString && m.grantedPermissions != []
  }

  /**
    The exact condition; in particular the description of an empty grant ends in
    a space, which decoding trims.
   */
  lemma CacheMetadataCanonicalIff(args: Args, m: MintedToken, now: Timestamp)
    requires HonestlyMinted(args, m)
    ensures Canonical(CacheMetadata(args, m, now)) <==> KeepsRecord(args, m)
  {
    AcceptedScopeEnds(args.requested, m.grantedPermissions);
    DescriptionShape(args, m);
  }

  /** A verified token is cached without loss exactly when its record survives and label and token are plain. */
  lemma CacheEntryStorableIff(args: Args, m: MintedToken, now: Timestamp)
    requires HonestlyMinted(args, m)
    ensures VaultRefinement.Storable(CacheEntry(args, m, now)) <==>
            KeepsRecord(args, m) && '/' !in args.entryLabel && LineSafe(m.token)
  {
    CacheMetadataCanonicalIff(args, m, now);
  }

  /** What a query is served of a cached token. */
  function Served(query: SecretQuery, args: Args, m: MintedToken, now: Timestamp, crlf: bool):
    Result<VaultEntry, VaultError>
  {
    Readable(query, StoredEntry(VaultPaths.SecretBack(m.token, crlf), Encode(CacheMetadata(args, m, now))))
  }

  lemma ServedIsHonest(query: SecretQuery, args: Args, m: MintedToken, now: Timestamp, crlf: bool)
    requires HonestlyMinted(args, m)
    ensures var found := Served(query, args, m, now, crlf);
            found.Ok? ==> && found.value.secret == VaultPaths.SecretBack(m.token, crlf)
                          && TellsTruth(found.value.metadata, args, m)
                          && found.value.metadata.acquiredAt == now
  {
    LateFieldIntegrity(CacheMetadata(args, m, now));
    CacheRecordsRun(args, m, now);
    if Decode(Encode(CacheMetadata(args, m, now))).Some? {
      DecodedRecordTellsTruth(CacheMetadata(args, m, now), args, m);
    }
  }

  lemma ServedWholeIff(args: Args, m: MintedToken, now: Timestamp, crlf: bool)
    requires HonestlyMinted(args, m)
    ensures Served(SecretQuery(args.project, args.entryLabel), args, m, now, crlf) == Ok(CacheEntry(args, m, now))
            <==> KeepsRecord(args, m) && LineSafe(m.token)
  {
    CacheMetadataCanonicalIff(args, m, now);
    RoundTripIffCanonical(CacheMetadata(args, m, now));
    VaultPaths.SecretComesBackIff(m.token, crlf);
  }

  /** What a get comes to at a path where a token has been cached. */
  lemma GetAtCachedPath(w: World, name: string, query: SecretQuery, env: RunEnv, args: Args, m: MintedToken,
                        now: Timestamp)
    requires query.GroupPath() in w.db.entries
    requires w.db.entries[query.GroupPath()] == StoredEntry(FirstRead(m.token), Encode(CacheMetadata(args, m, now)))
    ensures Get(w, name, query, env).1 ==
            if Works(w.passwords, w.db.master, name, env) then Served(query, args, m, now, env.crlf)
            else Err(NotFound(query))
  {
    GetReads(w, name, query, env);
    VaultPaths.StoredFirstLine(m.token, Encode(CacheMetadata(args, m, now)), env.crlf);
  }

  lemma CachedRunIsHonest(suite: Sealing.Suite, initial: World, s: System, id: RunId)
    requires Inv(suite, initial, s) && Caches(s, id)
    ensures HonestlyMinted(s.runs[id].args, s.runs[id].stage.minted)
    ensures s.runs[id].stage.minted.tier == Tiers.Tier2 ==> Receipt(id, s.runs[id].stage.minted) in s.log
  {
    CachesIffCached(suite, initial, s, id);
    var Run(args, stage) := s.runs[id];
    var i: nat :| i < |s.log| && s.log[i] == Cached(id, stage.minted, PathOf(args));
    assert FactOk(suite, s, i);
    VerifiedIsHonest(suite, initial, s, id, stage.minted);
  }

  lemma CredentialOfServed(w: World, name: string, query: SecretQuery, env: RunEnv, secret: string)
    ensures var found := Get(w, name, query, env).1;
            found.Ok? && found.value.secret == secret ==> ReadAsCredential(CredentialLines(secret), secret)
  {
    ServedSecretIsOneLine(w, name, query, env);
    if '\n' !in secret {
      CredentialIsRead(secret);
    }
  }

  /** The time a cached entry was made at. */
  lemma CachedAt(suite: Sealing.Suite, initial: World, s: System, id: RunId) returns (now: Timestamp)
    requires Inv(suite, initial, s) && Caches(s, id)
    ensures var Run(args, stage) := s.runs[id];
            && PathOf(args) in s.world.db.entries
            && s.world.db.entries[PathOf(args)] ==
               StoredEntry(FirstRead(stage.minted.token), Encode(CacheMetadata(args, stage.minted, now)))
  {
    var Run(args, stage) := s.runs[id];
    CachedEntryOf(suite, initial, s, id);
    var record :| && RecordsRun(record, args, stage.minted)
                  && s.world.db.entries[PathOf(args)].notes == Encode(record);
    now := record.acquiredAt;
    CacheRecordsRun(args, stage.minted, now);
  }

  /**
    End to end, completeness: once a run has cached its token, whatever events of
    any runs and puts and gets of others follow, a working `git-credential get`
    for its project and label finds that entry. It comes back whole exactly when
    the record survives and the token is line-safe; whenever anything comes back,
    git reads the token's first line as the password, and the record tells the
    tier of what was granted, GitHub's expiry and how the token was acquired.
   */
  lemma MintedTokenIsServed(suite: Sealing.Suite, initial: World, events: seq<Event>, id: RunId, later: seq<Event>,
                            name: string, env: RunEnv)
    returns (now: Timestamp)
    requires Sound(initial.passwords) && Caches(Reached(suite, initial, events), id)
    ensures var s := Reached(suite, initial, events);
            var Run(args, stage) := s.runs[id];
            var m := stage.minted;
            var w := Play(suite, s, later).world;
            var query := SecretQuery(args.project, args.entryLabel);
            var found := Get(w, name, query, env).1;
            if !Works(w.passwords, w.db.master, name, env) then found == Err(NotFound(query))
            else
              && (found == Ok(CacheEntry(args, m, now)) <==> KeepsRecord(args, m) && LineSafe(m.token))
              && (found.Ok? ==> && found.value.secret == VaultPaths.SecretBack(m.token, env.crlf)
                                && ReadAsCredential(CredentialLines(found.value.secret),
                                                    VaultPaths.SecretBack(m.token, env.crlf))
                                && TellsTruth(found.value.metadata, args, m))
  {
    ReachableInv(suite, initial, events);
    var s := Reached(suite, initial, events);
    var Run(args, stage) := s.runs[id];
    var query := SecretQuery(args.project, args.entryLabel);
    CachedRunIsHonest(suite, initial, s, id);
    now := CachedAt(suite, initial, s, id);
    HistoryIsKept(suite, s, later);
    GetAtCachedPath(Play(suite, s, later).world, name, query, env, args, stage.minted, now);
    ServedWholeIff(args, stage.minted, now, env.crlf);
    ServedIsHonest(query, args, stage.minted, now, env.crlf);
    CredentialOfServed(Play(suite, s, later).world, name, query, env,
                       VaultPaths.SecretBack(stage.minted.token, env.crlf));
  }

  /** What is found is the verified token of a caching run at that path, with the tier of its grant. */
  ghost predicate FoundFrom(s: System, path: string, found: VaultEntry, crlf: bool, id: RunId) {
    && Caches(s, id) && PathOf(s.runs[id].args) == path
    && var Run(args, stage) := s.runs[id];
    var m := stage.minted;
    && Verdict(args.requested, m.grantedPermissions).Ok?
    && found.secret == VaultPaths.SecretBack(m.token, crlf)
    && TellsTruth(found.metadata, args, m)
    && (m.tier == Tiers.Tier2 ==> Receipt(id, m) in s.log)
  }

  /**
    End to end, soundness: in any state that runs and other users of the vault
    can reach, whatever `git-credential get` finds at a path that the runs have
    bound, under any query for it, is a token that passed the scope-creep check
    of one of them, receipted if Tier 2, and reports the tier of what was
    granted, GitHub's expiry and how it was acquired. Nothing is asked of any
    text.
   */
  lemma ServedTokensAreVerified(suite: Sealing.Suite, initial: World, events: seq<Event>, query: SecretQuery,
                                name: string, env: RunEnv)
    requires Sound(initial.passwords) && BoundByRuns(initial, Reached(suite, initial, events), query.GroupPath())
    ensures var s := Reached(suite, initial, events);
            var found := Get(s.world, name, query, env).1;
            found.Ok? ==> exists id :: FoundFrom(s, query.GroupPath(), found.value, env.crlf, id)
  {
    ReachableInv(suite, initial, events);
    var s := Reached(suite, initial, events);
    var path := query.GroupPath();
    BoundPathIsCached(suite, initial, s, path);
    var id :| id in CachingRuns(s) && PathOf(s.runs[id].args) == path;
    var Run(args, stage) := s.runs[id];
    CachedRunIsHonest(suite, initial, s, id);
    var now := CachedAt(suite, initial, s, id);
    GetAtCachedPath(s.world, name, query, env, args, stage.minted, now);
    ServedIsHonest(query, args, stage.minted, now, env.crlf);
    assert Get(s.world, name, query, env).1.Ok? ==>
      FoundFrom(s, path, Get(s.world, name, query, env).1.value, env.crlf, id);
  }
}
