/**
  The `mint-github` branch as the sequential program it is: effects on Ferryman
  and the working vault with bail-outs between them. One undisturbed execution
  is a path of the transition system of Custody.
 */
module MintCommand {
  import opened Wrappers
  import opened Text
  import opened Timestamps
  import opened Tiers
  import ScopeAlgebra
  import OrderedMaps
  import opened Github
  import opened Entries
  import Metadata
  import opened Keystores
  import opened Vaults
  import opened Sealing
  import opened Custody
  import CustodyTheorems

  /** Everything the outside world contributes to one execution. */
  datatype Inputs = Inputs(
    reply: GithubReply,
    recipientHex: Option<string>,
    seed: Bytes,
    nonce: Bytes,
    depositTime: Timestamp,
    deposited: DepositReply,
    cacheTime: Timestamp,
    mkdir: RunEnv,
    add: RunEnv)

  datatype CommandError =
    | NoPrivateKey
    | MintingFailed(cause: GithubError)
    | FerrymanArgumentsMissing
    | NoIngestionKey
    | SealingFailed(why: SealError)
    | DepositFailed
    | BadMetadata(problem: EntryMetadataError)
    | VaultFailed(failure: VaultError)

  function MintScript(id: RunId, args: Args, inputs: Inputs): seq<Event> {
    [Start(id, args)] + [MintReply(id, inputs.reply)]
  }

  function DepositScript(id: RunId, inputs: Inputs): seq<Event> {
    [KeyReply(id, inputs.recipientHex)]
    + ([SealStep(id, inputs.seed, inputs.nonce)] + [DepositStep(id, inputs.depositTime, inputs.deposited)])
  }

  function CacheScript(id: RunId, inputs: Inputs): seq<Event> {
    [PrepareStep(id, inputs.cacheTime, inputs.mkdir)] + [AddStep(id, inputs.add)]
  }

  /** The steps an execution attempts; those that do not apply change nothing. */
  function Script(id: RunId, args: Args, inputs: Inputs): seq<Event> {
    MintScript(id, args, inputs) + (DepositScript(id, inputs) + CacheScript(id, inputs))
  }

  lemma {:induction false} PlayConcat(suite: Suite, s: System, a: seq<Event>, b: seq<Event>)
    ensures Play(suite, s, a + b) == Play(suite, Play(suite, s, a), b)
    decreases |a|
  {
    if a == [] {
      assert a + b == b;
    } else {
      assert (a + b)[1..] == a[1..] + b;
      PlayConcat(suite, Next(suite, s, a[0]), a[1..], b);
    }
  }

  lemma PlayOne(suite: Suite, s: System, e: Event)
    ensures Play(suite, s, [e]) == Next(suite, s, e)
  {
    assert [e][1..] == [];
  }

  lemma PlayCons(suite: Suite, s: System, e: Event, rest: seq<Event>)
    ensures Play(suite, s, [e] + rest) == Play(suite, Next(suite, s, e), rest)
  {
    assert ([e] + rest)[1..] == rest;
  }

  predicate Ended(stage: Stage) {
    stage.Failed? || stage.Finished? || stage.CachedUnreported?
  }

  /** A run that has ended is not moved by its own later events. */
  lemma {:induction false} EndedRunStays(suite: Suite, s: System, id: RunId, events: seq<Event>)
    requires id in s.runs && Ended(s.runs[id].stage)
    requires forall e: Event :: e in events ==> !e.Elsewhere? && e.run == id
    ensures Play(suite, s, events) == s
    decreases |events|
  {
    if events != [] {
      assert Next(suite, s, events[0]) == s;
      EndedRunStays(suite, s, id, events[1..]);
    }
  }

  lemma UnneededDepositSkipped(suite: Suite, s: System, id: RunId, inputs: Inputs)
    requires id in s.runs && s.runs[id].stage.Minted? && !NeedsDeposit(s.runs[id].args, s.runs[id].stage.minted)
    ensures Play(suite, s, DepositScript(id, inputs)) == s
  {
    var key, seal := KeyReply(id, inputs.recipientHex), SealStep(id, inputs.seed, inputs.nonce);
    var deposit := DepositStep(id, inputs.depositTime, inputs.deposited);
    PlayCons(suite, s, key, [seal] + [deposit]);
    PlayCons(suite, s, seal, [deposit]);
    PlayOne(suite, s, deposit);
  }

  lemma EndedCacheStays(suite: Suite, s: System, id: RunId, inputs: Inputs)
    requires id in s.runs && Ended(s.runs[id].stage)
    ensures Play(suite, s, CacheScript(id, inputs)) == s
  {
    EndedRunStays(suite, s, id, CacheScript(id, inputs));
  }

  /** The stage a run is in once GitHub has answered. */
  function AfterMint(args: Args, reply: GithubReply): Stage {
    if Trim(args.privateKeyPem) == "" then Failed
    else
      match Mint(args.requested, reply)
      case Ok(minted) => Minted(minted)
      case Err(_) => Failed
  }

  /** The state GitHub's answer leads to, and what is left to play from there. */
  lemma MintPhase(suite: Suite, s: System, id: RunId, args: Args, inputs: Inputs) returns (s': System)
    requires id !in s.runs && (inputs.reply.Issued? ==> FirstRead(inputs.reply.token) !in s.issued)
    ensures id in s'.runs && s'.runs[id] == Run(args, AfterMint(args, inputs.reply))
    ensures s'.world == s.world && s'.ferryman == s.ferryman
    ensures Play(suite, s, Script(id, args, inputs)) ==
            Play(suite, Play(suite, s', DepositScript(id, inputs)), CacheScript(id, inputs))
    ensures s'.runs[id].stage.Failed? ==> Play(suite, s, Script(id, args, inputs)) == s'
  {
    var deposit, cache := DepositScript(id, inputs), CacheScript(id, inputs);
    var s1 := Next(suite, s, Start(id, args));
    s' := Next(suite, s1, MintReply(id, inputs.reply));
    PlayConcat(suite, s, MintScript(id, args, inputs), deposit + cache);
    PlayCons(suite, s, Start(id, args), [MintReply(id, inputs.reply)]);
    PlayOne(suite, s1, MintReply(id, inputs.reply));
    PlayConcat(suite, s', deposit, cache);
    if s'.runs[id].stage.Failed? {
      EndedRunStays(suite, s', id, deposit + cache);
    }
  }

  /** The caching block in one go: nobody comes between the group and the entry. */
  function CacheRun(s: System, id: RunId, minted: MintedToken, inputs: Inputs): System
    requires id in s.runs
  {
    var args := s.runs[id].args;
    if args.forRecipient then MoveTo(s, id, Finished(minted))
    else if NewMetadata(CacheMetadata(args, minted, inputs.cacheTime)).Err? then MoveTo(s, id, Failed)
    else
      var entry := CacheEntry(args, minted, inputs.cacheTime);
      var (world, stored) := Put(s.world, args.keyringName, entry, inputs.mkdir, inputs.add);
      Settle(s, id, minted, entry.groupPath, world, stored)
  }

  /** Settling forgets that the group was prepared, which bound nothing. */
  lemma PreparedSettles(s: System, id: RunId, m: MintedToken, now: Timestamp, prepared: World, path: string,
                        world: World, stored: Result<(), VaultError>)
    requires id in s.runs && prepared.db == s.world.db
    ensures Settle(MoveTo(s, id, GroupPrepared(m, now)).(world := prepared), id, m, path, world, stored) ==
            Settle(s, id, m, path, world, stored)
  {
    var bound := NewlyBound(s.world, world, path);
    var stage := if stored.Ok? then Finished(m) else if bound then CachedUnreported(m) else Failed;
    assert s.runs[id := s.runs[id].(stage := GroupPrepared(m, now))][id := s.runs[id].(stage := stage)] ==
           s.runs[id := s.runs[id].(stage := stage)];
  }

  lemma AddAfterPrepare(s: System, id: RunId, m: MintedToken, inputs: Inputs)
    requires id in s.runs && !s.runs[id].args.forRecipient
    requires NewMetadata(CacheMetadata(s.runs[id].args, m, inputs.cacheTime)).Ok?
    ensures var s1 := PrepareRun(s, id, m, inputs.cacheTime, inputs.mkdir);
            && id in s1.runs && s1.runs[id].stage == GroupPrepared(m, inputs.cacheTime)
            && AddRun(s1, id, m, inputs.cacheTime, inputs.add) == CacheRun(s, id, m, inputs)
  {
    var args := s.runs[id].args;
    var s1 := PrepareRun(s, id, m, inputs.cacheTime, inputs.mkdir);
    var (world, stored) := AddEntry(s1.world, args.keyringName, CacheEntry(args, m, inputs.cacheTime), inputs.add);
    MkdirKeepsDatabase(s.world, args.keyringName, args.project, inputs.mkdir);
    PreparedSettles(s, id, m, inputs.cacheTime, s1.world, PathOf(args), world, stored);
  }

  lemma PrepareEvent(suite: Suite, s: System, id: RunId, now: Timestamp, mkdir: RunEnv)
    requires id in s.runs
    requires var Run(args, stage) := s.runs[id];
             stage.Receipted? || (stage.Minted? && !NeedsDeposit(args, stage.minted))
    ensures Next(suite, s, PrepareStep(id, now, mkdir)) == PrepareRun(s, id, s.runs[id].stage.minted, now, mkdir)
  {}

  lemma AddEvent(suite: Suite, s: System, id: RunId, add: RunEnv)
    requires id in s.runs
    ensures var stage := s.runs[id].stage;
            Next(suite, s, AddStep(id, add)) ==
            if stage.GroupPrepared? then AddRun(s, id, stage.minted, stage.acquiredAt, add) else s
  {}

  lemma CacheScriptIsCacheRun(suite: Suite, s: System, id: RunId, inputs: Inputs)
    requires id in s.runs
    requires var Run(args, stage) := s.runs[id];
             stage.Receipted? || (stage.Minted? && !NeedsDeposit(args, stage.minted))
    ensures Play(suite, s, CacheScript(id, inputs)) == CacheRun(s, id, s.runs[id].stage.minted, inputs)
  {
    var m := s.runs[id].stage.minted;
    var prepare, add := PrepareStep(id, inputs.cacheTime, inputs.mkdir), AddStep(id, inputs.add);
    var s1 := PrepareRun(s, id, m, inputs.cacheTime, inputs.mkdir);
    PlayCons(suite, s, prepare, [add]);
    PlayOne(suite, s1, add);
    PrepareEvent(suite, s, id, inputs.cacheTime, inputs.mkdir);
    AddEvent(suite, s1, id, inputs.add);
    if !s.runs[id].args.forRecipient && NewMetadata(CacheMetadata(s.runs[id].args, m, inputs.cacheTime)).Ok? {
      AddAfterPrepare(s, id, m, inputs);
    }
  }

  lemma FailedPutKeepsDatabase(w: World, name: string, entry: VaultEntry, mkdir: RunEnv, add: RunEnv)
    ensures var (w', stored) := Put(w, name, entry, mkdir, add);
            && (stored.Err? && add.exit != FailedAfter ==> w'.db == w.db)
            && (stored.Ok? ==> entry.groupPath in w'.db.entries && entry.groupPath !in w.db.entries)
  {
    PutBinds(w, name, entry, mkdir, add);
  }

  lemma DescriptionIsNotBlank(args: Args, m: MintedToken)
    ensures !Blank(SourceDescription(args, m))
  {
    var d := SourceDescription(args, m);
    assert d[0] == 'G';
    BlankIffAllSpace(d);
  }

  class Machine {
    const suite: Suite
    const keystore: Keystore
    const keepass: KeePass
    var ferryman: seq<Deposit>
    ghost var runs: map<RunId, Run>
    ghost var issued: set<string>
    ghost var filed: set<string>
    ghost var log: seq<Fact>

    constructor (suite: Suite, keystore: Keystore, keepass: KeePass)
      ensures this.suite == suite && this.keystore == keystore && this.keepass == keepass
      ensures Snapshot() == Initial(World(keystore.passwords, keepass.db))
    {
      this.suite, this.keystore, this.keepass := suite, keystore, keepass;
      this.ferryman := [];
      this.runs, this.issued, this.filed, this.log := map[], {}, {}, [];
    }

    ghost function Snapshot(): System
      reads this, keystore, keepass
    {
      System(runs, issued, ferryman, World(keystore.passwords, keepass.db), filed, log)
    }

    /** Record what the execution has become. */
    ghost method Record(s: System)
      requires s.ferryman == ferryman && s.world == World(keystore.passwords, keepass.db)
      modifies `runs, `issued, `filed, `log
      ensures Snapshot() == s
    {
      runs, issued, filed, log := s.runs, s.issued, s.filed, s.log;
    }

    /** The block that hands the token to Ferryman, for a run that must. */
    method DepositWithFerryman(ghost id: RunId, args: Args, minted: MintedToken, inputs: Inputs)
      returns (outcome: Result<(), CommandError>)
      requires id in runs && runs[id] == Run(args, Minted(minted)) && NeedsDeposit(args, minted)
      requires |inputs.nonce| == 24
      modifies this
      ensures Snapshot() == Play(suite, old(Snapshot()), DepositScript(id, inputs))
      ensures id in runs && runs[id].args == args && Snapshot().world == old(Snapshot().world)
      ensures outcome.Ok? ==> runs[id].stage == Receipted(minted)
      ensures outcome.Err? ==> runs[id].stage == Failed
      ensures outcome.Ok? ==> inputs.deposited == Accepted
      ensures outcome == Err(FerrymanArgumentsMissing) <==> !FerrymanGiven(args)
      ensures outcome == Err(NoIngestionKey) <==> FerrymanGiven(args) && inputs.recipientHex.None?
      ensures outcome == Err(SealingFailed(EmptyValue)) <==>
              FerrymanGiven(args) && inputs.recipientHex.Some? && minted.token == ""
      ensures outcome == Err(SealingFailed(BadRecipientKey)) <==>
              && FerrymanGiven(args) && inputs.recipientHex.Some? && minted.token != ""
              && HexDecodeExact(inputs.recipientHex.value, 32).None?
      ensures outcome.Err? ==> outcome.error.FerrymanArgumentsMissing? || outcome.error.NoIngestionKey?
                               || outcome.error.SealingFailed? || outcome.error == DepositFailed
      ensures outcome == Err(DepositFailed) ==> inputs.deposited != Accepted
    {
      ghost var key := KeyReply(id, inputs.recipientHex);
      ghost var seal := SealStep(id, inputs.seed, inputs.nonce);
      ghost var deposit := DepositStep(id, inputs.depositTime, inputs.deposited);
      ghost var s0 := Snapshot();
      ghost var s1 := Next(suite, s0, key);
      PlayCons(suite, s0, key, [seal] + [deposit]);
      if args.ferrymanBaseUrl.None? || args.ferrymanProject.None? || args.ferrymanToken.None? {
        EndedRunStays(suite, s1, id, [seal] + [deposit]);
        Record(s1);
        return Err(FerrymanArgumentsMissing);
      }
      if inputs.recipientHex.None? {
        EndedRunStays(suite, s1, id, [seal] + [deposit]);
        Record(s1);
        return Err(NoIngestionKey);
      }
      var aad := DepositAad(args.ferrymanProject.value);
      var sealed := SealForIngestion(suite, inputs.recipientHex.value, aad, minted.token, inputs.seed, inputs.nonce);
      ghost var s2 := Next(suite, s1, seal);
      PlayCons(suite, s1, seal, [deposit]);
      if sealed.Err? {
        EndedRunStays(suite, s2, id, [deposit]);
        Record(s2);
        return Err(SealingFailed(sealed.error));
      }
      PlayOne(suite, s2, deposit);
      var metadata := DepositMetadata(args.project, "github", minted.scopeString, minted.tier.AsU8(), Track1Api,
                                      inputs.depositTime, Some(minted.expiresAt), args.entryLabel);
      if inputs.deposited != Rejected {
        ferryman := ferryman + [Deposit(args.ferrymanProject.value, sealed.value, metadata)];
      }
      Record(Next(suite, s2, deposit));
      return if inputs.deposited == Accepted then Ok(()) else Err(DepositFailed);
    }

    /** The block that caches the token, unless it is for someone else. */
    method CacheLocally(ghost id: RunId, args: Args, minted: MintedToken, inputs: Inputs)
      returns (outcome: Result<(), CommandError>)
      requires id in runs && runs[id].args == args
      requires runs[id].stage == Receipted(minted) || (runs[id].stage == Minted(minted) && !NeedsDeposit(args, minted))
      modifies this, keystore, keepass
      ensures Snapshot() == Play(suite, old(Snapshot()), CacheScript(id, inputs))
      ensures id in runs && (if outcome.Ok? then runs[id].stage == Finished(minted)
                             else runs[id].stage in {Failed, CachedUnreported(minted)})
      ensures args.forRecipient ==> outcome.Ok? && Snapshot().world == old(Snapshot().world)
      ensures outcome.Err? && inputs.add.exit != FailedAfter ==> keepass.db == old(keepass.db)
      ensures outcome == Err(BadMetadata(EmptyProject)) <==> !args.forRecipient && Blank(args.project)
      ensures outcome.Err? && outcome.error != BadMetadata(EmptyProject) ==>
                var entry := CacheEntry(args, minted, inputs.cacheTime);
                var put := Put(old(Snapshot()).world, args.keyringName, entry, inputs.mkdir, inputs.add).1;
                put.Err? && outcome == Err(VaultFailed(put.error))
    {
      DescriptionIsNotBlank(args, minted);
      ghost var before := Snapshot();
      ghost var s' := CacheRun(before, id, minted, inputs);
      CacheScriptIsCacheRun(suite, before, id, inputs);
      if !args.forRecipient {
        var description := "GitHub App " + "installation token" + ", app " + Decimal(args.appId)
        + ", installation " + Decimal(args.installationId) + ", " + minted.scopeString;
        var metadata := NewMetadata(EntryMetadata("github", args.project, description, GithubAppInstallationToken,
                                                  inputs.cacheTime, Some(minted.expiresAt), minted.tier));
        if metadata.Err? {
          Record(s');
          return Err(BadMetadata(metadata.error));
        }
        var entry := NewEntry(args.entryLabel, metadata.value, minted.token);
        var store := new Vault(args.keyringName, keystore, keepass);
        var put := store.PutEntry(entry, inputs.mkdir, inputs.add);
        Record(s');
        FailedPutKeepsDatabase(before.world, args.keyringName, entry, inputs.mkdir, inputs.add);
        if put.Err? {
          return Err(VaultFailed(put.error));
        }
        return Ok(());
      }
      Record(s');
      return Ok(());
    }

    /** `mint-github`, from the key on stdin to the cached or delivered token. */
    method MintGithub(ghost id: RunId, args: Args, inputs: Inputs) returns (outcome: Result<MintedToken, CommandError>)
      requires id !in runs
      requires inputs.reply.Issued? ==> FirstRead(inputs.reply.token) !in issued
      requires |inputs.nonce| == 24
      modifies this, keystore, keepass
      ensures Snapshot() == Play(suite, old(Snapshot()), Script(id, args, inputs))
      ensures id in runs && (outcome.Ok? <==> runs[id].stage.Finished?)
      ensures outcome.Ok? ==> runs[id].stage.minted == outcome.value
      ensures outcome.Err? && inputs.add.exit != FailedAfter ==> keepass.db == old(keepass.db)
      ensures outcome == Err(NoPrivateKey) <==> Trim(args.privateKeyPem) == ""
      ensures Trim(args.privateKeyPem) != "" ==>
                var minted := Mint(args.requested, inputs.reply);
                && (minted.Err? ==> outcome == Err(MintingFailed(minted.error)))
                && (outcome.Ok? ==> outcome == Ok(minted.value))
                && (outcome.Err? && outcome.error.MintingFailed? ==> minted.Err?)
                && (minted.Ok? && NeedsDeposit(args, minted.value) && !FerrymanGiven(args) ==>
                      outcome == Err(FerrymanArgumentsMissing))
                && (minted.Ok? && !NeedsDeposit(args, minted.value) && Blank(args.project) ==>
                      outcome == Err(BadMetadata(EmptyProject)))
    {
      ghost var s' := MintPhase(suite, Snapshot(), id, args, inputs);
      if Trim(args.privateKeyPem) == "" {
        Record(s');
        return Err(NoPrivateKey);
      }
      var result := MintInstallationToken(args.requested, inputs.reply);
      Record(s');
      if result.Err? {
        return Err(MintingFailed(result.error));
      }
      var minted := result.value;
      if minted.tier == Tier2 || args.forRecipient {
        var deposited := DepositWithFerryman(id, args, minted, inputs);
        if deposited.Err? {
          EndedCacheStays(suite, Snapshot(), id, inputs);
          return Err(deposited.error);
        }
      } else {
        UnneededDepositSkipped(suite, s', id, inputs);
      }
      var cached := CacheLocally(id, args, minted, inputs);
      return if cached.Ok? then Ok(minted) else Err(cached.error);
    }
  }

  // ---------- When an execution succeeds, and what it leaves ----------

  /** The deposit goes through: all three arguments, a usable key, a token to seal, and a receipt. */
  predicate Deposits(args: Args, minted: MintedToken, inputs: Inputs) {
    && FerrymanGiven(args)
    && inputs.recipientHex.Some? && HexDecodeExact(inputs.recipientHex.value, 32).Some?
    && minted.token != ""
    && inputs.deposited == Accepted
  }

  /** The run gets past the mint and, if it must deposit, past the deposit. */
  predicate Delivers(args: Args, inputs: Inputs) {
    && Trim(args.privateKeyPem) != ""
    && var result := Mint(args.requested, inputs.reply);
    && result.Ok?
    && (NeedsDeposit(args, result.value) ==> Deposits(args, result.value, inputs))
  }

  /** The line that the put of a token binds at the path of the run, if it binds it. */
  function Stores(w: World, args: Args, token: string, inputs: Inputs): Option<string> {
    var launched := Launch(Launch(w.passwords, args.keyringName, inputs.mkdir).0, args.keyringName, inputs.add).1;
    if Blank(args.project) then None else Binds(w.db, launched, inputs.add.exit, PathOf(args), token)
  }

  /** The stage in which an execution that delivers ends, and the database it leaves. */
  function CachedAs(w: World, args: Args, minted: MintedToken, inputs: Inputs): (Stage, Database) {
    var line := Stores(w, args, minted.token, inputs);
    if args.forRecipient then (Finished(minted), w.db)
    else if line.None? then (Failed, w.db)
    else
      (if inputs.add.exit == Clean then Finished(minted) else CachedUnreported(minted),
       Bind(w.db, args.project + "/" + args.entryLabel, line.value,
            Metadata.Encode(EntryMetadata(
                              "github", args.project,
                              "GitHub App " + "installation token" + ", app " + Decimal(args.appId)
                              + ", installation " + Decimal(args.installationId) + ", " + minted.scopeString,
                              GithubAppInstallationToken, inputs.cacheTime, Some(minted.expiresAt), minted.tier))))
  }

  lemma DepositPhase(suite: Suite, s: System, id: RunId, inputs: Inputs)
    requires id in s.runs && s.runs[id].stage.Minted? && |inputs.nonce| == 24
    requires NeedsDeposit(s.runs[id].args, s.runs[id].stage.minted)
    ensures var m := s.runs[id].stage.minted;
            var s' := Play(suite, s, DepositScript(id, inputs));
            && id in s'.runs && s'.world == s.world && s'.runs[id].args == s.runs[id].args
            && s'.runs[id].stage == (if Deposits(s.runs[id].args, m, inputs) then Receipted(m) else Failed)
  {
    var key, seal := KeyReply(id, inputs.recipientHex), SealStep(id, inputs.seed, inputs.nonce);
    var deposit := DepositStep(id, inputs.depositTime, inputs.deposited);
    var s1 := Next(suite, s, key);
    var s2 := Next(suite, s1, seal);
    PlayCons(suite, s, key, [seal] + [deposit]);
    PlayCons(suite, s1, seal, [deposit]);
    PlayOne(suite, s2, deposit);
  }

  lemma SettledAs(s: System, id: RunId, m: MintedToken, path: string, world: World, stored: Result<(), VaultError>,
                  bound: bool, clean: bool, line: string, notes: string)
    requires id in s.runs && (bound ==> path !in s.world.db.entries) && (stored.Ok? <==> bound && clean)
    requires world.db == if bound then Bind(s.world.db, path, line, notes) else s.world.db
    ensures var s' := Settle(s, id, m, path, world, stored);
            && id in s'.runs && s'.world == world && s'.runs[id].args == s.runs[id].args
            && s'.runs[id].stage == (if !bound then Failed else if clean then Finished(m) else CachedUnreported(m))
  {}

  /** What a put came to, as a pair of what it bound and whether it was reported. */
  lemma PutEffectMeaning(w: World, name: string, entry: VaultEntry, mkdir: RunEnv, add: RunEnv,
                         w': World, failed: Option<VaultError>)
    requires PutEffect(w, name, entry, mkdir, add, w', failed)
    ensures var launched := Launch(Launch(w.passwords, name, mkdir).0, name, add).1;
            var line := Binds(w.db, launched, add.exit, entry.groupPath, entry.secret);
            && w'.db == (if line.Some?
                         then Bind(w.db, entry.groupPath, line.value, Metadata.Encode(entry.metadata)) else w.db)
            && (failed.None? <==> line.Some? && add.exit == Clean)
  {}

  lemma CachePhase(suite: Suite, s: System, id: RunId, inputs: Inputs)
    requires id in s.runs
    requires var Run(args, stage) := s.runs[id];
             stage.Receipted? || (stage.Minted? && !NeedsDeposit(args, stage.minted))
    ensures var Run(args, stage) := s.runs[id];
            var s' := Play(suite, s, CacheScript(id, inputs));
            && id in s'.runs && s'.runs[id].args == args
            && (s'.runs[id].stage, s'.world.db) == CachedAs(s.world, args, stage.minted, inputs)
  {
    var Run(args, stage) := s.runs[id];
    var m := stage.minted;
    CacheScriptIsCacheRun(suite, s, id, inputs);
    DescriptionIsNotBlank(args, m);
    if !args.forRecipient && !Blank(args.project) {
      var entry := CacheEntry(args, m, inputs.cacheTime);
      var (world, stored) := Put(s.world, args.keyringName, entry, inputs.mkdir, inputs.add);
      PutBinds(s.world, args.keyringName, entry, inputs.mkdir, inputs.add);
      PutEffectMeaning(s.world, args.keyringName, entry, inputs.mkdir, inputs.add, world, Failure(stored));
      var line := Stores(s.world, args, m.token, inputs);
      SettledAs(s, id, m, PathOf(args), world, stored, line.Some?, inputs.add.exit == Clean,
                if line.Some? then line.value else "", Metadata.Encode(entry.metadata));
    }
  }

  /**
    How an execution ends, on every input: a local one that delivers and stores
    leaves its token's entry in the vault, whatever the tier and whether or not
    the store is then reported; every other execution leaves the vault as it was,
    and has failed unless it delivers for a recipient.
   */
  lemma ExecutionOutcome(suite: Suite, s: System, id: RunId, args: Args, inputs: Inputs)
    requires id !in s.runs && |inputs.nonce| == 24
    requires inputs.reply.Issued? ==> FirstRead(inputs.reply.token) !in s.issued
    ensures var s' := Play(suite, s, Script(id, args, inputs));
            && id in s'.runs && s'.runs[id].args == args
            && (s'.runs[id].stage, s'.world.db) ==
               if Delivers(args, inputs) then CachedAs(s.world, args, Mint(args.requested, inputs.reply).value, inputs)
               else (Failed, s.world.db)
  {
    var s' := MintPhase(suite, s, id, args, inputs);
    if !s'.runs[id].stage.Failed? {
      if NeedsDeposit(args, s'.runs[id].stage.minted) {
        DepositPhase(suite, s', id, inputs);
      } else {
        UnneededDepositSkipped(suite, s', id, inputs);
      }
      var s'' := Play(suite, s', DepositScript(id, inputs));
      if s''.runs[id].stage.Failed? {
        EndedCacheStays(suite, s'', id, inputs);
      } else {
        CachePhase(suite, s'', id, inputs);
      }
    }
  }

  // ---------- A Tier 2 token in the working vault ----------

  /** The password opens the database and leaves a line of the `add` to the secret. */
  predicate Opens(password: string, master: string) {
    FirstRead(password) == master && |Split(password, '\n')| <= 2
  }

  /** The database opens with the password the keystore holds for the vault, or can come to hold. */
  ghost predicate CanUnlock(w: World, name: string) {
    if name in w.passwords then Opens(w.passwords[name], w.db.master)
    else exists random: Randomness :: Generate(random) == w.db.master
  }

  predicate OneLinePassword(w: World, name: string) {
    name in w.passwords ==> '\n' !in w.passwords[name]
  }

  /** In `s`, run 0 has left a new entry with a Tier 2 token in what was the vault of `w`. */
  ghost predicate Tier2Left(w: World, args: Args, s: System) {
    && CustodyTheorems.Caches(s, 0) && s.runs[0].stage.minted.tier == Tier2
    && PathOf(args) !in w.db.entries && PathOf(args) in s.world.db.entries
    && IsCacheOf(args, s.runs[0].stage.minted, s.world.db.entries[PathOf(args)])
  }

  /** A first execution on these inputs does that. */
  ghost predicate LeavesTier2(suite: Suite, w: World, args: Args, inputs: Inputs) {
    |inputs.nonce| == 24 && Tier2Left(w, args, CustodyTheorems.Reached(suite, w, Script(0, args, inputs)))
  }

  /** What the caller can look at beforehand. */
  ghost predicate Tier2CanBeCached(w: World, args: Args) {
    && Trim(args.privateKeyPem) != "" && !args.forRecipient && FerrymanGiven(args) && !Blank(args.project)
    && PathOf(args) !in w.db.entries && CanUnlock(w, args.keyringName)
  }

  function Smoothly(random: Randomness): RunEnv {
    RunEnv(true, true, KeyringEnv(true, true, random, Stored), true, Clean, false)
  }

  /** `granted` for a token, with every outside step going well. */
  function SmoothInputs(granted: OrderedMaps.StringMap, token: string, recipientHex: string, now: Timestamp,
                        random: Randomness): Inputs
  {
    Inputs(Issued(token, now, granted), Some(recipientHex), [], seq(24, _ => 0), now, Accepted, now,
           Smoothly(random), Smoothly(random))
  }

  /** What the `add` of a smooth execution is handed for its password. */
  function SmoothPassword(w: World, name: string, random: Randomness): Result<string, VaultError> {
    Launch(Launch(w.passwords, name, Smoothly(random)).0, name, Smoothly(random)).1
  }

  lemma GeneratedOpens(random: Randomness)
    ensures Opens(Generate(random), Generate(random))
  {
    GeneratedIsLineSafe(random);
    SplitLacking(Generate(random), '\n');
    FirstReadIsWholeIff(Generate(random));
  }

  lemma UnlockedSmoothly(w: World, name: string) returns (random: Randomness, password: string)
    requires CanUnlock(w, name)
    ensures SmoothPassword(w, name, random) == Ok(password) && Opens(password, w.db.master)
    ensures '\n' in password ==> name in w.passwords && password == w.passwords[name]
  {
    if name in w.passwords {
      random := seq(GENERATED_LEN, _ => 0);
      password := w.passwords[name];
    } else {
      random :| Generate(random) == w.db.master;
      password := w.db.master;
      GeneratedOpens(random);
      GeneratedIsLineSafe(random);
    }
  }

  lemma ReadOfOneLine(line: string)
    requires '\n' !in line
    ensures ConfirmsItself(line) && FirstRead(line) == StripCarriageReturn(line)
  {
    SplitLacking(line, '\n');
    FindMeaning(line, '\n');
    assert FirstLine(line) == line;
  }

  /**
    Some token is confirmed under any password that opens: under one of two lines
    its second line, or else one that reads as nothing, and under others any that
    confirms itself.
   */
  lemma ConfirmableToken(password: string, master: string, wanted: string) returns (token: string)
    requires Opens(password, master) && wanted != "" && ConfirmsItself(wanted)
    ensures token != "" && Confirmed(password, token) == Some(FirstRead(token))
    ensures '\n' !in password ==> token == wanted
  {
    var p := Split(password, '\n');
    token := if |p| == 1 then wanted else if p[1] != "" then p[1] else "\r";
    if '\n' !in password {
      SplitLacking(password, '\n');
    }
    if |p| == 2 {
      SplitPartsLackSeparator(password, '\n');
      ReadOfOneLine(token);
    }
    StrippedAt(p);
    ConfirmedExactly(password, token);
  }

  lemma UnlockedMeansCan(w: World, name: string, mkdir: RunEnv, add: RunEnv)
    requires var launched := Launch(Launch(w.passwords, name, mkdir).0, name, add).1;
             launched.Ok? && Opens(launched.value, w.db.master)
    ensures CanUnlock(w, name)
  {
    if name !in w.passwords {
      GeneratedOpens(mkdir.keyring.random);
      GeneratedOpens(add.keyring.random);
      assert Generate(mkdir.keyring.random) == w.db.master || Generate(add.keyring.random) == w.db.master;
    }
  }

  lemma SmoothDelivers(args: Args, granted: OrderedMaps.StringMap, token: string, recipient: Bytes, now: Timestamp,
                       random: Randomness)
    requires Trim(args.privateKeyPem) != "" && FerrymanGiven(args) && token != "" && |recipient| == 32
    requires Verdict(args.requested, granted).Ok? && ScopeAlgebra.ScopeTier(ScopeString(granted)) == Tier2
    ensures var inputs := SmoothInputs(granted, token, HexEncode(recipient), now, random);
            var minted := Mint(args.requested, inputs.reply);
            Delivers(args, inputs) && minted.value.tier == Tier2 && minted.value.token == token
  {
    HexRoundTrip(recipient);
  }

  lemma StoredTier2IsLeft(w: World, args: Args, inputs: Inputs, minted: MintedToken, s: System)
    requires 0 in s.runs && s.runs[0].args == args && !args.forRecipient && minted.tier == Tier2
    requires PathOf(args) !in w.db.entries
    requires Stores(w, args, minted.token, inputs) == Some(FirstRead(minted.token)) && inputs.add.exit == Clean
    requires (s.runs[0].stage, s.world.db) == CachedAs(w, args, minted, inputs)
    ensures Tier2Left(w, args, s)
  {
    assert s.world.db.entries[PathOf(args)] ==
           StoredEntry(FirstRead(minted.token), Metadata.Encode(CacheMetadata(args, minted, inputs.cacheTime)));
  }

  /** Any accepted Tier 2 grant for a token that is confirmed ends up in the vault when nothing goes wrong. */
  lemma SmoothTier2IsCached(suite: Suite, w: World, args: Args, granted: OrderedMaps.StringMap, token: string,
                            now: Timestamp, random: Randomness, password: string)
    requires Tier2CanBeCached(w, args) && token != ""
    requires Verdict(args.requested, granted).Ok? && ScopeAlgebra.ScopeTier(ScopeString(granted)) == Tier2
    requires SmoothPassword(w, args.keyringName, random) == Ok(password) && Opens(password, w.db.master)
    requires Confirmed(password, token) == Some(FirstRead(token))
    ensures LeavesTier2(suite, w, args, SmoothInputs(granted, token, HexEncode(seq(32, _ => 0)), now, random))
  {
    var inputs := SmoothInputs(granted, token, HexEncode(seq(32, _ => 0)), now, random);
    SmoothDelivers(args, granted, token, seq(32, _ => 0), now, random);
    assert Stores(w, args, token, inputs) == Some(FirstRead(token));
    ExecutionOutcome(suite, Initial(w), 0, args, inputs);
    StoredTier2IsLeft(w, args, inputs, Mint(args.requested, inputs.reply).value,
                      CustodyTheorems.Reached(suite, w, Script(0, args, inputs)));
  }

  /** A faithful password that confirms anything at all has no third line. */
  lemma ConfirmingPasswordOpens(password: string, secret: string, master: string)
    requires Faithful(password) && Confirmed(password, secret).Some? && FirstRead(password) == master
    ensures Opens(password, master)
  {
    ConfirmedExactly(password, secret);
  }

  lemma LeftMeansStored(w: World, args: Args, inputs: Inputs, s: System)
    requires Sound(w.passwords) && Tier2Left(w, args, s) && s.runs[0].args == args
    requires (s.runs[0].stage, s.world.db) ==
             if Delivers(args, inputs) then CachedAs(w, args, Mint(args.requested, inputs.reply).value, inputs)
             else (Failed, w.db)
    ensures Tier2CanBeCached(w, args)
  {
    var name := args.keyringName;
    var prepared := Launch(w.passwords, name, inputs.mkdir).0;
    var launched := Launch(prepared, name, inputs.add).1;
    LaunchKeepsSound(w.passwords, name, inputs.mkdir);
    LaunchKeepsSound(prepared, name, inputs.add);
    ConfirmingPasswordOpens(launched.value, Mint(args.requested, inputs.reply).value.token, w.db.master);
    UnlockedMeansCan(w, name, inputs.mkdir, inputs.add);
  }

  lemma AcceptedTier2IsCached(suite: Suite, w: World, args: Args, granted: OrderedMaps.StringMap, wanted: string)
    returns (inputs: Inputs)
    requires Tier2CanBeCached(w, args) && wanted != "" && ConfirmsItself(wanted)
    requires Verdict(args.requested, granted).Ok? && ScopeAlgebra.ScopeTier(ScopeString(granted)) == Tier2
    ensures LeavesTier2(suite, w, args, inputs) && inputs.reply.Issued? && inputs.reply.permissions == granted
    ensures OneLinePassword(w, args.keyringName) ==> inputs.reply.token == wanted
  {
    var random, password := UnlockedSmoothly(w, args.keyringName);
    var token := ConfirmableToken(password, w.db.master, wanted);
    var now: Timestamp :| true;
    SmoothTier2IsCached(suite, w, args, granted, token, now, random, password);
    inputs := SmoothInputs(granted, token, HexEncode(seq(32, _ => 0)), now, random);
  }

  /**
    The threat model's "Tier 2 never sits in the working vault" does not hold of
    the code, and this is exactly when: some answers of the outside world make a
    run leave a Tier 2 token there if and only if a key was given, the run is not
    for a recipient, Ferryman's arguments and a project are given, the path is
    unbound and the vault can be unlocked. What was requested does not matter: an
    empty grant answers any request, and is Tier 2.
   */
  lemma Tier2CanBeCachedIff(suite: Suite, w: World, args: Args)
    requires Sound(w.passwords)
    ensures (exists inputs :: LeavesTier2(suite, w, args, inputs)) <==> Tier2CanBeCached(w, args)
  {
    if inputs :| LeavesTier2(suite, w, args, inputs) {
      ExecutionOutcome(suite, Initial(w), 0, args, inputs);
      LeftMeansStored(w, args, inputs, CustodyTheorems.Reached(suite, w, Script(0, args, inputs)));
    }
    if Tier2CanBeCached(w, args) {
      EmptyGrantIsTier2();
      ReadOfOneLine("t");
      var _ := AcceptedTier2IsCached(suite, w, args, [], "t");
    }
  }

  /**
    Nor does it take an empty grant: asking for a sensitive permission and getting
    it is enough, and unless the unlock password has two lines, so is any token
    whose lines agree.
   */
  lemma SensitiveTokenIsCached(suite: Suite, w: World, args: Args, resource: string, level: string, token: string)
    requires Tier2CanBeCached(w, args) && token != "" && ConfirmsItself(token)
    requires args.requested == [OrderedMaps.Entry(resource, level)] && resource in SENSITIVE && level in LEVELS
    ensures exists inputs :: && LeavesTier2(suite, w, args, inputs) && inputs.reply.Issued?
                             && inputs.reply.permissions == args.requested
                             && (OneLinePassword(w, args.keyringName) ==> inputs.reply.token == token)
  {
    SensitiveGrant(resource, level, args.requested);
    var _ := AcceptedTier2IsCached(suite, w, args, args.requested, token);
  }
}
