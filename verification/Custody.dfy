/**
  The `mint-github` command as a transition system (crates/custodly-cli/src/main.rs):
  any number of runs, interleaved step by step with each other and with whatever
  else uses the vault, each step free to fail, over a shared GitHub, Ferryman,
  keystore and text store.
 */
module Custody {
  import opened Wrappers
  import opened Text
  import opened Timestamps
  import Tiers
  import OrderedMaps
  import opened Github
  import opened Entries
  import Metadata
  import opened Vaults
  import opened VaultPaths
  import opened Sealing

  type RunId = nat

  type u64 = n: nat | n < 0x1_0000_0000_0000_0000

  /** The command line and stdin of one run. */
  datatype Args = Args(
    privateKeyPem: string,
    appId: u64,
    installationId: u64,
    requested: OrderedMaps.StringMap,
    project: string,
    entryLabel: string,
    keyringName: string,
    forRecipient: bool,
    ferrymanBaseUrl: Option<string>,
    ferrymanProject: Option<string>,
    ferrymanToken: Option<string>)

  datatype AcquiredVia = Track1Api | Track2Recipe

  datatype DepositMetadata = DepositMetadata(
    project: string, provider: string, scope: string, tier: nat, acquiredVia: AcquiredVia,
    acquiredAt: Timestamp, expiresAt: Option<Timestamp>, entryLabel: string)

  datatype Deposit = Deposit(ferrymanProject: string, sealed: SealedSecret, metadata: DepositMetadata)

  /** Ferryman may keep a deposit and still fail to answer for it. */
  datatype DepositReply = Accepted | ReceiptLost | Rejected

  /** How far a run has come; an entry can be in the vault although the run was told it is not. */
  datatype Stage =
    | Launched
    | Minted(minted: MintedToken)
    | KeyFetched(minted: MintedToken, recipientHex: string)
    | SealedFor(minted: MintedToken, sealed: SealedSecret)
    | Receipted(minted: MintedToken)
    | GroupPrepared(minted: MintedToken, acquiredAt: Timestamp)
    | Finished(minted: MintedToken)
    | CachedUnreported(minted: MintedToken)
    | Failed

  datatype Run = Run(args: Args, stage: Stage)

  /** What has happened, in the order it happened. */
  datatype Fact =
    | Verified(run: RunId, minted: MintedToken)
    | Quarantined(run: RunId, token: string)
    | SealMade(run: RunId, minted: MintedToken)
    | Sent(run: RunId, minted: MintedToken)
    | Receipt(run: RunId, minted: MintedToken)
    | Cached(run: RunId, minted: MintedToken, path: string)

  /** `filed` are the paths that others have bound. */
  datatype System = System(
    runs: map<RunId, Run>,
    issued: set<string>,
    ferryman: seq<Deposit>,
    world: World,
    filed: set<string>,
    log: seq<Fact>)

  function Initial(world: World): System {
    System(map[], {}, [], world, {}, [])
  }

  // ---------- The decisions of the command ----------

  /** Anything Tier 2, and anything for someone else, must be deposited. */
  predicate NeedsDeposit(args: Args, minted: MintedToken) {
    minted.tier == Tiers.Tier2 || args.forRecipient
  }

  predicate FerrymanGiven(args: Args) {
    args.ferrymanBaseUrl.Some? && args.ferrymanProject.Some? && args.ferrymanToken.Some?
  }

  /** A number as `format!` prints it. */
  function Decimal(n: nat): (s: string)
    ensures '\n' !in s && s != "" && AllDigits(s)
  {
    var digit := ('0' as int + n % 10) as char;
    if n < 10 then [digit] else Decimal(n / 10) + [digit]
  }

  /** It reads as the number, and has no leading zero. */
  lemma {:induction false} DecimalMeaning(n: nat)
    ensures Number(Decimal(n)) == n
    ensures Decimal(n)[0] == '0' ==> n == 0
    ensures n == 0 ==> Decimal(n) == "0"
  {
    var s := Decimal(n);
    if n >= 10 {
      DecimalMeaning(n / 10);
      assert s[..|s| - 1] == Decimal(n / 10) && s[0] == Decimal(n / 10)[0];
    } else {
      assert s[..0] == "";
    }
  }

  function SourceDescription(args: Args, minted: MintedToken): string {
    "GitHub App " + "installation token" + ", app " + Decimal(args.appId)
    + ", installation " + Decimal(args.installationId) + ", " + minted.scopeString
  }

  function CacheMetadata(args: Args, minted: MintedToken, now: Timestamp): EntryMetadata {
    EntryMetadata("github", args.project, SourceDescription(args, minted), GithubAppInstallationToken,
                  now, Some(minted.expiresAt), minted.tier)
  }

  function CacheEntry(args: Args, minted: MintedToken, now: Timestamp): VaultEntry {
    NewEntry(args.entryLabel, CacheMetadata(args, minted, now), minted.token)
  }

  /** Where a run caches its token. */
  function PathOf(args: Args): string {
    args.project + "/" + args.entryLabel
  }

  function MetadataForDeposit(args: Args, minted: MintedToken, now: Timestamp): DepositMetadata {
    DepositMetadata(args.project, "github", minted.scopeString, minted.tier.AsU8(), Track1Api, now,
                    Some(minted.expiresAt), args.entryLabel)
  }

  // ---------- Steps ----------

  datatype Event =
    | Start(run: RunId, args: Args)
    | MintReply(run: RunId, reply: GithubReply)
    | KeyReply(run: RunId, recipientHex: Option<string>)
    | SealStep(run: RunId, seed: Bytes, nonce: Bytes)
    | DepositStep(run: RunId, now: Timestamp, deposited: DepositReply)
    | PrepareStep(run: RunId, now: Timestamp, mkdir: RunEnv)
    | AddStep(run: RunId, add: RunEnv)
    | Elsewhere(name: string, op: Op)

  function MoveTo(s: System, id: RunId, stage: Stage): System
    requires id in s.runs
  {
    s.(runs := s.runs[id := s.runs[id].(stage := stage)])
  }

  function Note(s: System, fact: Fact): System {
    s.(log := s.log + [fact])
  }

  function StartRun(s: System, id: RunId, args: Args): System {
    s.(runs := s.runs[id := Run(args, if Trim(args.privateKeyPem) == "" then Failed else Launched)])
  }

  /**
    No two tokens that GitHub issues read alike on their first line; a grant that
    fails the check leaves only its quarantine.
   */
  function MintRun(s: System, id: RunId, reply: GithubReply): System
    requires id in s.runs
  {
    if reply.Issued? && FirstRead(reply.token) in s.issued then s
    else
      match Mint(s.runs[id].args.requested, reply)
      case Ok(minted) =>
        Note(MoveTo(s, id, Minted(minted)), Verified(id, minted)).(issued := s.issued + {FirstRead(minted.token)})
      case Err(_) =>
        var failed := MoveTo(s, id, Failed);
        if reply.Issued?
        then Note(failed, Quarantined(id, reply.token)).(issued := s.issued + {FirstRead(reply.token)})
        else failed
  }

  function FetchKey(s: System, id: RunId, minted: MintedToken, recipientHex: Option<string>): System
    requires id in s.runs
  {
    if !FerrymanGiven(s.runs[id].args) || recipientHex.None? then MoveTo(s, id, Failed)
    else MoveTo(s, id, KeyFetched(minted, recipientHex.value))
  }

  function SealRun(suite: Suite, s: System, id: RunId, minted: MintedToken, recipientHex: string, seed: Bytes,
        nonce: Bytes): System
    requires id in s.runs && FerrymanGiven(s.runs[id].args)
  {
    match Seal(suite, recipientHex, DepositAad(s.runs[id].args.ferrymanProject.value), minted.token, seed, nonce)
    case Err(_) => MoveTo(s, id, Failed)
    case Ok(sealed) => Note(MoveTo(s, id, SealedFor(minted, sealed)), SealMade(id, minted))
  }

  function DepositRun(s: System, id: RunId, minted: MintedToken, sealed: SealedSecret, now: Timestamp,
        reply: DepositReply): System
    requires id in s.runs && FerrymanGiven(s.runs[id].args)
  {
    var args := s.runs[id].args;
    var deposit := Deposit(args.ferrymanProject.value, sealed, MetadataForDeposit(args, minted, now));
    var sent := Note(s, Sent(id, minted));
    match reply
    case Accepted => Note(MoveTo(sent, id, Receipted(minted)), Receipt(id, minted)).(ferryman := s.ferryman + [deposit])
    case ReceiptLost => MoveTo(sent, id, Failed).(ferryman := s.ferryman + [deposit])
    case Rejected => MoveTo(sent, id, Failed)
  }

  predicate NewlyBound(w: World, w': World, path: string) {
    path in w'.db.entries && path !in w.db.entries
  }

  /** The run has put its entry, and this is what became of the store and of the report. */
  function Settle(s: System, id: RunId, minted: MintedToken, path: string, world: World,
        stored: Result<(), VaultError>): System
    requires id in s.runs
  {
    var bound := NewlyBound(s.world, world, path);
    var stage := if stored.Ok? then Finished(minted) else if bound then CachedUnreported(minted) else Failed;
    var moved := MoveTo(s, id, stage).(world := world);
    if bound then Note(moved, Cached(id, minted, path)) else moved
  }

  /** Up to the group of the entry, which is made before the entry is added. */
  function PrepareRun(s: System, id: RunId, minted: MintedToken, now: Timestamp, mkdir: RunEnv): System
    requires id in s.runs
  {
    var args := s.runs[id].args;
    if args.forRecipient then MoveTo(s, id, Finished(minted))
    else if NewMetadata(CacheMetadata(args, minted, now)).Err? then MoveTo(s, id, Failed)
    else
      var prepared := Invoke(s.world, args.keyringName, Mkdir(args.project), [], mkdir).0;
      MoveTo(s, id, GroupPrepared(minted, now)).(world := prepared)
  }

  function AddRun(s: System, id: RunId, minted: MintedToken, now: Timestamp, add: RunEnv): System
    requires id in s.runs
  {
    var args := s.runs[id].args;
    var entry := CacheEntry(args, minted, now);
    var (world, stored) := AddEntry(s.world, args.keyringName, entry, add);
    Settle(s, id, minted, entry.groupPath, world, stored)
  }

  /** Somebody else puts or gets an entry, under whatever keyring name. */
  function UseElsewhere(s: System, name: string, op: Op): System {
    var world := Step(s.world, name, op).0;
    s.(world := world, filed := s.filed + (world.db.entries.Keys - s.world.db.entries.Keys))
  }

  /** One step of one run, or of somebody else; an event that does not fit the stage of its run changes nothing. */
  function Next(suite: Suite, s: System, e: Event): System {
    if e.Elsewhere? then UseElsewhere(s, e.name, e.op)
    else if e.Start? then (if e.run in s.runs then s else StartRun(s, e.run, e.args))
    else if e.run !in s.runs then s
    else
      var Run(args, stage) := s.runs[e.run];
      match e
      case MintReply(id, reply) => if stage.Launched? then MintRun(s, id, reply) else s
      case KeyReply(id, recipientHex) =>
        if stage.Minted? && NeedsDeposit(args, stage.minted) then FetchKey(s, id, stage.minted, recipientHex) else s
      case SealStep(id, seed, nonce) =>
        if stage.KeyFetched? && FerrymanGiven(args) && |nonce| == 24
        then SealRun(suite, s, id, stage.minted, stage.recipientHex, seed, nonce) else s
      case DepositStep(id, now, reply) =>
        if stage.SealedFor? && FerrymanGiven(args) then DepositRun(s, id, stage.minted, stage.sealed, now, reply) else s
      case PrepareStep(id, now, mkdir) =>
        if stage.Receipted? || (stage.Minted? && !NeedsDeposit(args, stage.minted))
        then PrepareRun(s, id, stage.minted, now, mkdir) else s
      case AddStep(id, add) =>
        if stage.GroupPrepared? then AddRun(s, id, stage.minted, stage.acquiredAt, add) else s
  }

  function Play(suite: Suite, s: System, events: seq<Event>): System
    decreases |events|
  {
    if events == [] then s else Play(suite, Next(suite, s, events[0]), events[1..])
  }

  // ---------- What one step may touch ----------

  /** The same database and keystore with what they held, and perhaps more. */
  ghost predicate Extends(w: World, w': World) {
    && w'.db.master == w.db.master
    && (forall path :: path in w.db.entries ==> path in w'.db.entries && w'.db.entries[path] == w.db.entries[path])
    && (forall name :: name in w.passwords ==> name in w'.passwords && w'.passwords[name] == w.passwords[name])
  }

  /** Only run `id` moves, the past is kept, and what is new in the log is about `id`. */
  ghost predicate StepOf(s: System, s': System, id: RunId) {
    && (forall r :: r in s.runs ==> r in s'.runs && s'.runs[r].args == s.runs[r].args)
    && (forall r :: r in s'.runs && r != id ==> r in s.runs && s'.runs[r] == s.runs[r])
    && s.issued <= s'.issued
    && s.ferryman <= s'.ferryman
    && Extends(s.world, s'.world)
    && s.filed <= s'.filed
    && s.log <= s'.log
    && (forall i :: |s.log| <= i < |s'.log| ==> s'.log[i].run == id)
  }

  lemma MovedIsStepOf(s: System, id: RunId, stage: Stage)
    requires id in s.runs
    ensures StepOf(s, MoveTo(s, id, stage), id)
  {}

  lemma NotedIsStepOf(s: System, s': System, id: RunId, fact: Fact)
    requires StepOf(s, s', id) && fact.run == id
    ensures StepOf(s, Note(s', fact), id)
  {}

  lemma IssuedIsStepOf(s: System, s': System, id: RunId, line: string)
    requires StepOf(s, s', id) && s'.issued == s.issued
    ensures StepOf(s, s'.(issued := s.issued + {line}), id)
  {}

  lemma HeldIsStepOf(s: System, s': System, id: RunId, deposit: Deposit)
    requires StepOf(s, s', id) && s'.ferryman == s.ferryman
    ensures StepOf(s, s'.(ferryman := s.ferryman + [deposit]), id)
  {}

  lemma StartIsStepOf(s: System, id: RunId, args: Args)
    requires id !in s.runs
    ensures StepOf(s, StartRun(s, id, args), id)
  {}

  lemma MintIsStepOf(s: System, id: RunId, reply: GithubReply)
    requires id in s.runs
    ensures StepOf(s, MintRun(s, id, reply), id)
  {
    match Mint(s.runs[id].args.requested, reply)
    case Ok(minted) =>
      MovedIsStepOf(s, id, Minted(minted));
      var noted := Note(MoveTo(s, id, Minted(minted)), Verified(id, minted));
      NotedIsStepOf(s, MoveTo(s, id, Minted(minted)), id, Verified(id, minted));
      IssuedIsStepOf(s, noted, id, FirstRead(minted.token));
    case Err(_) =>
      MovedIsStepOf(s, id, Failed);
      if reply.Issued? {
        var noted := Note(MoveTo(s, id, Failed), Quarantined(id, reply.token));
        NotedIsStepOf(s, MoveTo(s, id, Failed), id, Quarantined(id, reply.token));
        IssuedIsStepOf(s, noted, id, FirstRead(reply.token));
      }
  }

  lemma FetchIsStepOf(s: System, id: RunId, minted: MintedToken, recipientHex: Option<string>)
    requires id in s.runs
    ensures StepOf(s, FetchKey(s, id, minted, recipientHex), id)
  {}

  lemma SealIsStepOf(suite: Suite, s: System, id: RunId, minted: MintedToken, recipientHex: string, seed: Bytes,
        nonce: Bytes)
    requires id in s.runs && FerrymanGiven(s.runs[id].args)
    ensures StepOf(s, SealRun(suite, s, id, minted, recipientHex, seed, nonce), id)
  {}

  lemma DepositIsStepOf(s: System, id: RunId, minted: MintedToken, sealed: SealedSecret, now: Timestamp,
        reply: DepositReply)
    requires id in s.runs && FerrymanGiven(s.runs[id].args)
    ensures StepOf(s, DepositRun(s, id, minted, sealed, now, reply), id)
  {
    var args := s.runs[id].args;
    var deposit := Deposit(args.ferrymanProject.value, sealed, MetadataForDeposit(args, minted, now));
    var sent := Note(s, Sent(id, minted));
    var stage := if reply == Accepted then Receipted(minted) else Failed;
    var moved := MoveTo(sent, id, stage);
    NotedIsStepOf(s, s, id, Sent(id, minted));
    assert StepOf(s, moved, id);
    NotedIsStepOf(s, moved, id, Receipt(id, minted));
    HeldIsStepOf(s, if reply == Accepted then Note(moved, Receipt(id, minted)) else moved, id, deposit);
  }

  lemma SettleIsStepOf(s: System, id: RunId, minted: MintedToken, path: string, world: World,
        stored: Result<(), VaultError>)
    requires id in s.runs && Extends(s.world, world)
    ensures StepOf(s, Settle(s, id, minted, path, world, stored), id)
  {}

  lemma AddEffectExtends(w: World, name: string, path: string, notes: string, secret: string, env: RunEnv,
                         w': World, failed: Option<VaultError>)
    requires AddEffect(w, name, path, notes, secret, env, w', failed)
    ensures Extends(w, w')
  {
    LaunchIsStable(w.passwords, name, env);
  }

  lemma PutEffectExtends(w: World, name: string, entry: VaultEntry, mkdir: RunEnv, add: RunEnv,
                         w': World, failed: Option<VaultError>)
    requires PutEffect(w, name, entry, mkdir, add, w', failed)
    ensures Extends(w, w')
  {
    LaunchIsStable(w.passwords, name, mkdir);
    AddEffectExtends(World(Launch(w.passwords, name, mkdir).0, w.db), name, entry.groupPath,
                     Metadata.Encode(entry.metadata), entry.secret, add, w', failed);
  }

  /** Whatever is put or got, under whatever failures, on any keystore. */
  lemma StepExtends(w: World, name: string, op: Op)
    ensures Extends(w, Step(w, name, op).0)
  {
    match op
    case PutOp(entry, mkdir, add) =>
      PutBinds(w, name, entry, mkdir, add);
      var (w', result) := Put(w, name, entry, mkdir, add);
      PutEffectExtends(w, name, entry, mkdir, add, w', Failure(result));
    case GetOp(query, env) =>
      GetReads(w, name, query, env);
      LaunchIsStable(w.passwords, name, env);
  }

  lemma AddExtends(w: World, name: string, entry: VaultEntry, add: RunEnv)
    ensures Extends(w, AddEntry(w, name, entry, add).0)
  {
    AddBinds(w, name, entry, add);
    var (w', result) := AddEntry(w, name, entry, add);
    AddEffectExtends(w, name, entry.groupPath, Metadata.Encode(entry.metadata), entry.secret, add, w', Failure(result));
  }

  lemma WorldIsStepOf(s: System, s': System, id: RunId, world: World)
    requires StepOf(s, s', id) && Extends(s.world, world)
    ensures StepOf(s, s'.(world := world), id)
  {}

  lemma PrepareIsStepOf(s: System, id: RunId, minted: MintedToken, now: Timestamp, mkdir: RunEnv)
    requires id in s.runs
    ensures StepOf(s, PrepareRun(s, id, minted, now, mkdir), id)
  {
    var args := s.runs[id].args;
    var prepared := World(Launch(s.world.passwords, args.keyringName, mkdir).0, s.world.db);
    MkdirKeepsDatabase(s.world, args.keyringName, args.project, mkdir);
    LaunchIsStable(s.world.passwords, args.keyringName, mkdir);
    MovedIsStepOf(s, id, GroupPrepared(minted, now));
    WorldIsStepOf(s, MoveTo(s, id, GroupPrepared(minted, now)), id, prepared);
    MovedIsStepOf(s, id, Finished(minted));
    MovedIsStepOf(s, id, Failed);
  }

  lemma AddIsStepOf(s: System, id: RunId, minted: MintedToken, now: Timestamp, add: RunEnv)
    requires id in s.runs
    ensures StepOf(s, AddRun(s, id, minted, now, add), id)
  {
    var args := s.runs[id].args;
    var entry := CacheEntry(args, minted, now);
    var (world, stored) := AddEntry(s.world, args.keyringName, entry, add);
    AddExtends(s.world, args.keyringName, entry, add);
    SettleIsStepOf(s, id, minted, entry.groupPath, world, stored);
  }

  lemma ElsewhereIsStepOf(s: System, name: string, op: Op, id: RunId)
    ensures StepOf(s, UseElsewhere(s, name, op), id)
  {
    StepExtends(s.world, name, op);
  }

  /** The run that an event moves; what happens elsewhere moves none, so that any will do. */
  function RunOf(e: Event): RunId {
    if e.Elsewhere? then 0 else e.run
  }

  lemma NextIsStepOf(suite: Suite, s: System, e: Event)
    ensures StepOf(s, Next(suite, s, e), RunOf(e))
  {
    if Next(suite, s, e) != s {
      match e
      case Start(id, args) => StartIsStepOf(s, id, args);
      case MintReply(id, reply) => MintIsStepOf(s, id, reply);
      case KeyReply(id, recipientHex) => FetchIsStepOf(s, id, s.runs[id].stage.minted, recipientHex);
      case SealStep(id, seed, nonce) =>
        SealIsStepOf(suite, s, id, s.runs[id].stage.minted, s.runs[id].stage.recipientHex, seed, nonce);
      case DepositStep(id, now, reply) =>
        DepositIsStepOf(s, id, s.runs[id].stage.minted, s.runs[id].stage.sealed, now, reply);
      case PrepareStep(id, now, mkdir) => PrepareIsStepOf(s, id, s.runs[id].stage.minted, now, mkdir);
      case AddStep(id, add) => AddIsStepOf(s, id, s.runs[id].stage.minted, s.runs[id].stage.acquiredAt, add);
      case Elsewhere(name, op) => ElsewhereIsStepOf(s, name, op, 0);
    }
  }

  // ---------- The invariant ----------

  ghost predicate NotCached(s: System, id: RunId) {
    forall i :: 0 <= i < |s.log| && s.log[i].run == id ==> !s.log[i].Cached?
  }

  /** The run has cached this token, and no other. */
  ghost predicate HasCached(s: System, id: RunId, m: MintedToken)
    requires id in s.runs
  {
    && Cached(id, m, PathOf(s.runs[id].args)) in s.log
    && forall i :: 0 <= i < |s.log| && s.log[i].run == id && s.log[i].Cached? ==> s.log[i].minted == m
  }

  ghost predicate SealedFrom(suite: Suite, args: Args, minted: MintedToken, sealed: SealedSecret,
        recipientHex: string)
  {
    && args.ferrymanProject.Some?
    && exists seed, nonce ::
         && |nonce| == 24
         && Seal(suite, recipientHex, DepositAad(args.ferrymanProject.value), minted.token, seed, nonce) == Ok(sealed)
  }

  /** The deposit holds the token of the run, sealed for the run's own Ferryman project. */
  ghost predicate HoldsSealed(suite: Suite, args: Args, m: MintedToken, d: Deposit, recipientHex: string) {
    args.ferrymanProject == Some(d.ferrymanProject) && SealedFrom(suite, args, m, d.sealed, recipientHex)
  }

  ghost predicate StageOk(suite: Suite, s: System, id: RunId)
    requires id in s.runs
  {
    var args := s.runs[id].args;
    match s.runs[id].stage
    case Launched => NotCached(s, id)
    case Failed => NotCached(s, id)
    case Minted(m) => Verified(id, m) in s.log && NotCached(s, id)
    case KeyFetched(m, _) => Verified(id, m) in s.log && NotCached(s, id) && NeedsDeposit(args, m)
    case SealedFor(m, sealed) =>
      && Verified(id, m) in s.log && NotCached(s, id) && NeedsDeposit(args, m)
      && exists recipientHex :: SealedFrom(suite, args, m, sealed, recipientHex)
    case Receipted(m) =>
      && Verified(id, m) in s.log && NotCached(s, id) && NeedsDeposit(args, m)
      && Receipt(id, m) in s.log
    case GroupPrepared(m, _) =>
      && Verified(id, m) in s.log && NotCached(s, id) && !args.forRecipient
      && (NeedsDeposit(args, m) ==> Receipt(id, m) in s.log)
    case Finished(m) =>
      && Verified(id, m) in s.log
      && (args.forRecipient ==> NotCached(s, id) && Receipt(id, m) in s.log)
      && (!args.forRecipient ==> HasCached(s, id, m))
    case CachedUnreported(m) => Verified(id, m) in s.log && !args.forRecipient && HasCached(s, id, m)
  }

  /** The token passed the check of its own run and is tiered by what was granted. */
  ghost predicate HonestlyMinted(args: Args, m: MintedToken) {
    && Verdict(args.requested, m.grantedPermissions).Ok?
    && m == FromResponse(m.token, m.expiresAt, m.grantedPermissions)
  }

  /** The record says where the token came from, how sensitive it is and when it expires. */
  ghost predicate RecordsRun(record: EntryMetadata, args: Args, m: MintedToken) {
    && record.provider == "github" && record.project == args.project
    && record.sourceDescription ==
       "GitHub App " + "installation token" + ", app " + Decimal(args.appId)
       + ", installation " + Decimal(args.installationId) + ", " + m.scopeString
    && record.acquiredVia == GithubAppInstallationToken
    && record.expiresAt == Some(m.expiresAt) && record.tier == m.tier
  }

  /** What a run leaves in the store: the line its token is read by, and such a record. */
  ghost predicate IsCacheOf(args: Args, m: MintedToken, stored: StoredEntry) {
    && stored.password == FirstRead(m.token)
    && exists record :: RecordsRun(record, args, m) && stored.notes == Metadata.Encode(record)
  }

  lemma CacheRecordsRun(args: Args, m: MintedToken, now: Timestamp)
    ensures RecordsRun(CacheMetadata(args, m, now), args, m)
    ensures forall record :: RecordsRun(record, args, m) ==> record == CacheMetadata(args, m, record.acquiredAt)
  {}

  /** What each recorded fact guarantees, including what must stand before it in the log. */
  ghost predicate FactOk(suite: Suite, s: System, i: nat)
    requires i < |s.log|
  {
    var fact := s.log[i];
    && fact.run in s.runs
    && var args := s.runs[fact.run].args;
    match fact
    case Verified(_, m) => HonestlyMinted(args, m) && FirstRead(m.token) in s.issued
    case Quarantined(_, token) => FirstRead(token) in s.issued
    case SealMade(id, m) => NeedsDeposit(args, m) && Verified(id, m) in s.log[..i]
    case Sent(id, m) => NeedsDeposit(args, m) && Verified(id, m) in s.log[..i]
    case Receipt(id, m) =>
      && NeedsDeposit(args, m) && Verified(id, m) in s.log[..i]
      && exists d, recipientHex :: d in s.ferryman && HoldsSealed(suite, args, m, d, recipientHex)
    case Cached(id, m, path) =>
      && !args.forRecipient
      && Verified(id, m) in s.log[..i]
      && (m.tier == Tiers.Tier2 ==> Receipt(id, m) in s.log[..i])
      && path == PathOf(args) && path in s.world.db.entries && IsCacheOf(args, m, s.world.db.entries[path])
  }

  /** The fact is the verdict on a token that reads as `line`. */
  ghost predicate Mints(fact: Fact, line: string) {
    match fact
    case Verified(_, m) => FirstRead(m.token) == line
    case Quarantined(_, token) => FirstRead(token) == line
    case _ => false
  }

  /** A token was issued at most once, to one run, with one verdict. */
  ghost predicate TokensFresh(s: System) {
    forall i, j, line :: 0 <= i < j < |s.log| && Mints(s.log[i], line) ==> !Mints(s.log[j], line)
  }

  /** No path is cached twice. */
  ghost predicate PathsFresh(s: System) {
    forall i, j :: 0 <= i < j < |s.log| && s.log[i].Cached? && s.log[j].Cached? ==> s.log[i].path != s.log[j].path
  }

  /** A path that the runs have bound, and neither the initial vault nor anybody else. */
  predicate BoundByRuns(initial: World, s: System, path: string) {
    path in s.world.db.entries && path !in initial.db.entries && path !in s.filed
  }

  ghost predicate VaultOk(initial: World, s: System) {
    && Sound(s.world.passwords)
    && Extends(initial, s.world)
    && s.filed <= s.world.db.entries.Keys && s.filed !! initial.db.entries.Keys
    && (forall path :: BoundByRuns(initial, s, path) ==> exists id, m :: Cached(id, m, path) in s.log)
    && (forall i :: 0 <= i < |s.log| && s.log[i].Cached? ==> BoundByRuns(initial, s, s.log[i].path))
    && PathsFresh(s)
  }

  /** What Ferryman is told about a token: where it came from, how sensitive it is and when it expires. */
  ghost predicate Describes(metadata: DepositMetadata, args: Args, m: MintedToken) {
    && metadata.project == args.project && metadata.entryLabel == args.entryLabel && metadata.provider == "github"
    && metadata.scope == m.scopeString && metadata.acquiredVia == Track1Api
    && metadata.tier == (if m.tier == Tiers.Tier0 then 0 else if m.tier == Tiers.Tier1 then 1 else 2)
    && metadata.expiresAt == Some(m.expiresAt)
  }

  ghost predicate DepositOk(suite: Suite, s: System, d: Deposit, id: RunId, m: MintedToken, recipientHex: string) {
    && Sent(id, m) in s.log && id in s.runs
    && HoldsSealed(suite, s.runs[id].args, m, d, recipientHex)
    && Describes(d.metadata, s.runs[id].args, m)
  }

  ghost predicate DepositsOk(suite: Suite, s: System) {
    forall d :: d in s.ferryman ==> exists id, m, recipientHex :: DepositOk(suite, s, d, id, m, recipientHex)
  }

  ghost predicate Inv(suite: Suite, initial: World, s: System) {
    && (forall id :: id in s.runs ==> StageOk(suite, s, id))
    && (forall i :: 0 <= i < |s.log| ==> FactOk(suite, s, i))
    && TokensFresh(s)
    && VaultOk(initial, s)
    && DepositsOk(suite, s)
  }

  // ---------- Keeping the past ----------

  lemma FactKept(suite: Suite, s: System, s': System, id: RunId, i: nat)
    requires StepOf(s, s', id) && i < |s.log| && FactOk(suite, s, i)
    ensures FactOk(suite, s', i)
  {
    assert s'.log[i] == s.log[i] && s'.log[..i] == s.log[..i];
    var fact := s.log[i];
    if fact.Receipt? {
      var args := s.runs[fact.run].args;
      var d, recipientHex :| d in s.ferryman && HoldsSealed(suite, args, fact.minted, d, recipientHex);
      assert d in s'.ferryman;
    }
  }

  lemma StageKept(suite: Suite, s: System, s': System, id: RunId, r: RunId)
    requires StepOf(s, s', id) && r in s.runs && r != id && StageOk(suite, s, r)
    ensures r in s'.runs && StageOk(suite, s', r)
  {
    assert s'.runs[r] == s.runs[r];
    assert forall fact :: fact in s.log ==> fact in s'.log;
    forall i | 0 <= i < |s'.log| && s'.log[i].run == r ensures i < |s.log| && s'.log[i] == s.log[i] {}
  }

  lemma DepositsKept(suite: Suite, s: System, s': System, id: RunId, d: Deposit)
    requires StepOf(s, s', id) && DepositsOk(suite, s) && d in s.ferryman
    ensures exists r, m, recipientHex :: DepositOk(suite, s', d, r, m, recipientHex)
  {
    var r, m, recipientHex :| DepositOk(suite, s, d, r, m, recipientHex);
    assert DepositOk(suite, s', d, r, m, recipientHex);
  }

  /** Steps that bind nothing for a run: those of others may bind a path of their own. */
  lemma VaultKept(initial: World, s: System, s': System, id: RunId)
    requires StepOf(s, s', id) && VaultOk(initial, s) && Sound(s'.world.passwords)
    requires s'.filed == s.filed + (s'.world.db.entries.Keys - s.world.db.entries.Keys)
    requires forall i :: |s.log| <= i < |s'.log| ==> !s'.log[i].Cached?
    ensures VaultOk(initial, s')
  {
    forall path | BoundByRuns(initial, s', path) ensures exists r, m :: Cached(r, m, path) in s'.log {
      assert BoundByRuns(initial, s, path);
      var r, m :| Cached(r, m, path) in s.log;
      assert Cached(r, m, path) in s'.log;
    }
  }

  /** What has to be shown of a step of run `id`: its own stage, its new facts, tokens, vault and deposits. */
  lemma Reassemble(suite: Suite, initial: World, s: System, s': System, id: RunId)
    requires Inv(suite, initial, s) && StepOf(s, s', id)
    requires id in s'.runs ==> StageOk(suite, s', id)
    requires forall i :: |s.log| <= i < |s'.log| ==> FactOk(suite, s', i)
    requires TokensFresh(s') && VaultOk(initial, s')
    requires forall d :: d in s'.ferryman && d !in s.ferryman ==>
                           exists r, m, recipientHex :: DepositOk(suite, s', d, r, m, recipientHex)
    ensures Inv(suite, initial, s')
  {
    forall r | r in s'.runs ensures StageOk(suite, s', r) {
      if r != id { StageKept(suite, s, s', id, r); }
    }
    forall i | 0 <= i < |s'.log| ensures FactOk(suite, s', i) {
      if i < |s.log| { FactKept(suite, s, s', id, i); }
    }
    forall d | d in s'.ferryman ensures exists r, m, recipientHex :: DepositOk(suite, s', d, r, m, recipientHex) {
      if d in s.ferryman { DepositsKept(suite, s, s', id, d); }
    }
  }

  /** Facts that mint nothing keep tokens fresh. */
  lemma FreshnessKept(s: System, s': System)
    requires TokensFresh(s) && s.log <= s'.log
    requires forall i, line :: |s.log| <= i < |s'.log| ==> !Mints(s'.log[i], line)
    ensures TokensFresh(s')
  {}

  /** So does one that mints a token never issued before. */
  lemma FreshTokenAdded(suite: Suite, s: System, s': System, fact: Fact, line: string)
    requires TokensFresh(s) && s'.log == s.log + [fact] && Mints(fact, line) && line !in s.issued
    requires forall i :: 0 <= i < |s.log| ==> FactOk(suite, s, i)
    ensures TokensFresh(s')
  {
    forall i, j, t | 0 <= i < j < |s'.log| && Mints(s'.log[i], t) ensures !Mints(s'.log[j], t) {
      assert FactOk(suite, s, i);
      if j == |s.log| {
        assert t in s.issued;
      }
    }
  }

  lemma NotCachedKept(s: System, s': System, id: RunId)
    requires NotCached(s, id) && s.log <= s'.log
    requires forall i :: |s.log| <= i < |s'.log| ==> !s'.log[i].Cached?
    ensures NotCached(s', id)
  {}

  // ---------- Each step keeps the invariant ----------

  lemma NewRunNotCached(suite: Suite, s: System, id: RunId)
    requires id !in s.runs && forall i :: 0 <= i < |s.log| ==> FactOk(suite, s, i)
    ensures NotCached(s, id)
  {
    forall i | 0 <= i < |s.log| ensures s.log[i].run != id { assert FactOk(suite, s, i); }
  }

  lemma StartKeeps(suite: Suite, initial: World, s: System, id: RunId, args: Args)
    requires Inv(suite, initial, s) && id !in s.runs
    ensures Inv(suite, initial, StartRun(s, id, args))
  {
    var s' := StartRun(s, id, args);
    StartIsStepOf(s, id, args);
    NewRunNotCached(suite, s, id);
    NotCachedKept(s, s', id);
    VaultKept(initial, s, s', id);
    Reassemble(suite, initial, s, s', id);
  }

  /** The one fact a mint leaves, and the stage it leaves its run in. */
  lemma MintFacts(suite: Suite, s: System, id: RunId, reply: GithubReply)
    requires id in s.runs && NotCached(s, id) && !(reply.Issued? && FirstRead(reply.token) in s.issued)
    ensures var s' := MintRun(s, id, reply);
            && id in s'.runs && StageOk(suite, s', id)
            && (reply.Issued? ==> && |s'.log| == |s.log| + 1 && s.log <= s'.log
                                  && Mints(s'.log[|s.log|], FirstRead(reply.token)))
            && (!reply.Issued? ==> s'.log == s.log)
            && (forall i :: |s.log| <= i < |s'.log| ==> FactOk(suite, s', i))
  {
    var s' := MintRun(s, id, reply);
    NotCachedKept(s, s', id);
  }

  lemma MintKeeps(suite: Suite, initial: World, s: System, id: RunId, reply: GithubReply)
    requires Inv(suite, initial, s) && id in s.runs && s.runs[id].stage.Launched?
    ensures Inv(suite, initial, MintRun(s, id, reply))
  {
    var s' := MintRun(s, id, reply);
    if s' != s {
      assert StageOk(suite, s, id);
      MintIsStepOf(s, id, reply);
      MintFacts(suite, s, id, reply);
      VaultKept(initial, s, s', id);
      if reply.Issued? {
        assert s'.log == s.log + [s'.log[|s.log|]];
        FreshTokenAdded(suite, s, s', s'.log[|s.log|], FirstRead(reply.token));
      }
      Reassemble(suite, initial, s, s', id);
    }
  }

  lemma FetchKeeps(suite: Suite, initial: World, s: System, id: RunId, recipientHex: Option<string>)
    requires Inv(suite, initial, s) && id in s.runs && s.runs[id].stage.Minted?
    requires NeedsDeposit(s.runs[id].args, s.runs[id].stage.minted)
    ensures Inv(suite, initial, FetchKey(s, id, s.runs[id].stage.minted, recipientHex))
  {
    var m := s.runs[id].stage.minted;
    var s' := FetchKey(s, id, m, recipientHex);
    assert StageOk(suite, s, id);
    FetchIsStepOf(s, id, m, recipientHex);
    VaultKept(initial, s, s', id);
    NotCachedKept(s, s', id);
    Reassemble(suite, initial, s, s', id);
  }

  lemma SealFacts(suite: Suite, s: System, id: RunId, m: MintedToken, recipientHex: string, seed: Bytes, nonce: Bytes)
    requires id in s.runs && NotCached(s, id) && FerrymanGiven(s.runs[id].args) && |nonce| == 24
    requires NeedsDeposit(s.runs[id].args, m) && Verified(id, m) in s.log
    ensures var s' := SealRun(suite, s, id, m, recipientHex, seed, nonce);
            && id in s'.runs && StageOk(suite, s', id)
            && (forall i :: |s.log| <= i < |s'.log| ==> s'.log[i] == SealMade(id, m) && FactOk(suite, s', i))
  {
    var args := s.runs[id].args;
    var s' := SealRun(suite, s, id, m, recipientHex, seed, nonce);
    NotCachedKept(s, s', id);
    var sealed := Seal(suite, recipientHex, DepositAad(args.ferrymanProject.value), m.token, seed, nonce);
    if sealed.Ok? {
      assert SealedFrom(suite, args, m, sealed.value, recipientHex);
      assert s'.log[..|s.log|] == s.log;
    }
  }

  lemma SealKeeps(suite: Suite, initial: World, s: System, id: RunId, seed: Bytes, nonce: Bytes)
    requires Inv(suite, initial, s) && id in s.runs && s.runs[id].stage.KeyFetched?
    requires FerrymanGiven(s.runs[id].args) && |nonce| == 24
    ensures var stage := s.runs[id].stage;
            Inv(suite, initial, SealRun(suite, s, id, stage.minted, stage.recipientHex, seed, nonce))
  {
    var stage := s.runs[id].stage;
    var s' := SealRun(suite, s, id, stage.minted, stage.recipientHex, seed, nonce);
    assert StageOk(suite, s, id);
    SealIsStepOf(suite, s, id, stage.minted, stage.recipientHex, seed, nonce);
    SealFacts(suite, s, id, stage.minted, stage.recipientHex, seed, nonce);
    VaultKept(initial, s, s', id);
    FreshnessKept(s, s');
    Reassemble(suite, initial, s, s', id);
  }

  lemma DepositStage(suite: Suite, s: System, id: RunId, m: MintedToken, sealed: SealedSecret, now: Timestamp,
        reply: DepositReply)
    requires id in s.runs && NotCached(s, id) && FerrymanGiven(s.runs[id].args)
    requires NeedsDeposit(s.runs[id].args, m) && Verified(id, m) in s.log
    ensures var s' := DepositRun(s, id, m, sealed, now, reply);
            id in s'.runs && StageOk(suite, s', id)
  {
    var s' := DepositRun(s, id, m, sealed, now, reply);
    NotCachedKept(s, s', id);
    assert Verified(id, m) in s'.log;
  }

  lemma DepositFacts(suite: Suite, s: System, id: RunId, m: MintedToken, sealed: SealedSecret, now: Timestamp,
        reply: DepositReply)
    requires id in s.runs && FerrymanGiven(s.runs[id].args)
    requires NeedsDeposit(s.runs[id].args, m) && Verified(id, m) in s.log
    requires exists recipientHex :: SealedFrom(suite, s.runs[id].args, m, sealed, recipientHex)
    ensures var s' := DepositRun(s, id, m, sealed, now, reply);
            forall i :: |s.log| <= i < |s'.log| ==>
                          && (s'.log[i] == Sent(id, m) || s'.log[i] == Receipt(id, m))
                          && FactOk(suite, s', i)
  {
    var s' := DepositRun(s, id, m, sealed, now, reply);
    assert s'.log[..|s.log|] == s.log && s'.log[|s.log|] == Sent(id, m);
    if reply == Accepted {
      assert s'.log[..|s.log| + 1] == s.log + [Sent(id, m)];
      var recipientHex :| SealedFrom(suite, s.runs[id].args, m, sealed, recipientHex);
      var d := s'.ferryman[|s.ferryman|];
      assert d in s'.ferryman && HoldsSealed(suite, s.runs[id].args, m, d, recipientHex);
    }
  }

  lemma DepositAccountedFor(suite: Suite, s: System, id: RunId, m: MintedToken, sealed: SealedSecret, now: Timestamp,
                            reply: DepositReply, recipientHex: string, d: Deposit)
    requires id in s.runs && FerrymanGiven(s.runs[id].args)
    requires SealedFrom(suite, s.runs[id].args, m, sealed, recipientHex)
    requires d in DepositRun(s, id, m, sealed, now, reply).ferryman && d !in s.ferryman
    ensures DepositOk(suite, DepositRun(s, id, m, sealed, now, reply), d, id, m, recipientHex)
  {
    var s' := DepositRun(s, id, m, sealed, now, reply);
    assert s'.log[|s.log|] == Sent(id, m);
  }

  lemma DepositKeeps(suite: Suite, initial: World, s: System, id: RunId, now: Timestamp,
        reply: DepositReply)
    requires Inv(suite, initial, s) && id in s.runs && s.runs[id].stage.SealedFor? && FerrymanGiven(s.runs[id].args)
    ensures Inv(suite, initial, DepositRun(s, id, s.runs[id].stage.minted, s.runs[id].stage.sealed, now, reply))
  {
    var Run(args, stage) := s.runs[id];
    var m := stage.minted;
    var s' := DepositRun(s, id, m, stage.sealed, now, reply);
    assert StageOk(suite, s, id);
    DepositIsStepOf(s, id, m, stage.sealed, now, reply);
    DepositStage(suite, s, id, m, stage.sealed, now, reply);
    DepositFacts(suite, s, id, m, stage.sealed, now, reply);
    VaultKept(initial, s, s', id);
    FreshnessKept(s, s');
    var recipientHex :| SealedFrom(suite, args, m, stage.sealed, recipientHex);
    forall d | d in s'.ferryman && d !in s.ferryman
      ensures exists r, n, hex :: DepositOk(suite, s', d, r, n, hex)
    {
      DepositAccountedFor(suite, s, id, m, stage.sealed, now, reply, recipientHex, d);
    }
    Reassemble(suite, initial, s, s', id);
  }

  /** What a put of a run's entry came to, as far as custody is concerned. */
  ghost predicate PutOutcomeOk(s: System, id: RunId, m: MintedToken, world: World, stored: Result<(), VaultError>)
    requires id in s.runs
  {
    var args := s.runs[id].args;
    && Sound(world.passwords)
    && (stored.Ok? ==> NewlyBound(s.world, world, PathOf(args)))
    && (forall path :: path in world.db.entries && path !in s.world.db.entries ==> path == PathOf(args))
    && (NewlyBound(s.world, world, PathOf(args)) ==> IsCacheOf(args, m, world.db.entries[PathOf(args)]))
  }

  lemma AddIsOk(s: System, id: RunId, m: MintedToken, now: Timestamp, add: RunEnv)
    requires id in s.runs && Sound(s.world.passwords)
    ensures var args := s.runs[id].args;
            var (world, stored) := AddEntry(s.world, args.keyringName, CacheEntry(args, m, now), add);
            PutOutcomeOk(s, id, m, world, stored)
  {
    var args := s.runs[id].args;
    var entry := CacheEntry(args, m, now);
    AddOnSoundKeystore(s.world, args.keyringName, entry, add);
    CacheRecordsRun(args, m, now);
    assert IsCacheOf(args, m, StoredEntry(FirstRead(m.token), Metadata.Encode(CacheMetadata(args, m, now))));
  }

  lemma SettleStage(suite: Suite, s: System, id: RunId, m: MintedToken, world: World, stored: Result<(), VaultError>)
    requires id in s.runs && NotCached(s, id) && Verified(id, m) in s.log && !s.runs[id].args.forRecipient
    requires stored.Ok? ==> NewlyBound(s.world, world, PathOf(s.runs[id].args))
    ensures var s' := Settle(s, id, m, PathOf(s.runs[id].args), world, stored);
            id in s'.runs && StageOk(suite, s', id)
  {
    var path := PathOf(s.runs[id].args);
    var s' := Settle(s, id, m, path, world, stored);
    if NewlyBound(s.world, world, path) {
      assert s'.log == s.log + [Cached(id, m, path)] && Cached(id, m, path) in s'.log;
      assert Verified(id, m) in s'.log;
    } else {
      NotCachedKept(s, s', id);
    }
  }

  lemma SettleFacts(suite: Suite, s: System, id: RunId, m: MintedToken, world: World, stored: Result<(), VaultError>)
    requires id in s.runs && Verified(id, m) in s.log && !s.runs[id].args.forRecipient
    requires NeedsDeposit(s.runs[id].args, m) ==> Receipt(id, m) in s.log
    requires PutOutcomeOk(s, id, m, world, stored)
    ensures var s' := Settle(s, id, m, PathOf(s.runs[id].args), world, stored);
            forall i :: |s.log| <= i < |s'.log| ==> s'.log[i].Cached? && FactOk(suite, s', i)
  {
    var path := PathOf(s.runs[id].args);
    var s' := Settle(s, id, m, path, world, stored);
    if NewlyBound(s.world, world, path) {
      assert s'.log[..|s.log|] == s.log && s'.log[|s.log|] == Cached(id, m, path);
    }
  }

  lemma SettleVault(initial: World, s: System, id: RunId, m: MintedToken, added: string, world: World,
        stored: Result<(), VaultError>)
    requires id in s.runs && VaultOk(initial, s) && Sound(world.passwords) && Extends(s.world, world)
    requires forall path :: path in world.db.entries && path !in s.world.db.entries ==> path == added
    ensures VaultOk(initial, Settle(s, id, m, added, world, stored))
  {
    var s' := Settle(s, id, m, added, world, stored);
    forall path | BoundByRuns(initial, s', path) ensures exists r, n :: Cached(r, n, path) in s'.log {
      if path in s.world.db.entries {
        assert BoundByRuns(initial, s, path);
        var r, n :| Cached(r, n, path) in s.log;
        assert Cached(r, n, path) in s'.log;
      } else {
        assert s'.log[|s.log|] == Cached(id, m, path);
      }
    }
  }

  lemma CachedMintsNothing(s: System, s': System)
    requires TokensFresh(s) && s.log <= s'.log
    requires forall i :: |s.log| <= i < |s'.log| ==> s'.log[i].Cached?
    ensures TokensFresh(s')
  {
    FreshnessKept(s, s');
  }

  lemma SettleKeeps(suite: Suite, initial: World, s: System, id: RunId, m: MintedToken, world: World,
        stored: Result<(), VaultError>)
    requires Inv(suite, initial, s) && id in s.runs && NotCached(s, id) && Verified(id, m) in s.log
    requires !s.runs[id].args.forRecipient && (NeedsDeposit(s.runs[id].args, m) ==> Receipt(id, m) in s.log)
    requires PutOutcomeOk(s, id, m, world, stored) && Extends(s.world, world)
    ensures Inv(suite, initial, Settle(s, id, m, PathOf(s.runs[id].args), world, stored))
  {
    var path := PathOf(s.runs[id].args);
    var s' := Settle(s, id, m, path, world, stored);
    SettleIsStepOf(s, id, m, path, world, stored);
    SettleStage(suite, s, id, m, world, stored);
    SettleFacts(suite, s, id, m, world, stored);
    SettleVault(initial, s, id, m, path, world, stored);
    CachedMintsNothing(s, s');
    Reassemble(suite, initial, s, s', id);
  }

  /** Finishing for a recipient or failing on a blank project touches nothing but the stage. */
  lemma UncachedKeeps(suite: Suite, initial: World, s: System, id: RunId, stage: Stage)
    requires Inv(suite, initial, s) && id in s.runs && NotCached(s, id)
    requires stage == Failed || (&& stage.Finished? && s.runs[id].args.forRecipient
                                 && Verified(id, stage.minted) in s.log && Receipt(id, stage.minted) in s.log)
    ensures Inv(suite, initial, MoveTo(s, id, stage))
  {
    var s' := MoveTo(s, id, stage);
    NotCachedKept(s, s', id);
    VaultKept(initial, s, s', id);
    Reassemble(suite, initial, s, s', id);
  }

  lemma GroupStage(suite: Suite, s: System, id: RunId, m: MintedToken, now: Timestamp, world: World)
    requires id in s.runs && NotCached(s, id) && Verified(id, m) in s.log && !s.runs[id].args.forRecipient
    requires NeedsDeposit(s.runs[id].args, m) ==> Receipt(id, m) in s.log
    ensures var s' := MoveTo(s, id, GroupPrepared(m, now)).(world := world);
            id in s'.runs && StageOk(suite, s', id)
  {
    NotCachedKept(s, MoveTo(s, id, GroupPrepared(m, now)).(world := world), id);
  }

  lemma PrepareKeeps(suite: Suite, initial: World, s: System, id: RunId, now: Timestamp, mkdir: RunEnv)
    requires Inv(suite, initial, s) && id in s.runs
    requires var Run(args, stage) := s.runs[id];
             stage.Receipted? || (stage.Minted? && !NeedsDeposit(args, stage.minted))
    ensures Inv(suite, initial, PrepareRun(s, id, s.runs[id].stage.minted, now, mkdir))
  {
    var Run(args, stage) := s.runs[id];
    var m := stage.minted;
    assert StageOk(suite, s, id);
    if args.forRecipient {
      UncachedKeeps(suite, initial, s, id, Finished(m));
    } else if NewMetadata(CacheMetadata(args, m, now)).Err? {
      UncachedKeeps(suite, initial, s, id, Failed);
    } else {
      var s' := PrepareRun(s, id, m, now, mkdir);
      MkdirKeepsDatabase(s.world, args.keyringName, args.project, mkdir);
      LaunchKeepsSound(s.world.passwords, args.keyringName, mkdir);
      PrepareIsStepOf(s, id, m, now, mkdir);
      GroupStage(suite, s, id, m, now, s'.world);
      VaultKept(initial, s, s', id);
      Reassemble(suite, initial, s, s', id);
    }
  }

  lemma AddKeeps(suite: Suite, initial: World, s: System, id: RunId, add: RunEnv)
    requires Inv(suite, initial, s) && id in s.runs && s.runs[id].stage.GroupPrepared?
    ensures Inv(suite, initial, AddRun(s, id, s.runs[id].stage.minted, s.runs[id].stage.acquiredAt, add))
  {
    var Run(args, stage) := s.runs[id];
    var m, now := stage.minted, stage.acquiredAt;
    var entry := CacheEntry(args, m, now);
    var (world, stored) := AddEntry(s.world, args.keyringName, entry, add);
    assert StageOk(suite, s, id);
    AddIsOk(s, id, m, now, add);
    AddExtends(s.world, args.keyringName, entry, add);
    SettleKeeps(suite, initial, s, id, m, world, stored);
  }

  lemma StepKeepsSound(w: World, name: string, op: Op)
    requires Sound(w.passwords)
    ensures Sound(Step(w, name, op).0.passwords)
  {
    match op
    case PutOp(entry, mkdir, add) => PutOnSoundKeystore(w, name, entry, mkdir, add);
    case GetOp(query, env) =>
      GetReads(w, name, query, env);
      LaunchKeepsSound(w.passwords, name, env);
  }

  lemma ElsewhereKeeps(suite: Suite, initial: World, s: System, name: string, op: Op)
    requires Inv(suite, initial, s)
    ensures Inv(suite, initial, UseElsewhere(s, name, op))
  {
    var s' := UseElsewhere(s, name, op);
    ElsewhereIsStepOf(s, name, op, 0);
    ElsewhereIsStepOf(s, name, op, 1);
    StepKeepsSound(s.world, name, op);
    if 0 in s.runs {
      StageKept(suite, s, s', 1, 0);
    }
    VaultKept(initial, s, s', 0);
    Reassemble(suite, initial, s, s', 0);
  }

  lemma NextKeeps(suite: Suite, initial: World, s: System, e: Event)
    requires Inv(suite, initial, s)
    ensures Inv(suite, initial, Next(suite, s, e))
  {
    if Next(suite, s, e) != s {
      match e
      case Start(id, args) => StartKeeps(suite, initial, s, id, args);
      case MintReply(id, reply) => MintKeeps(suite, initial, s, id, reply);
      case KeyReply(id, recipientHex) => FetchKeeps(suite, initial, s, id, recipientHex);
      case SealStep(id, seed, nonce) => SealKeeps(suite, initial, s, id, seed, nonce);
      case DepositStep(id, now, reply) => DepositKeeps(suite, initial, s, id, now, reply);
      case PrepareStep(id, now, mkdir) => PrepareKeeps(suite, initial, s, id, now, mkdir);
      case AddStep(id, add) => AddKeeps(suite, initial, s, id, add);
      case Elsewhere(name, op) => ElsewhereKeeps(suite, initial, s, name, op);
    }
  }

  lemma {:induction false} PlayKeeps(suite: Suite, initial: World, s: System, events: seq<Event>)
    requires Inv(suite, initial, s)
    ensures Inv(suite, initial, Play(suite, s, events))
    decreases |events|
  {
    if events != [] {
      NextKeeps(suite, initial, s, events[0]);
      PlayKeeps(suite, initial, Next(suite, s, events[0]), events[1..]);
    }
  }

  lemma ReachableInv(suite: Suite, initial: World, events: seq<Event>)
    requires Sound(initial.passwords)
    ensures Inv(suite, initial, Play(suite, Initial(initial), events))
  {
    PlayKeeps(suite, initial, Initial(initial), events);
  }
}
