/**
  On entries it can keep without loss, the path-indexed text store behaves as a
  map from (project, label) to entries, over every sequence of puts and gets and
  every way the environment may fail.
 */
module VaultRefinement {
  import opened Wrappers
  import opened Text
  import opened Entries
  import opened Metadata
  import Keystores
  import opened Vaults
  import opened VaultPaths

  // ---------- The plain map ----------

  datatype AbstractVault = AbstractVault(
    passwords: map<string, string>, master: string, entries: map<SecretQuery, VaultEntry>)

  /**
    Putting binds an unbound key when the child gets to do its work, whether or
    not it then reports success; nothing else ever changes the map.
   */
  function AbstractStep(a: AbstractVault, name: string, op: Op): (AbstractVault, Outcome) {
    match op
    case PutOp(entry, mkdir, add) =>
      var (passwords, launched) := Launch(Launch(a.passwords, name, mkdir).0, name, add);
      var binds := launched == Ok(a.master) && add.exit != FailedBefore && entry.Query() !in a.entries;
      (AbstractVault(passwords, a.master, if binds then a.entries[entry.Query() := entry] else a.entries),
       PutOutcome(if binds && add.exit == Clean then Ok(()) else Err(FailureOf(launched))))
    case GetOp(query, env) =>
      var (passwords, launched) := Launch(a.passwords, name, env);
      var finds := launched == Ok(a.master) && env.exit == Clean && query in a.entries;
      (a.(passwords := passwords), GetOutcome(if finds then Ok(a.entries[query]) else Err(NotFound(query))))
  }

  function AbstractOutcomes(a: AbstractVault, name: string, ops: seq<Op>): seq<Outcome>
    decreases |ops|
  {
    if ops == [] then []
    else
      var (a', outcome) := AbstractStep(a, name, ops[0]);
      [outcome] + AbstractOutcomes(a', name, ops[1..])
  }

  // ---------- The correspondence ----------

  /** Entries the store can keep without loss. */
  ghost predicate Storable(entry: VaultEntry) {
    && '/' !in entry.entryLabel
    && Canonical(entry.metadata)
    && LineSafe(entry.secret)
    && entry == NewEntry(entry.entryLabel, entry.metadata, entry.secret)
  }

  ghost predicate WellPosed(op: Op) {
    match op
    case PutOp(entry, _, _) => Storable(entry)
    case GetOp(query, _) => '/' !in query.entryLabel
  }

  /** Every password is on one line, as every generated one is. */
  ghost predicate LineSafePasswords(passwords: map<string, string>) {
    forall name :: name in passwords ==> LineSafe(passwords[name])
  }

  ghost predicate Bound(w: World, q: SecretQuery, entry: VaultEntry) {
    && Storable(entry) && entry.Query() == q
    && q.GroupPath() in w.db.entries
    && w.db.entries[q.GroupPath()] == StoredEntry(entry.secret, Encode(entry.metadata))
  }

  ghost predicate Refines(w: World, a: AbstractVault) {
    && LineSafePasswords(w.passwords)
    && w.passwords == a.passwords && w.db.master == a.master
    && (forall q :: q in a.entries ==> Bound(w, q, a.entries[q]))
    && (forall path :: path in w.db.entries ==> exists q :: q in a.entries && q.GroupPath() == path)
  }

  lemma EmptyVaultRefines(passwords: map<string, string>, master: string)
    requires LineSafePasswords(passwords)
    ensures Refines(World(passwords, Database(master, map[])), AbstractVault(passwords, master, map[]))
  {}

  /** A path is bound exactly when its key is. */
  lemma PathBoundIffKey(w: World, a: AbstractVault, q: SecretQuery)
    requires Refines(w, a) && '/' !in q.entryLabel
    ensures q.GroupPath() in w.db.entries <==> q in a.entries
  {
    assert q in a.entries ==> Bound(w, q, a.entries[q]);
    if q.GroupPath() in w.db.entries {
      var q' :| q' in a.entries && q'.GroupPath() == q.GroupPath();
      assert Bound(w, q', a.entries[q']);
      GroupPathInjective(q, q');
    }
  }

  function BindPath(w: World, entry: VaultEntry): World {
    w.(db := Bind(w.db, entry.groupPath, entry.secret, Encode(entry.metadata)))
  }

  lemma BindingKeepsOthers(w: World, entry: VaultEntry, q: SecretQuery, other: VaultEntry)
    requires Bound(w, q, other) && Storable(entry) && entry.Query() != q
    ensures Bound(BindPath(w, entry), q, other)
  {
    if q.GroupPath() == entry.groupPath {
      GroupPathInjective(q, entry.Query());
    }
  }

  function BindKey(a: AbstractVault, entry: VaultEntry): AbstractVault {
    a.(entries := a.entries[entry.Query() := entry])
  }

  lemma BindingBinds(w: World, a: AbstractVault, entry: VaultEntry, q: SecretQuery)
    requires Refines(w, a) && Storable(entry) && entry.Query() !in a.entries && q in BindKey(a, entry).entries
    ensures Bound(BindPath(w, entry), q, BindKey(a, entry).entries[q])
  {
    if q != entry.Query() {
      BindingKeepsOthers(w, entry, q, a.entries[q]);
    }
  }

  lemma BindingPaths(w: World, a: AbstractVault, entry: VaultEntry, path: string)
    requires Refines(w, a) && Storable(entry) && path in BindPath(w, entry).db.entries
    ensures exists q :: q in BindKey(a, entry).entries && q.GroupPath() == path
  {
    if path != entry.groupPath {
      var q :| q in a.entries && q.GroupPath() == path;
      assert q in BindKey(a, entry).entries;
    } else {
      assert entry.Query() in BindKey(a, entry).entries;
    }
  }

  lemma BindingRefines(w: World, a: AbstractVault, entry: VaultEntry)
    requires Refines(w, a) && Storable(entry) && entry.Query() !in a.entries
    ensures Refines(BindPath(w, entry), BindKey(a, entry))
  {
    forall q | q in BindKey(a, entry).entries ensures Bound(BindPath(w, entry), q, BindKey(a, entry).entries[q]) {
      BindingBinds(w, a, entry, q);
    }
    forall path | path in BindPath(w, entry).db.entries
      ensures exists q :: q in BindKey(a, entry).entries && q.GroupPath() == path
    {
      BindingPaths(w, a, entry, path);
    }
  }

  lemma RelabelPasswords(w: World, a: AbstractVault, passwords: map<string, string>)
    requires Refines(w, a) && LineSafePasswords(passwords)
    ensures Refines(w.(passwords := passwords), a.(passwords := passwords))
  {
    assert forall q :: q in a.entries ==> Bound(w, q, a.entries[q]);
  }

  /** The password of a launch on such a keystore is read as it is. */
  lemma LaunchIsRead(passwords: map<string, string>, name: string, env: RunEnv)
    requires LineSafePasswords(passwords)
    ensures var (passwords', launched) := Launch(passwords, name, env);
            && LineSafePasswords(passwords')
            && (launched.Ok? ==> LineSafe(launched.value) && FirstRead(launched.value) == launched.value)
  {
    Keystores.GeneratedIsLineSafe(env.keyring.random);
    var launched := Launch(passwords, name, env).1;
    if launched.Ok? {
      FirstReadIsWholeIff(launched.value);
    }
  }

  /** Whatever a put came to on the text store, it came to the same on the map. */
  lemma PutEffectRefines(w: World, a: AbstractVault, name: string, entry: VaultEntry, mkdir: RunEnv, add: RunEnv,
                         w': World, failed: Option<VaultError>)
    requires Refines(w, a) && Storable(entry) && PutEffect(w, name, entry, mkdir, add, w', failed)
    ensures var (a', outcome) := AbstractStep(a, name, PutOp(entry, mkdir, add));
            && Refines(w', a')
            && outcome == PutOutcome(if failed.None? then Ok(()) else Err(failed.value))
  {
    var prepared := Launch(w.passwords, name, mkdir).0;
    LaunchIsRead(w.passwords, name, mkdir);
    LaunchIsRead(prepared, name, add);
    var launched := Launch(prepared, name, add).1;
    if launched.Ok? {
      ConfirmedExactly(launched.value, entry.secret);
      LineSafeIsFaithful(launched.value);
      LineSafeConfirmsItself(entry.secret);
    }
    PathBoundIffKey(w, a, entry.Query());
    RelabelPasswords(w, a, w'.passwords);
    if Binds(w.db, launched, add.exit, entry.groupPath, entry.secret).Some? {
      BindingRefines(w.(passwords := w'.passwords), a.(passwords := w'.passwords), entry);
    }
  }

  lemma PutRefines(w: World, a: AbstractVault, name: string, entry: VaultEntry, mkdir: RunEnv, add: RunEnv)
    requires Refines(w, a) && Storable(entry)
    ensures Step(w, name, PutOp(entry, mkdir, add)).1 == AbstractStep(a, name, PutOp(entry, mkdir, add)).1
    ensures Refines(Step(w, name, PutOp(entry, mkdir, add)).0, AbstractStep(a, name, PutOp(entry, mkdir, add)).0)
  {
    PutBinds(w, name, entry, mkdir, add);
    var (w', result) := Put(w, name, entry, mkdir, add);
    PutEffectRefines(w, a, name, entry, mkdir, add, w', Failure(result));
  }

  lemma BoundIsReadable(w: World, q: SecretQuery, entry: VaultEntry, crlf: bool)
    requires Bound(w, q, entry)
    ensures Readable(q, Shown(w.db.entries[q.GroupPath()], crlf)) == Ok(entry)
  {
    RoundTripIffCanonical(entry.metadata);
    FirstReadIsWholeIff(entry.secret);
    FindMeaning(entry.secret, '\n');
    StoredFirstLine(entry.secret, Encode(entry.metadata), crlf);
    SecretComesBackIff(entry.secret, crlf);
  }

  /** What a get comes to, told by the map. */
  lemma GetEffectMeaning(w: World, a: AbstractVault, name: string, query: SecretQuery, env: RunEnv,
                         w': World, result: Result<VaultEntry, VaultError>)
    requires w.db.master == a.master && w.passwords == a.passwords && GetEffect(w, name, query, env, w', result)
    requires var launched := Launch(w.passwords, name, env).1;
             launched.Ok? ==> FirstRead(launched.value) == launched.value
    requires query.GroupPath() in w.db.entries <==> query in a.entries
    requires query in a.entries ==>
               Readable(query, Shown(w.db.entries[query.GroupPath()], env.crlf)) == Ok(a.entries[query])
    ensures w' == w.(passwords := Launch(w.passwords, name, env).0)
    ensures AbstractStep(a, name, GetOp(query, env)) == (a.(passwords := w'.passwords), GetOutcome(result))
  {}

  lemma GetRefines(w: World, a: AbstractVault, name: string, query: SecretQuery, env: RunEnv)
    requires Refines(w, a) && '/' !in query.entryLabel
    ensures Step(w, name, GetOp(query, env)).1 == AbstractStep(a, name, GetOp(query, env)).1
    ensures Refines(Step(w, name, GetOp(query, env)).0, AbstractStep(a, name, GetOp(query, env)).0)
  {
    PathBoundIffKey(w, a, query);
    if query in a.entries {
      BoundIsReadable(w, query, a.entries[query], env.crlf);
    }
    LaunchIsRead(w.passwords, name, env);
    GetReads(w, name, query, env);
    var (w', result) := Get(w, name, query, env);
    GetEffectMeaning(w, a, name, query, env, w', result);
    RelabelPasswords(w, a, w'.passwords);
  }

  lemma StepRefines(w: World, a: AbstractVault, name: string, op: Op)
    requires Refines(w, a) && WellPosed(op)
    ensures Step(w, name, op).1 == AbstractStep(a, name, op).1
    ensures Refines(Step(w, name, op).0, AbstractStep(a, name, op).0)
  {
    match op
    case PutOp(entry, mkdir, add) => PutRefines(w, a, name, entry, mkdir, add);
    case GetOp(query, env) => GetRefines(w, a, name, query, env);
  }

  /**
    Store refinement: every sequence of puts and gets, whatever fails along the
    way, has on the text store exactly the outcomes it has on the plain map.
   */
  lemma {:induction false} StoreRefinesMap(w: World, a: AbstractVault, name: string, ops: seq<Op>)
    requires Refines(w, a) && forall op :: op in ops ==> WellPosed(op)
    ensures Outcomes(w, name, ops) == AbstractOutcomes(a, name, ops)
    decreases |ops|
  {
    if ops != [] {
      StepRefines(w, a, name, ops[0]);
      StoreRefinesMap(Step(w, name, ops[0]).0, AbstractStep(a, name, ops[0]).0, name, ops[1..]);
    }
  }

  // ---------- No more could be asked of the entries ----------

  predicate GoesWell(env: RunEnv) {
    env.cliExists && env.spawns && env.keyring.canOpen && env.keyring.canRead && env.pipes && env.exit == Clean
  }

  function EmptyStore(name: string, master: string): World {
    World(map[name := master], Database(master, map[]))
  }

  function EmptyMap(name: string, master: string): AbstractVault {
    AbstractVault(map[name := master], master, map[])
  }

  lemma OutcomesCons(w: World, name: string, ops: seq<Op>)
    requires ops != []
    ensures Outcomes(w, name, ops) == [Step(w, name, ops[0]).1] + Outcomes(Step(w, name, ops[0]).0, name, ops[1..])
  {}

  lemma AbstractOutcomesCons(a: AbstractVault, name: string, ops: seq<Op>)
    requires ops != []
    ensures AbstractOutcomes(a, name, ops) ==
            [AbstractStep(a, name, ops[0]).1] + AbstractOutcomes(AbstractStep(a, name, ops[0]).0, name, ops[1..])
  {}

  lemma TwoOutcomes(w: World, a: AbstractVault, name: string, x: Op, y: Op)
    ensures var w', a' := Step(w, name, x).0, AbstractStep(a, name, x).0;
            && Outcomes(w, name, [x, y]) == [Step(w, name, x).1, Step(w', name, y).1]
            && AbstractOutcomes(a, name, [x, y]) == [AbstractStep(a, name, x).1, AbstractStep(a', name, y).1]
  {
    assert [x, y][1..] == [y] && [y][1..] == [];
    var w', a' := Step(w, name, x).0, AbstractStep(a, name, x).0;
    OutcomesCons(w, name, [x, y]);
    OutcomesCons(w', name, [y]);
    AbstractOutcomesCons(a, name, [x, y]);
    AbstractOutcomesCons(a', name, [y]);
  }

  /** The plain map keeps whatever is put into it when everything goes well. */
  lemma MapKeeps(name: string, master: string, entry: VaultEntry, q: SecretQuery, env: RunEnv)
    requires GoesWell(env)
    ensures var (a', put) := AbstractStep(EmptyMap(name, master), name, PutOp(entry, env, env));
            && put == PutOutcome(Ok(()))
            && AbstractStep(a', name, GetOp(q, env)).1 ==
               GetOutcome(if q == entry.Query() then Ok(entry) else Err(NotFound(q)))
  {}

  /** With everything going well, the two agree on one put and one get of any slash-free label. */
  ghost predicate KeptAsOnMap(name: string, master: string, entry: VaultEntry, env: RunEnv) {
    forall q: SecretQuery :: '/' !in q.entryLabel ==>
      Outcomes(EmptyStore(name, master), name, [PutOp(entry, env, env), GetOp(q, env)]) ==
      AbstractOutcomes(EmptyMap(name, master), name, [PutOp(entry, env, env), GetOp(q, env)])
  }

  lemma AgreedOutcomes(name: string, master: string, entry: VaultEntry, q: SecretQuery, env: RunEnv)
    requires GoesWell(env) && KeptAsOnMap(name, master, entry, env) && '/' !in q.entryLabel
    ensures var (w, stored) := Put(EmptyStore(name, master), name, entry, env, env);
            && stored == Ok(())
            && Get(w, name, q, env).1 == if q == entry.Query() then Ok(entry) else Err(NotFound(q))
  {
    var put, get := PutOp(entry, env, env), GetOp(q, env);
    TwoOutcomes(EmptyStore(name, master), EmptyMap(name, master), name, put, get);
    MapKeeps(name, master, entry, q, env);
    assert Outcomes(EmptyStore(name, master), name, [put, get])[0] == PutOutcome(Ok(()));
    assert Outcomes(EmptyStore(name, master), name, [put, get])[1] ==
           GetOutcome(if q == entry.Query() then Ok(entry) else Err(NotFound(q)));
  }

  lemma StoredWell(name: string, master: string, entry: VaultEntry, env: RunEnv)
    requires LineSafe(master) && GoesWell(env)
    ensures var (w, stored) := Put(EmptyStore(name, master), name, entry, env, env);
            && Works(w.passwords, w.db.master, name, env)
            && (stored.Ok? ==> entry.groupPath in w.db.entries)
  {
    PutBinds(EmptyStore(name, master), name, entry, env, env);
    FirstReadIsWholeIff(master);
  }

  lemma ReadBackWholeIff(name: string, master: string, entry: VaultEntry, env: RunEnv)
    requires LineSafe(master) && GoesWell(env)
    requires entry == NewEntry(entry.entryLabel, entry.metadata, entry.secret)
    ensures var (w, stored) := Put(EmptyStore(name, master), name, entry, env, env);
            stored.Ok? ==>
              (Get(w, name, entry.Query(), env).1 == Ok(entry) <==> Canonical(entry.metadata) && LineSafe(entry.secret))
  {
    LineSafeIsFaithful(master);
    StoredWell(name, master, entry, env);
    PutThenGetExactIffCanonical(EmptyStore(name, master), name, entry, env, env, [], env);
  }

  /** An entry with a slash in its label is served under a slash-free query that was never put. */
  lemma SlashedIsServedTwice(name: string, master: string, entry: VaultEntry, env: RunEnv)
    requires LineSafe(master) && GoesWell(env) && '/' in entry.entryLabel
    requires entry == NewEntry(entry.entryLabel, entry.metadata, entry.secret)
    ensures !KeptAsOnMap(name, master, entry, env)
  {
    if KeptAsOnMap(name, master, entry, env) {
      SlashedLabelCollides(entry.Query());
      var q: SecretQuery :| q != entry.Query() && '/' !in q.entryLabel && q.GroupPath() == entry.groupPath;
      AgreedOutcomes(name, master, entry, q, env);
      StoredWell(name, master, entry, env);
      GetReads(Put(EmptyStore(name, master), name, entry, env, env).0, name, q, env);
    }
  }

  /**
    The entries of the refinement are the right ones: an entry is kept as on the
    plain map, even with everything going well, if and only if it is storable.
   */
  lemma StorableIff(name: string, master: string, entry: VaultEntry, env: RunEnv)
    requires LineSafe(master) && GoesWell(env)
    requires entry == NewEntry(entry.entryLabel, entry.metadata, entry.secret)
    ensures KeptAsOnMap(name, master, entry, env) <==> Storable(entry)
  {
    var w := EmptyStore(name, master);
    if Storable(entry) {
      EmptyVaultRefines(map[name := master], master);
      forall q: SecretQuery | '/' !in q.entryLabel
        ensures Outcomes(w, name, [PutOp(entry, env, env), GetOp(q, env)]) ==
                AbstractOutcomes(EmptyMap(name, master), name, [PutOp(entry, env, env), GetOp(q, env)])
      {
        StoreRefinesMap(w, EmptyMap(name, master), name, [PutOp(entry, env, env), GetOp(q, env)]);
      }
    } else if '/' in entry.entryLabel {
      SlashedIsServedTwice(name, master, entry, env);
    } else if KeptAsOnMap(name, master, entry, env) {
      AgreedOutcomes(name, master, entry, entry.Query(), env);
      ReadBackWholeIff(name, master, entry, env);
    }
  }

  /** The map after a sequence of operations. */
  function AbstractFinal(a: AbstractVault, name: string, ops: seq<Op>): AbstractVault
    decreases |ops|
  {
    if ops == [] then a else AbstractFinal(AbstractStep(a, name, ops[0]).0, name, ops[1..])
  }

  lemma {:induction false} FinalRefines(w: World, a: AbstractVault, name: string, ops: seq<Op>)
    requires Refines(w, a) && forall op :: op in ops ==> WellPosed(op)
    ensures Refines(Final(w, name, ops), AbstractFinal(a, name, ops))
    decreases |ops|
  {
    if ops != [] {
      StepRefines(w, a, name, ops[0]);
      FinalRefines(Step(w, name, ops[0]).0, AbstractStep(a, name, ops[0]).0, name, ops[1..]);
    }
  }

  lemma BoundPathAgrees(w: World, a: AbstractVault, path: string)
    requires Refines(w, a) && path in w.db.entries
    ensures Decode(w.db.entries[path].notes).Some?
    ensures exists entryLabel :: && '/' !in entryLabel
                                 && path == Decode(w.db.entries[path].notes).value.project + "/" + entryLabel
  {
    var q :| q in a.entries && q.GroupPath() == path;
    assert Bound(w, q, a.entries[q]);
    RoundTripIffCanonical(a.entries[q].metadata);
    assert path == Decode(w.db.entries[path].notes).value.project + "/" + q.entryLabel;
  }

  /**
    Whatever well-posed operations came before, every bound path is the project
    that its own notes name, a slash and a slash-free label.
   */
  lemma BoundPathsAgree(w: World, a: AbstractVault, name: string, ops: seq<Op>, path: string)
    requires Refines(w, a) && forall op :: op in ops ==> WellPosed(op)
    requires path in Final(w, name, ops).db.entries
    ensures var notes := Final(w, name, ops).db.entries[path].notes;
            && Decode(notes).Some?
            && exists entryLabel :: '/' !in entryLabel && path == Decode(notes).value.project + "/" + entryLabel
  {
    FinalRefines(w, a, name, ops);
    BoundPathAgrees(Final(w, name, ops), AbstractFinal(a, name, ops), path);
  }

  // ---------- The unlock password across a history ----------

  function LaunchOf(passwords: map<string, string>, name: string, env: RunEnv): seq<string> {
    match Launch(passwords, name, env).1
    case Ok(password) => [password]
    case Err(_) => []
  }

  /** The passwords handed to child processes, in order. */
  function Unlocks(w: World, name: string, ops: seq<Op>): seq<string>
    decreases |ops|
  {
    if ops == [] then []
    else
      var first := match ops[0]
        case PutOp(_, mkdir, add) =>
          LaunchOf(w.passwords, name, mkdir) + LaunchOf(Launch(w.passwords, name, mkdir).0, name, add)
        case GetOp(_, env) => LaunchOf(w.passwords, name, env);
      first + Unlocks(Step(w, name, ops[0]).0, name, ops[1..])
  }

  lemma StepPasswords(w: World, name: string, op: Op)
    ensures Step(w, name, op).0.passwords ==
            match op
            case PutOp(_, mkdir, add) => Launch(Launch(w.passwords, name, mkdir).0, name, add).0
            case GetOp(_, env) => Launch(w.passwords, name, env).0
  {}

  /**
    Stable unlock: over any history of puts and gets, well-posed or not, all
    child processes were handed one and the same password, the one the keystore
    holds for this vault; a password that existed beforehand is that one.
   */
  lemma {:induction false} VaultUnlocksStably(w: World, name: string, ops: seq<Op>)
    ensures var passwords := Final(w, name, ops).passwords;
            && (forall n :: n in w.passwords ==> n in passwords && passwords[n] == w.passwords[n])
            && (forall password :: password in Unlocks(w, name, ops) ==>
                                     name in passwords && passwords[name] == password)
    decreases |ops|
  {
    if ops != [] {
      StepPasswords(w, name, ops[0]);
      VaultUnlocksStably(Step(w, name, ops[0]).0, name, ops[1..]);
      match ops[0]
      case PutOp(_, mkdir, add) =>
        LaunchIsStable(w.passwords, name, mkdir);
        LaunchIsStable(Launch(w.passwords, name, mkdir).0, name, add);
      case GetOp(_, env) =>
        LaunchIsStable(w.passwords, name, env);
    }
  }
}
