/**
  The text store for every put and get there is: any texts, any keystore, any
  failures. It is a map from paths to what survives of an entry, and a path once
  bound stays bound.
 */
module VaultPaths {
  import opened Wrappers
  import opened Text
  import opened Entries
  import opened Metadata
  import opened Vaults

  // ---------- Sequences of operations on the text store ----------

  datatype Op =
    | PutOp(entry: VaultEntry, mkdir: RunEnv, add: RunEnv)
    | GetOp(query: SecretQuery, env: RunEnv)

  datatype Outcome =
    | PutOutcome(put: Result<(), VaultError>)
    | GetOutcome(got: Result<VaultEntry, VaultError>)

  function Step(w: World, name: string, op: Op): (World, Outcome) {
    match op
    case PutOp(entry, mkdir, add) =>
      var (w', result) := Put(w, name, entry, mkdir, add);
      (w', PutOutcome(result))
    case GetOp(query, env) =>
      var (w', result) := Get(w, name, query, env);
      (w', GetOutcome(result))
  }

  function Outcomes(w: World, name: string, ops: seq<Op>): seq<Outcome>
    decreases |ops|
  {
    if ops == [] then []
    else
      var (w', outcome) := Step(w, name, ops[0]);
      [outcome] + Outcomes(w', name, ops[1..])
  }

  function Final(w: World, name: string, ops: seq<Op>): World
    decreases |ops|
  {
    if ops == [] then w else Final(Step(w, name, ops[0]).0, name, ops[1..])
  }

  // ---------- The map of paths ----------

  /** What survives of an entry: the first line of its password, and what its notes decode to. */
  datatype Kept = Kept(line: string, metadata: Option<EntryMetadata>)

  function Keep(stored: StoredEntry): Kept {
    Kept(FirstLine(stored.password), Decode(LinesBelow(stored.password) + stored.notes))
  }

  datatype PathVault = PathVault(passwords: map<string, string>, master: string, kept: map<string, Kept>)

  function KeepAll(entries: map<string, StoredEntry>): map<string, Kept> {
    map path | path in entries :: Keep(entries[path])
  }

  function View(w: World): PathVault {
    PathVault(w.passwords, w.db.master, KeepAll(w.db.entries))
  }

  /** What a query is served of an entry that survived. */
  function Serve(query: SecretQuery, kept: Kept, crlf: bool): Result<VaultEntry, VaultError> {
    match kept.metadata
    case None => Err(UnparseableMetadata(query))
    case Some(m) => Ok(NewEntry(query.entryLabel, m, if crlf then kept.line else StripCarriageReturn(kept.line)))
  }

  function PathStep(p: PathVault, name: string, op: Op): (PathVault, Outcome) {
    match op
    case PutOp(entry, mkdir, add) =>
      var (passwords, launched) := Launch(Launch(p.passwords, name, mkdir).0, name, add);
      var reaches := launched.Ok? && FirstRead(launched.value) == p.master && add.exit != FailedBefore;
      var typed := if reaches && entry.groupPath !in p.kept then Confirmed(launched.value, entry.secret) else None;
      var kept := if typed.None? then p.kept
                  else p.kept[entry.groupPath := Kept(typed.value, Decode(Encode(entry.metadata)))];
      (PathVault(passwords, p.master, kept),
       PutOutcome(if typed.Some? && add.exit == Clean then Ok(()) else Err(FailureOf(launched))))
    case GetOp(query, env) =>
      var found := Works(p.passwords, p.master, name, env) && query.GroupPath() in p.kept;
      (p.(passwords := Launch(p.passwords, name, env).0),
       GetOutcome(if found then Serve(query, p.kept[query.GroupPath()], env.crlf) else Err(NotFound(query))))
  }

  function PathOutcomes(p: PathVault, name: string, ops: seq<Op>): seq<Outcome>
    decreases |ops|
  {
    if ops == [] then []
    else
      var (p', outcome) := PathStep(p, name, ops[0]);
      [outcome] + PathOutcomes(p', name, ops[1..])
  }

  lemma ServedIsReadable(query: SecretQuery, stored: StoredEntry, crlf: bool)
    ensures Readable(query, Shown(stored, crlf)) == Serve(query, Keep(stored), crlf)
  {}

  lemma ConfirmedIsOneLine(password: string, secret: string)
    ensures Confirmed(password, secret).Some? ==> '\n' !in Confirmed(password, secret).value
  {
    var parts := SplitAll([password, secret, secret], '\n');
    FeedIsRead([password, secret, secret]);
    LinesLackBreak(Feed([password, secret, secret]));
    assert TypedLines(password, secret) == Lines(Feed([password, secret, secret]));
  }

  lemma KeptLine(line: string, notes: string)
    requires '\n' !in line
    ensures Keep(StoredEntry(line, notes)) == Kept(line, Decode(notes))
  {
    FindMeaning(line, '\n');
    assert FirstLine(line) == line && LinesBelow(line) + notes == notes;
  }

  lemma KeepAllUpdated(entries: map<string, StoredEntry>, path: string, stored: StoredEntry)
    ensures KeepAll(entries[path := stored]) == KeepAll(entries)[path := Keep(stored)]
  {}

  lemma ViewOfBind(w: World, path: string, line: string, notes: string)
    requires '\n' !in line
    ensures View(w.(db := Bind(w.db, path, line, notes))) ==
            View(w).(kept := View(w).kept[path := Kept(line, Decode(notes))])
  {
    KeptLine(line, notes);
    KeepAllUpdated(w.db.entries, path, StoredEntry(line, notes));
  }

  /** A put on the text store and on the map of paths come to the same. */
  lemma PutViews(w: World, name: string, entry: VaultEntry, mkdir: RunEnv, add: RunEnv,
                 w': World, failed: Option<VaultError>)
    requires PutEffect(w, name, entry, mkdir, add, w', failed)
    ensures PathStep(View(w), name, PutOp(entry, mkdir, add)) ==
            (View(w'), PutOutcome(if failed.None? then Ok(()) else Err(failed.value)))
  {
    var prepared := Launch(w.passwords, name, mkdir).0;
    var (passwords, launched) := Launch(prepared, name, add);
    var bound := Binds(w.db, launched, add.exit, entry.groupPath, entry.secret);
    if bound.Some? {
      ConfirmedIsOneLine(launched.value, entry.secret);
      ViewOfBind(World(passwords, w.db), entry.groupPath, bound.value, Encode(entry.metadata));
    }
  }

  lemma GetViews(w: World, name: string, query: SecretQuery, env: RunEnv,
                 w': World, result: Result<VaultEntry, VaultError>)
    requires GetEffect(w, name, query, env, w', result)
    ensures PathStep(View(w), name, GetOp(query, env)) == (View(w'), GetOutcome(result))
  {
    if query.GroupPath() in w.db.entries {
      ServedIsReadable(query, w.db.entries[query.GroupPath()], env.crlf);
    }
  }

  lemma StepViews(w: World, name: string, op: Op)
    ensures PathStep(View(w), name, op) == (View(Step(w, name, op).0), Step(w, name, op).1)
  {
    match op
    case PutOp(entry, mkdir, add) =>
      PutBinds(w, name, entry, mkdir, add);
      var (w', result) := Put(w, name, entry, mkdir, add);
      PutViews(w, name, entry, mkdir, add, w', Failure(result));
    case GetOp(query, env) =>
      GetReads(w, name, query, env);
      var (w', result) := Get(w, name, query, env);
      GetViews(w, name, query, env, w', result);
  }

  /**
    With nothing assumed of texts, keystore, initial database or failures, every
    sequence of puts and gets has on the text store the outcomes it has on the
    map of paths.
   */
  lemma {:induction false} StoreIsPathMap(w: World, name: string, ops: seq<Op>)
    ensures Outcomes(w, name, ops) == PathOutcomes(View(w), name, ops)
    decreases |ops|
  {
    if ops != [] {
      StepViews(w, name, ops[0]);
      StoreIsPathMap(Step(w, name, ops[0]).0, name, ops[1..]);
    }
  }

  // ---------- Bound paths ----------

  lemma StepKeepsPaths(w: World, name: string, op: Op, path: string)
    requires path in w.db.entries
    ensures var w' := Step(w, name, op).0;
            path in w'.db.entries && w'.db.entries[path] == w.db.entries[path]
  {
    match op
    case PutOp(entry, mkdir, add) => PutBinds(w, name, entry, mkdir, add);
    case GetOp(query, env) => GetReads(w, name, query, env);
  }

  /** A bound path keeps its entry through any sequence of operations. */
  lemma {:induction false} PathsAreKept(w: World, name: string, ops: seq<Op>, path: string)
    requires path in w.db.entries
    ensures var w' := Final(w, name, ops);
            path in w'.db.entries && w'.db.entries[path] == w.db.entries[path]
    decreases |ops|
  {
    if ops != [] {
      StepKeepsPaths(w, name, ops[0], path);
      PathsAreKept(Step(w, name, ops[0]).0, name, ops[1..], path);
    }
  }

  /** The secret of an entry as it is read back after a put. */
  function SecretBack(secret: string, crlf: bool): string {
    if crlf then FirstRead(secret) else StripCarriageReturn(FirstRead(secret))
  }

  /** It is the secret that was put exactly when that is line-safe. */
  lemma SecretComesBackIff(secret: string, crlf: bool)
    ensures SecretBack(secret, crlf) == secret <==> LineSafe(secret)
  {
    FirstReadIsWholeIff(secret);
  }

  lemma StoredFirstLine(secret: string, notes: string, crlf: bool)
    ensures Shown(StoredEntry(FirstRead(secret), notes), crlf) == StoredEntry(SecretBack(secret, crlf), notes)
  {
    FirstPiece(secret);
    BelowOneLine(FirstRead(secret));
    FindMeaning(FirstRead(secret), '\n');
  }

  /**
    After a put that succeeded, of any entry, any sequence of operations later, a
    working get reads the first line of its secret and what its metadata decode to.
   */
  lemma PutThenGet(w: World, name: string, entry: VaultEntry, mkdir: RunEnv, add: RunEnv, ops: seq<Op>, env: RunEnv)
    requires Sound(w.passwords) && entry == NewEntry(entry.entryLabel, entry.metadata, entry.secret)
    ensures var (w1, stored) := Put(w, name, entry, mkdir, add);
            var w2 := Final(w1, name, ops);
            stored.Ok? ==>
              Get(w2, name, entry.Query(), env).1 ==
              if Works(w2.passwords, w2.db.master, name, env)
              then Readable(entry.Query(), StoredEntry(SecretBack(entry.secret, env.crlf), Encode(entry.metadata)))
              else Err(NotFound(entry.Query()))
  {
    PutOnSoundKeystore(w, name, entry, mkdir, add);
    var (w1, stored) := Put(w, name, entry, mkdir, add);
    if stored.Ok? {
      assert w1.db.entries[entry.groupPath] == StoredEntry(FirstRead(entry.secret), Encode(entry.metadata));
      PathsAreKept(w1, name, ops, entry.groupPath);
      GetReads(Final(w1, name, ops), name, entry.Query(), env);
      StoredFirstLine(entry.secret, Encode(entry.metadata), env.crlf);
    }
  }

  /**
    The exact condition: an entry comes back unchanged if and only if its
    metadata is canonical and its secret is line-safe.
   */
  lemma PutThenGetExactIffCanonical(w: World, name: string, entry: VaultEntry, mkdir: RunEnv, add: RunEnv,
                                    ops: seq<Op>, env: RunEnv)
    requires Sound(w.passwords) && entry == NewEntry(entry.entryLabel, entry.metadata, entry.secret)
    ensures var (w1, stored) := Put(w, name, entry, mkdir, add);
            var w2 := Final(w1, name, ops);
            stored.Ok? && Works(w2.passwords, w2.db.master, name, env) ==>
              (Get(w2, name, entry.Query(), env).1 == Ok(entry)
               <==> Canonical(entry.metadata) && LineSafe(entry.secret))
  {
    PutThenGet(w, name, entry, mkdir, add, ops, env);
    RoundTripIffCanonical(entry.metadata);
    SecretComesBackIff(entry.secret, env.crlf);
  }

  lemma SamePathIff(a: string, b: string, entryLabel: string)
    ensures a + "/" + entryLabel == b + "/" + entryLabel <==> a == b
  {
    if a + "/" + entryLabel == b + "/" + entryLabel {
      assert |a| == |b|;
      assert a == (a + "/" + entryLabel)[..|a|] && b == (b + "/" + entryLabel)[..|b|];
    }
  }

  /**
    For any texts, an entry read back names the path it was read from exactly
    when its project survives the codec; a single-line, traceable one comes back
    with its texts trimmed.
   */
  lemma PutThenGetNormalises(w: World, name: string, entry: VaultEntry, mkdir: RunEnv, add: RunEnv,
                             ops: seq<Op>, env: RunEnv)
    requires Sound(w.passwords) && entry == NewEntry(entry.entryLabel, entry.metadata, entry.secret)
    ensures var (w1, stored) := Put(w, name, entry, mkdir, add);
            var w2 := Final(w1, name, ops);
            var read := Get(w2, name, entry.Query(), env).1;
            stored.Ok? && Works(w2.passwords, w2.db.master, name, env) ==>
              && (read.Ok? ==> (read.value.groupPath == entry.groupPath <==> ProjectSurvives(entry.metadata)))
              && (SingleLine(entry.metadata) && NewMetadata(entry.metadata).Ok? ==>
                    read == Ok(NewEntry(entry.entryLabel, Normal(entry.metadata), SecretBack(entry.secret, env.crlf))))
  {
    PutThenGet(w, name, entry, mkdir, add, ops, env);
    ProjectComesBackIff(entry.metadata);
    if Decode(Encode(entry.metadata)).Some? {
      SamePathIff(Decode(Encode(entry.metadata)).value.project, entry.metadata.project, entry.entryLabel);
    }
    if SingleLine(entry.metadata) {
      CodecNormalForm(entry.metadata);
    }
  }

  // ---------- Inputs that do not come back ----------

  lemma ReturnIsDropped(secret: string)
    requires LineSafe(secret)
    ensures ConfirmsItself(secret + "\r") && FirstRead(secret + "\r") == secret
  {
    var s := secret + "\r";
    SplitLacking(s, '\n');
    FindMeaning(s, '\n');
    assert FirstLine(s) == s && s[..|secret|] == secret;
  }

  lemma RepeatIsDropped(secret: string)
    requires LineSafe(secret)
    ensures ConfirmsItself(secret + "\n" + secret) && FirstRead(secret + "\n" + secret) == secret
  {
    var s := secret + ['\n'] + secret;
    assert secret + "\n" + secret == s;
    SplitAfter(secret, '\n', secret);
    SplitLacking(secret, '\n');
    FindAfter(secret, '\n', secret);
    assert s[..|secret|] == secret;
  }

  /**
    The failing inputs: a secret ending in a carriage return, or one whose two
    lines repeat each other, is put successfully, and another one is stored.
   */
  lemma AnotherSecretIsStored(w: World, name: string, entry: VaultEntry, secret: string, mkdir: RunEnv, add: RunEnv)
    requires LineSafe(secret) && LineSafe(w.db.master)
    requires entry.secret == secret + "\r" || entry.secret == secret + "\n" + secret
    requires Launch(Launch(w.passwords, name, mkdir).0, name, add).1 == Ok(w.db.master) && add.exit == Clean
    requires entry.groupPath !in w.db.entries
    ensures var (w', stored) := Put(w, name, entry, mkdir, add);
            && stored.Ok? && entry.groupPath in w'.db.entries
            && w'.db.entries[entry.groupPath].password == secret != entry.secret
  {
    ReturnIsDropped(secret);
    RepeatIsDropped(secret);
    PutBinds(w, name, entry, mkdir, add);
    ConfirmedExactly(w.db.master, entry.secret);
    LineSafeIsFaithful(w.db.master);
    FirstReadIsWholeIff(w.db.master);
  }

  /**
    The failing input for paths: a trimmed project and a description whose second
    line imitates a project field. A get of the entry's own query hands back an
    entry on another project's path.
   */
  lemma InjectedProjectMovesEntry(w: World, name: string, entry: VaultEntry, description: string, other: string,
                                  mkdir: RunEnv, add: RunEnv, ops: seq<Op>, env: RunEnv)
    requires Sound(w.passwords) && entry == NewEntry(entry.entryLabel, entry.metadata, entry.secret)
    requires var m := entry.metadata;
             && m.sourceDescription == description + "\n" + Field("project", other)
             && '\n' !in description && '\n' !in other && !Blank(description) && !Blank(other)
             && '\n' !in m.provider && '\n' !in m.project && !m.acquiredVia.Migrated? && m.project != Trim(other)
    ensures var (w1, stored) := Put(w, name, entry, mkdir, add);
            var w2 := Final(w1, name, ops);
            var read := Get(w2, name, entry.Query(), env).1;
            stored.Ok? && Works(w2.passwords, w2.db.master, name, env) ==>
              && read.Ok? && read.value.metadata.project == Trim(other)
              && read.value.groupPath == Trim(other) + "/" + entry.entryLabel != entry.groupPath
  {
    PutThenGet(w, name, entry, mkdir, add, ops, env);
    InjectedProjectWins(entry.metadata, description, other);
    SamePathIff(Trim(other), entry.metadata.project, entry.entryLabel);
  }
}
