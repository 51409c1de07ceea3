/** The keyed store behind `keepassxc-cli` (crates/custodly-vault/src/vault.rs). */
module Vaults {
  import opened Wrappers
  import opened Text
  import opened Entries
  import opened Metadata
  import Keystores

  datatype VaultError =
    | CliNotFound
    | CliFailed
    | NotFound(query: SecretQuery)
    | UnparseableMetadata(query: SecretQuery)
    | Keyring
    | Io

  // ---------- The child process: an environment assumption ----------

  datatype StoredEntry = StoredEntry(password: string, notes: string)

  datatype Database = Database(master: string, entries: map<string, StoredEntry>)

  datatype Command = Mkdir(group: string) | Add(path: string, notes: string) | Show(path: string)

  /**
    `keepassxc-cli`, reading its stdin line by line: the first line must unlock
    the database; `add` wants the new password twice and binds an unbound path
    or fails; `show` prints the password and then the notes.
   */
  function Child(db: Database, command: Command, stdin: string): (Database, Option<string>) {
    var lines := Lines(stdin);
    if lines == [] || lines[0] != db.master then (db, None)
    else
      match command
      case Mkdir(_) => (db, Some(""))
      case Add(path, notes) =>
        if |lines| < 3 || lines[1] != lines[2] || path in db.entries then (db, None)
        else (db.(entries := db.entries[path := StoredEntry(lines[1], notes)]), Some(""))
      case Show(path) =>
        if path !in db.entries then (db, None)
        else (db, Some(db.entries[path].password + "\n" + db.entries[path].notes + "\n"))
  }

  /** How the process ends: well, failing before it did anything, or failing with its work done. */
  datatype Exit = Clean | FailedBefore | FailedAfter

  /** How one invocation fares: each step may fail, and output lines may end in `\r\n`. */
  datatype RunEnv = RunEnv(
    cliExists: bool, spawns: bool, keyring: Keystores.KeyringEnv, pipes: bool, exit: Exit, crlf: bool)

  // ---------- Invocations as functions of the state ----------

  datatype World = World(passwords: map<string, string>, db: Database)

  /** Everything up to the child reading its input: the unlock password it is handed. */
  function Launch(passwords: map<string, string>, name: string, env: RunEnv):
    (map<string, string>, Result<string, VaultError>)
  {
    if !env.cliExists then (passwords, Err(CliNotFound))
    else if !env.spawns then (passwords, Err(Io))
    else
      var (passwords', password) := Keystores.Provision(passwords, name, env.keyring);
      if password.Err? then (passwords', Err(Keyring))
      else if !env.pipes then (passwords', Err(Io))
      else (passwords', Ok(password.value))
  }

  /** One line each. */
  function Feed(lines: seq<string>): string {
    if lines == [] then "" else lines[0] + "\n" + Feed(lines[1..])
  }

  function Invoke(w: World, name: string, command: Command, extra: seq<string>, env: RunEnv):
    (World, Result<string, VaultError>)
  {
    var (passwords, launched) := Launch(w.passwords, name, env);
    if launched.Err? then (World(passwords, w.db), Err(launched.error))
    else if env.exit == FailedBefore then (World(passwords, w.db), Err(CliFailed))
    else
      var (db, out) := Child(w.db, command, Feed([launched.value] + extra));
      if out.None? || env.exit == FailedAfter then (World(passwords, db), Err(CliFailed))
      else (World(passwords, db), Ok(if env.crlf then ToCrlf(out.value) else out.value))
  }

  function AddEntry(w: World, name: string, entry: VaultEntry, add: RunEnv): (World, Result<(), VaultError>) {
    var (w', out) := Invoke(w, name, Add(entry.groupPath, Encode(entry.metadata)), [entry.secret, entry.secret], add);
    (w', if out.Ok? then Ok(()) else Err(out.error))
  }

  function Put(w: World, name: string, entry: VaultEntry, mkdir: RunEnv, add: RunEnv): (World, Result<(), VaultError>) {
    AddEntry(Invoke(w, name, Mkdir(entry.metadata.project), [], mkdir).0, name, entry, add)
  }

  /** What `get` makes of the output of `show`. */
  function ReadBack(query: SecretQuery, out: string): Result<VaultEntry, VaultError> {
    var lines := Lines(out);
    var secret := if lines == [] then "" else lines[0];
    var notes := if lines == [] then [] else lines[1..];
    match Decode(Join(notes, "\n"))
    case None => Err(UnparseableMetadata(query))
    case Some(m) => Ok(NewEntry(query.entryLabel, m, secret))
  }

  function Get(w: World, name: string, query: SecretQuery, env: RunEnv): (World, Result<VaultEntry, VaultError>) {
    var (w', out) := Invoke(w, name, Show(query.GroupPath()), [], env);
    (w', if out.Err? then Err(NotFound(query)) else ReadBack(query, out.value))
  }

  /** What the `git-credential` helper prints for a secret. */
  function CredentialLines(secret: string): seq<string> {
    ["username=x-access-token", "password=" + secret]
  }

  /** What git makes of them: one attribute per line, cut at the first `=`. */
  ghost predicate ReadAsCredential(lines: seq<string>, secret: string) {
    && |lines| == 2 && (forall line :: line in lines ==> '\n' !in line)
    && SplitOnce(lines[0], '=') == Some(("username", "x-access-token"))
    && SplitOnce(lines[1], '=') == Some(("password", secret))
  }

  lemma AttributeIsRead(key: string, value: string, line: string)
    requires '=' !in key && '\n' !in key && '\n' !in value && line == key + "=" + value
    ensures SplitOnce(line, '=') == Some((key, value)) && '\n' !in line
  {
    assert line == key + ['='] + value;
    SplitOnceAfter(key, '=', value);
  }

  lemma UsernameIsRead(line: string)
    requires line == "username=x-access-token"
    ensures SplitOnce(line, '=') == Some(("username", "x-access-token")) && '\n' !in line
  {
    var key, value := "username", "x-access-token";
    assert '=' !in key && '\n' !in key && '\n' !in value;
    assert line == key + "=" + value;
    AttributeIsRead(key, value, line);
  }

  lemma PasswordIsRead(secret: string, line: string)
    requires '\n' !in secret && line == "password=" + secret
    ensures SplitOnce(line, '=') == Some(("password", secret)) && '\n' !in line
  {
    var key := "password";
    assert '=' !in key && '\n' !in key;
    assert "password=" == key + "=";
    AttributeIsRead(key, secret, line);
  }

  lemma CredentialIsRead(secret: string)
    requires '\n' !in secret
    ensures ReadAsCredential(CredentialLines(secret), secret)
  {
    UsernameIsRead("username=x-access-token");
    PasswordIsRead(secret, "password=" + secret);
    var lines := CredentialLines(secret);
    assert lines[0] == "username=x-access-token" && lines[1] == "password=" + secret;
  }

  // ---------- Line framing ----------

  lemma FeedOne(line: string)
    ensures Feed([line]) == line + "\n"
  {
    assert [line][1..] == [];
  }

  lemma {:induction false} FeedSnoc(lines: seq<string>, line: string)
    ensures Feed(lines + [line]) == Feed(lines) + (line + "\n")
  {
    if lines == [] {
      FeedOne(line);
      assert lines + [line] == [line];
    } else {
      assert (lines + [line])[1..] == lines[1..] + [line];
      FeedSnoc(lines[1..], line);
    }
  }

  /** Whatever the lines hold, the reader finds the pieces of each, one carriage return less. */
  lemma {:induction false} FeedIsRead(lines: seq<string>)
    ensures Lines(Feed(lines)) == Stripped(SplitAll(lines, '\n'))
  {
    if lines != [] {
      FeedIsRead(lines[1..]);
      LinesOfTerminated(lines[0], Feed(lines[1..]));
      StrippedConcat(Split(lines[0], '\n'), SplitAll(lines[1..], '\n'));
    }
  }

  lemma {:induction false} StrippedIdentityIff(parts: seq<string>)
    ensures Stripped(parts) == parts <==> forall p :: p in parts ==> StripCarriageReturn(p) == p
  {
    if parts != [] {
      StrippedIdentityIff(parts[1..]);
      assert parts == [parts[0]] + parts[1..];
      assert forall p :: p in parts <==> p == parts[0] || p in parts[1..];
      assert Stripped(parts)[0] == StripCarriageReturn(parts[0]) && Stripped(parts)[1..] == Stripped(parts[1..]);
    }
  }

  /** Each line is read as it was written exactly when every line is line-safe. */
  lemma FeedIsIdentityIff(lines: seq<string>)
    ensures Lines(Feed(lines)) == lines <==> forall line :: line in lines ==> LineSafe(line)
  {
    FeedIsRead(lines);
    if forall line :: line in lines ==> LineSafe(line) {
      SplitAllClean(lines, '\n');
      StrippedIdentityIff(lines);
    } else if Lines(Feed(lines)) == lines {
      LinesLackBreak(Feed(lines));
      SplitAllClean(lines, '\n');
      StrippedIdentityIff(lines);
    }
  }

  lemma CrlfCons(line: string, rest: string)
    requires '\n' !in line
    ensures ToCrlf(line + "\n" + rest) == (line + "\r") + "\n" + ToCrlf(rest)
  {
    assert line + "\n" + rest == line + ['\n'] + rest;
    SplitAfter(line, '\n', rest);
    assert ([line] + Split(rest, '\n'))[1..] == Split(rest, '\n');
    assert line + "\r\n" == line + "\r" + "\n";
  }

  lemma CrlfAfter(line: string, rest: string)
    requires '\n' !in line
    ensures Lines(ToCrlf(line + "\n" + rest)) == [line] + Lines(ToCrlf(rest))
  {
    var text := ToCrlf(rest);
    CrlfCons(line, rest);
    LinesAfter(line + "\r", text);
    assert StripCarriageReturn(line + "\r") == line;
  }

  function ShowOutput(stored: StoredEntry, crlf: bool): string {
    var out := stored.password + "\n" + stored.notes + "\n";
    if crlf then ToCrlf(out) else out
  }

  /** The lines of a password below its first, which a reader takes for notes. */
  function LinesBelow(password: string): string {
    var i := Find(password, '\n');
    if i < |password| then password[i + 1..] + "\n" else ""
  }

  /** What `show` lets a reader see of an entry. */
  function Shown(stored: StoredEntry, crlf: bool): StoredEntry {
    StoredEntry(if crlf then FirstLine(stored.password) else FirstRead(stored.password),
                LinesBelow(stored.password) + stored.notes)
  }

  /** What is read of an entry that shows as `seen`. */
  function Readable(query: SecretQuery, seen: StoredEntry): Result<VaultEntry, VaultError> {
    match Decode(seen.notes)
    case None => Err(UnparseableMetadata(query))
    case Some(m) => Ok(NewEntry(query.entryLabel, m, seen.password))
  }

  /** The first line is the secret; the rest, rejoined, are the notes. */
  lemma ReadBackLines(query: SecretQuery, out: string, password: string, notes: string)
    requires Lines(out) == [password] + Lines(notes)
    ensures ReadBack(query, out) == Readable(query, StoredEntry(password, notes))
  {
    assert Lines(out)[1..] == Lines(notes);
    ReframingIsHarmless(notes, "");
  }

  lemma CutShown(a: string, n: string, b: string, notes: string)
    ensures a + n + b + n + notes + n == a + n + (b + n + notes + n)
  {}

  lemma PasswordCut(p: string)
    ensures '\n' in p ==> exists b :: p == FirstLine(p) + "\n" + b && LinesBelow(p) == b + "\n"
    ensures '\n' !in p ==> p == FirstLine(p) && LinesBelow(p) == ""
  {
    FindMeaning(p, '\n');
    if '\n' in p {
      var i := Find(p, '\n');
      assert p == FirstLine(p) + "\n" + p[i + 1..];
    }
  }

  lemma ShowOutputCut(stored: StoredEntry)
    ensures stored.password + "\n" + stored.notes + "\n" ==
            FirstLine(stored.password) + "\n" + (LinesBelow(stored.password) + stored.notes + "\n")
  {
    var p := stored.password;
    PasswordCut(p);
    if '\n' in p {
      var b :| p == FirstLine(p) + "\n" + b && LinesBelow(p) == b + "\n";
      CutShown(FirstLine(p), "\n", b, stored.notes);
    } else {
      assert "" + stored.notes == stored.notes;
      assert p + "\n" + stored.notes + "\n" == p + "\n" + (stored.notes + "\n");
    }
  }

  /** Reading `show` back finds the first line of the password and decodes what is below it with the notes. */
  lemma ReadBackDecodes(query: SecretQuery, stored: StoredEntry, crlf: bool)
    ensures ReadBack(query, ShowOutput(stored, crlf)) == Readable(query, Shown(stored, crlf))
  {
    var first, below := FirstLine(stored.password), LinesBelow(stored.password) + stored.notes;
    ShowOutputCut(stored);
    FirstPiece(stored.password);
    ReframingIsHarmless(below, "\n");
    if crlf {
      CrlfAfter(first, below + "\n");
      ReadBackLines(query, ShowOutput(stored, crlf), first, ToCrlf(below + "\n"));
      ReframingIsHarmless(below + "\n", "");
    } else {
      LinesAfter(first, below + "\n");
      ReadBackLines(query, ShowOutput(stored, crlf), StripCarriageReturn(first), below + "\n");
    }
  }

  // ---------- One put and one get, for any text ----------

  /** The child is handed a password whose first line unlocks the database, and ends well. */
  predicate Works(passwords: map<string, string>, master: string, name: string, env: RunEnv) {
    var launched := Launch(passwords, name, env).1;
    launched.Ok? && FirstRead(launched.value) == master && env.exit == Clean
  }

  /** The lines an `add` reads: those of the unlock password, and those of the secret twice. */
  function TypedLines(password: string, secret: string): seq<string> {
    Stripped(SplitAll([password, secret, secret], '\n'))
  }

  lemma SplitAllThree(a: string, b: string, c: string)
    ensures SplitAll([a, b, c], '\n') == Split(a, '\n') + Split(b, '\n') + Split(c, '\n')
  {
    assert [a, b, c][1..] == [b, c] && [b, c][1..] == [c] && [c][1..] == [];
    assert SplitAll([c], '\n') == Split(c, '\n');
    assert SplitAll([b, c], '\n') == Split(b, '\n') + Split(c, '\n');
  }

  lemma TypedLinesShape(password: string, secret: string)
    ensures |TypedLines(password, secret)| >= 3 && TypedLines(password, secret)[0] == FirstRead(password)
    ensures TypedLines(password, secret) ==
            Stripped(Split(password, '\n')) + Stripped(Split(secret, '\n')) + Stripped(Split(secret, '\n'))
    ensures Lines(Feed([password] + [secret, secret])) == TypedLines(password, secret)
  {
    var p, s := Split(password, '\n'), Split(secret, '\n');
    assert [password] + [secret, secret] == [password, secret, secret];
    FeedIsRead([password, secret, secret]);
    SplitAllThree(password, secret, secret);
    StrippedConcat(p + s, s);
    StrippedConcat(p, s);
    FirstPiece(password);
  }

  /** What is stored for a secret: the line after the unlock password's first, if the next one confirms it. */
  function Confirmed(password: string, secret: string): Option<string> {
    var lines := TypedLines(password, secret);
    if |lines| >= 3 && lines[1] == lines[2] then Some(lines[1]) else None
  }

  /** A secret confirms itself when it is one line, or its first two lines read the same. */
  predicate ConfirmsItself(secret: string) {
    var parts := Split(secret, '\n');
    |parts| > 1 ==> StripCarriageReturn(parts[1]) == StripCarriageReturn(parts[0])
  }

  lemma {:induction false} StrippedAt(parts: seq<string>)
    ensures forall i :: 0 <= i < |parts| ==> Stripped(parts)[i] == StripCarriageReturn(parts[i])
  {
    if parts != [] {
      StrippedAt(parts[1..]);
    }
  }

  lemma SecretLines(secret: string)
    ensures var s := Stripped(Split(secret, '\n'));
            && s != [] && s[0] == FirstRead(secret)
            && (ConfirmsItself(secret) <==> |s| == 1 || s[1] == s[0])
  {
    FirstPiece(secret);
    StrippedAt(Split(secret, '\n'));
  }

  lemma SecondAndThird(p: seq<string>, s: seq<string>)
    requires p != [] && s != []
    ensures var lines := p + s + s;
            && |lines| >= 3
            && lines[1] == (if |p| >= 2 then p[1] else s[0])
            && lines[2] == (if |p| >= 3 then p[2] else if |p| == 2 || |s| == 1 then s[0] else s[1])
  {}

  /**
    What an `add` confirms, for any unlock password and any secret: the lines of
    the password after its first are taken for the typed ones.
   */
  lemma ConfirmedExactly(password: string, secret: string)
    ensures var p := Stripped(Split(password, '\n'));
            Confirmed(password, secret) ==
            if |p| >= 3 then (if p[1] == p[2] then Some(p[1]) else None)
            else if |p| == 2 then (if p[1] == FirstRead(secret) then Some(p[1]) else None)
            else if ConfirmsItself(secret) then Some(FirstRead(secret)) else None
  {
    TypedLinesShape(password, secret);
    SecretLines(secret);
    SecondAndThird(Stripped(Split(password, '\n')), Stripped(Split(secret, '\n')));
  }

  /** An unlock password with at most two lines, or whose second and third lines read differently. */
  predicate Faithful(password: string) {
    var p := Stripped(Split(password, '\n'));
    |p| <= 2 || p[1] != p[2]
  }

  /** Outside the condition one line of the unlock password is confirmed, whatever the secret. */
  lemma FaithlessConfirmsItself(password: string)
    requires !Faithful(password)
    ensures forall secret :: Confirmed(password, secret) == Some(Stripped(Split(password, '\n'))[1])
  {
    forall secret ensures Confirmed(password, secret) == Some(Stripped(Split(password, '\n'))[1]) {
      ConfirmedExactly(password, secret);
    }
  }

  /** A line-safe secret confirms itself, and is its own first line. */
  lemma LineSafeConfirmsItself(secret: string)
    requires LineSafe(secret)
    ensures ConfirmsItself(secret) && FirstRead(secret) == secret
  {
    FirstReadIsWholeIff(secret);
    SplitLacking(secret, '\n');
  }

  /** The exact condition under which what is confirmed is always the secret's own first line. */
  lemma FaithfulIff(password: string)
    ensures Faithful(password) <==>
            forall secret :: Confirmed(password, secret) in {None, Some(FirstRead(secret))}
  {
    if Faithful(password) {
      forall secret ensures Confirmed(password, secret) in {None, Some(FirstRead(secret))} {
        ConfirmedExactly(password, secret);
      }
    } else {
      FaithlessConfirmsItself(password);
      LineSafeConfirmsItself("a");
      LineSafeConfirmsItself("b");
      assert Confirmed(password, "a") == Confirmed(password, "b");
    }
  }

  lemma LineSafeIsFaithful(password: string)
    requires LineSafe(password)
    ensures |Stripped(Split(password, '\n'))| == 1 && Faithful(password)
  {
    StrippedOne(password);
  }

  lemma LaunchIsStable(passwords: map<string, string>, name: string, env: RunEnv)
    ensures var (passwords', launched) := Launch(passwords, name, env);
            && (forall n :: n in passwords ==> n in passwords' && passwords'[n] == passwords[n])
            && (launched.Ok? ==> name in passwords' && passwords'[name] == launched.value)
  {}

  function Bind(db: Database, path: string, secret: string, notes: string): Database {
    db.(entries := db.entries[path := StoredEntry(secret, notes)])
  }

  /** What `add` does with the lines it can read. */
  lemma AddChild(db: Database, path: string, notes: string, stdin: string, password: string, secret: string)
    requires Lines(stdin) == TypedLines(password, secret) && |TypedLines(password, secret)| >= 3
    requires TypedLines(password, secret)[0] == FirstRead(password)
    ensures var (db', out) := Child(db, Add(path, notes), stdin);
            var typed := Confirmed(password, secret);
            var bound := FirstRead(password) == db.master && typed.Some? && path !in db.entries;
            && (out.Some? <==> bound)
            && db' == (if bound then Bind(db, path, typed.value, notes) else db)
  {}

  /** Why a run failed. */
  function FailureOf(launched: Result<string, VaultError>): VaultError {
    if launched.Err? then launched.error else CliFailed
  }

  function Failure<T>(result: Result<T, VaultError>): Option<VaultError> {
    if result.Err? then Some(result.error) else None
  }

  /** What the `add` of a launch binds, if it binds anything. */
  function Binds(db: Database, launched: Result<string, VaultError>, exit: Exit, path: string, secret: string):
    Option<string>
  {
    if launched.Ok? && FirstRead(launched.value) == db.master && exit != FailedBefore && path !in db.entries
    then Confirmed(launched.value, secret) else None
  }

  /**
    `w'` and `failed` are what adding `secret` and `notes` at `path` comes to:
    the confirmed line is bound or nothing is, and success is reported just when
    it was bound and the process ended well.
   */
  ghost predicate AddEffect(w: World, name: string, path: string, notes: string, secret: string, env: RunEnv,
                            w': World, failed: Option<VaultError>)
  {
    var (passwords, launched) := Launch(w.passwords, name, env);
    var bound := Binds(w.db, launched, env.exit, path, secret);
    && failed == (if bound.Some? && env.exit == Clean then None else Some(FailureOf(launched)))
    && w' == World(passwords, if bound.Some? then Bind(w.db, path, bound.value, notes) else w.db)
  }

  lemma AddBinds(w: World, name: string, entry: VaultEntry, env: RunEnv)
    ensures var (w', result) := AddEntry(w, name, entry, env);
            AddEffect(w, name, entry.groupPath, Encode(entry.metadata), entry.secret, env, w', Failure(result))
  {
    var launched := Launch(w.passwords, name, env).1;
    if launched.Ok? {
      TypedLinesShape(launched.value, entry.secret);
      AddChild(w.db, entry.groupPath, Encode(entry.metadata), Feed([launched.value] + [entry.secret, entry.secret]),
               launched.value, entry.secret);
    }
  }

  /** A put is an `add` on the keystore that preparing the group has left. */
  ghost predicate PutEffect(w: World, name: string, entry: VaultEntry, mkdir: RunEnv, add: RunEnv,
                            w': World, failed: Option<VaultError>)
  {
    var prepared := World(Launch(w.passwords, name, mkdir).0, w.db);
    AddEffect(prepared, name, entry.groupPath, Encode(entry.metadata), entry.secret, add, w', failed)
  }

  lemma MkdirKeepsDatabase(w: World, name: string, project: string, env: RunEnv)
    ensures Invoke(w, name, Mkdir(project), [], env).0 == World(Launch(w.passwords, name, env).0, w.db)
  {}

  /** Every put, of any entry and under any failures, comes to exactly this. */
  lemma PutBinds(w: World, name: string, entry: VaultEntry, mkdir: RunEnv, add: RunEnv)
    ensures var (w', result) := Put(w, name, entry, mkdir, add);
            PutEffect(w, name, entry, mkdir, add, w', Failure(result))
  {
    MkdirKeepsDatabase(w, name, entry.metadata.project, mkdir);
    AddBinds(Invoke(w, name, Mkdir(entry.metadata.project), [], mkdir).0, name, entry, add);
  }

  ghost predicate GetEffect(w: World, name: string, query: SecretQuery, env: RunEnv,
                            w': World, result: Result<VaultEntry, VaultError>)
  {
    && w' == World(Launch(w.passwords, name, env).0, w.db)
    && result == (if Works(w.passwords, w.db.master, name, env) && query.GroupPath() in w.db.entries
                  then Readable(query, Shown(w.db.entries[query.GroupPath()], env.crlf))
                  else Err(NotFound(query)))
  }

  /** What `show` does with the lines it can read. */
  lemma ShowChild(db: Database, path: string, stdin: string, password: string)
    requires Lines(stdin) != [] && Lines(stdin)[0] == FirstRead(password)
    ensures Child(db, Show(path), stdin) ==
            (db, if FirstRead(password) == db.master && path in db.entries
                 then Some(db.entries[path].password + "\n" + db.entries[path].notes + "\n") else None)
  {}

  lemma UnlockLine(password: string)
    ensures Lines(Feed([password] + [])) != [] && Lines(Feed([password] + []))[0] == FirstRead(password)
  {
    assert [password] + [] == [password] && [password][1..] == [];
    FeedIsRead([password]);
    FirstPiece(password);
  }

  lemma InvokeShow(w: World, name: string, path: string, env: RunEnv)
    ensures var (w', out) := Invoke(w, name, Show(path), [], env);
            && w' == World(Launch(w.passwords, name, env).0, w.db)
            && (out.Ok? <==> Works(w.passwords, w.db.master, name, env) && path in w.db.entries)
            && (out.Ok? ==> out.value == ShowOutput(w.db.entries[path], env.crlf))
  {
    var launched := Launch(w.passwords, name, env).1;
    if launched.Ok? {
      UnlockLine(launched.value);
      ShowChild(w.db, path, Feed([launched.value] + []), launched.value);
    }
  }

  /** Every get, of any query and whatever is bound at its path, comes to exactly this. */
  lemma GetReads(w: World, name: string, query: SecretQuery, env: RunEnv)
    ensures var (w', result) := Get(w, name, query, env);
            GetEffect(w, name, query, env, w', result)
  {
    InvokeShow(w, name, query.GroupPath(), env);
    if query.GroupPath() in w.db.entries {
      ReadBackDecodes(query, w.db.entries[query.GroupPath()], env.crlf);
    }
  }

  lemma FirstReadIsOneLine(s: string)
    ensures '\n' !in FirstLine(s) && '\n' !in FirstRead(s)
  {
    FirstPiece(s);
  }

  /** Whatever is stored, and under whatever query, a secret that is served is on one line. */
  lemma ServedSecretIsOneLine(w: World, name: string, query: SecretQuery, env: RunEnv)
    ensures var found := Get(w, name, query, env).1;
            found.Ok? ==> '\n' !in found.value.secret
  {
    GetReads(w, name, query, env);
    if query.GroupPath() in w.db.entries {
      FirstReadIsOneLine(w.db.entries[query.GroupPath()].password);
    }
  }

  // ---------- Keystores whose passwords are faithful ----------

  /** As every password that `get_or_create` generates is. */
  ghost predicate Sound(passwords: map<string, string>) {
    forall name :: name in passwords ==> Faithful(passwords[name])
  }

  lemma LaunchKeepsSound(passwords: map<string, string>, name: string, env: RunEnv)
    requires Sound(passwords)
    ensures Sound(Launch(passwords, name, env).0)
    ensures Launch(passwords, name, env).1.Ok? ==> Faithful(Launch(passwords, name, env).1.value)
  {
    Keystores.GeneratedIsLineSafe(env.keyring.random);
    LineSafeIsFaithful(Keystores.Generate(env.keyring.random));
  }

  /**
    On such a keystore an `add` binds the first line of its secret at an unbound
    path, or nothing, and reports success only when it did.
   */
  lemma AddOnSoundKeystore(w: World, name: string, entry: VaultEntry, add: RunEnv)
    requires Sound(w.passwords)
    ensures var (w', result) := AddEntry(w, name, entry, add);
            var bound := Binds(w.db, Launch(w.passwords, name, add).1, add.exit, entry.groupPath, entry.secret).Some?;
            && Sound(w'.passwords)
            && w'.db == (if bound then Bind(w.db, entry.groupPath, FirstRead(entry.secret), Encode(entry.metadata))
                         else w.db)
            && (result.Ok? <==> bound && add.exit == Clean)
  {
    AddBinds(w, name, entry, add);
    LaunchKeepsSound(w.passwords, name, add);
    var launched := Launch(w.passwords, name, add).1;
    if launched.Ok? {
      FaithfulIff(launched.value);
    }
  }

  lemma PutOnSoundKeystore(w: World, name: string, entry: VaultEntry, mkdir: RunEnv, add: RunEnv)
    requires Sound(w.passwords)
    ensures var (w', result) := Put(w, name, entry, mkdir, add);
            var launched := Launch(Launch(w.passwords, name, mkdir).0, name, add).1;
            var bound := Binds(w.db, launched, add.exit, entry.groupPath, entry.secret).Some?;
            && Sound(w'.passwords)
            && w'.db == (if bound then Bind(w.db, entry.groupPath, FirstRead(entry.secret), Encode(entry.metadata))
                         else w.db)
            && (result.Ok? <==> bound && add.exit == Clean)
  {
    MkdirKeepsDatabase(w, name, entry.metadata.project, mkdir);
    LaunchKeepsSound(w.passwords, name, mkdir);
    AddOnSoundKeystore(Invoke(w, name, Mkdir(entry.metadata.project), [], mkdir).0, name, entry, add);
  }

  /**
    The failing input: with a password that is not faithful in the keystore, a
    put succeeds and stores a line of that password, whatever the secret is.
   */
  lemma UnlockLineIsStored(w: World, name: string, entry: VaultEntry, mkdir: RunEnv, add: RunEnv, password: string)
    requires Launch(Launch(w.passwords, name, mkdir).0, name, add).1 == Ok(password) && !Faithful(password)
    requires FirstRead(password) == w.db.master && add.exit == Clean && entry.groupPath !in w.db.entries
    ensures var (w', stored) := Put(w, name, entry, mkdir, add);
            && stored.Ok? && entry.groupPath in w'.db.entries
            && w'.db.entries[entry.groupPath].password == Stripped(Split(password, '\n'))[1]
  {
    PutBinds(w, name, entry, mkdir, add);
    FaithlessConfirmsItself(password);
  }

  // ---------- The vault object ----------

  class KeePass {
    var db: Database

    constructor (db: Database)
      ensures this.db == db
    {
      this.db := db;
    }

    method Execute(command: Command, stdin: string) returns (out: Option<string>)
      modifies this
      ensures (db, out) == Child(old(db), command, stdin)
    {
      var (db', result) := Child(db, command, stdin);
      db := db';
      out := result;
    }
  }

  class Vault {
    const keyringName: string
    const keystore: Keystores.Keystore
    const keepass: KeePass

    constructor (keyringName: string, keystore: Keystores.Keystore, keepass: KeePass)
      ensures this.keyringName == keyringName && this.keystore == keystore && this.keepass == keepass
    {
      this.keyringName := keyringName;
      this.keystore := keystore;
      this.keepass := keepass;
    }

    ghost function State(): World
      reads keystore, keepass
    {
      World(keystore.passwords, keepass.db)
    }

    /** `run`: the password first, then each extra line, to the child's stdin. */
    method RunCli(command: Command, extra: seq<string>, env: RunEnv) returns (out: Result<string, VaultError>)
      modifies keystore, keepass
      ensures (State(), out) == Invoke(old(State()), keyringName, command, extra, env)
    {
      if !env.cliExists {
        return Err(CliNotFound);
      }
      if !env.spawns {
        return Err(Io);
      }
      var password := keystore.GetOrCreate(keyringName, env.keyring);
      if password.Err? {
        return Err(Keyring);
      }
      if !env.pipes {
        return Err(Io);
      }
      var stdin := password.value + "\n";
      ghost var before := State();
      FeedOne(password.value);
      for i := 0 to |extra|
        invariant stdin == Feed([password.value] + extra[..i])
        invariant State() == before
      {
        FeedSnoc([password.value] + extra[..i], extra[i]);
        assert [password.value] + extra[..i + 1] == [password.value] + extra[..i] + [extra[i]];
        stdin := stdin + (extra[i] + "\n");
      }
      assert extra[..|extra|] == extra;
      if env.exit == FailedBefore {
        return Err(CliFailed);
      }
      var output := keepass.Execute(command, stdin);
      if output.None? || env.exit == FailedAfter {
        return Err(CliFailed);
      }
      return Ok(if env.crlf then ToCrlf(output.value) else output.value);
    }

    /** `ensure_group`: the outcome is ignored. */
    method EnsureGroup(project: string, env: RunEnv)
      modifies keystore, keepass
      ensures State() == Invoke(old(State()), keyringName, Mkdir(project), [], env).0
    {
      var _ := RunCli(Mkdir(project), [], env);
    }

    /** `Vault::put`. */
    method PutEntry(entry: VaultEntry, mkdir: RunEnv, add: RunEnv) returns (result: Result<(), VaultError>)
      modifies keystore, keepass
      ensures (State(), result) == Put(old(State()), keyringName, entry, mkdir, add)
    {
      EnsureGroup(entry.metadata.project, mkdir);
      var notes := Encode(entry.metadata);
      var out := RunCli(Add(entry.groupPath, notes), [entry.secret, entry.secret], add);
      if out.Err? {
        return Err(out.error);
      }
      return Ok(());
    }

    /** `Vault::get`. */
    method GetEntry(query: SecretQuery, env: RunEnv) returns (result: Result<VaultEntry, VaultError>)
      modifies keystore, keepass
      ensures (State(), result) == Get(old(State()), keyringName, query, env)
    {
      var out := RunCli(Show(query.GroupPath()), [], env);
      if out.Err? {
        return Err(NotFound(query));
      }
      var lines := Lines(out.value);
      var secret := if lines == [] then "" else lines[0];
      var notes := Join(if lines == [] then [] else lines[1..], "\n");
      var metadata := DecodeMetadata(notes);
      if metadata.None? {
        return Err(UnparseableMetadata(query));
      }
      return Ok(NewEntry(query.entryLabel, metadata.value, secret));
    }

    /** The `git-credential` helper: what is printed for an action, `get` being the only one that reads. */
    method GitCredential(action: string, project: string, entryLabel: string, env: RunEnv)
      returns (printed: Result<seq<string>, VaultError>)
      modifies keystore, keepass
      ensures action != "get" ==> State() == old(State()) && printed == Ok([])
      ensures action == "get" ==>
                var (w, found) := Get(old(State()), keyringName, SecretQuery(project, entryLabel), env);
                && State() == w
                && printed == (if found.Err? then Err(found.error)
                               else Ok(CredentialLines(found.value.secret)))
                && (found.Ok? ==> ReadAsCredential(printed.value, found.value.secret))
    {
      if action != "get" {
        return Ok([]);
      }
      ServedSecretIsOneLine(State(), keyringName, SecretQuery(project, entryLabel), env);
      var entry := GetEntry(SecretQuery(project, entryLabel), env);
      if entry.Err? {
        return Err(entry.error);
      }
      CredentialIsRead(entry.value.secret);
      return Ok(CredentialLines(entry.value.secret));
    }
  }
}
