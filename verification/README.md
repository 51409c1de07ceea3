# Custodly, modelled and proved in Dafny

Custodly acquires credentials and takes custody of them. It asks GitHub for an
installation token, checks that the grant is no wider than the request, tiers
the grant by how much damage it could do, seals what must leave the machine to
Ferryman, and caches the rest in a local KeePass vault whose Notes fields carry
each secret's provenance as text. This project models that path and proves what
it promises, for all inputs and all runs.

Run `dafny verify dfyconfig.toml` to verify it.

| file | models |
|---|---|
| `Text.dfy`, `Wrappers.dfy` | the string functions of the Rust standard library used below, and their algebra |
| `OrderedMaps.dfy` | `BTreeMap<String, String>` as a sequence of entries in strictly increasing key order |
| `Tiers.dfy`, `ScopeAlgebra.dfy`, `Policy.dfy` | tiering of scope strings, its laws, and the policy answer |
| `Github.dfy`, `CommandLine.dfy` | the scope-creep check, the minted token, `--permission` values |
| `Timestamps.dfy`, `Entries.dfy`, `Metadata.dfy` | RFC 3339 date-times, vault entries and their keys, the Notes codec |
| `Keystores.dfy`, `Vaults.dfy` | the unlock password, and the store behind `keepassxc-cli`: one put and one get of any text |
| `VaultPaths.dfy`, `VaultRefinement.dfy` | the store over whole histories: a map of paths for every text, and a map of (project, label) keys for what it keeps without loss |
| `Sealing.dfy` | sealing and opening deposits in a symbolic algebra |
| `Custody.dfy`, `CustodyTheorems.dfy`, `MintCommand.dfy` | `mint-github` as a transition system over any number of runs, interleaved with each other and with other users of the vault, what holds in every reachable state, and the command as a sequential program that is one path of it |
| `EndToEnd.dfy` | from a verified mint, through any interleaving of runs over the text store, to the git credential helper |

Code that loops or changes state is a method or a class, proved equal to a
function of its inputs or of the old state; the theorems are about that
function. What the outside world contributes (GitHub's reply, the ingestion key,
Ferryman's answer, random seeds and nonces, the clock, the keystore, the child
process and every way each may fail) is a parameter, so every theorem holds for
all of it.

## Results where the code and its documentation part ways

- A request whose level is not spelled exactly `read` or `write` gets no rank in
  the scope-creep check and so accepts any recognised grant, yet tiering trims
  the level and may score it Tier 0. `Github.PaddedReadIsDishonest` is the
  input; `Github.MonotoneExactlyForHonestRequests` is the exact condition under
  which an accepted grant never outranks its request.
- An empty grant passes the check and scores Tier 2, above most requests
  (`Github.EmptyGrantsNeedTier2Requests`).
- `docs/THREAT-MODEL.md` says Tier 2 never sits in `working.kdbx`. The code
  deposits a Tier 2 token and then caches it as well.
  `MintCommand.Tier2CanBeCachedIff` is the exact condition on arguments and
  vault: a key, no `--for-recipient`, all Ferryman arguments, a project, an
  unbound path and a vault that can be unlocked;
  `MintCommand.SensitiveTokenIsCached` is the case of a sensitive permission.
- A secret can be stored as another one while `put` reports success: one that
  ends in a carriage return, or whose two lines repeat each other
  (`VaultPaths.AnotherSecretIsStored`). A secret comes back as it was put iff it
  is on one line and does not end in a carriage return
  (`VaultPaths.PutThenGetExactIffCanonical`).
- An unlock password whose second and third lines read the same makes a put
  store that line, whatever the secret, and report success
  (`Vaults.UnlockLineIsStored`); `Vaults.FaithfulIff` is the exact condition on
  the password. None that the code generates is of this kind.
- An entry's `group_path` never disagrees with its own metadata, but an entry
  read back can name another path than the one it was read from.
  `VaultPaths.InjectedProjectMovesEntry` is the input: a trimmed project `p` and
  a description whose second line is `project=q`.
  `VaultPaths.PutThenGetNormalises` is the exact condition, for arbitrary text:
  the project is a trimmed single line, and the last `project` record that the
  later lines of the description and of the source amount to, if there is one,
  repeats it.
- A `/` in a label makes two queries share a path
  (`Entries.SlashedLabelCollides`).
- The description written for an empty grant ends in a space and does not
  survive the round trip (`EndToEnd.CacheEntryStorableIff`).
- A run can report failure although its token is in the vault, when the child
  process fails with its work done; `CustodyTheorems.VaultedIffFinishedLocally`
  counts these runs, and `MintCommand.Machine.MintGithub` says that no other
  failure leaves anything.

## Model

| member | source | states |
|---|---|---|
| `Tiers.AssessGithubScope` | crates/custodly-core/src/tier.rs:138-184 | the flag loop with its early returns assesses a scope just when every comma-separated piece is a recognised pair; data and blast radius are set by what some or all pieces say, in no order, and money by the textual search of the whole scope |
| `ScopeAlgebra.TierIsWorstPiece` | crates/custodly-core/src/tier.rs:88-184 | for every string, loop, flags, substring test and scoring together give the worst tier of the comma-separated pieces, each classified on its own; blank scopes included |
| `ScopeAlgebra.ScoringHomomorphism` | crates/custodly-core/src/tier.rs:88-184 | for all strings, the tier of `s,t` is the larger of the two tiers |
| `ScopeAlgebra.TierDependsOnPieces` | crates/custodly-core/src/tier.rs:138-184 | only the set of pieces matters: reordering and repeating change nothing, adding a piece never lowers the tier |
| `ScopeAlgebra.BillingSubstringIsToken` | crates/custodly-core/src/tier.rs:144-183 | on every assessed scope the textual search for "billing" succeeds iff a pair names that resource, so money is never flagged without the other two axes |
| `ScopeAlgebra.AssessedIffRecognized` | crates/custodly-core/src/tier.rs:129-165 | fail closed, both ways: a scope is assessed iff all its pieces are recognised |
| `ScopeAlgebra.PieceTable` | crates/custodly-core/src/tier.rs:144-165 | told around the first colon and without whitespace: a piece is Tier 0 iff it reads, and Tier 1 iff it writes, one of `repo`, `pr`, `issues`, `contents`, `metadata`, `actions`, `checks`; it is recognised iff it reads or writes one of these or of `admin`, `billing`, `secrets` |
| `ScopeAlgebra.ScopeTable` | crates/custodly-core/src/tier.rs:88-184 | a scope is Tier 0 iff every piece reads one of the seven, Tier 1 iff every piece reads or writes one and some piece writes, and Tier 2 otherwise |
| `ScopeAlgebra.SensitiveScopeIsTier2` | crates/custodly-core/src/tier.rs:134-161 | naming `admin`, `billing` or `secrets` in any piece, at any level, makes a scope Tier 2 |
| `ScopeAlgebra.UnlistedScopeIsNotAssessed` | crates/custodly-core/src/tier.rs:129-163 | any other name, or any other level, in any piece leaves the scope unassessed and at Tier 2 |
| `ScopeAlgebra.AssessmentTable` | crates/custodly-core/src/tier.rs:138-184 | when a scope is assessed, and each of the four axes, by which names its pieces hold |
| `ScopeAlgebra.ScoreTable` | crates/custodly-core/src/tier.rs:88-115 | any one axis suffices for Tier 2, only the harmless reading assessment is Tier 0, none at all is Tier 2; the tiers are 0, 1 and 2 on the wire |
| `ScopeAlgebra.PrintedTierMonotone` | crates/custodly-core/src/tier.rs:144-165 | for any key and any requested level, printing the key with `read` never scores above the request, and with `write` above it only up to Tier 1 |
| `Policy.Evaluate` | crates/custodly-core/src/policy.rs:18-35 | the vector built by pushes is the two requirements in fixed order, approval present iff the tier is 2 |
| `Policy.PolicyCompositional` | crates/custodly-core/src/policy.rs:18-35 | splitting a GitHub request at a comma never changes what is demanded: larger tier, ordered union of requirements |
| `Policy.ApprovalIffTier2` | crates/custodly-core/src/policy.rs:13-34 | approval iff Tier 2 for every provider; onboarding iff unclassified, and never without approval |
| `Policy.AnswerTable` | crates/custodly-core/src/policy.rs:13-35 | the whole answer for every provider and scope, with its literal requirement strings, by which names the pieces of the scope hold |
| `Github.VerifyNoScopeCreep` | crates/custodly-github/src/app.rs:169-204 | the loop passes iff no granted permission is objected to, and otherwise stops with the objection to the first offending one |
| `Github.CreepCheckSoundAndComplete` | crates/custodly-github/src/app.rs:149-204 | Ok iff every granted pair is the metadata baseline, or was asked for by name, is read or write, and is write only where the request was not plain read |
| `Github.CreepErrorFromLeastKey` | crates/custodly-github/src/app.rs:173-202 | the error variant is decided by the least offending key |
| `Github.CreepCheckTransitive` | crates/custodly-github/src/app.rs:161-204 | what passes against what passes passes against the original: nothing widens in two steps |
| `Github.ExactGrantPassesIff` | crates/custodly-github/src/app.rs:161-204 | a grant equal to its request passes iff every level has a rank |
| `Github.PrintedTierIsWorstEntry` | crates/custodly-github/src/app.rs:92-107 | printing a map and parsing it back tiers it as its worst entry, for keys and levels holding any text |
| `Github.PrintParseAgreement` | crates/custodly-github/src/app.rs:92-99 | without `,` and `:` in the parts, splitting the scope string recovers the entries, trimmed, in key order, and the tier is their direct maximum |
| `Github.GrantNeverOutranksRequest` | crates/custodly-github/src/app.rs:92-107 | an accepted non-empty grant is never tiered above its request when all requested levels have a rank, for arbitrary resource names |
| `Github.MonotoneExactlyForHonestRequests` | crates/custodly-github/src/app.rs:153-204 | every accepted non-empty grant stays within the request's tier iff a Tier 0 request spells every level exactly `read` |
| `Github.PaddedReadIsDishonest` | crates/custodly-github/src/app.rs:192-196 | the input that fails: `repo:"read "` scores Tier 0 and accepts `repo:write` at Tier 1 |
| `Github.EmptyGrantsNeedTier2Requests` | crates/custodly-github/src/app.rs:92-107 | with empty grants included, tier is bounded by the request iff the request is Tier 2 |
| `Github.Mint` | crates/custodly-github/src/app.rs:211-242 | a token comes back iff GitHub issued one and its grant passed, with the token, expiry and permissions of the reply and the tier of what was granted |
| `Github.MintInstallationToken` | crates/custodly-github/src/app.rs:211-242 | the control flow with the loop in it gives exactly that |
| `OrderedMaps.CollectGet` | crates/custodly-cli/src/main.rs:180 | collecting pairs into the map keeps exactly the last pair of every key |
| `OrderedMaps.LessIff` | crates/custodly-github/src/app.rs:65-98 | keys are ordered by their first difference, a shorter one before what it begins |
| `CommandLine.PermissionAcceptedIff` | crates/custodly-cli/src/main.rs:129-137 | a value is accepted iff something precedes its first colon and something follows it |
| `CommandLine.PermissionRoundTrip` | crates/custodly-cli/src/main.rs:129-137 | parsing a value and printing it as `resource:level` is the identity |
| `CommandLine.RequestNormalisation` | crates/custodly-cli/src/main.rs:129-180 | the collected request never outranks everything typed, and equals it when no resource is named twice |
| `Text.WhitespaceTable` | crates/custodly-core/src/tier.rs:139-147 | what `trim` takes for whitespace, character by character |
| `Text.TrimMeaning` | crates/custodly-core/src/tier.rs:139-147 | what is trimmed off is whitespace, and none is left at either end |
| `Timestamps.PrintParseRoundTrip` | crates/custodly-vault/src/vault.rs:163-206 | every printed UTC date-time (section 5.6 of RFC 3339) parses back to itself, with 0, 3, 6 or 9 fraction digits |
| `Timestamps.PrintedLayout` | crates/custodly-vault/src/vault.rs:163-171 | where every digit group, separator, fraction and the `+00:00` stand in a printed date-time, and which number each group is |
| `Timestamps.ParseIff` | crates/custodly-vault/src/vault.rs:202-206 | what parses to a date-time is its printed text with its fraction in any number of digits, and nothing else |
| `Timestamps.MonthTable` | crates/custodly-vault/src/vault.rs:202-206 | the lengths of the twelve months |
| `Timestamps.InRangeIff` | crates/custodly-vault/src/vault.rs:202-206 | which date-times there are, every range written out |
| `Timestamps.LeapCount` | crates/custodly-vault/src/vault.rs:202-206 | the leap years before any year, counted by fourths, hundredths and four hundredths |
| `Entries.NewEntry` | crates/custodly-core/src/entry.rs:146-156 | a new entry's stored path is the path of its own query |
| `Entries.RefusedIff` | crates/custodly-core/src/entry.rs:90-120 | a record is refused iff its project, or else its description, is nothing but whitespace, with the error that says which |
| `Entries.PathPreimage` | crates/custodly-core/src/entry.rs:169-183 | a path stands for exactly one query per slash in it |
| `Entries.LastSlashRecovers` | crates/custodly-core/src/entry.rs:175-182 | cutting a path at its last slash gives the query back iff its label has no slash |
| `Entries.GroupPathInjective` | crates/custodly-core/src/entry.rs:169-183 | on slash-free labels a path determines project and label |
| `Entries.SlashedLabelCollides` | crates/custodly-core/src/entry.rs:169-183 | a query with a slash in its label shares its path with a different, slash-free one |
| `Metadata.DecodeMetadata` | crates/custodly-vault/src/vault.rs:181-218 | the map-filling loop decodes just when every field but the expiry is present and readable and the record is traceable, the last value of a key winning |
| `Metadata.EncodedText` | crates/custodly-vault/src/vault.rs:152-175 | the Notes text of any record, literally, line by line |
| `Metadata.FieldsMeaning` | crates/custodly-vault/src/vault.rs:181-187 | for any notes, the value of a key is what the last line with that key gives it, around the first `=` and trimmed |
| `Metadata.DecodeExactly` | crates/custodly-vault/src/vault.rs:181-218 | for any notes and record: they decode to it iff every field gives exactly that, with the literal words for source and tier, and no expiry unless one reads as a time |
| `Metadata.DecodesIff` | crates/custodly-vault/src/vault.rs:181-218 | which notes decode at all: all fields but the expiry present, project and description not blank, tier `0`, `1` or `2`, a known source, a readable time |
| `Metadata.CodecNormalForm` | crates/custodly-vault/src/vault.rs:152-218 | a record without line feeds decodes to itself with texts trimmed (a migrated origin right-trimmed), or to nothing if project or description is blank |
| `Metadata.RoundTripIffCanonical` | crates/custodly-vault/src/vault.rs:152-218 | the round trip is the identity iff the texts are trimmed, single-line and traceable |
| `Metadata.DecodedIsCanonical` | crates/custodly-vault/src/vault.rs:177-218 | whatever the notes, everything decoded from them is canonical |
| `Metadata.DecodeIsIdempotent` | crates/custodly-vault/src/vault.rs:152-218 | whatever decodes from any notes encodes and decodes to itself |
| `Metadata.LateFieldIntegrity` | crates/custodly-vault/src/vault.rs:164-206 | for arbitrary text, including lines that imitate fields, tier, times and a non-migrated source survive whenever decoding succeeds |
| `Metadata.EncodedFieldsExactly` | crates/custodly-vault/src/vault.rs:152-187 | for arbitrary text, the fields found in an encoded record are those of each text's first line and of whatever its later lines imitate, in order, under the late fields |
| `Metadata.DecodesToRecovered` | crates/custodly-vault/src/vault.rs:152-218 | for arbitrary text, an encoded record decodes to itself with provider, project, description and source as recovered from those lines, or to nothing when project, description or source is not recovered |
| `Metadata.ProjectComesBackIff` | crates/custodly-vault/src/vault.rs:152-218 | for arbitrary text that decodes, the project is unchanged iff it is a trimmed single line and no later line of description or source ends up replacing it by another |
| `Metadata.InjectedProjectWins` | crates/custodly-vault/src/vault.rs:152-218 | the failing input: a description whose second line is `project=q` decodes, with project `q` |
| `Metadata.ReframingIsHarmless` | crates/custodly-vault/src/vault.rs:138-187 | cutting into lines and rejoining, `\r\n` line ends and trailing whitespace are invisible to decoding, for every notes text |
| `Keystores.Keystore.GetOrCreate` | crates/custodly-vault/src/password.rs:15-26 | the new keystore and result for every way opening, reading and writing may fare |
| `Keystores.StableUnlock` | crates/custodly-vault/src/password.rs:1-26 | over any history, no password is ever replaced and all successful calls for a name agree |
| `Keystores.GeneratedOnce` | crates/custodly-vault/src/password.rs:15-26 | passwords generated for a name are those the keystore refused plus at most one that it kept |
| `Keystores.AlphabetTable` | crates/custodly-vault/src/password.rs:30-37 | the 74 characters of a password: the letters, the digits and twelve others |
| `Keystores.GenerateMeaning` | crates/custodly-vault/src/password.rs:30-37 | forty characters, each picked by its own random index, and no two draws make the same password |
| `Keystores.ProvisionMeaning` | crates/custodly-vault/src/password.rs:15-26 | a call succeeds iff the keystore opens and reads and holds a password or stores the new one and says so; it changes iff it stores one, said or not |
| `Vaults.Vault.RunCli` | crates/custodly-vault/src/vault.rs:64-88 | the new state and output of one invocation, each failure in its place |
| `Vaults.Vault.PutEntry` | crates/custodly-vault/src/vault.rs:90-115 | the new state of preparing the group and adding the entry |
| `Vaults.Vault.GetEntry` | crates/custodly-vault/src/vault.rs:124-146 | the entry read back, `NotFound` for any failed run, `UnparseableMetadata` for notes that do not decode |
| `Vaults.Vault.GitCredential` | crates/custodly-cli/src/main.rs:286-302 | on success `get` prints two lines that, cut at the first `=`, are the username `x-access-token` and the password that was found, whatever it holds; other actions print nothing and touch nothing |
| `Vaults.FeedIsRead` | crates/custodly-vault/src/vault.rs:74-80 | for any extra lines, the child reads the pieces of each, cut at its line feeds, each without one final carriage return |
| `Vaults.FeedIsIdentityIff` | crates/custodly-vault/src/vault.rs:74-80 | the child reads exactly the lines that were passed iff each is on one line and does not end in a carriage return |
| `Vaults.ConfirmedExactly` | crates/custodly-vault/src/vault.rs:74-113 | for any unlock password and any secret, what the enter and confirm lines of an `add` turn out to be, and when they agree: further lines of the password are taken for typed ones |
| `Vaults.FaithfulIff` | crates/custodly-vault/src/vault.rs:74-113 | what is confirmed is the secret's first line, for every secret, iff the unlock password has at most two lines or its second and third read differently |
| `Vaults.UnlockLineIsStored` | crates/custodly-vault/src/vault.rs:74-115 | the failing input: under a password outside that condition a put succeeds and stores a line of the unlock password, whatever the secret |
| `Vaults.ReadBackDecodes` | crates/custodly-vault/src/vault.rs:126-146 | for any stored password and notes and either line end, reading back finds the password's first line and decodes its further lines together with the notes |
| `Vaults.PutBinds` | crates/custodly-vault/src/vault.rs:104-115 | every put, of any entry in any state, binds the confirmed line at its unbound path or changes no entry, and reports success iff it bound and the process ended well |
| `Vaults.GetReads` | crates/custodly-vault/src/vault.rs:117-146 | every get, of any query in any state, changes no entry and returns what the first line and the decoded rest of the bound entry say, or `NotFound` |
| `VaultPaths.StoreIsPathMap` | crates/custodly-vault/src/vault.rs:64-146 | nothing assumed of texts, keystore, database or failures: every sequence of puts and gets has the outcomes it has on a map from paths to first lines and decoded notes |
| `VaultPaths.PathsAreKept` | crates/custodly-vault/src/vault.rs:97-115 | a bound path keeps its entry through any sequence of puts and gets |
| `VaultPaths.PutThenGet` | crates/custodly-vault/src/vault.rs:97-146 | with faithful unlock passwords: after a successful put of any entry and any other operations, a working get of its query reads the secret's first line and what the metadata decode to |
| `VaultPaths.PutThenGetExactIffCanonical` | crates/custodly-vault/src/vault.rs:104-146 | with faithful unlock passwords: an entry comes back unchanged iff its metadata are canonical and its secret is line-safe |
| `VaultPaths.PutThenGetNormalises` | crates/custodly-vault/src/vault.rs:104-146 | with faithful unlock passwords: for any texts, what is read back names the path it was read from iff its project survives the codec; a single-line traceable entry comes back with its texts trimmed |
| `VaultPaths.AnotherSecretIsStored` | crates/custodly-vault/src/vault.rs:104-115 | the failing inputs: `s` followed by a carriage return, or `s` twice on two lines, is put successfully and stored as `s` |
| `VaultPaths.InjectedProjectMovesEntry` | crates/custodly-vault/src/vault.rs:124-146 | the failing input: a description whose second line is a project field hands back an entry on that other project's path |
| `VaultRefinement.StoreRefinesMap` | crates/custodly-vault/src/vault.rs:64-146 | with line-safe unlock passwords, puts of canonical metadata, line-safe secrets and slash-free labels, and gets of slash-free labels: every sequence, under every failure, has the outcomes it has on a plain (project, label) map |
| `VaultRefinement.StorableIff` | crates/custodly-vault/src/vault.rs:64-146 | those entries are the right ones: even with everything going well, one put and one get of any slash-free label behave as on the plain map iff the entry is canonical, line-safe and slash-free |
| `VaultRefinement.EmptyVaultRefines` | crates/custodly-vault/src/vault.rs:32-50 | the correspondence can be met: an empty store is the empty map |
| `VaultRefinement.BoundPathsAgree` | crates/custodly-core/src/entry.rs:129-151 | under the same hypotheses, after any operations every bound path is the project its notes decode to, a slash and a slash-free label |
| `VaultRefinement.VaultUnlocksStably` | crates/custodly-vault/src/vault.rs:56-80 | over any history of puts and gets every child process is handed one and the same password |
| `Sealing.HexRoundTrip` | crates/custodly-core/src/seal.rs:73-78 | decoding encoded bytes gives them back (section 8 of RFC 4648) |
| `Sealing.HexEncodedText` | crates/custodly-core/src/seal.rs:131-135 | every byte is written as two lower-case digits, the high one first |
| `Sealing.HexDecodeIff` | crates/custodly-core/src/seal.rs:73-78 | what decodes is pairs of digits, of either case by `HexValueTable`, and to which bytes |
| `Sealing.HexValueTable` | crates/custodly-core/src/seal.rs:73-78 | the digits that are read, and their values |
| `Sealing.SameKeyIff` | crates/custodly-core/src/seal.rs:80-94 | the key derived for a recipient is the one an opener derives on its own, ephemeral key first in the salt, iff it holds the recipient's secret and uses the label `ferryman-secret/v1` |
| `Sealing.SealForIngestion` | crates/custodly-core/src/seal.rs:107-136 | the three hex fields for a usable key and a non-empty value, and the error otherwise |
| `Sealing.SealOpenAgreement` | crates/custodly-core/src/seal.rs:96-169 | a sealed value opens to itself (key agreement of section 6.1 of RFC 7748) iff the opener holds the recipient's key and uses the same associated data and derivation label; otherwise not at all |
| `Sealing.DepositAadText` | crates/custodly-core/src/seal.rs:62-71 | the associated data is `boundary/v1`, `custodly-ingestion` and the project, each on its line |
| `Sealing.DepositAadInjective` | crates/custodly-core/src/seal.rs:62-71 | associated data determines the project |
| `Sealing.DepositOpensForItsProject` | crates/custodly-core/src/seal.rs:62-169 | an opener with its own label that builds the associated data itself opens a deposit of one project under another iff they are the same |
| `Sealing.LawfulSuiteExists` | crates/custodly-core/src/seal.rs:80-136 | the laws assumed of key agreement and encryption can be met: some encoding of public keys and ciphertexts as bytes obeys them |
| `Custody.NextKeeps` | crates/custodly-cli/src/main.rs:166-285 | every step of every run, and every put or get of anybody else, keeps the custody invariant |
| `Custody.ReachableInv` | crates/custodly-cli/src/main.rs:166-285 | the invariant holds after any interleaving of any number of runs with other uses of the vault, from any initial vault with faithful unlock passwords |
| `CustodyTheorems.HistoryIsKept` | crates/custodly-cli/src/main.rs:166-285 | from any state, no event ever changes a vault entry, an unlock password, a deposit, a run's arguments or the past |
| `CustodyTheorems.CustodySafety` | crates/custodly-cli/src/main.rs:184-284 | with faithful unlock passwords: initial entries are untouched; every other vault entry that nobody else has put holds the first line of a verified token of a local run (the token itself iff it is line-safe) and the record of that run with the tier of its grant, and at Tier 2 was deposited and receipted before it was cached |
| `CustodyTheorems.QuarantineHolds` | crates/custodly-github/src/app.rs:27-41 | no vault entry bound by the runs can be read as a token that failed the check, and it is never sealed or sent |
| `CustodyTheorems.VaultedIffFinishedLocally` | crates/custodly-cli/src/main.rs:253-284 | a minted token can be read from a vault entry bound by the runs iff its run finished locally or was told of a failure after the `add` had done its work |
| `CustodyTheorems.VaultIsInitialPlusCachingRuns` | crates/custodly-cli/src/main.rs:202-283 | the vault of every reached state is the initial one entry for entry, what others have put, and exactly one new entry per such run, at the path its arguments name; every other run has left no trace in it |
| `CustodyTheorems.LocalConfinement` | crates/custodly-cli/src/main.rs:199-251 | only a Tier 2 token or one of a run for a recipient is sealed or sent |
| `CustodyTheorems.DepositsOpenToTheirTokens` | crates/custodly-cli/src/main.rs:214-244 | whatever Ferryman holds, receipt lost or not, opens at an opener with its own label and associated data to one verified token under its own project and in no other way, and is described truthfully |
| `CustodyTheorems.CachedNotesTellTheTruth` | crates/custodly-cli/src/main.rs:261-276 | whatever text GitHub puts into permission names, cached notes that decode report the tier of the grant, GitHub's expiry and the way of acquisition, and on one-line texts the provider, project and description too |
| `CustodyTheorems.DepositIsDescribed` | crates/custodly-cli/src/main.rs:214-244 | the record that a kept deposit carries, field by field |
| `Custody.DecimalMeaning` | crates/custodly-cli/src/main.rs:261-264 | the ids in a description read as the numbers they are, without leading zeros |
| `MintCommand.Machine.DepositWithFerryman` | crates/custodly-cli/src/main.rs:202-251 | the block with its bail-outs is the deposit steps of the transition system, leaves the vault alone, and fails with each error for its own reason |
| `MintCommand.Machine.CacheLocally` | crates/custodly-cli/src/main.rs:253-283 | the block, through the vault object and with its record spelled out, is the two caching steps with nobody between them; it fails for a blank project or as the put fails, and then changes no entry unless the `add` failed with its work done |
| `MintCommand.Machine.MintGithub` | crates/custodly-cli/src/main.rs:166-285 | the sequential command is one path of the transition system, succeeds iff its run finishes, reports the failure of the step that failed, and changes no entry then unless the `add` failed with its work done |
| `MintCommand.ExecutionOutcome` | crates/custodly-cli/src/main.rs:166-285 | for every input, how an execution ends and the database it leaves, its new entry's record spelled out field by field |
| `MintCommand.Tier2CanBeCachedIff` | crates/custodly-cli/src/main.rs:166-283 | answers of the outside world exist for which a run leaves a Tier 2 token in the vault iff a key, all Ferryman arguments and a project were given, the run is not for a recipient, its path is unbound and the vault can be unlocked |
| `MintCommand.SensitiveTokenIsCached` | crates/custodly-cli/src/main.rs:202-276 | under that condition, a request for a sensitive permission that is granted as asked can leave its token in the vault, and any self-confirming token if the unlock password is one line |
| `EndToEnd.CacheEntryStorableIff` | crates/custodly-cli/src/main.rs:260-276 | a verified token is cached without loss iff its grant is not empty, its scope string is one line, its project is a non-empty trimmed line, its label has no slash and the token is line-safe |
| `EndToEnd.MintedTokenIsServed` | crates/custodly-cli/src/main.rs:253-302 | with faithful unlock passwords: once a run has cached its token, after any further interleaving of runs and other puts and gets a working `git-credential get` for its project and label finds it if the notes decode: git reads its first line as the password, the record tells tier, expiry and acquisition, and it is the very entry iff nothing is lost |
| `EndToEnd.ServedTokensAreVerified` | crates/custodly-cli/src/main.rs:286-302 | with faithful unlock passwords: in any reachable state, whatever is found at a path the runs have bound, under any query for it, is the first line of a verified token, receipted if Tier 2, with the tier of its grant, its expiry and its acquisition |

## Left out

- Timestamps.Parse: reads what `to_rfc3339` prints (years 0 to 9999, offset `+00:00`, 1 to 9 fraction digits); other offsets and spellings that chrono also accepts are not modelled, and no theorem depends on them.
- Vaults.Child: `keepassxc-cli` is an assumption about the environment: it reads its stdin by lines, `add` wants two equal lines and binds an unbound path or changes nothing, `show` prints the password and then the notes; it may fail before or after doing its work. Which groups exist, so what `mkdir` is for, recycling and edits made in the KeePassXC GUI are not modelled.
- Vaults.Sound: theorems that mention it hold for keystores in which every unlock password is faithful, as every one that `generate` makes is and stays; `FaithfulIff` shows that less would not do. `PutBinds`, `GetReads`, `StoreIsPathMap` and `ExecutionOutcome` hold for any.
- Sealing.Lawful: distinct key-agreement and key-derivation inputs give distinct keys and a ciphertext determines what it was made of; curve arithmetic (clamping, low-order points), HKDF, Poly1305, the UTF-8 encoding of values and the quality of randomness are outside the algebra.
- Sealing.Open: Ferryman's opener is taken from the stand-in in the tests of `seal.rs`; the Ferryman repository is not part of this model.
- Custody.MintRun: GitHub never issues two tokens with the same first line; this is an assumption about the environment.
- Custody.Next: runs and other users share one database; `--vault` and `--cli-path`, and edits or deletions by other means than `put`, are not modelled.
- Two processes interleaving inside `get_or_create`: the keystore histories are sequential.
- The HTTP client and server, JWT claim times, clap, serde, logging, error texts, printed messages, deposit ids, and `check_version`: they would only add easy members.
- Strings are sequences of Unicode scalar values; invalid UTF-8 in the output of a child process is not modelled.
