/** What the vault stores about a secret, and the key that finds it (crates/custodly-core/src/entry.rs). */
module Entries {
  import opened Wrappers
  import opened Text
  import Timestamps
  import Tiers

  datatype AcquisitionSource =
    | GithubAppInstallationToken
    | ManualEntry
    | Migrated(foundAt: string)

  datatype EntryMetadataError = EmptyProject | EmptySourceDescription

  datatype EntryMetadata = EntryMetadata(
    provider: string,
    project: string,
    sourceDescription: string,
    acquiredVia: AcquisitionSource,
    acquiredAt: Timestamps.Timestamp,
    expiresAt: Option<Timestamps.Timestamp>,
    tier: Tiers.Tier)

  predicate Blank(s: string) {
    Trim(s) == ""
  }

  /** `EntryMetadata::new`: refuses a record that is not traceable. */
  function NewMetadata(m: EntryMetadata): Result<EntryMetadata, EntryMetadataError> {
    if Blank(m.project) then Err(EmptyProject)
    else if Blank(m.sourceDescription) then Err(EmptySourceDescription)
    else Ok(m)
  }

  datatype SecretQuery = SecretQuery(project: string, entryLabel: string) {
    function GroupPath(): string {
      project + "/" + entryLabel
    }
  }

  datatype VaultEntry = VaultEntry(groupPath: string, entryLabel: string, metadata: EntryMetadata, secret: string) {
    function Query(): SecretQuery {
      SecretQuery(metadata.project, entryLabel)
    }
  }

  /** `VaultEntry::new`: the path is derived, never supplied. */
  function NewEntry(entryLabel: string, metadata: EntryMetadata, secret: string): (entry: VaultEntry)
    ensures entry.groupPath == entry.Query().GroupPath()
    ensures entry.entryLabel == entryLabel && entry.metadata == metadata && entry.secret == secret
  {
    VaultEntry(metadata.project + "/" + entryLabel, entryLabel, metadata, secret)
  }

  /** A record is refused for a project that is nothing but whitespace, then for such a description. */
  lemma RefusedIff(m: EntryMetadata)
    ensures NewMetadata(m) == Err(EmptyProject) <==> AllSpace(m.project)
    ensures NewMetadata(m) == Err(EmptySourceDescription) <==> !AllSpace(m.project) && AllSpace(m.sourceDescription)
    ensures NewMetadata(m) == Ok(m) <==> !AllSpace(m.project) && !AllSpace(m.sourceDescription)
  {
    BlankIffAllSpace(m.project);
    BlankIffAllSpace(m.sourceDescription);
  }

  // ---------- Paths as keys ----------

  /** The queries a path can stand for: one for every slash in it. */
  lemma PathPreimage(q: SecretQuery, path: string)
    ensures q.GroupPath() == path <==>
            exists i :: 0 <= i < |path| && path[i] == '/' && q == SecretQuery(path[..i], path[i + 1..])
  {
    if q.GroupPath() == path {
      var i := |q.project|;
      assert path[i] == '/' && q == SecretQuery(path[..i], path[i + 1..]);
    }
    if i :| 0 <= i < |path| && path[i] == '/' && q == SecretQuery(path[..i], path[i + 1..]) {
      assert path == path[..i] + "/" + path[i + 1..];
    }
  }

  function FindLastSlash(path: string): (i: int)
    ensures -1 <= i < |path|
    ensures i >= 0 ==> path[i] == '/'
    ensures forall j :: i < j < |path| ==> path[j] != '/'
  {
    if path == "" then -1
    else if path[|path| - 1] == '/' then |path| - 1
    else FindLastSlash(path[..|path| - 1])
  }

  /** Reading a path by its last slash. */
  function SplitAtLastSlash(path: string): Option<SecretQuery> {
    var i := FindLastSlash(path);
    if i < 0 then None else Some(SecretQuery(path[..i], path[i + 1..]))
  }

  lemma {:induction false} LastSlashOf(project: string, entryLabel: string)
    ensures FindLastSlash(project + "/" + entryLabel) >= |project|
    ensures FindLastSlash(project + "/" + entryLabel) == |project| <==> '/' !in entryLabel
  {
    var path := project + "/" + entryLabel;
    if entryLabel != "" && entryLabel[|entryLabel| - 1] != '/' {
      var init := entryLabel[..|entryLabel| - 1];
      assert path[..|path| - 1] == project + "/" + init;
      LastSlashOf(project, init);
      assert entryLabel == init + [entryLabel[|entryLabel| - 1]];
    }
  }

  /** Cutting at the last slash recovers the query exactly when its label has none. */
  lemma LastSlashRecovers(q: SecretQuery)
    ensures SplitAtLastSlash(q.GroupPath()).Some?
    ensures SplitAtLastSlash(q.GroupPath()) == Some(q) <==> '/' !in q.entryLabel
  {
    var path := q.GroupPath();
    LastSlashOf(q.project, q.entryLabel);
    assert path[..|q.project|] == q.project && path[|q.project| + 1..] == q.entryLabel;
  }

  /** On slash-free labels the path determines project and label. */
  lemma GroupPathInjective(a: SecretQuery, b: SecretQuery)
    requires '/' !in a.entryLabel && '/' !in b.entryLabel && a.GroupPath() == b.GroupPath()
    ensures a == b
  {
    LastSlashRecovers(a);
    LastSlashRecovers(b);
  }

  /** A slash in a label can always be moved into the project: the two queries share a path. */
  lemma SlashedLabelCollides(q: SecretQuery)
    requires '/' in q.entryLabel
    ensures exists other: SecretQuery :: other != q && '/' !in other.entryLabel && other.GroupPath() == q.GroupPath()
  {
    var path := q.GroupPath();
    LastSlashRecovers(q);
    var other := SplitAtLastSlash(path).value;
    var i := FindLastSlash(path);
    assert path == path[..i] + "/" + path[i + 1..];
    assert '/' !in other.entryLabel;
  }
}
