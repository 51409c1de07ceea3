/** The Notes field of a vault entry: printing and parsing metadata (crates/custodly-vault/src/vault.rs). */
module Metadata {
  import opened Wrappers
  import opened Text
  import opened Timestamps
  import opened Tiers
  import opened Entries

  // ---------- Printing ----------

  const HEADER := "[custodly:metadata:v1]"
  const MIGRATED := "migrated:"

  function PrintSource(source: AcquisitionSource): string {
    match source
    case GithubAppInstallationToken => "github-app-installation-token"
    case ManualEntry => "manual-entry"
    case Migrated(foundAt) => MIGRATED + foundAt
  }

  function PrintTier(tier: Tier): string {
    match tier
    case Tier0 => "0"
    case Tier1 => "1"
    case Tier2 => "2"
  }

  function PrintExpiry(expiresAt: Option<Timestamp>): string {
    match expiresAt
    case None => ""
    case Some(t) => Print(t)
  }

  function Field(key: string, value: string): string {
    key + "=" + value
  }

  /** The fields that hold free text, and the line above them. */
  function TextLines(m: EntryMetadata): seq<string> {
    [HEADER, Field("provider", m.provider), Field("project", m.project),
     Field("source_description", m.sourceDescription)]
  }

  function SourceLine(m: EntryMetadata): string {
    Field("acquired_via", PrintSource(m.acquiredVia))
  }

  /** The fields that follow every free text. */
  function LateLines(m: EntryMetadata): seq<string> {
    [Field("acquired_at", Print(m.acquiredAt)), Field("expires_at", PrintExpiry(m.expiresAt)),
     Field("tier", PrintTier(m.tier))]
  }

  function EncodedLines(m: EntryMetadata): seq<string> {
    TextLines(m) + [SourceLine(m)] + LateLines(m)
  }

  /** `encode_metadata`. */
  function Encode(m: EntryMetadata): string {
    Join(EncodedLines(m), "\n")
  }

  // ---------- Parsing ----------

  /** What one line contributes: a trimmed key and value around its first `=`. */
  function RecordOf(line: string): seq<(string, string)> {
    match SplitOnce(line, '=')
    case None => []
    case Some((k, v)) => [(Trim(k), Trim(v))]
  }

  function Records(lines: seq<string>): seq<(string, string)> {
    if lines == [] then [] else RecordOf(lines[0]) + Records(lines[1..])
  }

  /** Inserting the records one after the other: the last value of a key wins. */
  function Fields(records: seq<(string, string)>): map<string, string> {
    if records == [] then map[]
    else
      var last := records[|records| - 1];
      Fields(records[..|records| - 1])[last.0 := last.1]
  }

  function ParseSource(s: string): Option<AcquisitionSource> {
    if s == "github-app-installation-token" then Some(GithubAppInstallationToken)
    else if s == "manual-entry" then Some(ManualEntry)
    else if MIGRATED <= s then Some(Migrated(s[|MIGRATED|..]))
    else None
  }

  function ParseTier(s: string): Option<Tier> {
    if s == "0" then Some(Tier0)
    else if s == "1" then Some(Tier1)
    else if s == "2" then Some(Tier2)
    else None
  }

  /** An absent, empty or unreadable expiry all mean none. */
  function ParseExpiry(expiresAt: Option<string>): Option<Timestamp> {
    match expiresAt
    case None => None
    case Some(s) => if s == "" then None else Parse(s)
  }

  function Look(fields: map<string, string>, key: string): Option<string> {
    if key in fields then Some(fields[key]) else None
  }

  /** A record needs every field but the expiry, each of them readable, and must be traceable. */
  function Assemble(provider: Option<string>, project: Option<string>, description: Option<string>,
                    source: Option<string>, acquiredAt: Option<string>, expiresAt: Option<string>,
                    tier: Option<string>): Option<EntryMetadata>
  {
    if provider.None? || project.None? || description.None? || source.None? || acquiredAt.None? || tier.None? then None
    else
      var s, t, at := ParseSource(source.value), ParseTier(tier.value), Parse(acquiredAt.value);
      if s.None? || t.None? || at.None? then None
      else
        match NewMetadata(EntryMetadata(
                            provider.value, project.value, description.value, s.value, at.value,
                            ParseExpiry(expiresAt), t.value))
        case Err(_) => None
        case Ok(m) => Some(m)
  }

  function FromFields(fields: map<string, string>): Option<EntryMetadata> {
    Assemble(Look(fields, "provider"), Look(fields, "project"), Look(fields, "source_description"),
             Look(fields, "acquired_via"), Look(fields, "acquired_at"), Look(fields, "expires_at"),
             Look(fields, "tier"))
  }

  function FieldsOf(notes: string): map<string, string> {
    Fields(Records(Lines(notes)))
  }

  function Decode(notes: string): Option<EntryMetadata> {
    FromFields(FieldsOf(notes))
  }

  // ---------- Records and fields ----------

  lemma {:induction false} RecordsConcat(a: seq<string>, b: seq<string>)
    ensures Records(a + b) == Records(a) + Records(b)
  {
    if a == [] {
      assert a + b == b;
    } else {
      assert (a + b)[1..] == a[1..] + b;
      RecordsConcat(a[1..], b);
    }
  }

  lemma RecordsSnoc(lines: seq<string>, line: string)
    ensures Records(lines + [line]) == Records(lines) + RecordOf(line)
  {
    RecordsConcat(lines, [line]);
  }

  lemma FieldsSnoc(records: seq<(string, string)>, record: (string, string))
    ensures Fields(records + [record]) == Fields(records)[record.0 := record.1]
  {
    assert (records + [record])[..|records|] == records;
  }

  /** `decode_metadata`: the loop that fills the map, then the fields in the order they are asked for. */
  method DecodeMetadata(notes: string) returns (decoded: Option<EntryMetadata>)
    ensures decoded == Decode(notes)
  {
    var lines := Lines(notes);
    var fields: map<string, string> := map[];
    for i := 0 to |lines|
      invariant fields == Fields(Records(lines[..i]))
    {
      RecordsSnoc(lines[..i], lines[i]);
      assert lines[..i + 1] == lines[..i] + [lines[i]];
      var pair := SplitOnce(lines[i], '=');
      if pair.Some? {
        FieldsSnoc(Records(lines[..i]), (Trim(pair.value.0), Trim(pair.value.1)));
        fields := fields[Trim(pair.value.0) := Trim(pair.value.1)];
      } else {
        assert Records(lines[..i]) + [] == Records(lines[..i]);
      }
    }
    assert lines[..|lines|] == lines;
    var via := Look(fields, "acquired_via");
    if via.None? {
      return None;
    }
    var source := ParseSource(via.value);
    if source.None? {
      return None;
    }
    var tierText := Look(fields, "tier");
    if tierText.None? {
      return None;
    }
    var tier := ParseTier(tierText.value);
    if tier.None? {
      return None;
    }
    var atText := Look(fields, "acquired_at");
    if atText.None? {
      return None;
    }
    var acquiredAt := Parse(atText.value);
    if acquiredAt.None? {
      return None;
    }
    var expiresAt := ParseExpiry(Look(fields, "expires_at"));
    var provider, project := Look(fields, "provider"), Look(fields, "project");
    var description := Look(fields, "source_description");
    if provider.None? || project.None? || description.None? {
      return None;
    }
    var m := NewMetadata(EntryMetadata(provider.value, project.value, description.value,
                                       source.value, acquiredAt.value, expiresAt, tier.value));
    return if m.Ok? then Some(m.value) else None;
  }

  predicate CleanKey(key: string) {
    '=' !in key && IsTrimmed(key)
  }

  lemma RecordOfCut(k: string, v: string)
    requires '=' !in k
    ensures RecordOf(k + ['='] + v) == [(Trim(k), Trim(v))]
  {
    SplitOnceAfter(k, '=', v);
  }

  lemma RecordOfField(key: string, value: string)
    requires CleanKey(key)
    ensures RecordOf(Field(key, value)) == [(key, Trim(value))]
  {
    assert Field(key, value) == key + ['='] + value;
    RecordOfCut(key, value);
    TrimFixed(key);
  }

  lemma NoRecord(line: string)
    requires '=' !in line
    ensures RecordOf(line) == []
  {
    FindMeaning(line, '=');
  }

  lemma HeaderHasNoRecord()
    ensures RecordOf(HEADER) == []
  {
    assert '=' !in HEADER;
    NoRecord(HEADER);
  }

  /** Trailing whitespace of a line contributes nothing. */
  lemma RecordIgnoresTail(line: string, w: string)
    requires AllSpace(w)
    ensures RecordOf(line + w) == RecordOf(line)
  {
    if '=' in line {
      var k, v := CutAtFirst(line, '=');
      assert line + w == k + ['='] + (v + w);
      RecordOfCut(k, v);
      RecordOfCut(k, v + w);
      TrimIgnoresTail(v, w);
    } else {
      assert '=' !in w;
      NoRecord(line);
      NoRecord(line + w);
    }
  }

  // ---------- Re-framing ----------

  lemma StrippedRecord(line: string)
    ensures RecordOf(StripCarriageReturn(line)) == RecordOf(line)
  {
    var stripped := StripCarriageReturn(line);
    if stripped != line {
      assert line == stripped + "\r";
      RecordIgnoresTail(stripped, "\r");
    }
  }

  lemma RecordsCons(line: string, lines: seq<string>)
    ensures Records([line] + lines) == RecordOf(line) + Records(lines)
  {
    assert ([line] + lines)[1..] == lines;
  }

  lemma LinesLacking(notes: string)
    requires '\n' !in notes
    ensures Lines(notes) == if notes == "" then [] else [notes]
  {
    FindMeaning(notes, '\n');
  }

  lemma LinesCut(notes: string) returns (line: string, rest: string)
    requires '\n' in notes
    ensures '\n' !in line && |rest| < |notes|
    ensures Lines(notes) == [StripCarriageReturn(line)] + Lines(rest)
    ensures Split(notes, '\n') == [line] + Split(rest, '\n')
  {
    line, rest := CutAtFirst(notes, '\n');
  }

  /** For decoding, lines are just the pieces between line feeds. */
  lemma {:induction false} RecordsBySplit(notes: string)
    ensures Records(Lines(notes)) == Records(Split(notes, '\n'))
    decreases |notes|
  {
    if '\n' in notes {
      var line, rest := LinesCut(notes);
      RecordsBySplit(rest);
      StrippedRecord(line);
      RecordsCons(StripCarriageReturn(line), Lines(rest));
      RecordsCons(line, Split(rest, '\n'));
    } else {
      LinesLacking(notes);
      SplitLacking(notes, '\n');
      NoRecord("");
      RecordsCons(notes, []);
    }
  }

  lemma {:induction false} LinesLackBreak(notes: string)
    ensures forall line :: line in Lines(notes) ==> '\n' !in line
    decreases |notes|
  {
    if '\n' in notes {
      var line, rest := LinesCut(notes);
      LinesLackBreak(rest);
      assert '\n' !in StripCarriageReturn(line);
    } else {
      LinesLacking(notes);
    }
  }

  lemma JoinedRecords(lines: seq<string>)
    requires lines != []
    ensures Records(Lines(Join(lines, "\n"))) == Records(SplitAll(lines, '\n'))
  {
    RecordsBySplit(Join(lines, "\n"));
    assert "\n" == ['\n'];
    SplitJoin(lines, '\n');
  }

  lemma RejoinedRecords(notes: string)
    ensures Records(Lines(Join(Lines(notes), "\n"))) == Records(Lines(notes))
  {
    if Lines(notes) != [] {
      LinesLackBreak(notes);
      JoinedRecords(Lines(notes));
      SplitAllClean(Lines(notes), '\n');
    }
  }

  /** `\n` turned into `\r\n` everywhere. */
  function ToCrlf(notes: string): string {
    Join(Split(notes, '\n'), "\r\n")
  }

  lemma {:induction false} CrlfJoinedRecords(parts: seq<string>)
    requires parts != [] && forall p :: p in parts ==> '\n' !in p
    ensures Records(Split(Join(parts, "\r\n"), '\n')) == Records(parts)
  {
    if |parts| > 1 {
      var line, rest := parts[0] + "\r", Join(parts[1..], "\r\n");
      assert Join(parts, "\r\n") == line + ['\n'] + rest;
      SplitAfter(line, '\n', rest);
      CrlfJoinedRecords(parts[1..]);
      RecordIgnoresTail(parts[0], "\r");
      RecordsCons(line, Split(rest, '\n'));
    } else {
      SplitLacking(parts[0], '\n');
      assert parts == [parts[0]];
    }
  }

  function SnocLast(parts: seq<string>, c: char): seq<string>
    requires parts != []
  {
    parts[..|parts| - 1] + [parts[|parts| - 1] + [c]]
  }

  lemma SnocLastCons(a: string, parts: seq<string>, c: char)
    requires parts != []
    ensures SnocLast([a] + parts, c) == [a] + SnocLast(parts, c)
  {
    var all := [a] + parts;
    assert all[..|all| - 1] == [a] + parts[..|parts| - 1];
  }

  /** A character that is not a separator extends the last piece. */
  lemma {:induction false} SplitSnoc(s: string, sep: char, c: char)
    requires c != sep
    ensures Split(s + [c], sep) == SnocLast(Split(s, sep), c)
    decreases |s|
  {
    if sep !in s {
      SplitLacking(s, sep);
      SplitLacking(s + [c], sep);
    } else {
      var a, b := CutAtFirst(s, sep);
      assert s + [c] == a + [sep] + (b + [c]);
      SplitAfter(a, sep, b + [c]);
      SplitSnoc(b, sep, c);
      SnocLastCons(a, Split(b, sep), c);
    }
  }

  lemma BreakAddsNoRecord(notes: string)
    ensures Records(Split(notes + ['\n'], '\n')) == Records(Split(notes, '\n'))
  {
    assert notes + ['\n'] == notes + ['\n'] + "";
    SplitConcat(notes, '\n', "");
    SplitLacking("", '\n');
    RecordsSnoc(Split(notes, '\n'), "");
    NoRecord("");
  }

  lemma LastLineTail(parts: seq<string>, c: char)
    requires parts != [] && IsSpace(c)
    ensures Records(SnocLast(parts, c)) == Records(parts)
  {
    var k := |parts| - 1;
    assert parts == parts[..k] + [parts[k]];
    RecordsSnoc(parts[..k], parts[k]);
    RecordsSnoc(parts[..k], parts[k] + [c]);
    RecordIgnoresTail(parts[k], [c]);
  }

  lemma TailCharacterRecords(notes: string, c: char)
    requires IsSpace(c)
    ensures Records(Split(notes + [c], '\n')) == Records(Split(notes, '\n'))
  {
    if c == '\n' {
      BreakAddsNoRecord(notes);
    } else {
      SplitSnoc(notes, '\n', c);
      LastLineTail(Split(notes, '\n'), c);
    }
  }

  lemma {:induction false} TailRecords(notes: string, w: string)
    requires AllSpace(w)
    ensures Records(Split(notes + w, '\n')) == Records(Split(notes, '\n'))
  {
    if w == "" {
      assert notes + w == notes;
    } else {
      var n := |w| - 1;
      assert notes + w == notes + w[..n] + [w[n]];
      TailRecords(notes, w[..n]);
      TailCharacterRecords(notes + w[..n], w[n]);
    }
  }

  /**
    Whatever the child process and the reader do to the framing of a Notes text
    is invisible to decoding: cutting it into lines and rejoining them, writing
    line ends as `\r\n`, and appending blank lines or other whitespace.
   */
  lemma ReframingIsHarmless(notes: string, w: string)
    requires AllSpace(w)
    ensures Decode(Join(Lines(notes), "\n")) == Decode(notes)
    ensures Decode(ToCrlf(notes)) == Decode(notes)
    ensures Decode(notes + w) == Decode(notes)
  {
    RejoinedRecords(notes);
    RecordsBySplit(notes);
    RecordsBySplit(ToCrlf(notes));
    SplitPartsLackSeparator(notes, '\n');
    CrlfJoinedRecords(Split(notes, '\n'));
    RecordsBySplit(notes + w);
    TailRecords(notes, w);
  }

  // ---------- Values on one trimmed line ----------

  predicate CleanValue(value: string) {
    IsTrimmed(value) && '\n' !in value
  }

  lemma RecordIsClean(line: string)
    requires '\n' !in line
    ensures forall r :: r in RecordOf(line) ==> CleanValue(r.1)
  {
    var pair := SplitOnce(line, '=');
    if pair.Some? {
      TrimIsTrimmed(pair.value.1);
      TrimKeepsAbsence(pair.value.1, '\n');
    }
  }

  lemma {:induction false} RecordsAreClean(lines: seq<string>)
    requires forall line :: line in lines ==> '\n' !in line
    ensures forall r :: r in Records(lines) ==> CleanValue(r.1)
  {
    if lines != [] {
      RecordIsClean(lines[0]);
      RecordsAreClean(lines[1..]);
    }
  }

  lemma {:induction false} FieldsAreRecords(records: seq<(string, string)>)
    ensures forall key :: key in Fields(records) ==> (key, Fields(records)[key]) in records
  {
    if records != [] {
      FieldsAreRecords(records[..|records| - 1]);
    }
  }

  // ---------- Late fields ----------

  lemma ThreeRecords(lines: seq<string>, r0: (string, string), r1: (string, string), r2: (string, string))
    requires |lines| == 3 && RecordOf(lines[0]) == [r0] && RecordOf(lines[1]) == [r1] && RecordOf(lines[2]) == [r2]
    ensures Records(lines) == [r0, r1, r2]
  {
    assert Records(lines[2..]) == [r2];
    assert lines[1..][1..] == lines[2..];
    assert Records(lines[1..]) == [r1] + [r2];
  }

  lemma ThreeFields(early: seq<(string, string)>, r0: (string, string), r1: (string, string), r2: (string, string))
    ensures Fields(early + [r0, r1, r2]) == Fields(early)[r0.0 := r0.1][r1.0 := r1.1][r2.0 := r2.1]
  {
    assert early + [r0, r1, r2] == early + [r0] + [r1] + [r2];
    FieldsSnoc(early, r0);
    FieldsSnoc(early + [r0], r1);
    FieldsSnoc(early + [r0] + [r1], r2);
  }

  lemma FieldRecords(k0: string, k1: string, k2: string, v0: string, v1: string, v2: string)
    requires CleanKey(k0) && CleanKey(k1) && CleanKey(k2)
    ensures Records([Field(k0, v0), Field(k1, v1), Field(k2, v2)]) == [(k0, Trim(v0)), (k1, Trim(v1)), (k2, Trim(v2))]
  {
    RecordOfField(k0, v0);
    RecordOfField(k1, v1);
    RecordOfField(k2, v2);
    ThreeRecords([Field(k0, v0), Field(k1, v1), Field(k2, v2)], (k0, Trim(v0)), (k1, Trim(v1)), (k2, Trim(v2)));
  }

  lemma LateKeysAreClean()
    ensures CleanKey("acquired_at") && CleanKey("expires_at") && CleanKey("tier")
  {}

  lemma LateValues(m: EntryMetadata)
    ensures CleanValue(Print(m.acquiredAt)) && CleanValue(PrintExpiry(m.expiresAt)) && CleanValue(PrintTier(m.tier))
  {
    PrintedIsOneWord(m.acquiredAt);
    if m.expiresAt.Some? {
      PrintedIsOneWord(m.expiresAt.value);
    }
  }

  lemma LateLinesSplit(m: EntryMetadata)
    ensures SplitAll(LateLines(m), '\n') == LateLines(m)
  {
    LateValues(m);
    SplitAllClean(LateLines(m), '\n');
  }

  lemma LateLinesRecords(m: EntryMetadata)
    ensures SplitAll(LateLines(m), '\n') == LateLines(m)
    ensures Records(LateLines(m)) ==
            [("acquired_at", Print(m.acquiredAt)), ("expires_at", PrintExpiry(m.expiresAt)), ("tier",
                  PrintTier(m.tier))]
  {
    var at, expiry, tier := Print(m.acquiredAt), PrintExpiry(m.expiresAt), PrintTier(m.tier);
    LateValues(m);
    LateLinesSplit(m);
    LateKeysAreClean();
    FieldRecords("acquired_at", "expires_at", "tier", at, expiry, tier);
    TrimFixed(at);
    TrimFixed(expiry);
    TrimFixed(tier);
  }

  function WithLateFields(fields: map<string, string>, m: EntryMetadata): map<string, string> {
    fields["acquired_at" := Print(m.acquiredAt)]["expires_at" := PrintExpiry(m.expiresAt)]["tier" := PrintTier(m.tier)]
  }

  lemma FieldsWithLate(early: seq<(string, string)>, m: EntryMetadata)
    ensures Fields(early + Records(LateLines(m))) == WithLateFields(Fields(early), m)
  {
    LateLinesRecords(m);
    ThreeFields(early, ("acquired_at", Print(m.acquiredAt)), ("expires_at", PrintExpiry(m.expiresAt)),
                ("tier", PrintTier(m.tier)));
  }

  lemma LateLookups(fields: map<string, string>, m: EntryMetadata)
    ensures var late := WithLateFields(fields, m);
            && Look(late, "acquired_at") == Some(Print(m.acquiredAt))
            && Look(late, "expires_at") == Some(PrintExpiry(m.expiresAt))
            && Look(late, "tier") == Some(PrintTier(m.tier))
            && Look(late, "provider") == Look(fields, "provider")
            && Look(late, "project") == Look(fields, "project")
            && Look(late, "source_description") == Look(fields, "source_description")
            && Look(late, "acquired_via") == Look(fields, "acquired_via")
  {}

  lemma LateValuesParse(m: EntryMetadata)
    ensures Parse(Print(m.acquiredAt)) == Some(m.acquiredAt)
    ensures ParseExpiry(Some(PrintExpiry(m.expiresAt))) == m.expiresAt
    ensures ParseTier(PrintTier(m.tier)) == Some(m.tier)
  {
    PrintParseRoundTrip(m.acquiredAt);
    if m.expiresAt.Some? {
      PrintParseRoundTrip(m.expiresAt.value);
      PrintedIsOneWord(m.expiresAt.value);
    }
  }

  // ---------- What the texts contribute, whatever they hold ----------

  /** The records that the lines of a text after its first amount to. */
  function Below(value: string): seq<(string, string)> {
    Records(Split(value, '\n')[1..])
  }

  /** What one field contributes: its own record, and whatever its text goes on to imitate. */
  function Group(key: string, value: string): seq<(string, string)> {
    [(key, Trim(FirstLine(value)))] + Below(value)
  }

  /** All records before the late fields, in the order they are inserted. */
  function EarlyRecords(m: EntryMetadata): seq<(string, string)> {
    Group("provider", m.provider) + Group("project", m.project)
    + (Group("source_description", m.sourceDescription) + Group("acquired_via", PrintSource(m.acquiredVia)))
  }

  lemma SplitPrefixed(front: string, value: string)
    requires '\n' !in front
    ensures Split(front + value, '\n') == [front + FirstLine(value)] + Split(value, '\n')[1..]
  {
    if '\n' in value {
      var a, b := CutAtFirst(value, '\n');
      RegroupFront(front, a, '\n', b);
      SplitAfter(front + a, '\n', b);
    } else {
      FindMeaning(value, '\n');
      assert FirstLine(value) == value;
      SplitLacking(value, '\n');
      SplitLacking(front + value, '\n');
    }
  }

  lemma FieldGroup(key: string, value: string)
    requires CleanKey(key) && '\n' !in key
    ensures Records(Split(Field(key, value), '\n')) == Group(key, value)
  {
    SplitPrefixed(key + "=", value);
    assert Field(key, value) == (key + "=") + value;
    RecordOfField(key, FirstLine(value));
    RecordsCons(Field(key, FirstLine(value)), Split(value, '\n')[1..]);
  }

  lemma SplitAllPair(a: string, b: string)
    ensures SplitAll([a, b], '\n') == Split(a, '\n') + Split(b, '\n')
  {
    assert [a, b][1..] == [b] && [b][1..] == [];
    assert SplitAll([b], '\n') == Split(b, '\n');
  }

  lemma TwoGroups(k0: string, v0: string, k1: string, v1: string)
    requires CleanKey(k0) && '\n' !in k0 && CleanKey(k1) && '\n' !in k1
    ensures Records(SplitAll([Field(k0, v0), Field(k1, v1)], '\n')) == Group(k0, v0) + Group(k1, v1)
  {
    SplitAllPair(Field(k0, v0), Field(k1, v1));
    RecordsConcat(Split(Field(k0, v0), '\n'), Split(Field(k1, v1), '\n'));
    FieldGroup(k0, v0);
    FieldGroup(k1, v1);
  }

  lemma TextKeysAreClean()
    ensures CleanKey("provider") && CleanKey("project") && CleanKey("source_description")
  {}

  lemma EarlyKeysAreLines()
    ensures '\n' !in "provider" && '\n' !in "project" && '\n' !in "source_description" && '\n' !in "acquired_via"
    ensures CleanKey("acquired_via") && '\n' !in HEADER
  {}

  lemma HeaderSkipped(rest: seq<string>)
    ensures Records(SplitAll([HEADER] + rest, '\n')) == Records(SplitAll(rest, '\n'))
  {
    EarlyKeysAreLines();
    HeaderHasNoRecord();
    SplitLacking(HEADER, '\n');
    SplitAllConcat([HEADER], rest, '\n');
    SplitAllClean([HEADER], '\n');
    RecordsCons(HEADER, SplitAll(rest, '\n'));
  }

  lemma EarlyLinesRegrouped(m: EntryMetadata)
    ensures EncodedLines(m) ==
            [HEADER]
            + ([Field("provider", m.provider), Field("project", m.project)]
               + [Field("source_description", m.sourceDescription), SourceLine(m)]
               + LateLines(m))
  {}

  lemma EarlyGroups(m: EntryMetadata)
    ensures Records(SplitAll([Field("provider", m.provider), Field("project", m.project)], '\n')) ==
            Group("provider", m.provider) + Group("project", m.project)
    ensures Records(SplitAll([Field("source_description", m.sourceDescription), SourceLine(m)], '\n')) ==
            Group("source_description", m.sourceDescription) + Group("acquired_via", PrintSource(m.acquiredVia))
  {
    EarlyKeysAreLines();
    TextKeysAreClean();
    TwoGroups("provider", m.provider, "project", m.project);
    TwoGroups("source_description", m.sourceDescription, "acquired_via", PrintSource(m.acquiredVia));
  }

  /** Every field of an encoded record, for arbitrary text: nothing is assumed of it. */
  lemma EncodedFieldsExactly(m: EntryMetadata)
    ensures FieldsOf(Encode(m)) == WithLateFields(Fields(EarlyRecords(m)), m)
  {
    var x := [Field("provider", m.provider), Field("project", m.project)];
    var y := [Field("source_description", m.sourceDescription), SourceLine(m)];
    JoinedRecords(EncodedLines(m));
    EarlyLinesRegrouped(m);
    HeaderSkipped(x + y + LateLines(m));
    SplitAllConcat(x + y, LateLines(m), '\n');
    SplitAllConcat(x, y, '\n');
    LateLinesRecords(m);
    RecordsConcat(SplitAll(x, '\n') + SplitAll(y, '\n'), LateLines(m));
    RecordsConcat(SplitAll(x, '\n'), SplitAll(y, '\n'));
    EarlyGroups(m);
    FieldsWithLate(EarlyRecords(m), m);
  }

  // ---------- Lookups in what the texts contribute ----------

  function Later(earlier: Option<string>, later: Option<string>): Option<string> {
    if later.Some? then later else earlier
  }

  lemma {:induction false} LookConcat(a: seq<(string, string)>, b: seq<(string, string)>, key: string)
    ensures Look(Fields(a + b), key) == Later(Look(Fields(a), key), Look(Fields(b), key))
  {
    if b == [] {
      assert a + b == a;
    } else {
      var n := |b| - 1;
      assert a + b == (a + b[..n]) + [b[n]] && b == b[..n] + [b[n]];
      FieldsSnoc(a + b[..n], b[n]);
      FieldsSnoc(b[..n], b[n]);
      LookConcat(a, b[..n], key);
    }
  }

  lemma LookInGroup(key: string, value: string, k: string)
    ensures Look(Fields(Group(key, value)), k) ==
            Later(if k == key then Some(Trim(FirstLine(value))) else None, Look(Fields(Below(value)), k))
  {
    var own := (key, Trim(FirstLine(value)));
    LookConcat([own], Below(value), k);
    FieldsSnoc([], own);
    assert [] + [own] == [own];
  }

  lemma LookInEarly(m: EntryMetadata, k: string)
    ensures Look(Fields(EarlyRecords(m)), k) ==
            Later(Later(Look(Fields(Group("provider", m.provider)), k), Look(Fields(Group("project", m.project)), k)),
                  Later(Look(Fields(Group("source_description", m.sourceDescription)), k),
                        Look(Fields(Group("acquired_via", PrintSource(m.acquiredVia))), k)))
  {
    var g0, g1 := Group("provider", m.provider), Group("project", m.project);
    var g2 := Group("source_description", m.sourceDescription);
    var g3 := Group("acquired_via", PrintSource(m.acquiredVia));
    LookConcat(g0 + g1, g2 + g3, k);
    LookConcat(g0, g1, k);
    LookConcat(g2, g3, k);
  }

  lemma BelowOneLine(value: string)
    requires '\n' !in value
    ensures Below(value) == [] && FirstLine(value) == value
  {
    SplitLacking(value, '\n');
    FindMeaning(value, '\n');
  }

  lemma LookInOneLineGroup(key: string, value: string, k: string)
    requires '\n' !in value
    ensures Look(Fields(Group(key, value)), k) == if k == key then Some(Trim(value)) else None
  {
    BelowOneLine(value);
    LookInGroup(key, value, k);
  }

  lemma DecodedFromEarly(m: EntryMetadata)
    ensures var early := Fields(EarlyRecords(m));
            Decode(Encode(m)) ==
            Assemble(Look(early, "provider"), Look(early, "project"), Look(early, "source_description"),
                     Look(early, "acquired_via"), Some(Print(m.acquiredAt)), Some(PrintExpiry(m.expiresAt)),
                     Some(PrintTier(m.tier)))
  {
    EncodedFieldsExactly(m);
    LateLookups(Fields(EarlyRecords(m)), m);
  }

  // ---------- The normal form of any record ----------

  /** The text a field comes back with: its own first line, or the last later line that imitates the field. */
  function Recovered(m: EntryMetadata, key: string): string {
    var found := Look(Fields(EarlyRecords(m)), key);
    if found.Some? then found.value else ""
  }

  lemma AlwaysPresent(m: EntryMetadata, key: string)
    requires key in {"provider", "project", "source_description", "acquired_via"}
    ensures Look(Fields(EarlyRecords(m)), key).Some?
  {
    LookInEarly(m, key);
    LookInGroup("provider", m.provider, key);
    LookInGroup("project", m.project, key);
    LookInGroup("source_description", m.sourceDescription, key);
    LookInGroup("acquired_via", PrintSource(m.acquiredVia), key);
  }

  lemma {:induction false} ValuesAreTrimmed(records: seq<(string, string)>)
    requires forall r :: r in records ==> IsTrimmed(r.1)
    ensures forall key :: Look(Fields(records), key).Some? ==> IsTrimmed(Look(Fields(records), key).value)
  {
    FieldsAreRecords(records);
    forall key | Look(Fields(records), key).Some? ensures IsTrimmed(Look(Fields(records), key).value) {
      assert (key, Fields(records)[key]) in records;
    }
  }

  lemma GroupIsTrimmed(key: string, value: string)
    ensures forall r :: r in Group(key, value) ==> IsTrimmed(r.1)
  {
    SplitPartsLackSeparator(value, '\n');
    RecordsAreClean(Split(value, '\n')[1..]);
    TrimIsTrimmed(FirstLine(value));
  }

  lemma RecoveredIsTrimmed(m: EntryMetadata, key: string)
    ensures IsTrimmed(Recovered(m, key))
  {
    GroupIsTrimmed("provider", m.provider);
    GroupIsTrimmed("project", m.project);
    GroupIsTrimmed("source_description", m.sourceDescription);
    GroupIsTrimmed("acquired_via", PrintSource(m.acquiredVia));
    ValuesAreTrimmed(EarlyRecords(m));
  }

  lemma AssembleRecovered(m: EntryMetadata, provider: string, project: string, description: string, source: string)
    requires IsTrimmed(project) && IsTrimmed(description)
    ensures var parsed := ParseSource(source);
            Assemble(Some(provider), Some(project), Some(description), Some(source), Some(Print(m.acquiredAt)),
                     Some(PrintExpiry(m.expiresAt)), Some(PrintTier(m.tier))) ==
            if project == "" || description == "" || parsed.None? then None
            else Some(m.(provider := provider, project := project, sourceDescription := description,
                      acquiredVia := parsed.value))
  {
    LateValuesParse(m);
    TrimFixed(project);
    TrimFixed(description);
  }

  /**
    The normal form for arbitrary text: a record decodes to itself with its
    texts as they are recovered, or to nothing if the project or the description
    recovered is empty or the source recovered is none.
   */
  lemma DecodesToRecovered(m: EntryMetadata)
    ensures var project, description := Recovered(m, "project"), Recovered(m, "source_description");
            var source := ParseSource(Recovered(m, "acquired_via"));
            Decode(Encode(m)) ==
            if project == "" || description == "" || source.None? then None
            else Some(m.(provider := Recovered(m, "provider"), project := project, sourceDescription := description,
                      acquiredVia := source.value))
  {
    DecodedFromEarly(m);
    AlwaysPresent(m, "provider");
    AlwaysPresent(m, "project");
    AlwaysPresent(m, "source_description");
    AlwaysPresent(m, "acquired_via");
    RecoveredIsTrimmed(m, "project");
    RecoveredIsTrimmed(m, "source_description");
    AssembleRecovered(m, Recovered(m, "provider"), Recovered(m, "project"), Recovered(m, "source_description"),
                      Recovered(m, "acquired_via"));
  }

  // ---------- Fields that always come back ----------

  lemma PlainSourceIsTrimmed(source: AcquisitionSource)
    requires !source.Migrated?
    ensures Trim(PrintSource(source)) == PrintSource(source)
    ensures ParseSource(PrintSource(source)) == Some(source)
  {
    TrimFixed(PrintSource(source));
  }

  lemma PrintedSourceIsOneLine(source: AcquisitionSource)
    requires source.Migrated? ==> '\n' !in source.foundAt
    ensures '\n' !in PrintSource(source)
  {
    match source
    case GithubAppInstallationToken => assert '\n' !in "github-app-installation-token";
    case ManualEntry => assert '\n' !in "manual-entry";
    case Migrated(foundAt) => assert '\n' !in MIGRATED;
  }

  /** A source on one line is recovered as it was printed, but for whitespace around it. */
  lemma SourceIsRecovered(m: EntryMetadata)
    requires m.acquiredVia.Migrated? ==> '\n' !in m.acquiredVia.foundAt
    ensures Recovered(m, "acquired_via") == Trim(PrintSource(m.acquiredVia))
  {
    PrintedSourceIsOneLine(m.acquiredVia);
    LookInEarly(m, "acquired_via");
    LookInOneLineGroup("acquired_via", PrintSource(m.acquiredVia), "acquired_via");
  }

  /**
    Late-field integrity: for arbitrary text in provider, project, description
    and `found_at`, including lines that imitate fields, a record that decodes
    at all reports the tier, acquisition time and expiry that were encoded, and
    the source too unless the source itself carries free text.
   */
  lemma LateFieldIntegrity(m: EntryMetadata)
    ensures var d := Decode(Encode(m));
            d.Some? ==>
              && d.value.tier == m.tier && d.value.acquiredAt == m.acquiredAt && d.value.expiresAt == m.expiresAt
              && (!m.acquiredVia.Migrated? ==> d.value.acquiredVia == m.acquiredVia)
  {
    DecodesToRecovered(m);
    if !m.acquiredVia.Migrated? {
      SourceIsRecovered(m);
      PlainSourceIsTrimmed(m.acquiredVia);
    }
  }

  // ---------- The normal form of a record without line feeds ----------

  /** No line feed in any text field. */
  predicate SingleLine(m: EntryMetadata) {
    && '\n' !in m.provider && '\n' !in m.project && '\n' !in m.sourceDescription
    && (m.acquiredVia.Migrated? ==> '\n' !in m.acquiredVia.foundAt)
  }

  function NormalSource(source: AcquisitionSource): AcquisitionSource {
    match source
    case Migrated(foundAt) => Migrated(TrimRight(foundAt))
    case _ => source
  }

  function Normal(m: EntryMetadata): EntryMetadata {
    m.(provider := Trim(m.provider), project := Trim(m.project), sourceDescription := Trim(m.sourceDescription),
    acquiredVia := NormalSource(m.acquiredVia))
  }

  lemma MigratedEnds()
    ensures MIGRATED != "" && !IsSpace(MIGRATED[0]) && !IsSpace(MIGRATED[|MIGRATED| - 1])
    ensures MIGRATED[0] == 'm' && MIGRATED[1] == 'i'
  {}

  lemma PrefixStays(front: string, text: string)
    requires front != "" && !IsSpace(front[0]) && !IsSpace(front[|front| - 1])
    ensures Trim(front + text) == front + TrimRight(text)
    ensures front <= front + TrimRight(text) && (front + TrimRight(text))[|front|..] == TrimRight(text)
  {
    assert (front + text)[0] == front[0];
    assert TrimLeft(front + text) == front + text;
    TrimRightAppend(front, text);
  }

  lemma MigratedIsRead(text: string)
    ensures ParseSource(MIGRATED + text) == Some(Migrated(text))
  {
    MigratedEnds();
    var s := MIGRATED + text;
    assert s[0] == 'm' && s[1] == 'i' && s[|MIGRATED|..] == text;
  }

  lemma SourceRoundTrip(source: AcquisitionSource)
    ensures ParseSource(Trim(PrintSource(source))) == Some(NormalSource(source))
  {
    match source
    case Migrated(foundAt) =>
      MigratedEnds();
      PrefixStays(MIGRATED, foundAt);
      MigratedIsRead(TrimRight(foundAt));
    case _ => PlainSourceIsTrimmed(source);
  }

  lemma SingleLineLookup(m: EntryMetadata, key: string)
    requires SingleLine(m)
    ensures Look(Fields(EarlyRecords(m)), key) ==
            if key == "acquired_via" then Some(Trim(PrintSource(m.acquiredVia)))
            else if key == "source_description" then Some(Trim(m.sourceDescription))
            else if key == "project" then Some(Trim(m.project))
            else if key == "provider" then Some(Trim(m.provider))
            else None
  {
    PrintedSourceIsOneLine(m.acquiredVia);
    LookInEarly(m, key);
    LookInOneLineGroup("provider", m.provider, key);
    LookInOneLineGroup("project", m.project, key);
    LookInOneLineGroup("source_description", m.sourceDescription, key);
    LookInOneLineGroup("acquired_via", PrintSource(m.acquiredVia), key);
  }

  lemma SingleLineRecovered(m: EntryMetadata)
    requires SingleLine(m)
    ensures Recovered(m, "provider") == Trim(m.provider) && Recovered(m, "project") == Trim(m.project)
    ensures Recovered(m, "source_description") == Trim(m.sourceDescription)
    ensures Recovered(m, "acquired_via") == Trim(PrintSource(m.acquiredVia))
  {
    SingleLineLookup(m, "provider");
    SingleLineLookup(m, "project");
    SingleLineLookup(m, "source_description");
    SourceIsRecovered(m);
  }

  /**
    The codec's normal form: a record without line feeds comes back with its
    texts trimmed, even when they contain `=`, unless the project or the
    description is blank, in which case it does not decode.
   */
  lemma CodecNormalForm(m: EntryMetadata)
    requires SingleLine(m)
    ensures Decode(Encode(m)) ==
            if Blank(m.project) || Blank(m.sourceDescription) then None else Some(Normal(m))
  {
    DecodesToRecovered(m);
    SingleLineRecovered(m);
    SourceRoundTrip(m.acquiredVia);
  }

  // ---------- When the round trip is the identity ----------

  predicate Canonical(m: EntryMetadata) {
    && SingleLine(m)
    && IsTrimmed(m.provider)
    && IsTrimmed(m.project) && m.project != ""
    && IsTrimmed(m.sourceDescription) && m.sourceDescription != ""
    && (m.acquiredVia.Migrated? ==> IsRightTrimmed(m.acquiredVia.foundAt))
  }

  lemma AssembledIsCanonical(provider: Option<string>, project: Option<string>, description: Option<string>,
                             source: Option<string>, acquiredAt: Option<string>, expiresAt: Option<string>,
                             tier: Option<string>)
    requires provider.Some? ==> CleanValue(provider.value)
    requires project.Some? ==> CleanValue(project.value)
    requires description.Some? ==> CleanValue(description.value)
    requires source.Some? ==> CleanValue(source.value)
    requires Assemble(provider, project, description, source, acquiredAt, expiresAt, tier).Some?
    ensures Canonical(Assemble(provider, project, description, source, acquiredAt, expiresAt, tier).value)
  {
    TrimFixed(project.value);
    TrimFixed(description.value);
    if MIGRATED <= source.value {
      assert source.value == MIGRATED + source.value[|MIGRATED|..];
    }
  }

  /** Whatever the notes, everything decoded from them is canonical. */
  lemma DecodedIsCanonical(notes: string)
    requires Decode(notes).Some?
    ensures Canonical(Decode(notes).value)
  {
    LinesLackBreak(notes);
    RecordsAreClean(Lines(notes));
    FieldsAreRecords(Records(Lines(notes)));
    var fields := FieldsOf(notes);
    assert forall key :: Look(fields, key).Some? ==> CleanValue(Look(fields, key).value);
    AssembledIsCanonical(Look(fields, "provider"), Look(fields, "project"), Look(fields, "source_description"),
                         Look(fields, "acquired_via"), Look(fields, "acquired_at"), Look(fields, "expires_at"),
                         Look(fields, "tier"));
  }

  /** The round trip is the identity exactly on canonical records. */
  lemma RoundTripIffCanonical(m: EntryMetadata)
    ensures Decode(Encode(m)) == Some(m) <==> Canonical(m)
  {
    if Canonical(m) {
      CodecNormalForm(m);
      TrimFixed(m.provider);
      TrimFixed(m.project);
      TrimFixed(m.sourceDescription);
    } else if Decode(Encode(m)) == Some(m) {
      DecodedIsCanonical(Encode(m));
    }
  }

  /** Decoding is stable: what was decoded once, from any notes, encodes and decodes to itself. */
  lemma DecodeIsIdempotent(notes: string)
    requires Decode(notes).Some?
    ensures Decode(Encode(Decode(notes).value)) == Decode(notes)
  {
    DecodedIsCanonical(notes);
    RoundTripIffCanonical(Decode(notes).value);
  }

  // ---------- When the project comes back ----------

  /** The last record of a key in the texts after the project field: it replaces the project if it is one. */
  function Override(m: EntryMetadata, key: string): Option<string> {
    Later(Look(Fields(Below(m.sourceDescription)), key), Look(Fields(Below(PrintSource(m.acquiredVia))), key))
  }

  lemma ProjectLookup(m: EntryMetadata)
    ensures Look(Fields(EarlyRecords(m)), "project") ==
            Later(Later(Some(Trim(FirstLine(m.project))), Look(Fields(Below(m.project)), "project")),
                  Override(m, "project"))
  {
    LookInEarly(m, "project");
    LookInGroup("provider", m.provider, "project");
    LookInGroup("project", m.project, "project");
    LookInGroup("source_description", m.sourceDescription, "project");
    LookInGroup("acquired_via", PrintSource(m.acquiredVia), "project");
  }

  /**
    The project comes back as it was exactly when it is a trimmed single line
    and no later line of the description or of the source imitates a `project`
    field with another value.
   */
  predicate ProjectSurvives(m: EntryMetadata) {
    CleanValue(m.project) && Override(m, "project") in {None, Some(m.project)}
  }

  lemma ProjectComesBackIff(m: EntryMetadata)
    ensures var d := Decode(Encode(m));
            d.Some? ==> (d.value.project == m.project <==> ProjectSurvives(m))
  {
    DecodesToRecovered(m);
    ProjectLookup(m);
    if CleanValue(m.project) {
      BelowOneLine(m.project);
      TrimFixed(m.project);
    } else if Decode(Encode(m)).Some? {
      DecodedIsCanonical(Encode(m));
    }
  }

  lemma InjectedBelow(description: string, line: string)
    requires '\n' !in description && '\n' !in line
    ensures Below(description + "\n" + line) == RecordOf(line)
    ensures FirstLine(description + "\n" + line) == description
  {
    var text := description + "\n" + line;
    assert text == description + ['\n'] + line;
    SplitAfter(description, '\n', line);
    FindAfter(description, '\n', line);
    SplitLacking(line, '\n');
    assert ([description] + [line])[1..] == [line];
    RecordsCons(line, []);
    assert [line] + [] == [line] && text[..|description|] == description;
  }

  lemma ProjectLineRecord(other: string)
    requires '\n' !in other
    ensures RecordOf(Field("project", other)) == [("project", Trim(other))] && '\n' !in Field("project", other)
  {
    TextKeysAreClean();
    EarlyKeysAreLines();
    RecordOfField("project", other);
  }

  lemma OneRecord(record: (string, string), key: string)
    ensures Look(Fields([record]), key) == if key == record.0 then Some(record.1) else None
  {
    FieldsSnoc([], record);
    assert [] + [record] == [record];
  }

  /** The field `key` of a record whose description goes on with one line that imitates a project field. */
  lemma InjectedLookup(m: EntryMetadata, description: string, other: string, key: string)
    requires m.sourceDescription == description + "\n" + Field("project", other)
    requires '\n' !in description && '\n' !in other && !m.acquiredVia.Migrated?
    requires '\n' !in m.provider && '\n' !in m.project
    ensures Look(Fields(EarlyRecords(m)), key) ==
            if key == "acquired_via" then Some(Trim(PrintSource(m.acquiredVia)))
            else if key == "project" then Some(Trim(other))
            else if key == "source_description" then Some(Trim(description))
            else if key == "provider" then Some(Trim(m.provider))
            else None
  {
    ProjectLineRecord(other);
    InjectedBelow(description, Field("project", other));
    PrintedSourceIsOneLine(m.acquiredVia);
    LookInEarly(m, key);
    LookInOneLineGroup("provider", m.provider, key);
    LookInOneLineGroup("project", m.project, key);
    LookInGroup("source_description", m.sourceDescription, key);
    OneRecord(("project", Trim(other)), key);
    LookInOneLineGroup("acquired_via", PrintSource(m.acquiredVia), key);
  }

  /**
    The failing input: a description whose second line imitates a project field
    decodes, and its record has moved to the project named there.
   */
  lemma InjectedProjectWins(m: EntryMetadata, description: string, other: string)
    requires m.sourceDescription == description + "\n" + Field("project", other)
    requires '\n' !in description && '\n' !in other && !m.acquiredVia.Migrated?
    requires '\n' !in m.provider && '\n' !in m.project && !Blank(description) && !Blank(other)
    ensures Decode(Encode(m)) ==
            Some(m.(provider := Trim(m.provider), project := Trim(other), sourceDescription := Trim(description)))
  {
    DecodesToRecovered(m);
    InjectedLookup(m, description, other, "provider");
    InjectedLookup(m, description, other, "project");
    InjectedLookup(m, description, other, "source_description");
    SourceIsRecovered(m);
    PlainSourceIsTrimmed(m.acquiredVia);
  }

  // ---------- The text that is written ----------

  lemma JoinPair(line: string, rest: seq<string>, sep: string)
    requires rest != []
    ensures Join([line] + rest, sep) == line + sep + Join(rest, sep)
  {
    assert ([line] + rest)[1..] == rest;
  }

  lemma JoinFour(a: string, b: string, c: string, d: string, sep: string)
    ensures Join([a, b, c, d], sep) == a + sep + b + sep + c + sep + d
  {
    assert [a, b, c, d] == [a] + ([b] + ([c] + [d]));
    JoinPair(c, [d], sep);
    JoinPair(b, [c] + [d], sep);
    JoinPair(a, [b] + ([c] + [d]), sep);
  }

  lemma {:induction false} JoinConcat(a: seq<string>, b: seq<string>, sep: string)
    requires a != [] && b != []
    ensures Join(a + b, sep) == Join(a, sep) + sep + Join(b, sep)
  {
    assert a + b == [a[0]] + (a[1..] + b) && a == [a[0]] + a[1..];
    JoinPair(a[0], a[1..] + b, sep);
    if |a| == 1 {
      assert a[1..] + b == b;
    } else {
      JoinConcat(a[1..], b, sep);
      JoinPair(a[0], a[1..], sep);
    }
  }

  /** The words a source and a tier are written as. */
  function SourceWord(source: AcquisitionSource): string {
    if source == GithubAppInstallationToken then "github-app-installation-token"
    else if source == ManualEntry then "manual-entry"
    else "migrated:" + source.foundAt
  }

  lemma FieldIs(key: string, value: string, written: string)
    requires written == key + "="
    ensures Field(key, value) == written + value
  {}

  lemma EarlyText(m: EntryMetadata)
    ensures Join(TextLines(m), "\n") ==
            "[custodly:metadata:v1]" + "\n" + ("provider=" + m.provider) + "\n" + ("project=" + m.project) + "\n"
            + ("source_description=" + m.sourceDescription)
  {
    JoinFour(HEADER, Field("provider", m.provider), Field("project", m.project),
             Field("source_description", m.sourceDescription), "\n");
    FieldIs("provider", m.provider, "provider=");
    FieldIs("project", m.project, "project=");
    FieldIs("source_description", m.sourceDescription, "source_description=");
  }

  function LaterLines(m: EntryMetadata): seq<string> {
    [Field("acquired_via", PrintSource(m.acquiredVia)), Field("acquired_at", Print(m.acquiredAt)),
     Field("expires_at", PrintExpiry(m.expiresAt)), Field("tier", PrintTier(m.tier))]
  }

  lemma LaterText(m: EntryMetadata)
    ensures Join(LaterLines(m), "\n") ==
            ("acquired_via=" + SourceWord(m.acquiredVia)) + "\n" + ("acquired_at=" + Print(m.acquiredAt)) + "\n"
            + ("expires_at=" + (if m.expiresAt.Some? then Print(m.expiresAt.value) else "")) + "\n"
            + ("tier=" + (if m.tier == Tier0 then "0" else if m.tier == Tier1 then "1" else "2"))
  {
    JoinFour(Field("acquired_via", PrintSource(m.acquiredVia)), Field("acquired_at", Print(m.acquiredAt)),
             Field("expires_at", PrintExpiry(m.expiresAt)), Field("tier", PrintTier(m.tier)), "\n");
    FieldIs("acquired_via", PrintSource(m.acquiredVia), "acquired_via=");
    FieldIs("acquired_at", Print(m.acquiredAt), "acquired_at=");
    FieldIs("expires_at", PrintExpiry(m.expiresAt), "expires_at=");
    FieldIs("tier", PrintTier(m.tier), "tier=");
  }

  lemma EncodedHalves(m: EntryMetadata)
    ensures Encode(m) == Join(TextLines(m), "\n") + "\n" + Join(LaterLines(m), "\n")
  {
    assert EncodedLines(m) == TextLines(m) + LaterLines(m);
    JoinConcat(TextLines(m), LaterLines(m), "\n");
  }

  /** The Notes field of any record, line by line as a person reads it. */
  lemma EncodedText(m: EntryMetadata)
    ensures Encode(m) ==
            ("[custodly:metadata:v1]" + "\n" + ("provider=" + m.provider) + "\n" + ("project=" + m.project) + "\n"
             + ("source_description=" + m.sourceDescription))
            + "\n"
            + (("acquired_via=" + SourceWord(m.acquiredVia)) + "\n" + ("acquired_at=" + Print(m.acquiredAt)) + "\n"
               + ("expires_at=" + (if m.expiresAt.Some? then Print(m.expiresAt.value) else "")) + "\n"
               + ("tier=" + (if m.tier == Tier0 then "0" else if m.tier == Tier1 then "1" else "2")))
  {
    EncodedHalves(m);
    EarlyText(m);
    LaterText(m);
  }

  // ---------- The notes that are read, whoever wrote them ----------

  /** A line that gives `key` this value, around its first `=` and without the whitespace. */
  ghost predicate Gives(line: string, key: string, value: string) {
    exists a, b :: '=' !in a && line == a + "=" + b && Trim(a) == key && Trim(b) == value
  }

  lemma GivesIsRecord(line: string, key: string, value: string)
    ensures Gives(line, key, value) <==> RecordOf(line) == [(key, value)]
  {
    if a, b :| '=' !in a && line == a + "=" + b && Trim(a) == key && Trim(b) == value {
      assert line == a + ['='] + b;
      SplitOnceAfter(a, '=', b);
    }
    if RecordOf(line) == [(key, value)] {
      var (a, b) := SplitOnce(line, '=').value;
      FindMeaning(line, '=');
      assert line == a + "=" + b;
    }
  }

  /** The last of the lines that give `key` a value gives it this one. */
  ghost predicate LastGives(lines: seq<string>, key: string, value: string) {
    exists i :: && 0 <= i < |lines| && Gives(lines[i], key, value)
                && forall j, v :: i < j < |lines| ==> !Gives(lines[j], key, v)
  }

  lemma LastGivesSnoc(init: seq<string>, line: string, key: string, value: string)
    ensures LastGives(init + [line], key, value) <==>
            Gives(line, key, value) || (LastGives(init, key, value) && forall v :: !Gives(line, key, v))
  {
    var lines := init + [line];
    if i :| && 0 <= i < |lines| && Gives(lines[i], key, value)
            && forall j, v :: i < j < |lines| ==> !Gives(lines[j], key, v) {
      if i < |init| {
        assert lines[|init|] == line && lines[i] == init[i];
        forall j, v | i < j < |init| ensures !Gives(init[j], key, v) { assert lines[j] == init[j]; }
      }
    }
    if Gives(line, key, value) {
      assert lines[|init|] == line;
    } else if LastGives(init, key, value) && forall v :: !Gives(line, key, v) {
      var i :| && 0 <= i < |init| && Gives(init[i], key, value)
               && forall j, v :: i < j < |init| ==> !Gives(init[j], key, v);
      assert lines[i] == init[i];
      forall j, v | i < j < |lines| ensures !Gives(lines[j], key, v) {
        assert lines[j] == if j < |init| then init[j] else line;
      }
    }
  }

  lemma {:induction false} FieldsOfLines(lines: seq<string>, key: string, value: string)
    ensures key in Fields(Records(lines)) && Fields(Records(lines))[key] == value <==> LastGives(lines, key, value)
  {
    if lines != [] {
      var n := |lines| - 1;
      var init, line := lines[..n], lines[n];
      assert lines == init + [line];
      FieldsOfLines(init, key, value);
      RecordsSnoc(init, line);
      LastGivesSnoc(init, line, key, value);
      forall v ensures Gives(line, key, v) <==> RecordOf(line) == [(key, v)] { GivesIsRecord(line, key, v); }
      if RecordOf(line) == [] {
        assert Records(init) + [] == Records(init);
      } else {
        var record := RecordOf(line)[0];
        FieldsSnoc(Records(init), record);
        assert Gives(line, key, record.1) <==> record.0 == key;
      }
    }
  }

  /** The fields of any notes: of each key the last value, trimmed. */
  lemma FieldsMeaning(notes: string, key: string, value: string)
    ensures key in FieldsOf(notes) && FieldsOf(notes)[key] == value <==> LastGives(Lines(notes), key, value)
  {
    FieldsOfLines(Lines(notes), key, value);
  }

  ghost predicate SourceReads(s: string, source: AcquisitionSource) {
    || (s == "github-app-installation-token" && source == GithubAppInstallationToken)
    || (s == "manual-entry" && source == ManualEntry)
    || (source.Migrated? && s == "migrated:" + source.foundAt)
  }

  ghost predicate TierReads(s: string, tier: Tier) {
    (s == "0" && tier == Tier0) || (s == "1" && tier == Tier1) || (s == "2" && tier == Tier2)
  }

  lemma ParseSourceReads(s: string, source: AcquisitionSource)
    ensures ParseSource(s) == Some(source) <==> SourceReads(s, source)
  {
    if MIGRATED <= s {
      assert s == MIGRATED + s[|MIGRATED|..];
    }
    if source.Migrated? && s == "migrated:" + source.foundAt {
      assert s[0] == 'm' && s[1] == 'i';
      assert s[|MIGRATED|..] == source.foundAt;
    }
  }

  lemma NotBlankIff(s: string)
    ensures Blank(s) <==> AllSpace(s)
  {
    BlankIffAllSpace(s);
  }

  lemma AssembleReads(provider: Option<string>, project: Option<string>, description: Option<string>,
                      source: Option<string>, acquiredAt: Option<string>, expiresAt: Option<string>,
                      tier: Option<string>, m: EntryMetadata)
    ensures Assemble(provider, project, description, source, acquiredAt, expiresAt, tier) == Some(m) <==>
            && provider == Some(m.provider) && project == Some(m.project) && description == Some(m.sourceDescription)
            && source.Some? && SourceReads(source.value, m.acquiredVia)
            && acquiredAt.Some? && Parse(acquiredAt.value) == Some(m.acquiredAt)
            && m.expiresAt == (if expiresAt.Some? then Parse(expiresAt.value) else None)
            && tier.Some? && TierReads(tier.value, m.tier)
            && !AllSpace(m.project) && !AllSpace(m.sourceDescription)
  {
    if source.Some? {
      ParseSourceReads(source.value, m.acquiredVia);
    }
    NotBlankIff(m.project);
    NotBlankIff(m.sourceDescription);
  }

  lemma AssembleReadsIff(provider: Option<string>, project: Option<string>, description: Option<string>,
                         source: Option<string>, acquiredAt: Option<string>, expiresAt: Option<string>,
                         tier: Option<string>)
    ensures Assemble(provider, project, description, source, acquiredAt, expiresAt, tier).Some? <==>
            && provider.Some? && project.Some? && description.Some?
            && !AllSpace(project.value) && !AllSpace(description.value)
            && source.Some?
            && (|| source.value == "github-app-installation-token" || source.value == "manual-entry"
                || "migrated:" <= source.value)
            && acquiredAt.Some? && Parse(acquiredAt.value).Some?
            && tier.Some? && (tier.value == "0" || tier.value == "1" || tier.value == "2")
  {
    if project.Some? {
      NotBlankIff(project.value);
    }
    if description.Some? {
      NotBlankIff(description.value);
    }
  }

  /** The field `key` has this value. */
  predicate Has(fields: map<string, string>, key: string, value: string) {
    key in fields && fields[key] == value
  }

  /**
    What any notes decode to, and that they decode to nothing else: provider,
    project and description as given, the last two not blank, a source and a tier
    that are among the words written, a time of acquisition that reads as one, and
    the expiry if it reads as one and none if it does not.
   */
  lemma DecodeExactly(notes: string, m: EntryMetadata)
    ensures var fields := FieldsOf(notes);
            Decode(notes) == Some(m) <==>
            && Has(fields, "provider", m.provider) && Has(fields, "project", m.project)
            && Has(fields, "source_description", m.sourceDescription)
            && !AllSpace(m.project) && !AllSpace(m.sourceDescription)
            && "acquired_via" in fields && SourceReads(fields["acquired_via"], m.acquiredVia)
            && "acquired_at" in fields && Parse(fields["acquired_at"]) == Some(m.acquiredAt)
            && m.expiresAt == (if "expires_at" in fields then Parse(fields["expires_at"]) else None)
            && "tier" in fields && TierReads(fields["tier"], m.tier)
  {
    var fields := FieldsOf(notes);
    AssembleReads(Look(fields, "provider"), Look(fields, "project"), Look(fields, "source_description"),
                  Look(fields, "acquired_via"), Look(fields, "acquired_at"), Look(fields, "expires_at"),
                  Look(fields, "tier"), m);
  }

  /** Which notes decode at all, whoever wrote them. */
  lemma DecodesIff(notes: string)
    ensures var fields := FieldsOf(notes);
            Decode(notes).Some? <==>
            && "provider" in fields && "project" in fields && "source_description" in fields
            && !AllSpace(fields["project"]) && !AllSpace(fields["source_description"])
            && "acquired_via" in fields
            && (|| fields["acquired_via"] == "github-app-installation-token"
                || fields["acquired_via"] == "manual-entry"
                || "migrated:" <= fields["acquired_via"])
            && "acquired_at" in fields && Parse(fields["acquired_at"]).Some?
            && "tier" in fields && (fields["tier"] == "0" || fields["tier"] == "1" || fields["tier"] == "2")
  {
    var fields := FieldsOf(notes);
    AssembleReadsIff(Look(fields, "provider"), Look(fields, "project"), Look(fields, "source_description"),
                     Look(fields, "acquired_via"), Look(fields, "acquired_at"), Look(fields, "expires_at"),
                     Look(fields, "tier"));
  }
}
