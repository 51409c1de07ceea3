/**
  The string operations of the Rust standard library that Custodly's parsers
  and printers are built from, and the algebra that relates them.

  A string is a sequence of Unicode scalar values; no encoding is modelled.
 */
module Text {
  import opened Wrappers

  // ---------- Whitespace and trimming ----------

  /** `char::is_whitespace`: the White_Space property of Unicode. */
  predicate IsSpace(c: char) {
    var n := c as int;
    || 9 <= n <= 13
    || n == 0x20 || n == 0x85 || n == 0xA0 || n == 0x1680
    || 0x2000 <= n <= 0x200A
    || n == 0x2028 || n == 0x2029 || n == 0x202F || n == 0x205F || n == 0x3000
  }

  predicate AllSpace(s: string) {
    forall i :: 0 <= i < |s| ==> IsSpace(s[i])
  }

  function TrimLeft(s: string): string {
    if s != "" && IsSpace(s[0]) then TrimLeft(s[1..]) else s
  }

  function TrimRight(s: string): string {
    if s != "" && IsSpace(s[|s| - 1]) then TrimRight(s[..|s| - 1]) else s
  }

  /** `str::trim`. */
  function Trim(s: string): string {
    TrimRight(TrimLeft(s))
  }

  /** No whitespace at either end. */
  predicate IsTrimmed(s: string) {
    s == "" || (!IsSpace(s[0]) && !IsSpace(s[|s| - 1]))
  }

  predicate IsRightTrimmed(s: string) {
    s == "" || !IsSpace(s[|s| - 1])
  }

  /** `TrimLeft` removes a prefix of whitespace and stops at the first other character. */
  lemma {:induction false} TrimLeftSuffix(s: string)
    ensures |TrimLeft(s)| <= |s|
    ensures s == s[..|s| - |TrimLeft(s)|] + TrimLeft(s)
    ensures AllSpace(s[..|s| - |TrimLeft(s)|])
    ensures TrimLeft(s) != "" ==> !IsSpace(TrimLeft(s)[0])
  {
    if s != "" && IsSpace(s[0]) {
      TrimLeftSuffix(s[1..]);
      var k := |s| - |TrimLeft(s)|;
      assert s[..k] == [s[0]] + s[1..][..k - 1];
    }
  }

  lemma {:induction false} TrimRightPrefix(s: string)
    ensures |TrimRight(s)| <= |s|
    ensures s == TrimRight(s) + s[|TrimRight(s)|..]
    ensures AllSpace(s[|TrimRight(s)|..])
    ensures IsRightTrimmed(TrimRight(s))
  {
    if s != "" && IsSpace(s[|s| - 1]) {
      var t := s[..|s| - 1];
      TrimRightPrefix(t);
      var k := |TrimRight(t)|;
      assert TrimRight(s) == TrimRight(t) && s[..k] == t[..k];
      assert s[k..] == t[k..] + [s[|s| - 1]];
    }
  }

  lemma TrimIsTrimmed(s: string)
    ensures IsTrimmed(Trim(s))
  {
    TrimLeftSuffix(s);
    TrimRightPrefix(TrimLeft(s));
  }

  lemma TrimFixed(s: string)
    requires IsTrimmed(s)
    ensures TrimLeft(s) == s && TrimRight(s) == s && Trim(s) == s
  {}

  lemma {:induction false} AllSpaceTrims(s: string)
    requires AllSpace(s)
    ensures TrimLeft(s) == "" && TrimRight(s) == "" && Trim(s) == ""
  {
    if s != "" {
      AllSpaceTrims(s[1..]);
      AllSpaceTrims(s[..|s| - 1]);
    }
  }

  lemma BlankIffAllSpace(s: string)
    ensures Trim(s) == "" <==> AllSpace(s)
  {
    if AllSpace(s) {
      AllSpaceTrims(s);
    } else {
      TrimLeftSuffix(s);
      TrimRightPrefix(TrimLeft(s));
    }
  }

  lemma {:induction false} TrimLeftAppend(a: string, b: string)
    requires b != "" && !IsSpace(b[0])
    ensures TrimLeft(a + b) == TrimLeft(a) + b
  {
    if a == "" {
      assert a + b == b;
    } else if IsSpace(a[0]) {
      assert (a + b)[1..] == a[1..] + b;
      TrimLeftAppend(a[1..], b);
    }
  }

  lemma {:induction false} TrimRightAppend(a: string, b: string)
    requires a != "" && !IsSpace(a[|a| - 1])
    ensures TrimRight(a + b) == a + TrimRight(b)
  {
    if b == "" {
      assert a + b == a;
    } else if IsSpace(b[|b| - 1]) {
      assert (a + b)[..|a + b| - 1] == a + b[..|b| - 1];
      TrimRightAppend(a, b[..|b| - 1]);
    }
  }

  lemma {:induction false} TrimRightIgnoresTail(a: string, w: string)
    requires AllSpace(w)
    ensures TrimRight(a + w) == TrimRight(a)
  {
    if w == "" {
      assert a + w == a;
    } else {
      assert (a + w)[..|a + w| - 1] == a + w[..|w| - 1];
      TrimRightIgnoresTail(a, w[..|w| - 1]);
    }
  }

  /** Trailing whitespace is invisible to `trim`. */
  lemma {:induction false} TrimIgnoresTail(a: string, w: string)
    requires AllSpace(w)
    ensures Trim(a + w) == Trim(a)
  {
    if a == "" {
      assert a + w == w;
      AllSpaceTrims(w);
    } else if IsSpace(a[0]) {
      assert (a + w)[1..] == a[1..] + w;
      TrimIgnoresTail(a[1..], w);
    } else {
      TrimRightIgnoresTail(a, w);
    }
  }

  lemma TrimOfTrimLeft(s: string)
    ensures Trim(TrimLeft(s)) == Trim(s)
  {
    TrimLeftSuffix(s);
  }

  lemma TrimOfTrimRight(s: string)
    ensures Trim(TrimRight(s)) == Trim(s)
  {
    TrimRightPrefix(s);
    var r := TrimRight(s);
    assert s == r + s[|r|..];
    TrimIgnoresTail(r, s[|r|..]);
  }

  lemma TrimKeepsAbsence(s: string, c: char)
    requires c !in s
    ensures c !in TrimRight(s) && c !in TrimLeft(s) && c !in Trim(s)
  {
    TrimLeftSuffix(s);
    TrimRightPrefix(TrimLeft(s));
    TrimRightPrefix(s);
  }

  lemma {:induction false} TrimLeftKeepsSolid(s: string, c: char)
    requires c in s && !IsSpace(c)
    ensures c in TrimLeft(s)
  {
    if IsSpace(s[0]) {
      TrimLeftKeepsSolid(s[1..], c);
    }
  }

  lemma {:induction false} TrimRightKeepsSolid(s: string, c: char)
    requires c in s && !IsSpace(c)
    ensures c in TrimRight(s)
  {
    if IsSpace(s[|s| - 1]) {
      TrimRightKeepsSolid(s[..|s| - 1], c);
    }
  }

  lemma TrimKeepsSolid(s: string, c: char)
    requires c in s && !IsSpace(c)
    ensures c in Trim(s)
  {
    TrimLeftKeepsSolid(s, c);
    TrimRightKeepsSolid(TrimLeft(s), c);
  }

  lemma Around(s: string, t: string, u: string, a: string, b: string)
    requires s == a + t && t == u + b
    ensures s == a + u + b
  {}

  /** What is trimmed off is whitespace, and no whitespace is left at either end. */
  lemma TrimMeaning(s: string) returns (a: string, b: string)
    ensures AllSpace(a) && AllSpace(b) && s == a + Trim(s) + b
    ensures IsTrimmed(Trim(s))
  {
    var t := TrimLeft(s);
    TrimLeftSuffix(s);
    TrimRightPrefix(t);
    TrimIsTrimmed(s);
    a, b := s[..|s| - |t|], t[|TrimRight(t)|..];
    Around(s, t, TrimRight(t), a, b);
  }

  /** The 25 characters with the White_Space property, one by one. */
  lemma WhitespaceTable(c: char)
    ensures IsSpace(c) <==>
            || c in "\t\n\U{0B}\U{0C}\r \U{85}\U{A0}\U{1680}"
            || c in "\U{2000}\U{2001}\U{2002}\U{2003}\U{2004}\U{2005}\U{2006}\U{2007}\U{2008}\U{2009}\U{200A}"
            || c in "\U{2028}\U{2029}\U{202F}\U{205F}\U{3000}"
  {
    var first := "\t\n\U{0B}\U{0C}\r \U{85}\U{A0}\U{1680}";
    var second := "\U{2000}\U{2001}\U{2002}\U{2003}\U{2004}\U{2005}\U{2006}\U{2007}\U{2008}\U{2009}\U{200A}";
    var third := "\U{2028}\U{2029}\U{202F}\U{205F}\U{3000}";
    if IsSpace(c) {
      var n := c as int;
      if 9 <= n <= 13 {
        assert first[n - 9] == c;
      } else if 0x2000 <= n <= 0x200A {
        assert second[n - 0x2000] == c;
      } else if n < 0x2000 {
        assert first[5] as int == 0x20 && first[6] as int == 0x85 && first[7] as int == 0xA0;
        assert first[8] as int == 0x1680;
      } else {
        assert third[0] as int == 0x2028 && third[1] as int == 0x2029 && third[2] as int == 0x202F;
        assert third[3] as int == 0x205F && third[4] as int == 0x3000;
      }
    }
  }

  // ---------- Searching and splitting ----------

  /** The first position of `c`, or `|s|` when there is none. */
  function Find(s: string, c: char): (i: nat)
    ensures i <= |s|
    ensures i < |s| ==> s[i] == c
    ensures c in s ==> i < |s|
  {
    if s == "" || s[0] == c then 0
    else
      assert s == [s[0]] + s[1..];
      1 + Find(s[1..], c)
  }

  lemma {:induction false} FindMeaning(s: string, c: char)
    ensures c !in s[..Find(s, c)]
    ensures c !in s ==> Find(s, c) == |s|
  {
    if s != "" && s[0] != c {
      FindMeaning(s[1..], c);
      assert s == [s[0]] + s[1..];
      assert s[..Find(s, c)] == [s[0]] + s[1..][..Find(s[1..], c)];
    }
  }

  /** `str::split_once`. */
  function SplitOnce(s: string, c: char): Option<(string, string)> {
    var i := Find(s, c);
    if i == |s| then None else Some((s[..i], s[i + 1..]))
  }

  /** `str::split` on one character. */
  function Split(s: string, c: char): (parts: seq<string>)
    ensures |parts| >= 1
    decreases |s|
  {
    var i := Find(s, c);
    if i == |s| then [s] else [s[..i]] + Split(s[i + 1..], c)
  }

  /** `[S]::join`. */
  function Join(parts: seq<string>, sep: string): string {
    if |parts| == 0 then ""
    else if |parts| == 1 then parts[0]
    else parts[0] + sep + Join(parts[1..], sep)
  }

  /** The pieces of every part, one part after the other. */
  function SplitAll(parts: seq<string>, c: char): seq<string> {
    if parts == [] then [] else Split(parts[0], c) + SplitAll(parts[1..], c)
  }

  lemma {:induction false} FindAfter(a: string, c: char, b: string)
    requires c !in a
    ensures Find(a + [c] + b, c) == |a|
  {
    if a != "" {
      assert (a + [c] + b)[1..] == a[1..] + [c] + b;
      FindAfter(a[1..], c, b);
    }
  }

  lemma SplitOnceAfter(a: string, c: char, b: string)
    requires c !in a
    ensures SplitOnce(a + [c] + b, c) == Some((a, b))
  {
    FindAfter(a, c, b);
    var s := a + [c] + b;
    assert s[..|a|] == a && s[|a| + 1..] == b;
  }

  lemma SplitAfter(a: string, c: char, b: string)
    requires c !in a
    ensures Split(a + [c] + b, c) == [a] + Split(b, c)
  {
    FindAfter(a, c, b);
    var s := a + [c] + b;
    assert s[..|a|] == a && s[|a| + 1..] == b;
  }

  lemma SplitLacking(s: string, c: char)
    requires c !in s
    ensures Split(s, c) == [s]
  {
    FindMeaning(s, c);
  }

  /** A text with a separator, cut at the first one. */
  lemma CutAtFirst(s: string, c: char) returns (a: string, b: string)
    requires c in s
    ensures c !in a && s == a + [c] + b && |b| < |s|
    ensures a == s[..Find(s, c)] && b == s[Find(s, c) + 1..]
    ensures Split(s, c) == [a] + Split(b, c)
  {
    FindMeaning(s, c);
    a, b := s[..Find(s, c)], s[Find(s, c) + 1..];
  }

  lemma Regroup(a: string, c: char, b: string, m: string, t: string)
    ensures a + [c] + b + m + t == a + [c] + (b + m + t)
  {}

  lemma RegroupFront(k: string, a: string, c: char, b: string)
    ensures k + (a + [c] + b) == (k + a) + [c] + b
  {}

  lemma RegroupLeft(k: string, m: string, a: string, c: char, b: string)
    ensures k + m + (a + [c] + b) == (k + m + a) + [c] + b
  {}

  lemma ConsConcat(first: string, x: seq<string>, y: seq<string>)
    ensures [first] + (x + y) == [first] + x + y
  {}

  /** Splitting turns a separator into sequence concatenation. */
  lemma {:induction false} SplitConcat(s: string, c: char, t: string)
    ensures Split(s + [c] + t, c) == Split(s, c) + Split(t, c)
    decreases |s|
  {
    if c !in s {
      SplitLacking(s, c);
      SplitAfter(s, c, t);
    } else {
      var a, b := CutAtFirst(s, c);
      Regroup(a, c, b, [c], t);
      SplitAfter(a, c, b + [c] + t);
      SplitConcat(b, c, t);
      ConsConcat(a, Split(b, c), Split(t, c));
    }
  }

  lemma {:induction false} SplitPartsLackSeparator(s: string, c: char)
    ensures forall p :: p in Split(s, c) ==> c !in p
    decreases |s|
  {
    if c in s {
      var a, b := CutAtFirst(s, c);
      SplitPartsLackSeparator(b, c);
    } else {
      SplitLacking(s, c);
    }
  }

  /** Splitting a joined text gives the pieces of every part, in order. */
  lemma {:induction false} SplitJoin(parts: seq<string>, c: char)
    requires parts != []
    ensures Split(Join(parts, [c]), c) == SplitAll(parts, c)
  {
    if |parts| == 1 {
      assert parts[1..] == [];
    } else {
      SplitConcat(parts[0], c, Join(parts[1..], [c]));
      SplitJoin(parts[1..], c);
    }
  }

  lemma {:induction false} SplitAllClean(parts: seq<string>, c: char)
    requires forall p :: p in parts ==> c !in p
    ensures SplitAll(parts, c) == parts
  {
    if parts != [] {
      SplitLacking(parts[0], c);
      SplitAllClean(parts[1..], c);
    }
  }

  lemma {:induction false} SplitAllConcat(a: seq<string>, b: seq<string>, c: char)
    ensures SplitAll(a + b, c) == SplitAll(a, c) + SplitAll(b, c)
  {
    if a == [] {
      assert a + b == b;
    } else {
      assert (a + b)[1..] == a[1..] + b;
      SplitAllConcat(a[1..], b, c);
    }
  }

  lemma {:induction false} InSplitAll(parts: seq<string>, c: char, x: string)
    ensures x in SplitAll(parts, c) <==> exists p :: p in parts && x in Split(p, c)
  {
    if parts != [] {
      InSplitAll(parts[1..], c, x);
      if p :| p in parts && x in Split(p, c) {
        assert p == parts[0] || p in parts[1..];
      }
    }
  }

  // ---------- Lines ----------

  function StripCarriageReturn(s: string): string {
    if s != "" && s[|s| - 1] == '\r' then s[..|s| - 1] else s
  }

  /** `str::lines`: no final empty line, and one `\r` before a `\n` belongs to the line end. */
  function Lines(s: string): seq<string>
    decreases |s|
  {
    if s == "" then []
    else
      var i := Find(s, '\n');
      if i == |s| then [s] else [StripCarriageReturn(s[..i])] + Lines(s[i + 1..])
  }

  /** Survives being written as one line and read back. */
  predicate LineSafe(s: string) {
    '\n' !in s && (s == "" || s[|s| - 1] != '\r')
  }

  lemma LinesAfter(a: string, b: string)
    requires '\n' !in a
    ensures Lines(a + "\n" + b) == [StripCarriageReturn(a)] + Lines(b)
  {
    FindAfter(a, '\n', b);
    var s := a + ['\n'] + b;
    assert s == a + "\n" + b;
    assert s[..|a|] == a && s[|a| + 1..] == b;
  }

  function Stripped(parts: seq<string>): (stripped: seq<string>)
    ensures |stripped| == |parts|
  {
    if parts == [] then [] else [StripCarriageReturn(parts[0])] + Stripped(parts[1..])
  }

  lemma {:induction false} StrippedConcat(a: seq<string>, b: seq<string>)
    ensures Stripped(a + b) == Stripped(a) + Stripped(b)
  {
    if a == [] {
      assert a + b == b;
    } else {
      assert (a + b)[1..] == a[1..] + b;
      StrippedConcat(a[1..], b);
    }
  }

  lemma StrippedCons(first: string, rest: seq<string>)
    ensures Stripped([first] + rest) == [StripCarriageReturn(first)] + Stripped(rest)
  {
    assert ([first] + rest)[1..] == rest;
  }

  /** Any text with a line end after it is read as its pieces, each losing one carriage return. */
  lemma {:induction false} LinesOfTerminated(s: string, rest: string)
    ensures Lines(s + "\n" + rest) == Stripped(Split(s, '\n')) + Lines(rest)
    decreases |s|
  {
    if '\n' in s {
      var a, b := CutAtFirst(s, '\n');
      Regroup(a, '\n', b, "\n", rest);
      assert a + ['\n'] + (b + "\n" + rest) == a + "\n" + (b + "\n" + rest);
      LinesAfter(a, b + "\n" + rest);
      LinesOfTerminated(b, rest);
      StrippedCons(a, Split(b, '\n'));
      ConsConcat(StripCarriageReturn(a), Stripped(Split(b, '\n')), Lines(rest));
    } else {
      SplitLacking(s, '\n');
      LinesAfter(s, rest);
      StrippedCons(s, []);
    }
  }

  lemma StrippedOne(line: string)
    requires LineSafe(line)
    ensures Stripped(Split(line, '\n')) == [line]
  {
    SplitLacking(line, '\n');
    StrippedCons(line, []);
    assert [line] + [] == [line];
  }

  /** The first line of a text, as written and as a reader finds it. */
  function FirstLine(s: string): string {
    s[..Find(s, '\n')]
  }

  function FirstRead(s: string): string {
    StripCarriageReturn(FirstLine(s))
  }

  lemma FirstPiece(s: string)
    ensures Split(s, '\n')[0] == FirstLine(s)
    ensures '\n' !in FirstLine(s)
  {
    FindMeaning(s, '\n');
  }

  /** What is found first is never longer than the text, and is the text exactly when that is line-safe. */
  lemma FirstReadIsWholeIff(s: string)
    ensures if LineSafe(s) then FirstRead(s) == s else |FirstRead(s)| < |s|
  {
    FindMeaning(s, '\n');
    if '\n' !in s {
      assert FirstLine(s) == s;
    } else {
      assert '\n' !in FirstRead(s);
    }
  }

  // ---------- Substrings ----------

  predicate OccursAt(s: string, w: string, i: int) {
    0 <= i && i + |w| <= |s| && s[i..i + |w|] == w
  }

  /** `str::contains`. */
  predicate Contains(s: string, w: string) {
    exists i | 0 <= i <= |s| :: OccursAt(s, w, i)
  }

  lemma OccurrenceCovers(s: string, w: string, i: nat, k: nat)
    requires OccursAt(s, w, i) && i <= k < i + |w|
    ensures s[k] in w
  {
    assert s[i..i + |w|][k - i] == s[k];
  }

  lemma OccursLeft(a: string, rest: string, w: string, i: nat)
    requires i + |w| <= |a|
    ensures OccursAt(a + rest, w, i) <==> OccursAt(a, w, i)
  {
    assert (a + rest)[i..i + |w|] == a[i..i + |w|];
  }

  lemma OccursRight(front: string, b: string, w: string, k: nat)
    ensures OccursAt(front + b, w, |front| + k) <==> OccursAt(b, w, k)
  {
    if k + |w| <= |b| {
      assert (front + b)[|front| + k..|front| + k + |w|] == b[k..k + |w|];
    }
  }

  /** A word without the character `c` occurs on one side of it or the other. */
  lemma ContainsAround(a: string, c: char, b: string, w: string)
    requires c !in w
    ensures Contains(a + [c] + b, w) <==> Contains(a, w) || Contains(b, w)
  {
    var s := a + [c] + b;
    assert s == a + ([c] + b) && s == (a + [c]) + b;
    if Contains(a, w) {
      var i :| 0 <= i <= |a| && OccursAt(a, w, i);
      OccursLeft(a, [c] + b, w, i);
    }
    if Contains(b, w) {
      var k :| 0 <= k <= |b| && OccursAt(b, w, k);
      OccursRight(a + [c], b, w, k);
    }
    if Contains(s, w) {
      var i :| 0 <= i <= |s| && OccursAt(s, w, i);
      if i + |w| <= |a| {
        OccursLeft(a, [c] + b, w, i);
      } else if i > |a| {
        OccursRight(a + [c], b, w, i - |a| - 1);
      } else {
        OccurrenceCovers(s, w, i, |a|);
      }
    }
  }

  lemma {:induction false} ContainsInSplit(s: string, c: char, w: string)
    requires c !in w
    ensures Contains(s, w) <==> exists p :: p in Split(s, c) && Contains(p, w)
    decreases |s|
  {
    if c in s {
      var a, b := CutAtFirst(s, c);
      ContainsAround(a, c, b, w);
      ContainsInSplit(b, c, w);
      assert forall p :: p in Split(s, c) <==> p == a || p in Split(b, c);
    } else {
      SplitLacking(s, c);
    }
  }

  lemma NothingInEmpty(w: string)
    requires w != ""
    ensures !Contains("", w)
  {}

  lemma {:induction false} ContainsInTrimLeft(s: string, w: string)
    requires w != "" && forall c :: c in w ==> !IsSpace(c)
    ensures Contains(TrimLeft(s), w) <==> Contains(s, w)
  {
    if s != "" && IsSpace(s[0]) {
      assert s == "" + [s[0]] + s[1..];
      ContainsAround("", s[0], s[1..], w);
      NothingInEmpty(w);
      ContainsInTrimLeft(s[1..], w);
    }
  }

  lemma {:induction false} ContainsInTrimRight(s: string, w: string)
    requires w != "" && forall c :: c in w ==> !IsSpace(c)
    ensures Contains(TrimRight(s), w) <==> Contains(s, w)
  {
    if s != "" && IsSpace(s[|s| - 1]) {
      var n := |s| - 1;
      assert s == s[..n] + [s[n]] + "";
      ContainsAround(s[..n], s[n], "", w);
      NothingInEmpty(w);
      ContainsInTrimRight(s[..n], w);
    }
  }

  /** A word without whitespace survives trimming, and trimming creates none. */
  lemma ContainsInTrim(s: string, w: string)
    requires w != "" && forall c :: c in w ==> !IsSpace(c)
    ensures Contains(Trim(s), w) <==> Contains(s, w)
  {
    ContainsInTrimLeft(s, w);
    ContainsInTrimRight(TrimLeft(s), w);
  }
}
