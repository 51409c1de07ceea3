/** `--permission` values and the request built from them (crates/custodly-cli/src/main.rs). */
module CommandLine {
  import opened Wrappers
  import opened Text
  import opened ScopeAlgebra
  import opened OrderedMaps
  import opened Github

  /** `parse_permission`; the error text is not modelled. */
  function ParsePermission(raw: string): Result<(string, string), ()> {
    match SplitOnce(raw, ':')
    case None => Err(())
    case Some((resource, level)) =>
      if resource == "" || level == "" then Err(()) else Ok((resource, level))
  }

  ghost predicate Accepted(raws: seq<string>) {
    forall i :: 0 <= i < |raws| ==> ParsePermission(raws[i]).Ok?
  }

  function ParseAll(raws: seq<string>): (pairs: seq<(string, string)>)
    requires Accepted(raws)
    ensures |pairs| == |raws|
  {
    seq(|raws|, i requires 0 <= i < |raws| => ParsePermission(raws[i]).value)
  }

  /** The permission map of a request: the parsed values collected into a map. */
  function Requested(raws: seq<string>): StringMap
    requires Accepted(raws)
  {
    CollectSorted(ParseAll(raws));
    Collect(ParseAll(raws))
  }

  /** Printing an accepted value the way a scope string prints it gives the value back. */
  lemma PermissionRoundTrip(raw: string)
    requires ParsePermission(raw).Ok?
    ensures var (resource, level) := ParsePermission(raw).value;
            resource + ":" + level == raw && ':' !in resource
  {
    FindMeaning(raw, ':');
  }

  /** A value is accepted just when something precedes its first `:` and something follows it. */
  lemma PermissionAcceptedIff(raw: string)
    ensures ParsePermission(raw).Ok? <==>
            exists resource, level :: && resource != "" && level != "" && ':' !in resource
                                      && raw == resource + ":" + level
  {
    if resource, level :| resource != "" && level != "" && ':' !in resource && raw == resource + ":" + level {
      assert raw == resource + [':'] + level;
      SplitOnceAfter(resource, ':', level);
    }
    if ParsePermission(raw).Ok? {
      var (resource, level) := ParsePermission(raw).value;
      PermissionRoundTrip(raw);
      assert raw == resource + ":" + level;
    }
  }

  /** What is printed for a request is some of what was typed. */
  lemma RequestedPrintsRaws(raws: seq<string>, printed: string)
    requires Accepted(raws) && printed in Printed(Requested(raws))
    ensures printed in raws
  {
    var m := Requested(raws);
    var pairs := ParseAll(raws);
    var i :| 0 <= i < |m| && Printed(m)[i] == printed;
    GetIsEntry(m, m[i].key);
    assert m[i] == Entry(m[i].key, m[i].value) && m[i] in m;
    CollectGet(pairs, m[i].key, m[i].value);
    var k: nat :| LastOfKey(pairs, k) && pairs[k] == (m[i].key, m[i].value);
    PermissionRoundTrip(raws[k]);
  }

  ghost predicate DistinctResources(raws: seq<string>)
    requires Accepted(raws)
  {
    forall i, j :: 0 <= i < j < |raws| ==> ParseAll(raws)[i].0 != ParseAll(raws)[j].0
  }

  lemma RawsArePrinted(raws: seq<string>, raw: string)
    requires Accepted(raws) && DistinctResources(raws) && raw in raws
    ensures raw in Printed(Requested(raws))
  {
    var m := Requested(raws);
    var pairs := ParseAll(raws);
    var k :| 0 <= k < |raws| && raws[k] == raw;
    assert LastOfKey(pairs, k);
    CollectGet(pairs, pairs[k].0, pairs[k].1);
    GetIsEntry(m, pairs[k].0);
    var i :| 0 <= i < |m| && m[i] == Entry(pairs[k].0, pairs[k].1);
    PermissionRoundTrip(raw);
    assert Printed(m)[i] == raw;
  }

  lemma JoinedPieces(parts: seq<string>)
    requires parts != []
    ensures Split(Join(parts, ","), ',') == SplitAll(parts, ',')
  {
    assert "," == [','];
    SplitJoin(parts, ',');
  }

  lemma SplitAllOfSubset(a: seq<string>, b: seq<string>, x: string)
    requires forall p :: p in a ==> p in b
    requires x in SplitAll(a, ',')
    ensures x in SplitAll(b, ',')
  {
    InSplitAll(a, ',', x);
    InSplitAll(b, ',', x);
  }

  lemma JoinedTierOfSubset(a: seq<string>, b: seq<string>)
    requires a != [] && b != [] && forall p :: p in a ==> p in b
    ensures ScopeTier(Join(a, ",")).AtMost(ScopeTier(Join(b, ",")))
  {
    JoinedPieces(a);
    JoinedPieces(b);
    forall x | x in SplitAll(a, ',') ensures x in SplitAll(b, ',') {
      SplitAllOfSubset(a, b, x);
    }
    TierDependsOnPieces(Join(a, ","), Join(b, ","));
  }

  lemma RequestedNonEmpty(raws: seq<string>)
    requires Accepted(raws) && raws != []
    ensures Requested(raws) != []
  {
    var pairs := ParseAll(raws);
    var last := pairs[|pairs| - 1];
    assert LastOfKey(pairs, |pairs| - 1);
    CollectGet(pairs, last.0, last.1);
  }

  /**
    Collecting the values of the command line, last one per resource winning,
    never raises the tier above that of everything typed, and loses nothing
    when no resource is named twice.
   */
  lemma RequestNormalisation(raws: seq<string>)
    requires raws != [] && Accepted(raws)
    ensures ScopeTier(ScopeString(Requested(raws))).AtMost(ScopeTier(Join(raws, ",")))
    ensures DistinctResources(raws) ==> ScopeTier(ScopeString(Requested(raws))) == ScopeTier(Join(raws, ","))
  {
    RequestedNonEmpty(raws);
    var printed := Printed(Requested(raws));
    forall p | p in printed ensures p in raws { RequestedPrintsRaws(raws, p); }
    JoinedTierOfSubset(printed, raws);
    if DistinctResources(raws) {
      forall p | p in raws ensures p in printed { RawsArePrinted(raws, p); }
      JoinedTierOfSubset(raws, printed);
    }
  }
}
