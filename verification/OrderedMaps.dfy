/**
  `BTreeMap<String, String>`: entries in strictly increasing key order, so that
  a loop over the sequence visits them as the Rust iterator does.
 */
module OrderedMaps {
  import opened Wrappers

  datatype Entry = Entry(key: string, value: string)

  /** The order of strings, by scalar values from the front. */
  predicate Less(a: string, b: string) {
    b != "" && (a == "" || a[0] < b[0] || (a[0] == b[0] && Less(a[1..], b[1..])))
  }

  lemma {:induction false} LessIrreflexive(a: string)
    ensures !Less(a, a)
  {
    if a != "" { LessIrreflexive(a[1..]); }
  }

  lemma {:induction false} LessTransitive(a: string, b: string, c: string)
    requires Less(a, b) && Less(b, c)
    ensures Less(a, c)
  {
    if a != "" && a[0] == b[0] && b[0] == c[0] { LessTransitive(a[1..], b[1..], c[1..]); }
  }

  lemma {:induction false} LessTotal(a: string, b: string)
    ensures Less(a, b) || a == b || Less(b, a)
  {
    if a != "" && b != "" && a[0] == b[0] {
      LessTotal(a[1..], b[1..]);
      assert a == [a[0]] + a[1..] && b == [b[0]] + b[1..];
    }
  }

  ghost predicate Sorted(entries: seq<Entry>) {
    forall i, j :: 0 <= i < j < |entries| ==> Less(entries[i].key, entries[j].key)
  }

  type StringMap = entries: seq<Entry> | Sorted(entries) ghost witness []

  /** `BTreeMap::get`. */
  function Lookup(m: seq<Entry>, key: string): Option<string> {
    if m == [] then None
    else if m[0].key == key then Some(m[0].value)
    else Lookup(m[1..], key)
  }

  /** `BTreeMap::insert`: the newest value of a key wins. */
  function Insert(m: seq<Entry>, key: string, value: string): seq<Entry> {
    if m == [] || Less(key, m[0].key) then [Entry(key, value)] + m
    else if m[0].key == key then [Entry(key, value)] + m[1..]
    else [m[0]] + Insert(m[1..], key, value)
  }

  /** Collecting an iterator of pairs inserts them one after the other. */
  function Collect(pairs: seq<(string, string)>): seq<Entry> {
    if pairs == [] then []
    else
      var last := pairs[|pairs| - 1];
      Insert(Collect(pairs[..|pairs| - 1]), last.0, last.1)
  }

  lemma {:induction false} GetIsEntry(m: seq<Entry>, key: string)
    requires Sorted(m)
    ensures forall value :: Lookup(m, key) == Some(value) <==> Entry(key, value) in m
  {
    if m != [] {
      GetIsEntry(m[1..], key);
      assert forall e :: e in m <==> e == m[0] || e in m[1..];
      if m[0].key == key {
        LessIrreflexive(key);
        assert forall e :: e in m[1..] ==> Less(key, e.key);
      }
    }
  }

  lemma {:induction false} InsertKeys(m: seq<Entry>, key: string, value: string)
    ensures forall e :: e in Insert(m, key, value) ==> e == Entry(key, value) || e in m
  {
    if !(m == [] || Less(key, m[0].key)) && m[0].key != key {
      InsertKeys(m[1..], key, value);
    }
  }

  lemma {:induction false} InsertSorted(m: seq<Entry>, key: string, value: string)
    requires Sorted(m)
    ensures Sorted(Insert(m, key, value))
  {
    if m == [] {
    } else if Less(key, m[0].key) {
      forall j | 0 < j < |m| ensures Less(key, m[j].key) { LessTransitive(key, m[0].key, m[j].key); }
    } else if m[0].key != key {
      LessTotal(key, m[0].key);
      InsertSorted(m[1..], key, value);
      InsertKeys(m[1..], key, value);
      var r := Insert(m[1..], key, value);
      assert forall e :: e in r ==> Less(m[0].key, e.key);
    }
  }

  lemma {:induction false} InsertGet(m: seq<Entry>, key: string, value: string, k: string)
    ensures Lookup(Insert(m, key, value), k) == if k == key then Some(value) else Lookup(m, k)
  {
    if !(m == [] || Less(key, m[0].key)) && m[0].key != key {
      InsertGet(m[1..], key, value, k);
    }
  }

  lemma {:induction false} CollectSorted(pairs: seq<(string, string)>)
    ensures Sorted(Collect(pairs))
  {
    if pairs != [] {
      var n := |pairs| - 1;
      CollectSorted(pairs[..n]);
      InsertSorted(Collect(pairs[..n]), pairs[n].0, pairs[n].1);
    }
  }

  /** The pair at `i` is the last one with its key. */
  ghost predicate LastOfKey(pairs: seq<(string, string)>, i: nat) {
    i < |pairs| && forall j :: i < j < |pairs| ==> pairs[j].0 != pairs[i].0
  }

  ghost predicate Lasts(pairs: seq<(string, string)>, key: string, value: string) {
    exists i: nat :: LastOfKey(pairs, i) && pairs[i] == (key, value)
  }

  lemma LastKept(init: seq<(string, string)>, last: (string, string), i: nat)
    requires i < |init|
    ensures LastOfKey(init + [last], i) <==> LastOfKey(init, i) && last.0 != init[i].0
  {
    var pairs := init + [last];
    assert pairs[i] == init[i] && pairs[|init|] == last;
    if LastOfKey(pairs, i) {
      forall j | i < j < |init| ensures init[j].0 != init[i].0 { assert pairs[j] == init[j]; }
    }
  }

  /** Adding a pair at the end leaves the last pairs of the other keys where they are. */
  lemma LastsSnoc(init: seq<(string, string)>, last: (string, string), key: string, value: string)
    ensures Lasts(init + [last], key, value) <==> if key == last.0 then value == last.1 else Lasts(init, key, value)
  {
    var pairs := init + [last];
    assert LastOfKey(pairs, |init|) && pairs[|init|] == last;
    if Lasts(init, key, value) {
      var i: nat :| LastOfKey(init, i) && init[i] == (key, value);
      LastKept(init, last, i);
      assert pairs[i] == (key, value);
    }
    if Lasts(pairs, key, value) {
      var i: nat :| LastOfKey(pairs, i) && pairs[i] == (key, value);
      if i < |init| {
        LastKept(init, last, i);
        assert init[i] == (key, value);
      }
    }
  }

  /** A collected map holds exactly the last pair of every key. */
  lemma {:induction false} CollectGet(pairs: seq<(string, string)>, key: string, value: string)
    ensures Lookup(Collect(pairs), key) == Some(value) <==> Lasts(pairs, key, value)
  {
    if pairs != [] {
      var n := |pairs| - 1;
      CollectGet(pairs[..n], key, value);
      InsertGet(Collect(pairs[..n]), pairs[n].0, pairs[n].1, key);
      LastsSnoc(pairs[..n], pairs[n], key, value);
      assert pairs == pairs[..n] + [pairs[n]];
    }
  }

  /** Byte order: one string comes before another where they first differ, or where it ends. */
  lemma {:induction false} LessIff(a: string, b: string)
    ensures Less(a, b) <==>
            exists k :: && 0 <= k <= |a| && k < |b| && a[..k] == b[..k]
                        && (k == |a| || (a[k] as int) < (b[k] as int))
  {
    if Less(a, b) {
      if a == "" || a[0] < b[0] {
        assert a[..0] == b[..0];
      } else {
        LessIff(a[1..], b[1..]);
        var k :| && 0 <= k <= |a[1..]| && k < |b[1..]| && a[1..][..k] == b[1..][..k]
                 && (k == |a[1..]| || (a[1..][k] as int) < (b[1..][k] as int));
        assert a[..k + 1] == [a[0]] + a[1..][..k] && b[..k + 1] == [b[0]] + b[1..][..k];
      }
    }
    if k :| 0 <= k <= |a| && k < |b| && a[..k] == b[..k] && (k == |a| || (a[k] as int) < (b[k] as int)) {
      if k > 0 {
        assert a[..k][0] == b[..k][0];
        assert a[1..][..k - 1] == a[..k][1..] && b[1..][..k - 1] == b[..k][1..];
        LessIff(a[1..], b[1..]);
      }
    }
  }
}
