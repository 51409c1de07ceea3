/** The vault's unlock password in the OS keystore (crates/custodly-vault/src/password.rs). */
module Keystores {
  import opened Wrappers
  import Text

  const GENERATED_LEN: nat := 40
  const UPPER: string := "ABCDEFGHIJKLM" + "NOPQRSTUVWXYZ"
  const LOWER: string := "abcdefghijklm" + "nopqrstuvwxyz"
  const CHARS: string := UPPER + LOWER + "0123456789" + "!@#$%^&*-_=+"

  /** One random index into the alphabet for every generated character. */
  type Randomness = r: seq<nat> | |r| == GENERATED_LEN && forall i :: 0 <= i < |r| ==> r[i] < |CHARS|
    witness seq(GENERATED_LEN, _ => 0)

  /** `generate`. */
  function Generate(random: Randomness): (password: string)
    ensures |password| == GENERATED_LEN
    ensures forall i :: 0 <= i < |password| ==> password[i] in CHARS
  {
    seq(GENERATED_LEN, i requires 0 <= i < GENERATED_LEN => CHARS[random[i]])
  }

  predicate NoBreaks(s: string) {
    '\n' !in s && '\r' !in s
  }

  lemma LettersHaveNoBreaks()
    ensures NoBreaks("ABCDEFGHIJKLM") && NoBreaks("NOPQRSTUVWXYZ")
    ensures NoBreaks("abcdefghijklm") && NoBreaks("nopqrstuvwxyz")
  {}

  lemma SymbolsHaveNoBreaks()
    ensures NoBreaks("0123456789") && NoBreaks("!@#$%^&*-_=+")
  {}

  lemma BreaklessConcat(a: string, b: string)
    requires NoBreaks(a) && NoBreaks(b)
    ensures NoBreaks(a + b)
  {}

  lemma AlphabetHasNoBreaks()
    ensures NoBreaks(CHARS)
  {
    LettersHaveNoBreaks();
    SymbolsHaveNoBreaks();
    BreaklessConcat("ABCDEFGHIJKLM", "NOPQRSTUVWXYZ");
    BreaklessConcat("abcdefghijklm", "nopqrstuvwxyz");
    BreaklessConcat(UPPER, LOWER);
    BreaklessConcat(UPPER + LOWER, "0123456789");
    BreaklessConcat(UPPER + LOWER + "0123456789", "!@#$%^&*-_=+");
  }

  lemma GeneratedIsLineSafe(random: Randomness)
    ensures Text.LineSafe(Generate(random))
  {
    AlphabetHasNoBreaks();
    var p := Generate(random);
    assert forall i :: 0 <= i < |p| ==> p[i] in CHARS;
  }

  /** What the OS keystore does with a write. */
  datatype WriteOutcome = Stored | Refused | StoredButReportedFailed

  datatype KeyringEnv = KeyringEnv(canOpen: bool, canRead: bool, random: Randomness, write: WriteOutcome)

  /** The call reaches the point of generating a password. */
  predicate Generates(store: map<string, string>, name: string, env: KeyringEnv) {
    env.canOpen && env.canRead && name !in store
  }

  /** The effect and result of one `get_or_create`. */
  function Provision(store: map<string, string>, name: string, env: KeyringEnv):
    (map<string, string>, Result<string, ()>)
  {
    if !env.canOpen || !env.canRead then (store, Err(()))
    else if name in store then (store, Ok(store[name]))
    else
      var generated := Generate(env.random);
      match env.write
      case Stored => (store[name := generated], Ok(generated))
      case Refused => (store, Err(()))
      case StoredButReportedFailed => (store[name := generated], Err(()))
  }

  class Keystore {
    var passwords: map<string, string>

    constructor ()
      ensures passwords == map[]
    {
      passwords := map[];
    }

    /** `get_or_create`. */
    method GetOrCreate(name: string, env: KeyringEnv) returns (password: Result<string, ()>)
      modifies this
      ensures (passwords, password) == Provision(old(passwords), name, env)
    {
      if !env.canOpen {
        return Err(());
      }
      if !env.canRead {
        return Err(());
      }
      if name in passwords {
        return Ok(passwords[name]);
      }
      var generated := Generate(env.random);
      if env.write != Refused {
        passwords := passwords[name := generated];
      }
      return if env.write == Stored then Ok(generated) else Err(());
    }
  }

  // ---------- Histories ----------

  datatype Call = Call(name: string, env: KeyringEnv)

  function After(store: map<string, string>, calls: seq<Call>): map<string, string>
    decreases |calls|
  {
    if calls == [] then store
    else After(Provision(store, calls[0].name, calls[0].env).0, calls[1..])
  }

  function Results(store: map<string, string>, calls: seq<Call>): (results: seq<Result<string, ()>>)
    ensures |results| == |calls|
    decreases |calls|
  {
    if calls == [] then []
    else
      var (store', result) := Provision(store, calls[0].name, calls[0].env);
      [result] + Results(store', calls[1..])
  }

  /**
    Stable unlock: over any history of calls for any vault names, an existing
    password is never replaced, and every successful call for a name, early or
    late, returned the one password the keystore ends up with for it.
   */
  lemma {:induction false} StableUnlock(store: map<string, string>, calls: seq<Call>)
    ensures forall name :: name in store ==> name in After(store, calls) && After(store, calls)[name] == store[name]
    ensures forall i :: 0 <= i < |calls| && Results(store, calls)[i].Ok? ==>
                          && calls[i].name in After(store, calls)
                          && After(store, calls)[calls[i].name] == Results(store, calls)[i].value
    decreases |calls|
  {
    if calls != [] {
      var (store', result) := Provision(store, calls[0].name, calls[0].env);
      StableUnlock(store', calls[1..]);
    }
  }

  /** How often a password is generated for `name`, and how often the keystore refuses to keep it. */
  function Generations(store: map<string, string>, calls: seq<Call>, name: string, onlyRefused: bool): nat
    decreases |calls|
  {
    if calls == [] then 0
    else
      var counted := && calls[0].name == name
                     && Generates(store, name, calls[0].env)
                     && (onlyRefused ==> calls[0].env.write == Refused);
      (if counted then 1 else 0)
      + Generations(Provision(store, calls[0].name, calls[0].env).0, calls[1..], name, onlyRefused)
  }

  /** Every generated password but the refused ones is kept, and at most one is ever kept per name. */
  lemma {:induction false} GeneratedOnce(store: map<string, string>, calls: seq<Call>, name: string)
    ensures Generations(store, calls, name, false) ==
            Generations(store, calls, name, true) + (if name !in store && name in After(store, calls) then 1 else 0)
    ensures (forall i :: 0 <= i < |calls| ==> calls[i].name != name) ==> Generations(store, calls, name, false) == 0
    decreases |calls|
  {
    if calls != [] {
      var store' := Provision(store, calls[0].name, calls[0].env).0;
      GeneratedOnce(store', calls[1..], name);
      StableUnlock(store', calls[1..]);
    }
  }

  // ---------- What is generated, and when ----------

  /** Consecutive characters. */
  predicate Range(s: string, first: char) {
    forall i :: 0 <= i < |s| ==> s[i] as int == first as int + i
  }

  lemma RangeConcat(a: string, b: string, first: char, next: char)
    requires Range(a, first) && Range(b, next) && next as int == first as int + |a|
    ensures Range(a + b, first)
  {}

  lemma UpperRange()
    ensures Range("ABCDEFGHIJKLM", 'A') && Range("NOPQRSTUVWXYZ", 'N')
  {}

  lemma LowerRange()
    ensures Range("abcdefghijklm", 'a') && Range("nopqrstuvwxyz", 'n')
  {}

  lemma DigitRange()
    ensures Range("0123456789", '0')
  {}

  lemma AlphabetParts(upper: string, lower: string, digits: string, symbols: string)
    requires |upper| == 26 && |lower| == 26 && |digits| == 10 && |symbols| == 12
    ensures var s := upper + lower + digits + symbols;
            |s| == 74 && s[..26] == upper && s[26..52] == lower && s[52..62] == digits && s[62..] == symbols
  {}

  /** The 74 characters a password is made of: the letters, the digits and twelve others. */
  lemma AlphabetTable()
    ensures |CHARS| == 74
    ensures Range(CHARS[..26], 'A') && Range(CHARS[26..52], 'a') && Range(CHARS[52..62], '0')
    ensures CHARS[62..] == "!@#$%^&*-_=+"
  {
    UpperRange();
    LowerRange();
    DigitRange();
    RangeConcat("ABCDEFGHIJKLM", "NOPQRSTUVWXYZ", 'A', 'N');
    RangeConcat("abcdefghijklm", "nopqrstuvwxyz", 'a', 'n');
    AlphabetParts(UPPER, LOWER, "0123456789", "!@#$%^&*-_=+");
  }

  predicate Distinct(s: string) {
    forall i, j :: 0 <= i < j < |s| ==> s[i] != s[j]
  }

  lemma SymbolsAreDistinct()
    ensures Distinct("!@#$%^&*-_=+")
    ensures forall i :: 0 <= i < 12 ==>
              var c := "!@#$%^&*-_=+"[i]; !('A' <= c <= 'Z') && !('a' <= c <= 'z') && !('0' <= c <= '9')
  {}

  lemma FourPartsDistinct(upper: string, lower: string, digits: string, symbols: string)
    requires |upper| == 26 && |lower| == 26 && |digits| == 10 && |symbols| == 12
    requires Range(upper, 'A') && Range(lower, 'a') && Range(digits, '0') && Distinct(symbols)
    requires forall i :: 0 <= i < 12 ==>
               !('A' <= symbols[i] <= 'Z') && !('a' <= symbols[i] <= 'z') && !('0' <= symbols[i] <= '9')
    ensures Distinct(upper + lower + digits + symbols)
  {
    var s := upper + lower + digits + symbols;
    AlphabetParts(upper, lower, digits, symbols);
    forall i, j | 0 <= i < j < |s| ensures s[i] != s[j] {
      assert s[i] == if i < 26 then upper[i] else if i < 52 then lower[i - 26]
                     else if i < 62 then digits[i - 52] else symbols[i - 62];
      assert s[j] == if j < 26 then upper[j] else if j < 52 then lower[j - 26]
                     else if j < 62 then digits[j - 52] else symbols[j - 62];
    }
  }

  lemma AlphabetIsDistinct()
    ensures Distinct(CHARS)
  {
    UpperRange();
    LowerRange();
    DigitRange();
    SymbolsAreDistinct();
    RangeConcat("ABCDEFGHIJKLM", "NOPQRSTUVWXYZ", 'A', 'N');
    RangeConcat("abcdefghijklm", "nopqrstuvwxyz", 'a', 'n');
    FourPartsDistinct(UPPER, LOWER, "0123456789", "!@#$%^&*-_=+");
  }

  /** Forty characters, each the one its random index picks, so that no two draws make the same password. */
  lemma GenerateMeaning(a: Randomness, b: Randomness)
    ensures |Generate(a)| == 40 && forall i :: 0 <= i < 40 ==> Generate(a)[i] == CHARS[a[i]]
    ensures Generate(a) == Generate(b) <==> a == b
  {
    AlphabetIsDistinct();
    if Generate(a) == Generate(b) {
      forall i | 0 <= i < 40 ensures a[i] == b[i] {
        assert Generate(a)[i] == Generate(b)[i];
      }
    }
  }

  /**
    A call succeeds just when the keystore can be opened and read and either holds
    a password already or stores the new one and says so; it changes the keystore
    just when it holds none and stores the new one, said or not.
   */
  lemma ProvisionMeaning(store: map<string, string>, name: string, env: KeyringEnv)
    ensures var (store', result) := Provision(store, name, env);
            && (result.Ok? <==> env.canOpen && env.canRead && (name in store || env.write == Stored))
            && (result.Ok? ==> name in store' && result.value == store'[name])
            && (store' == store <==> !env.canOpen || !env.canRead || name in store || env.write == Refused)
            && (store' != store ==> store' == store[name := Generate(env.random)])
  {
    if name !in store {
      assert name in store[name := Generate(env.random)];
    }
  }
}
