/**
 * Environment-backed feature flags (src/crypto_trader/feature_flags.py).
 * The process environment is passed in as the sequence of `(key, value)`
 * pairs in the order `os.environ.items()` yields them.
 */
module Flags {
  import opened PyStr

  const FlagPrefix: string := "CRYPTO_FLAG_"

  /** The values, after lower-casing, that switch a flag on. */
  const TruthyValues: set<string> := {"1", "true", "yes", "on"}

  datatype FeatureFlags = FeatureFlags(flags: map<string, bool>)

  /** Whether an environment value switches its flag on. */
  predicate IsTruthy(value: string)
    ensures value in TruthyValues ==> IsTruthy(value)
    ensures IsTruthy(value) ==> 1 <= |value| <= 4
  {
    TruthyValuesAreLowerCase(value);
    Lower(value) in TruthyValues
  }

  /** The four truthy spellings are their own lower-case forms. */
  lemma TruthyValuesAreLowerCase(value: string)
    ensures value in TruthyValues ==> Lower(value) == value
  {
    if value in TruthyValues {
      assert HasNoUpper(value);
      LowerOfLowerCase(value);
    }
  }

  /** Whether the environment key `key` defines the flag `name`. */
  predicate Defines(key: string, name: string) {
    StartsWith(key, FlagPrefix) && Lower(key[|FlagPrefix|..]) == name
  }

  /** The dict `from_env` fills from `environ`, pair by pair. */
  function ParsedFlags(environ: seq<(string, string)>): map<string, bool>
    decreases |environ|
  {
    if environ == [] then map[]
    else
      var n := |environ| - 1;
      var (key, value) := environ[n];
      var earlier := ParsedFlags(environ[..n]);
      if StartsWith(key, FlagPrefix) then earlier[Lower(key[|FlagPrefix|..]) := IsTruthy(value)] else earlier
  }

  /** `FeatureFlags.from_env` */
  method FromEnv(environ: seq<(string, string)>) returns (f: FeatureFlags)
    ensures f.flags == ParsedFlags(environ)
  {
    var parsed: map<string, bool> := map[];
    for i := 0 to |environ|
      invariant parsed == ParsedFlags(environ[..i])
    {
      var (key, value) := environ[i];
      if StartsWith(key, FlagPrefix) {
        var flagName := Lower(key[|FlagPrefix|..]);
        parsed := parsed[flagName := IsTruthy(value)];
      }
      assert environ[..i + 1][..i] == environ[..i];
    }
    assert environ[..|environ|] == environ;
    f := FeatureFlags(parsed);
  }

  /** `is_enabled`: the flag under the lower-cased name, or `default`; it never raises. */
  function IsEnabled(f: FeatureFlags, name: string, default: bool): (r: bool)
    ensures Lower(name) in f.flags ==> r == f.flags[Lower(name)]
    ensures Lower(name) !in f.flags ==> r == default
  {
    var key := Lower(name);
    if key in f.flags then f.flags[key] else default
  }

  /**
   * A flag exists exactly when some key defines it, and its value is the
   * truthiness of the LAST pair that defines it.
   */
  lemma {:induction false} ParsedFlagValue(environ: seq<(string, string)>, name: string)
    ensures name in ParsedFlags(environ) <==> exists i :: 0 <= i < |environ| && Defines(environ[i].0, name)
    ensures name in ParsedFlags(environ) ==>
      exists i :: 0 <= i < |environ| && Defines(environ[i].0, name)
        && (forall j :: i < j < |environ| ==> !Defines(environ[j].0, name))
        && ParsedFlags(environ)[name] == IsTruthy(environ[i].1)
    decreases |environ|
  {
    if environ != [] {
      var n := |environ| - 1;
      var prefix := environ[..n];
      ParsedFlagValue(prefix, name);
      assert forall i :: 0 <= i < n ==> prefix[i] == environ[i];
      if Defines(environ[n].0, name) {
        assert name in ParsedFlags(environ);
      } else if name in ParsedFlags(prefix) {
        var i :| 0 <= i < n && Defines(prefix[i].0, name)
          && (forall j :: i < j < n ==> !Defines(prefix[j].0, name))
          && ParsedFlags(prefix)[name] == IsTruthy(prefix[i].1);
        assert Defines(environ[i].0, name);
      }
    }
  }

  /** Every flag name is lower case. */
  lemma {:induction false} FlagNamesAreLowerCase(environ: seq<(string, string)>, name: string)
    requires name in ParsedFlags(environ)
    ensures HasNoUpper(name)
    decreases |environ|
  {
    var n := |environ| - 1;
    var key := environ[n].0;
    if StartsWith(key, FlagPrefix) && name == Lower(key[|FlagPrefix|..]) {
      LowerIsLowerCase(key[|FlagPrefix|..]);
    } else {
      FlagNamesAreLowerCase(environ[..n], name);
    }
  }

  /**
   * The prefix test is case-sensitive: a key whose first twelve characters
   * spell the prefix in any other casing (`crypto_flag_`, `Crypto_Flag_`)
   * defines no flag at all.
   */
  lemma PrefixIsCaseSensitive(key: string)
    requires |key| >= |FlagPrefix| && Upper(key[..|FlagPrefix|]) == FlagPrefix
    requires key[..|FlagPrefix|] != FlagPrefix
    ensures !StartsWith(key, FlagPrefix)
    ensures forall name :: !Defines(key, name)
  {}

  lemma LowerIdempotent(s: string)
    ensures Lower(Lower(s)) == Lower(s)
  {
    LowerIsLowerCase(s);
    LowerOfLowerCase(Lower(s));
  }

  /** The lookup ignores case: any casing of a name finds the same flag. */
  lemma IsEnabledIgnoresCase(f: FeatureFlags, name: string, default: bool)
    ensures IsEnabled(f, name, default) == IsEnabled(f, Lower(name), default)
  {
    LowerIdempotent(name);
  }

  /**
   * What `is_enabled` reports after `from_env`: the truthiness of the last
   * pair whose key defines the name in any casing, or `default` when none
   * does.
   */
  lemma FromEnvThenIsEnabled(environ: seq<(string, string)>, name: string, default: bool)
    ensures var r := IsEnabled(FeatureFlags(ParsedFlags(environ)), name, default);
      && ((forall i :: 0 <= i < |environ| ==> !Defines(environ[i].0, Lower(name))) ==> r == default)
      && (forall i :: 0 <= i < |environ| && Defines(environ[i].0, Lower(name))
            && (forall j :: i < j < |environ| ==> !Defines(environ[j].0, Lower(name)))
            ==> r == IsTruthy(environ[i].1))
  {
    ParsedFlagValue(environ, Lower(name));
    if Lower(name) in ParsedFlags(environ) {
      var i :| 0 <= i < |environ| && Defines(environ[i].0, Lower(name))
        && (forall j :: i < j < |environ| ==> !Defines(environ[j].0, Lower(name)))
        && ParsedFlags(environ)[Lower(name)] == IsTruthy(environ[i].1);
      forall i' | 0 <= i' < |environ| && Defines(environ[i'].0, Lower(name))
            && (forall j :: i' < j < |environ| ==> !Defines(environ[j].0, Lower(name)))
        ensures i' == i
      {
      }
    }
  }

  /** A value is truthy regardless of its case. */
  lemma TruthinessIgnoresCase(value: string)
    ensures IsTruthy(value) == IsTruthy(Lower(value))
  {
    LowerIdempotent(value);
  }

  /**
   * The unit scenario: with `CRYPTO_FLAG_EXPERIMENTAL=true` in the
   * environment, `experimental` is on and an unset flag takes the default.
   */
  lemma ExperimentalFlagExample(key: string, value: string, name: string, missing: string)
    requires key == "CRYPTO_FLAG_EXPERIMENTAL" && value == "true"
    requires name == "experimental" && missing == "missing"
    ensures var f := FeatureFlags(ParsedFlags([(key, value)]));
      IsEnabled(f, name, false) && !IsEnabled(f, missing, false)
  {
    var environ := [(key, value)];
    assert environ[..0] == [];
    assert key[..|FlagPrefix|] == FlagPrefix;
    var rest := key[|FlagPrefix|..];
    assert rest == "EXPERIMENTAL";
    assert Lower(rest) == name;
    assert Lower(value) == value;
    LowerOfLowerCase(name);
    LowerOfLowerCase(missing);
    assert ParsedFlags(environ) == map[name := true];
  }
}
