/**
 * Configuration loading: the default file, the user's file and a custom
 * file are deep-merged in that order, then `VANTA_*` environment variables
 * override single values.  File contents are given as the dictionaries
 * `load_yaml` returns (an empty dictionary for a file that is missing or
 * unreadable), and the environment as its list of (name, value) pairs.
 */
module Settings {
  import opened Wrappers
  import opened Json
  import opened Text
  import opened Seqs

  /**
   * `deep_merge`: every key of either side; where both sides hold
   * dictionaries the result holds their merge, otherwise the override's
   * value wins.  Neither argument is changed.
   */
  function DeepMerge(base: JsonObject, override: JsonObject): (r: JsonObject)
    ensures r.Keys == base.Keys + override.Keys
    decreases JObj(override)
  {
    map k | k in base.Keys + override.Keys ::
      if k in override then
        (if k in base && base[k].JObj? && override[k].JObj? then JObj(DeepMerge(base[k].fields, override[k].fields))
         else override[k])
      else base[k]
  }

  /** Merging an empty override gives the base back. */
  lemma MergeEmpty(base: JsonObject)
    ensures DeepMerge(base, map[]) == base
  {
  }

  /**
   * Per key: an override key whose two sides are not both dictionaries takes
   * the override's value; two dictionaries are merged; a key only in the base
   * keeps the base's value.
   */
  lemma MergeRules(base: JsonObject, override: JsonObject, k: string)
    ensures k in override && !(k in base && base[k].JObj? && override[k].JObj?) ==> DeepMerge(base, override)[k] == override[k]
    ensures k in override && k in base && base[k].JObj? && override[k].JObj? ==>
      DeepMerge(base, override)[k] == JObj(DeepMerge(base[k].fields, override[k].fields))
    ensures k in base && k !in override ==> DeepMerge(base, override)[k] == base[k]
  {
  }

  /** Merging a configuration with itself changes nothing, at any depth. */
  lemma {:induction false} MergeSelf(m: JsonObject)
    ensures DeepMerge(m, m) == m
    decreases JObj(m)
  {
    forall k | k in m && m[k].JObj?
      ensures DeepMerge(m[k].fields, m[k].fields) == m[k].fields
    {
      MergeSelf(m[k].fields);
    }
  }

  /** Applying the same override twice is the same as applying it once. */
  lemma {:induction false} MergeOverrideTwice(base: JsonObject, override: JsonObject)
    ensures DeepMerge(DeepMerge(base, override), override) == DeepMerge(base, override)
    decreases JObj(override)
  {
    var once := DeepMerge(base, override);
    forall k | k in override && override[k].JObj?
      ensures once[k].JObj? && DeepMerge(once[k].fields, override[k].fields) == once[k].fields
    {
      if k in base && base[k].JObj? {
        MergeOverrideTwice(base[k].fields, override[k].fields);
      } else {
        MergeSelf(override[k].fields);
      }
    }
  }

  /** `s.replace(".", "", 1)`. */
  function RemoveFirstDot(s: string): string {
    var k := FirstIndex(s, '.');
    if k < |s| then s[..k] + s[k + 1..] else s
  }

  function Pow10(n: nat): (p: nat)
    ensures p >= 1
  {
    if n == 0 then 1 else 10 * Pow10(n - 1)
  }

  /** `float(s)` for digits with one decimal point: the integer part plus the fraction. */
  function DecimalValue(s: string): real
    requires IsDigits(RemoveFirstDot(s))
  {
    var k := FirstIndex(s, '.');
    if k == |s| then DigitsValue(s) as real
    else
      assert s[..k] == RemoveFirstDot(s)[..k];
      assert s[k + 1..] == RemoveFirstDot(s)[k..];
      DigitsValue(s[..k]) as real + DigitsValue(s[k + 1..]) as real / Pow10(|s| - k - 1) as real
  }

  /** The value an environment variable sets: a boolean, an integer, a float, or the text itself. */
  function ParseEnvValue(v: string): Json {
    if Lower(v) == "true" then JBool(true)
    else if Lower(v) == "false" then JBool(false)
    else if IsDigits(v) then JInt(DigitsValue(v))
    else if IsDigits(RemoveFirstDot(v)) then JFloat(DecimalValue(v))
    else JStr(v)
  }

  /**
   * A value is a boolean exactly when it lowercases to "true" or "false", and
   * then it is that boolean, whatever its letter case ("TRUE", "False").
   */
  lemma ParseBooleans(v: string)
    ensures ParseEnvValue(v).JBool? <==> Lower(v) == "true" || Lower(v) == "false"
    ensures Lower(v) == "true" ==> ParseEnvValue(v) == JBool(true)
    ensures Lower(v) == "false" ==> ParseEnvValue(v) == JBool(false)
    ensures ParseEnvValue("TRUE") == JBool(true) && ParseEnvValue("False") == JBool(false)
  {
    assert Lower("TRUE") == "true";
    assert Lower("False") == "false";
  }

  /** A string of decimal digits, leading zeros included, is the integer it denotes. */
  lemma ParseDigits(v: string)
    requires IsDigits(v)
    ensures ParseEnvValue(v) == JInt(DigitsValue(v))
  {
    assert Lower(v)[0] == LowerChar(v[0]) == v[0];
    assert "true"[0] == 't' && "false"[0] == 'f';
  }

  /** In digits, a point, digits, the first point is the one between them. */
  lemma DotBetweenDigits(a: string, b: string)
    requires forall i :: 0 <= i < |a| ==> IsDigit(a[i])
    ensures (a + "." + b)[|a|] == '.'
    ensures FirstIndex(a + "." + b, '.') == |a|
    ensures (a + "." + b)[..|a|] == a && (a + "." + b)[|a| + 1..] == b
    ensures RemoveFirstDot(a + "." + b) == a + b
  {
    var v := a + "." + b;
    assert v[|a|] == '.';
    assert v[..|a|] == a && v[|a| + 1..] == b;
  }

  /** A value holding a '.' lowercases to neither "true" nor "false", and is not all digits. */
  lemma DotNotBoolean(v: string, k: nat)
    requires k < |v| && v[k] == '.'
    ensures Lower(v) != "true" && Lower(v) != "false"
    ensures !IsDigits(v)
  {
    assert !IsDigit(v[k]);
    assert Lower(v)[k] == '.';
    if |v| == 4 {
      assert "true"[k] != '.';
    } else if |v| == 5 {
      assert "false"[k] != '.';
    }
  }

  /** The digits on both sides of one point, as `float` reads them. */
  lemma DecimalOfParts(a: string, b: string)
    requires forall i :: 0 <= i < |a| ==> IsDigit(a[i])
    requires forall i :: 0 <= i < |b| ==> IsDigit(b[i])
    requires |a| + |b| > 0
    ensures IsDigits(RemoveFirstDot(a + "." + b))
    ensures DecimalValue(a + "." + b) == DigitsValue(a) as real + DigitsValue(b) as real / Pow10(|b|) as real
  {
    var v := a + "." + b;
    DotBetweenDigits(a, b);
    forall i | 0 <= i < |a + b|
      ensures IsDigit((a + b)[i])
    {
      if i < |a| {
        assert (a + b)[i] == a[i];
      } else {
        assert (a + b)[i] == b[i - |a|];
      }
    }
    assert |v| - |a| - 1 == |b|;
  }

  /**
   * Digits, one decimal point, digits (either side may be empty, not both) is
   * the float of the integer part plus the fraction.
   */
  lemma ParseDecimal(a: string, b: string)
    requires forall i :: 0 <= i < |a| ==> IsDigit(a[i])
    requires forall i :: 0 <= i < |b| ==> IsDigit(b[i])
    requires |a| + |b| > 0
    ensures ParseEnvValue(a + "." + b) == JFloat(DigitsValue(a) as real + DigitsValue(b) as real / Pow10(|b|) as real)
  {
    var v := a + "." + b;
    DotBetweenDigits(a, b);
    DotNotBoolean(v, |a|);
    DecimalOfParts(a, b);
    FloatBranch(v);
  }

  /** The float branch: not a boolean, not all digits, but digits once the first point is removed. */
  lemma FloatBranch(v: string)
    requires Lower(v) != "true" && Lower(v) != "false" && !IsDigits(v)
    requires IsDigits(RemoveFirstDot(v))
    ensures ParseEnvValue(v) == JFloat(DecimalValue(v))
  {
  }

  /** A value that is not a boolean and holds a character other than a digit or '.' stays text. */
  lemma ParseOtherIsString(v: string, i: nat)
    requires Lower(v) != "true" && Lower(v) != "false"
    requires i < |v| && !IsDigit(v[i]) && v[i] != '.'
    ensures ParseEnvValue(v) == JStr(v)
  {
    var k := FirstIndex(v, '.');
    var w := RemoveFirstDot(v);
    if k < |v| {
      if i < k {
        assert w[i] == v[i];
      } else {
        assert w[i - 1] == v[i];
      }
    } else {
      assert w[i] == v[i];
    }
  }

  /** A rendered natural number parses back to that integer. */
  lemma ParseNatural(n: nat)
    ensures ParseEnvValue(NatToString(n)) == JInt(n)
  {
    var s := NatToString(n);
    assert Lower(s)[0] == LowerChar(s[0]);
    assert Lower(s) != "true" && Lower(s) != "false";
    NatToStringRoundTrip(n);
  }

  /** A leading minus sign is not a digit, so "-1" stays a string. */
  lemma ParseMinusOne()
    ensures ParseEnvValue("-1") == JStr("-1")
  {
    assert Lower("-1") == "-1";
    assert FirstIndex("-1", '.') == 2;
    assert !IsDigits("-1");
  }

  /** "0.5" has one decimal point between digits, so it is a float. */
  lemma ParseHalf()
    ensures ParseEnvValue("0.5") == JFloat(0.5)
  {
    assert Lower("0.5") == "0.5";
    assert FirstIndex("0.5", '.') == 1;
    assert RemoveFirstDot("0.5") == "05";
    assert !IsDigits("0.5");
    assert DigitsValue("0") == 0 && DigitsValue("5") == 5;
  }

  const EnvPrefix: string := "VANTA_"

  /** The key path a variable name designates: the lowercased rest after the prefix, split at underscores. */
  function KeyPath(name: string): (path: Option<seq<string>>)
    ensures path.Some? ==> |path.value| >= 1
  {
    if |name| >= |EnvPrefix| && name[..|EnvPrefix|] == EnvPrefix
    then Some(Split(Lower(name[|EnvPrefix|..]), '_'))
    else None
  }

  /** The value at a key path, if every step is a dictionary holding the key. */
  function GetPath(m: JsonObject, path: seq<string>): Option<Json>
    requires |path| >= 1
    decreases |path|
  {
    if path[0] !in m then None
    else if |path| == 1 then Some(m[path[0]])
    else if m[path[0]].JObj? then GetPath(m[path[0]].fields, path[1..])
    else None
  }

  /**
   * The walk of `apply_env_overrides`: missing intermediate dictionaries are
   * created; an intermediate value that is not a dictionary makes Python
   * raise, which is `None` here.
   */
  function SetPath(m: JsonObject, path: seq<string>, v: Json): Option<JsonObject>
    requires |path| >= 1
    decreases |path|
  {
    if |path| == 1 then Some(m[path[0] := v])
    else
      var sub := if path[0] in m then m[path[0]] else JObj(map[]);
      if !sub.JObj? then None
      else match SetPath(sub.fields, path[1..], v)
        case None => None
        case Some(f) => Some(m[path[0] := JObj(f)])
  }

  /** After a successful walk the path holds the value, and other top-level keys are untouched. */
  lemma {:induction false} SetThenGet(m: JsonObject, path: seq<string>, v: Json)
    requires |path| >= 1 && SetPath(m, path, v).Some?
    ensures GetPath(SetPath(m, path, v).value, path) == Some(v)
    ensures var r := SetPath(m, path, v).value;
      r.Keys == m.Keys + {path[0]} && forall k :: k in m && k != path[0] ==> r[k] == m[k]
    decreases |path|
  {
    if |path| > 1 {
      var sub := if path[0] in m then m[path[0]] else JObj(map[]);
      SetThenGet(sub.fields, path[1..], v);
    }
  }

  /** A path through keys that do not exist yet always succeeds, creating the dictionaries on the way. */
  lemma {:induction false} FreshPathSucceeds(m: JsonObject, path: seq<string>, v: Json)
    requires |path| >= 1 && path[0] !in m
    ensures SetPath(m, path, v).Some?
    decreases |path|
  {
    if |path| > 1 {
      FreshPathSucceeds(map[], path[1..], v);
    }
  }

  /** One environment variable applied to the configuration. */
  function ApplyEntry(config: JsonObject, entry: (string, string)): Option<JsonObject> {
    match KeyPath(entry.0)
    case None => Some(config)
    case Some(path) => SetPath(config, path, ParseEnvValue(entry.1))
  }

  /** All variables, in the environment's order; `None` if one of them makes Python raise. */
  function ApplyAll(config: JsonObject, env: seq<(string, string)>): Option<JsonObject>
    decreases |env|
  {
    if env == [] then Some(config)
    else match ApplyEntry(config, env[0])
      case None => None
      case Some(c) => ApplyAll(c, env[1..])
  }

  /** Whether a variable's key path starts at top-level key `k`. */
  predicate Targets(name: string, k: string) {
    KeyPath(name).Some? && KeyPath(name).value[0] == k
  }

  /** Variables without the prefix are ignored. */
  lemma {:induction false} UnprefixedIgnored(config: JsonObject, env: seq<(string, string)>)
    requires forall i :: 0 <= i < |env| ==> KeyPath(env[i].0).None?
    ensures ApplyAll(config, env) == Some(config)
    decreases |env|
  {
    if env != [] {
      UnprefixedIgnored(config, env[1..]);
    }
  }

  /** A top-level key no variable targets keeps its presence and value. */
  lemma {:induction false} UntargetedKeyKept(config: JsonObject, env: seq<(string, string)>, k: string)
    requires ApplyAll(config, env).Some?
    requires forall i :: 0 <= i < |env| ==> !Targets(env[i].0, k)
    ensures var r := ApplyAll(config, env).value; (k in r <==> k in config) && (k in config ==> r[k] == config[k])
    decreases |env|
  {
    if env != [] {
      var c := ApplyEntry(config, env[0]).value;
      if KeyPath(env[0].0).Some? {
        SetThenGet(config, KeyPath(env[0].0).value, ParseEnvValue(env[0].1));
      }
      UntargetedKeyKept(c, env[1..], k);
    }
  }

  /** `load_config`: defaults, then the user's file, then the custom file, then the environment. */
  function LoadConfig(defaults: JsonObject, user: Option<JsonObject>, custom: Option<JsonObject>, env: seq<(string, string)>)
    : Option<JsonObject>
  {
    var c1 := if user.Some? then DeepMerge(defaults, user.value) else defaults;
    var c2 := if custom.Some? then DeepMerge(c1, custom.value) else c1;
    ApplyAll(c2, env)
  }

  /**
   * Later sources win: for a top-level key no variable targets, a plain
   * (non-dictionary) value in the custom file is the result; failing that,
   * one in the user's file; a key neither file has keeps the default.
   */
  lemma LaterSourcesWin(defaults: JsonObject, user: Option<JsonObject>, custom: Option<JsonObject>,
                        env: seq<(string, string)>, k: string)
    requires LoadConfig(defaults, user, custom, env).Some?
    requires forall i :: 0 <= i < |env| ==> !Targets(env[i].0, k)
    ensures var r := LoadConfig(defaults, user, custom, env).value;
      (custom.Some? && k in custom.value && !custom.value[k].JObj? ==> k in r && r[k] == custom.value[k]) &&
      ((custom.None? || k !in custom.value) && user.Some? && k in user.value && !user.value[k].JObj? ==>
         k in r && r[k] == user.value[k]) &&
      ((custom.None? || k !in custom.value) && (user.None? || k !in user.value) && k in defaults ==>
         k in r && r[k] == defaults[k])
  {
    var c1 := if user.Some? then DeepMerge(defaults, user.value) else defaults;
    var c2 := if custom.Some? then DeepMerge(c1, custom.value) else c1;
    UntargetedKeyKept(c2, env, k);
    if user.Some? {
      MergeRules(defaults, user.value, k);
    }
    if custom.Some? {
      MergeRules(c1, custom.value, k);
    }
  }

  /** `apply_env_overrides`, one variable after another. */
  method ApplyEnvOverrides(config: JsonObject, env: seq<(string, string)>) returns (r: Option<JsonObject>)
    ensures r == ApplyAll(config, env)
  {
    var current := config;
    var i := 0;
    while i < |env|
      invariant 0 <= i <= |env|
      invariant ApplyAll(config, env) == ApplyAll(current, env[i..])
      decreases |env| - i
    {
      assert env[i..][1..] == env[i + 1..];
      var next := ApplyEntry(current, env[i]);
      if next.None? {
        return None;
      }
      current := next.value;
      i := i + 1;
    }
    return Some(current);
  }
}
