/** Feature-flag resolution: default features, user overwrites and (in
    development only) environment overwrites are layered, the environment
    winning over overwrites and overwrites over defaults; a feature is on when
    its resolved value is true. */
module FeatureService {
  import opened Wrappers

  type FeatureItem = string

  /** A partial assignment of features to on/off. */
  type FeatureSet = map<FeatureItem, bool>

  /** Every listed feature is on, and no other feature is mentioned. */
  function FeatureSetFromList(features: seq<FeatureItem>): (r: FeatureSet)
    ensures forall f :: f in r <==> f in features
    ensures forall f :: f in r ==> r[f]
  {
    map f | f in features :: true
  }

  /** The argument of `setFeatureOverwrites`: a list, a set, or `undefined`. */
  datatype OverwriteInput = FromList(items: seq<FeatureItem>) | FromSet(features: FeatureSet) | Cleared

  /** The overwrite state a call to `setFeatureOverwrites` leaves behind. */
  function SetFeatureOverwrites(input: OverwriteInput): (r: Option<FeatureSet>)
    ensures r.None? <==> input.Cleared?
    ensures input.FromSet? ==> r == Some(input.features)
    ensures input.FromList? ==> forall f :: f in r.value <==> f in input.items
    ensures input.FromList? ==> forall f :: f in r.value ==> r.value[f]
  {
    match input
    case FromList(items) => Some(FeatureSetFromList(items))
    case FromSet(features) => Some(features)
    case Cleared => None
  }

  const EnvPrefix := "REACT_APP_FEATURE_"

  /** The environment variable that may overwrite `f`. */
  function EnvName(f: FeatureItem): string {
    EnvPrefix + f
  }

  /** The environment overwrites: none outside development; in development, a
      feature whose variable is set to a non-empty value is on exactly when the
      value is "true". */
  method EnvOverwrites(nodeEnv: string, allItems: seq<FeatureItem>, env: map<string, string>) returns (r: FeatureSet)
    ensures nodeEnv != "development" ==> r == map[]
    ensures nodeEnv == "development" ==>
              forall f :: f in r <==> f in allItems && EnvName(f) in env && env[EnvName(f)] != ""
    ensures nodeEnv == "development" ==>
              forall f :: f in r ==> (r[f] <==> env[EnvName(f)] == "true")
  {
    if nodeEnv != "development" {
      return map[];
    }
    r := map[];
    var k := 0;
    while k < |allItems|
      invariant 0 <= k <= |allItems|
      invariant forall f :: f in r <==> f in allItems[..k] && EnvName(f) in env && env[EnvName(f)] != ""
      invariant forall f :: f in r ==> EnvName(f) in env && (r[f] <==> env[EnvName(f)] == "true")
    {
      var item := allItems[k];
      var name := EnvName(item);
      if name in env && env[name] != "" {
        r := r[item := env[name] == "true"];
      }
      assert allItems[..k + 1] == allItems[..k] + [item];
      k := k + 1;
    }
    assert allItems[..k] == allItems;
  }

  /** A feature's value under the priority environment > overwrites > defaults. */
  function ResolvedValue(f: FeatureItem, defaults: seq<FeatureItem>, overwrites: Option<FeatureSet>,
                         env: FeatureSet): bool
  {
    if f in env then env[f]
    else if overwrites.Some? && f in overwrites.value then overwrites.value[f]
    else f in defaults
  }

  /** The layered set: later layers override earlier ones key by key. */
  function CombinedFeatureSet(defaults: seq<FeatureItem>, overwrites: Option<FeatureSet>, env: FeatureSet): FeatureSet {
    FeatureSetFromList(defaults) + overwrites.GetOr(map[]) + env
  }

  /** The enabled features: exactly those whose resolved value is true. The list's
      order is not modelled. */
  function CombinedFeatures(defaults: seq<FeatureItem>, overwrites: Option<FeatureSet>, env: FeatureSet): (r: set<FeatureItem>)
    ensures forall f :: f in r <==> ResolvedValue(f, defaults, overwrites, env)
  {
    var combined := CombinedFeatureSet(defaults, overwrites, env);
    set f | f in combined && combined[f]
  }

  /** An overwrite turning a default feature off removes it, unless the environment turns it back on. */
  lemma OverwriteRemovesDefault(f: FeatureItem, defaults: seq<FeatureItem>, overwrites: FeatureSet, env: FeatureSet)
    requires f in defaults && f in overwrites && !overwrites[f]
    ensures f !in CombinedFeatures(defaults, Some(overwrites), env) <==> f !in env || !env[f]
  {
  }

  /** The context value the provider hands to its children. */
  datatype FeatureServiceContext = FeatureServiceContext(features: set<FeatureItem>)

  /** `useFeature`: membership in the provider's features; outside a provider the hook throws. */
  function UseFeature(context: Option<FeatureServiceContext>, feature: FeatureItem): (r: Result<bool, string>)
    ensures r.Failure? <==> context.None?
    ensures r.Success? ==> (r.value <==> feature in context.value.features)
  {
    match context
    case None => Failure("useFeatureService must be used within a FeatureService.")
    case Some(c) => Success(feature in c.features)
  }

  /** Inside a provider, a feature is on exactly when its layered value is true. */
  lemma UseFeatureResolves(defaults: seq<FeatureItem>, overwrites: Option<FeatureSet>, env: FeatureSet, f: FeatureItem)
    ensures UseFeature(Some(FeatureServiceContext(CombinedFeatures(defaults, overwrites, env))), f)
              == Success(ResolvedValue(f, defaults, overwrites, env))
  {
  }
}
