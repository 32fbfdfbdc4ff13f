/**
  The analyzer: which referenced names are missing from the environment, which
  available names are never referenced, and whether the run is inside a CI
  system.
*/
module Analyzer {
  import opened Wrappers
  import opened Types
  import opened StringOrder

  /** The elements of a sequence, as `new Set(s)` holds them. */
  function SetOf(s: seq<string>): (r: set<string>)
    ensures forall x :: x in r <==> x in s
  {
    set x | x in s
  }

  /** Every name that some reference carries. */
  function Names(references: seq<EnvReference>): set<string> {
    set r | r in references :: r.name
  }

  /** `references.map((ref) => ref.name).filter((name) => name.length > 0)`. */
  function NonEmptyNames(references: seq<EnvReference>): (r: seq<string>)
    ensures forall x :: x in r <==> x in Names(references) && x != ""
    decreases |references|
  {
    if references == [] then []
    else
      var init, last := references[..|references| - 1], references[|references| - 1];
      assert references == init + [last];
      var names := NonEmptyNames(init);
      if |last.name| > 0 then names + [last.name] else names
  }

  /** `new Set(s)` iterated in insertion order: each element at its first
      occurrence. */
  function FirstOccurrences(s: seq<string>): (r: seq<string>)
    ensures Distinct(r)
    ensures forall x :: x in r <==> x in s
    decreases |s|
  {
    if s == [] then []
    else
      var init, last := FirstOccurrences(s[..|s| - 1]), s[|s| - 1];
      assert s == s[..|s| - 1] + [last];
      if last in init then init
      else
        DistinctSnoc(init, last);
        init + [last]
  }

  lemma DistinctSnoc(s: seq<string>, x: string)
    requires Distinct(s) && x !in s
    ensures Distinct(s + [x])
  {
    forall i, j | 0 <= i < j < |s + [x]| ensures (s + [x])[i] != (s + [x])[j] {
      assert (s + [x])[i] == s[i];
      if j < |s| { assert (s + [x])[j] == s[j]; }
    }
  }

  /** `referencedNames`: the distinct non-empty referenced names, in the order
      they were first referenced. */
  function ReferencedNames(references: seq<EnvReference>): seq<string> {
    FirstOccurrences(NonEmptyNames(references))
  }

  /** The elements of `s` not in `excluded`, in order, repeats kept: what a loop
      pushing each element that passes the test collects. */
  function Keep(s: seq<string>, excluded: set<string>): (r: seq<string>)
    ensures forall x :: x in r <==> x in s && x !in excluded
    decreases |s|
  {
    if s == [] then []
    else
      var init, last := s[..|s| - 1], s[|s| - 1];
      assert s == init + [last];
      if last in excluded then Keep(init, excluded) else Keep(init, excluded) + [last]
  }

  lemma {:induction false} KeepCounts(s: seq<string>, excluded: set<string>, x: string)
    ensures multiset(Keep(s, excluded))[x] == if x in excluded then 0 else multiset(s)[x]
    decreases |s|
  {
    if s != [] {
      var init, last := s[..|s| - 1], s[|s| - 1];
      assert s == init + [last];
      KeepCounts(init, excluded, x);
    }
  }

  lemma {:induction false} KeepDistinct(s: seq<string>, excluded: set<string>)
    requires Distinct(s)
    ensures Distinct(Keep(s, excluded))
    decreases |s|
  {
    if s != [] {
      var init, last := s[..|s| - 1], s[|s| - 1];
      assert s == init + [last];
      assert Distinct(init) by {
        forall i, j | 0 <= i < j < |init| ensures init[i] != init[j] {
          assert init[i] == s[i] && init[j] == s[j];
        }
      }
      KeepDistinct(init, excluded);
      if last !in excluded {
        assert last !in init by {
          forall i | 0 <= i < |init| ensures init[i] != last {
            assert init[i] == s[i];
          }
        }
        DistinctSnoc(Keep(init, excluded), last);
      }
    }
  }

  /** `missing`, sorted. */
  function Missing(references: seq<EnvReference>, available: seq<string>): seq<string> {
    SortStrings(Keep(ReferencedNames(references), SetOf(available)))
  }

  /** `unused`, sorted. */
  function Unused(references: seq<EnvReference>, available: seq<string>): seq<string> {
    SortStrings(Keep(available, SetOf(ReferencedNames(references))))
  }

  /** A name is referenced when some reference carries it and it is not empty. */
  predicate Referenced(references: seq<EnvReference>, x: string) {
    x in Names(references) && x != ""
  }

  /** `missing` holds exactly the referenced names that are not available, once
      each, in ascending order; the empty name is never among them. */
  lemma MissingCharacterized(references: seq<EnvReference>, available: seq<string>)
    ensures Sorted(Missing(references, available)) && Distinct(Missing(references, available))
    ensures forall x :: x in Missing(references, available) <==> Referenced(references, x) && x !in available
    ensures "" !in Missing(references, available)
  {
    var kept := Keep(ReferencedNames(references), SetOf(available));
    KeepDistinct(ReferencedNames(references), SetOf(available));
    SortDistinct(kept);
    forall x ensures x in Missing(references, available) <==> x in kept {
      assert x in multiset(Missing(references, available)) <==> x in multiset(kept);
    }
  }

  /** `unused` is `available` with the referenced names removed, repeats kept,
      in ascending order: each name occurs in it as often as in `available`
      unless it is referenced, and then not at all. */
  lemma UnusedCharacterized(references: seq<EnvReference>, available: seq<string>, x: string)
    ensures Sorted(Unused(references, available))
    ensures multiset(Unused(references, available))[x] == if Referenced(references, x) then 0 else multiset(available)[x]
    ensures x in Unused(references, available) <==> x in available && !Referenced(references, x)
  {
    var referenced := SetOf(ReferencedNames(references));
    KeepCounts(available, referenced, x);
    assert x in multiset(Unused(references, available)) <==> x in multiset(Keep(available, referenced));
  }

  /** `unused` repeats no name when `available` repeats none. */
  lemma UnusedDistinct(references: seq<EnvReference>, available: seq<string>)
    requires Distinct(available)
    ensures Distinct(Unused(references, available))
  {
    KeepDistinct(available, SetOf(ReferencedNames(references)));
    SortDistinct(Keep(available, SetOf(ReferencedNames(references))));
  }

  /** A repeat-free list holds each element at most once. */
  lemma {:induction false} DistinctCountAtMostOne(s: seq<string>, x: string)
    requires Distinct(s)
    ensures multiset(s)[x] <= 1
    decreases |s|
  {
    if s != [] {
      DistinctTail(s);
      DistinctCountAtMostOne(s[1..], x);
      ConsMultiset(s);
      if s[0] == x {
        assert x !in s[1..] by {
          forall k | 0 <= k < |s[1..]| ensures s[1..][k] != x {
            assert s[1..][k] == s[k + 1];
          }
        }
      }
    }
  }

  /** Repeats in `available` survive into `unused`: a name that is not
      referenced occurs in `unused` as often as in `available`, so `unused`
      repeats it whenever `available` does. */
  lemma UnusedKeepsRepeats(references: seq<EnvReference>, available: seq<string>, x: string)
    requires multiset(available)[x] >= 2 && !Referenced(references, x)
    ensures multiset(Unused(references, available))[x] == multiset(available)[x]
    ensures !Distinct(Unused(references, available))
  {
    UnusedCharacterized(references, available, x);
    if Distinct(Unused(references, available)) {
      DistinctCountAtMostOne(Unused(references, available), x);
    }
  }

  /** No name is both missing and available, and none is both unused and
      referenced; an available empty name is always unused. */
  lemma MissingUnusedDisjoint(references: seq<EnvReference>, available: seq<string>, x: string)
    ensures x in Missing(references, available) ==> x !in SetOf(available)
    ensures x in Unused(references, available) ==> !Referenced(references, x)
    ensures "" in available ==> "" in Unused(references, available)
  {
    MissingCharacterized(references, available);
    UnusedCharacterized(references, available, x);
    UnusedCharacterized(references, available, "");
  }

  /** `missing` depends only on the set of referenced names: permuting or
      repeating references does not change it. */
  lemma MissingDependsOnNamesOnly(r1: seq<EnvReference>, r2: seq<EnvReference>, available: seq<string>)
    requires Names(r1) == Names(r2)
    ensures Missing(r1, available) == Missing(r2, available)
  {
    MissingCharacterized(r1, available);
    MissingCharacterized(r2, available);
    SortedDistinctEqual(Missing(r1, available), Missing(r2, available));
  }

  /** `missing` depends only on the set of available names: reordering or
      repeating them does not change it. */
  lemma MissingDependsOnAvailableSetOnly(references: seq<EnvReference>, a1: seq<string>, a2: seq<string>)
    requires SetOf(a1) == SetOf(a2)
    ensures Missing(references, a1) == Missing(references, a2)
  {
    MissingCharacterized(references, a1);
    MissingCharacterized(references, a2);
    SortedDistinctEqual(Missing(references, a1), Missing(references, a2));
  }

  /** `unused` depends only on the set of referenced names and on the
      available names as a multiset: shuffling either input does not change it. */
  lemma UnusedOrderIndependent(r1: seq<EnvReference>, r2: seq<EnvReference>, a1: seq<string>, a2: seq<string>)
    requires Names(r1) == Names(r2) && multiset(a1) == multiset(a2)
    ensures Unused(r1, a1) == Unused(r2, a2)
  {
    forall x ensures multiset(Unused(r1, a1))[x] == multiset(Unused(r2, a2))[x] {
      UnusedCharacterized(r1, a1, x);
      UnusedCharacterized(r2, a2, x);
    }
    assert multiset(Unused(r1, a1)) == multiset(Unused(r2, a2));
    SortedPermutationsEqual(Unused(r1, a1), Unused(r2, a2));
  }

  /** A permutation of the references has the same names. */
  lemma PermutedReferencesSameNames(r1: seq<EnvReference>, r2: seq<EnvReference>)
    requires multiset(r1) == multiset(r2)
    ensures Names(r1) == Names(r2)
  {
    forall x | x in Names(r1) ensures x in Names(r2) {
      var r :| r in r1 && r.name == x;
      assert r in multiset(r2);
    }
    forall x | x in Names(r2) ensures x in Names(r1) {
      var r :| r in r2 && r.name == x;
      assert r in multiset(r1);
    }
  }

  /** With no references nothing is missing and every available name is
      unused. */
  lemma NoReferences(available: seq<string>)
    ensures Missing([], available) == []
    ensures multiset(Unused([], available)) == multiset(available)
  {
    assert ReferencedNames([]) == [];
    assert SetOf([]) == {};
    forall x ensures multiset(Unused([], available))[x] == multiset(available)[x] {
      UnusedCharacterized([], available, x);
    }
  }

  /** `analyzeEnvVars`. */
  method AnalyzeEnvVars(references: seq<EnvReference>, availableEnvVars: seq<string>)
    returns (missing: seq<string>, unused: seq<string>)
    ensures missing == Missing(references, availableEnvVars)
    ensures unused == Unused(references, availableEnvVars)
    ensures Sorted(missing) && Distinct(missing) && Sorted(unused)
    ensures forall x :: x in missing <==> Referenced(references, x) && x !in availableEnvVars
    ensures forall x :: x in unused <==> x in availableEnvVars && !Referenced(references, x)
  {
    var referencedNames := ReferencedNames(references);
    var referencedSet := SetOf(referencedNames);
    var availableSet := SetOf(availableEnvVars);
    missing := [];
    unused := [];
    for i := 0 to |referencedNames|
      invariant missing == Keep(referencedNames[..i], availableSet)
    {
      assert referencedNames[..i + 1][..i] == referencedNames[..i];
      if referencedNames[i] !in availableSet {
        missing := missing + [referencedNames[i]];
      }
    }
    assert referencedNames[..|referencedNames|] == referencedNames;
    for i := 0 to |availableEnvVars|
      invariant unused == Keep(availableEnvVars[..i], referencedSet)
    {
      assert availableEnvVars[..i + 1][..i] == availableEnvVars[..i];
      if availableEnvVars[i] !in referencedSet {
        unused := unused + [availableEnvVars[i]];
      }
    }
    assert availableEnvVars[..|availableEnvVars|] == availableEnvVars;
    missing := SortStrings(missing);
    unused := SortStrings(unused);
    MissingCharacterized(references, availableEnvVars);
    forall x ensures x in unused <==> x in availableEnvVars && !Referenced(references, x) {
      UnusedCharacterized(references, availableEnvVars, x);
    }
  }

  /** The CI provider variables whose mere presence with a non-empty value
      marks a CI run. */
  const ProviderVariables: seq<string> :=
    ["GITHUB_ACTIONS", "GITLAB_CI", "JENKINS_URL", "CIRCLECI", "TRAVIS", "BUILDKITE"]

  /** `process.env[key]`: the value, or `undefined`. */
  function Lookup(env: map<string, string>, key: string): Option<string> {
    if key in env then Some(env[key]) else None
  }

  /** JavaScript truthiness of an environment value: defined and non-empty. */
  predicate Truthy(v: Option<string>) {
    v.Some? && v.value != ""
  }

  /** `isCIEnvironment`, with the environment passed in. */
  function IsCIEnvironment(env: map<string, string>): bool {
    || Lookup(env, "CI") == Some("true")
    || Lookup(env, "CI") == Some("1")
    || (|| Truthy(Lookup(env, "GITHUB_ACTIONS"))
        || Truthy(Lookup(env, "GITLAB_CI"))
        || Truthy(Lookup(env, "JENKINS_URL"))
        || Truthy(Lookup(env, "CIRCLECI"))
        || Truthy(Lookup(env, "TRAVIS"))
        || Truthy(Lookup(env, "BUILDKITE")))
  }

  /** A run is a CI run exactly when `CI` is `"true"` or `"1"`, or some provider
      variable is set to a non-empty value. */
  lemma CIEnvironmentCharacterized(env: map<string, string>)
    ensures IsCIEnvironment(env) <==>
      || ("CI" in env && (env["CI"] == "true" || env["CI"] == "1"))
      || (exists i :: 0 <= i < |ProviderVariables| && ProviderVariables[i] in env && env[ProviderVariables[i]] != "")
  {
    if exists i :: 0 <= i < |ProviderVariables| && ProviderVariables[i] in env && env[ProviderVariables[i]] != "" {
      var i :| 0 <= i < |ProviderVariables| && ProviderVariables[i] in env && env[ProviderVariables[i]] != "";
      assert Truthy(Lookup(env, ProviderVariables[i]));
    }
    if Truthy(Lookup(env, "GITHUB_ACTIONS")) { assert ProviderVariables[0] == "GITHUB_ACTIONS"; }
    if Truthy(Lookup(env, "GITLAB_CI")) { assert ProviderVariables[1] == "GITLAB_CI"; }
    if Truthy(Lookup(env, "JENKINS_URL")) { assert ProviderVariables[2] == "JENKINS_URL"; }
    if Truthy(Lookup(env, "CIRCLECI")) { assert ProviderVariables[3] == "CIRCLECI"; }
    if Truthy(Lookup(env, "TRAVIS")) { assert ProviderVariables[4] == "TRAVIS"; }
    if Truthy(Lookup(env, "BUILDKITE")) { assert ProviderVariables[5] == "BUILDKITE"; }
  }
}
