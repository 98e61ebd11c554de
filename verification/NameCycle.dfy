/** The generated names of the secrets dev environment (upstream/devenv/secrets/secrets.go). */
module NameCycle {

  const ADJECTIVES: seq<string> := [
    "azure", "bright", "calm", "crimson", "dark", "eager", "fast", "golden", "hidden", "iron", "jade",
    "keen", "lunar", "misty", "noble", "ocean", "prime", "quiet", "rapid", "silver", "tidal", "ultra",
    "vivid", "warm", "xenon", "young", "zonal"]

  const NOUNS: seq<string> := [
    "anchor", "beacon", "cipher", "delta", "eagle", "falcon", "gate", "harbor", "index", "jetty", "kite",
    "lance", "maple", "nexus", "orbit", "panda", "quasar", "ridge", "spark", "tower", "unity", "vault",
    "whale", "xenon", "yonder", "zenith"]

  function RandomName(i: nat): string {
    ADJECTIVES[i % |ADJECTIVES|] + "-" + NOUNS[i / |ADJECTIVES| % |NOUNS|]
  }

  /** generateResources: the names of the keepers and of the secure values. */
  method GenerateResources(count: nat) returns (keepers: seq<string>, values: seq<string>)
    ensures Named(keepers, "gen-aws-", count)
    ensures Named(values, "gen-secret-", count)
  {
    keepers := GenerateNames("gen-aws-", count);
    values := GenerateNames("gen-secret-", count);
  }

  function PrefixedName(prefix: string, i: nat): string {
    prefix + RandomName(i)
  }

  predicate Named(names: seq<string>, prefix: string, count: nat) {
    |names| == count && forall i | 0 <= i < count :: names[i] == PrefixedName(prefix, i)
  }

  /** One of its two loops. */
  method GenerateNames(prefix: string, count: nat) returns (names: seq<string>)
    ensures Named(names, prefix, count)
  {
    names := [];
    for i := 0 to count
      invariant Named(names, prefix, i)
    {
      names := names + [PrefixedName(prefix, i)];
    }
  }

  // ---- the words --------------------------------------------------------------------------------

  /** Adjectives go through the alphabet, with two under c. */
  lemma {:induction false} AdjectiveStarts(k: nat)
    requires k < 27
    ensures |ADJECTIVES| == 27 && |ADJECTIVES[k]| >= 4
    ensures ADJECTIVES[k][0] as int == 'a' as int + if k < 3 then k else k - 1
  {
  }

  lemma {:induction false} NounStarts(k: nat)
    requires k < 26
    ensures |NOUNS| == 26 && |NOUNS[k]| >= 4
    ensures NOUNS[k][0] as int == 'a' as int + k
  {
  }

  lemma {:induction false} AdjectivesDiffer(j: nat, k: nat)
    requires j < 27 && k < 27 && ADJECTIVES[j] == ADJECTIVES[k]
    ensures j == k
  {
    AdjectiveStarts(j);
    AdjectiveStarts(k);
    assert ADJECTIVES[2][1] == 'a' && ADJECTIVES[3][1] == 'r';
  }

  lemma {:induction false} NounsDiffer(j: nat, k: nat)
    requires j < 26 && k < 26 && NOUNS[j] == NOUNS[k]
    ensures j == k
  {
    NounStarts(j);
    NounStarts(k);
  }

  lemma {:induction false} NoDash(k: nat)
    requires k < 27
    ensures '-' !in ADJECTIVES[k]
  {
  }

  lemma {:induction false} FirstDash(a: string, b: string)
    requires '-' !in a
    ensures (a + "-" + b)[|a|] == '-'
    ensures forall k | 0 <= k < |a| :: (a + "-" + b)[k] != '-'
  {
  }

  /** A name splits at its first dash. */
  lemma {:induction false} SplitAtDash(a: string, b: string, c: string, d: string)
    requires '-' !in a && '-' !in c && a + "-" + b == c + "-" + d
    ensures a == c && b == d
  {
    FirstDash(a, b);
    FirstDash(c, d);
    assert (a + "-" + b)[..|a|] == a && (a + "-" + b)[|a| + 1..] == b;
    assert (c + "-" + d)[..|c|] == c && (c + "-" + d)[|c| + 1..] == d;
  }

  // ---- the cycle --------------------------------------------------------------------------------

  /** i modulo 702 and the two indices determine each other. */
  lemma {:induction false} MixedRadix(i: nat, j: nat)
    ensures i % 702 == j % 702 <==> i % 27 == j % 27 && i / 27 % 26 == j / 27 % 26
  {
    Digits(i);
    Digits(j);
  }

  lemma {:induction false} Digits(i: nat)
    ensures i % 702 == 27 * (i / 27 % 26) + i % 27
  {
    var q, r := i / 27, i % 27;
    assert i == 27 * (26 * (q / 26) + q % 26) + r;
    assert i == 702 * (q / 26) + (27 * (q % 26) + r);
  }

  lemma {:induction false} SameNameIff(i: nat, j: nat)
    ensures RandomName(i) == RandomName(j) <==> i % 702 == j % 702
  {
    MixedRadix(i, j);
    if RandomName(i) == RandomName(j) {
      NoDash(i % 27);
      NoDash(j % 27);
      SplitAtDash(ADJECTIVES[i % 27], NOUNS[i / 27 % 26], ADJECTIVES[j % 27], NOUNS[j / 27 % 26]);
      AdjectivesDiffer(i % 27, j % 27);
      NounsDiffer(i / 27 % 26, j / 27 % 26);
    }
  }

  /** The first n names are pairwise distinct exactly when n is at most 702. */
  lemma {:induction false} NamesAreDistinctIff(n: nat)
    ensures (forall i, j | 0 <= i < j < n :: RandomName(i) != RandomName(j)) <==> n <= 702
  {
    forall i, j | 0 <= i < j < n ensures RandomName(i) != RandomName(j) || n > 702 {
      SameNameIff(i, j);
    }
    SameNameIff(0, 702);
  }
}
