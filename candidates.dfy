/** The candidate list `[f"{d}.{ext}" for d in domains for ext in extensions]`. */
module Candidates {

  /** `f"{d}.{ext}"`: the base name, a dot, then the extension. */
  function Candidate(base: string, ext: string): string {
    base + "." + ext
  }

  /** A candidate splits back into its base name and extension at fixed positions. */
  lemma CandidateParts(base: string, ext: string)
    ensures var c := Candidate(base, ext);
      |c| == |base| + 1 + |ext| &&
      c[..|base|] == base && c[|base|] == '.' && c[|base| + 1..] == ext
  {
  }

  /** The inner loop: one base name with every extension, in order. */
  function WithExtensions(base: string, extensions: seq<string>): (r: seq<string>)
    ensures |r| == |extensions|
    ensures forall j :: 0 <= j < |extensions| ==> r[j] == Candidate(base, extensions[j])
  {
    if extensions == [] then []
    else [Candidate(base, extensions[0])] + WithExtensions(base, extensions[1..])
  }

  /** The whole comprehension: base names outside, extensions inside. */
  function FullDomains(domains: seq<string>, extensions: seq<string>): (r: seq<string>)
    ensures |r| == |domains| * |extensions|
  {
    if domains == [] then []
    else
      var rest := FullDomains(domains[1..], extensions);
      assert |rest| == (|domains| - 1) * |extensions|;
      WithExtensions(domains[0], extensions) + rest
  }

  /** The element at row `i`, column `j` is base name `i` with extension `j`. */
  lemma {:induction false} FullDomainsAt(domains: seq<string>, extensions: seq<string>, i: nat, j: nat)
    requires i < |domains| && j < |extensions|
    ensures 0 <= i * |extensions| + j < |FullDomains(domains, extensions)|
    ensures FullDomains(domains, extensions)[i * |extensions| + j] == Candidate(domains[i], extensions[j])
  {
    var n := |extensions|;
    var full := FullDomains(domains, extensions);
    var head := WithExtensions(domains[0], extensions);
    var rest := FullDomains(domains[1..], extensions);
    assert full == head + rest;
    if i > 0 {
      FullDomainsAt(domains[1..], extensions, i - 1, j);
      NextRow(i, j, n);
      assert full[i * n + j] == rest[(i - 1) * n + j];
    } else {
      assert full[j] == head[j];
    }
  }

  /** The candidate list is empty exactly when one of the two input lists is. */
  lemma FullDomainsEmpty(domains: seq<string>, extensions: seq<string>)
    ensures FullDomains(domains, extensions) == [] <==> domains == [] || extensions == []
  {
    if domains != [] && extensions != [] {
      FullDomainsAt(domains, extensions, 0, 0);
    }
  }

  /** Conversely, element `k` is base name `k / n` with extension `k % n`, where
      `n` is the number of extensions: every candidate comes from one pair. */
  lemma FullDomainsIndex(domains: seq<string>, extensions: seq<string>, k: nat)
    requires k < |FullDomains(domains, extensions)|
    ensures |extensions| > 0 && k / |extensions| < |domains|
    ensures FullDomains(domains, extensions)[k] == Candidate(domains[k / |extensions|], extensions[k % |extensions|])
  {
    var m, n := |domains|, |extensions|;
    var full := FullDomains(domains, extensions);
    assert |full| == m * n;
    PositiveFactor(k, m, n);
    DivMod(k, n);
    var i: nat, j: nat := k / n, k % n;
    RowBound(i, j, m, n);
    FullDomainsAt(domains, extensions, i, j);
  }

  lemma PositiveFactor(k: nat, m: nat, n: nat)
    requires k < m * n
    ensures n > 0
  {
  }

  lemma NextRow(i: nat, j: nat, n: nat)
    requires i > 0
    ensures i * n + j == n + ((i - 1) * n + j)
  {
  }

  lemma DivMod(k: nat, n: nat)
    requires n > 0
    ensures k / n >= 0 && 0 <= k % n < n
    ensures k == (k / n) * n + k % n
  {
  }

  /** A position `i * n + j` (with `j < n`) below `m * n` lies in one of the first `m` rows. */
  lemma RowBound(i: nat, j: nat, m: nat, n: nat)
    requires j < n && i * n + j < m * n
    ensures i < m
  {
    MulMonotone(m, i, n);
  }

  lemma MulMonotone(a: nat, b: nat, n: nat)
    ensures a <= b ==> a * n <= b * n
  {
    if a <= b {
      assert b * n == a * n + (b - a) * n;
    }
  }
}
