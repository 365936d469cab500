// At which commit a group of activations is copied to the host and back: the window map of the asynchronous
// offload handler (activation_offload.py).
module ActivationWindow {
  import opened Common

  /** The commit at which group i is done: `layers` commits spread evenly over `groups` groups, longer spans first. */
  function Window(layers: nat, groups: nat, i: nat): int
    requires groups > 0
  {
    layers / groups * (i + 1) - 1 + Min(i + 1, layers % groups)
  }

  method BuildWindow(layers: nat, groups: nat) returns (window: map<nat, int>)
    ensures forall i: nat :: i in window <==> i < groups
    ensures forall i: nat :: i < groups ==> window[i] == Window(layers, groups, i)
  {
    window := map[];
    var constant := 0;
    for i := 0 to groups
      invariant forall k: nat :: k in window <==> k < i
      invariant forall k: nat :: k < i ==> window[k] == Window(layers, groups, k)
      invariant i > 0 ==> constant == Min(i, layers % groups)
      invariant i == 0 ==> constant == 0
    {
      window := window[i := layers / groups * (i + 1) - 1];
      if i < layers % groups {
        window := window[i := window[i] + i + 1];
        constant := i + 1;
      } else {
        window := window[i := window[i] + constant];
      }
    }
  }

  lemma DivisionFacts(layers: nat, groups: nat)
    requires 1 <= groups <= layers
    ensures layers / groups >= 1 && layers / groups * groups + layers % groups == layers
    ensures layers == groups ==> layers / groups == 1 && layers % groups == 0
    ensures layers > groups && layers / groups == 1 ==> layers % groups >= 1
  {
    assert layers / groups * groups + layers % groups == layers;
  }

  /** From one group to the next the window moves on by the quotient, or by one more for the first groups. */
  lemma WindowGap(layers: nat, groups: nat, i: nat)
    requires 1 <= groups <= layers
    ensures var gap := Window(layers, groups, i + 1) - Window(layers, groups, i);
      gap == layers / groups + (if i + 1 < layers % groups then 1 else 0) && gap >= 1
  {
    DivisionFacts(layers, groups);
    var q := layers / groups;
    assert q * (i + 2) == q * (i + 1) + q;
  }

  lemma {:induction false} WindowIncreases(layers: nat, groups: nat, i: nat, j: nat)
    requires 1 <= groups <= layers && i < j
    ensures Window(layers, groups, j) - Window(layers, groups, i) >= j - i
    decreases j
  {
    WindowGap(layers, groups, j - 1);
    if i < j - 1 { WindowIncreases(layers, groups, i, j - 1); }
  }

  lemma WindowEnds(layers: nat, groups: nat)
    requires 1 <= groups <= layers
    ensures Window(layers, groups, groups - 1) == layers - 1
  {
    DivisionFacts(layers, groups);
  }

  /** A group's window lies at its own commit or later, strictly later if some layer is not offloaded. */
  lemma WindowLow(layers: nat, groups: nat, i: nat)
    requires 1 <= groups <= layers && i < groups
    ensures Window(layers, groups, i) >= i + (if groups < layers then 1 else 0)
    ensures Window(layers, groups, i) <= layers - groups + i
    ensures groups == layers ==> Window(layers, groups, i) == i
  {
    DivisionFacts(layers, groups);
    WindowEnds(layers, groups);
    if i < groups - 1 { WindowIncreases(layers, groups, i, groups - 1); }
    assert Window(layers, groups, 0) >= (if groups < layers then 1 else 0);
    if i > 0 { WindowIncreases(layers, groups, 0, i); }
  }

  /** Every group ends strictly before its window if and only if some layer is not offloaded. */
  lemma WindowsAheadIff(layers: nat, groups: nat)
    requires 1 <= groups <= layers
    ensures (forall i: nat :: i < groups ==> Window(layers, groups, i) >= i + 1) <==> groups < layers
  {
    forall i: nat | i < groups ensures groups < layers ==> Window(layers, groups, i) >= i + 1 {
      WindowLow(layers, groups, i);
    }
    WindowLow(layers, groups, 0);
  }

  // ---------- How many groups are done before a commit ----------

  /** The number of groups whose window lies before commit `c`. */
  function GroupsBefore(layers: nat, groups: nat, c: int): (n: nat)
    requires 1 <= groups <= layers
    ensures n <= groups
    ensures n > 0 ==> Window(layers, groups, n - 1) < c
    ensures n < groups ==> Window(layers, groups, n) >= c
  {
    CountBefore(layers, groups, c, groups)
  }

  function CountBefore(layers: nat, groups: nat, c: int, i: nat): (n: nat)
    requires 1 <= groups <= layers && i <= groups && (i < groups ==> Window(layers, groups, i) >= c)
    ensures n <= i
    ensures n > 0 ==> Window(layers, groups, n - 1) < c
    ensures n < groups ==> Window(layers, groups, n) >= c
  {
    if i == 0 || Window(layers, groups, i - 1) < c then i else CountBefore(layers, groups, c, i - 1)
  }

  lemma GroupsBeforeUnique(layers: nat, groups: nat, c: int, n: nat)
    requires 1 <= groups <= layers && n <= groups
    requires n > 0 ==> Window(layers, groups, n - 1) < c
    requires n < groups ==> Window(layers, groups, n) >= c
    ensures GroupsBefore(layers, groups, c) == n
  {
    var m := GroupsBefore(layers, groups, c);
    if m < n && m < n - 1 { WindowIncreases(layers, groups, m, n - 1); }
    if n < m && n < m - 1 { WindowIncreases(layers, groups, n, m - 1); }
  }

  /** From one commit to the next the count goes up exactly if the commit is the next group's window. */
  lemma GroupsBeforeNext(layers: nat, groups: nat, c: nat)
    requires 1 <= groups <= layers
    ensures var n := GroupsBefore(layers, groups, c);
      GroupsBefore(layers, groups, c + 1) == if n < groups && Window(layers, groups, n) == c then n + 1 else n
  {
    var n := GroupsBefore(layers, groups, c);
    if n < groups && Window(layers, groups, n) == c {
      if n + 1 < groups { WindowIncreases(layers, groups, n, n + 1); }
      GroupsBeforeUnique(layers, groups, c + 1, n + 1);
    } else {
      GroupsBeforeUnique(layers, groups, c + 1, n);
    }
  }

  lemma GroupsBeforeEnds(layers: nat, groups: nat)
    requires 1 <= groups <= layers
    ensures GroupsBefore(layers, groups, 0) == 0 && GroupsBefore(layers, groups, layers) == groups
    ensures forall c :: 0 <= c < layers ==> GroupsBefore(layers, groups, c) < groups
  {
    WindowEnds(layers, groups);
    WindowLow(layers, groups, 0);
    GroupsBeforeUnique(layers, groups, 0, 0);
    GroupsBeforeUnique(layers, groups, layers, groups);
  }
}
