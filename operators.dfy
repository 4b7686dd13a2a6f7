/**
 * The four DEAP operators the engine registers, stated abstractly: the
 * random draws each one makes are parameters, and each operator is
 * described by the effect the engine relies on.
 */
module Operators {
  import opened Wrappers

  /**
   * DEAP's order on cached fitnesses: a deleted fitness (None) ranks below
   * every valid one; valid ones compare by value.
   */
  predicate KeyLt(a: Option<int>, b: Option<int>)
    ensures KeyLt(a, b) ==> b.Some?
    ensures a.None? && b.Some? ==> KeyLt(a, b)
  {
    match (a, b)
    case (None, Some(_)) => true
    case (Some(x), Some(y)) => x < y
    case _ => false
  }

  /**
   * Index of the first maximal key. Python's `max` keeps the first of equal
   * maxima and `tools.selBest` sorts stably in reverse, so both pick this one.
   */
  function FirstBest(keys: seq<Option<int>>): (k: nat)
    requires |keys| > 0
    ensures k < |keys|
    ensures forall j :: 0 <= j < |keys| ==> !KeyLt(keys[k], keys[j])
    ensures forall j :: 0 <= j < k ==> KeyLt(keys[j], keys[k])
  {
    if |keys| == 1 then 0
    else
      var k := FirstBest(keys[..|keys| - 1]);
      if KeyLt(keys[k], keys[|keys| - 1]) then |keys| - 1 else k
  }

  /**
   * One round of `tools.selTournament`: of the sampled population indexes,
   * the winner is the first one with the best key.
   */
  function Tournament(keys: seq<Option<int>>, aspirants: seq<nat>): (w: nat)
    requires |aspirants| > 0
    requires forall p :: 0 <= p < |aspirants| ==> aspirants[p] < |keys|
    ensures w < |keys| && w in aspirants
    ensures forall p :: 0 <= p < |aspirants| ==> !KeyLt(keys[w], keys[aspirants[p]])
    ensures exists p0 ::
      (0 <= p0 < |aspirants| && aspirants[p0] == w && forall p :: 0 <= p < p0 ==> KeyLt(keys[aspirants[p]], keys[w]))
  {
    var sample := seq(|aspirants|, p requires 0 <= p < |aspirants| => keys[aspirants[p]]);
    var b := FirstBest(sample);
    assert forall p :: 0 <= p < |aspirants| ==> sample[p] == keys[aspirants[p]];
    assert 0 <= b < |aspirants| && forall p :: 0 <= p < b ==> KeyLt(keys[aspirants[p]], keys[aspirants[b]]);
    aspirants[b]
  }

  /**
   * DEAP's order on cached fitnesses is a strict total order: irreflexive,
   * transitive, and any two different keys are comparable.
   */
  lemma KeyLtStrictTotal(a: Option<int>, b: Option<int>, c: Option<int>)
    ensures !KeyLt(a, a)
    ensures KeyLt(a, b) && KeyLt(b, c) ==> KeyLt(a, c)
    ensures a == b || KeyLt(a, b) || KeyLt(b, a)
  {
  }

  /**
   * `tools.cxTwoPoint` with its cut points drawn: the genes in positions
   * i up to (not including) j change places between the two parents.
   */
  function CrossTwoPoint<T>(a: seq<T>, b: seq<T>, i: nat, j: nat): (r: (seq<T>, seq<T>))
    requires i <= j <= |a| && j <= |b|
    ensures |r.0| == |a| && |r.1| == |b|
    ensures forall k :: 0 <= k < |a| ==> r.0[k] == (if i <= k < j then b[k] else a[k])
    ensures forall k :: 0 <= k < |b| ==> r.1[k] == (if i <= k < j then a[k] else b[k])
  {
    (a[..i] + b[i..j] + a[j..], b[..i] + a[i..j] + b[j..])
  }

  /** Crossing the children again at the same cuts gives back the parents. */
  lemma CrossTwoPointInvolution<T>(a: seq<T>, b: seq<T>, i: nat, j: nat)
    requires i <= j <= |a| && j <= |b|
    ensures CrossTwoPoint(CrossTwoPoint(a, b, i, j).0, CrossTwoPoint(a, b, i, j).1, i, j) == (a, b)
  {
    var r := CrossTwoPoint(a, b, i, j);
    var s := CrossTwoPoint(r.0, r.1, i, j);
    assert s.0 == a;
    assert s.1 == b;
  }

  /** Crossover neither creates nor loses genes: the pair's genes are the parents' genes. */
  lemma CrossTwoPointMultiset<T>(a: seq<T>, b: seq<T>, i: nat, j: nat)
    requires i <= j <= |a| && j <= |b|
    ensures multiset(CrossTwoPoint(a, b, i, j).0) + multiset(CrossTwoPoint(a, b, i, j).1)
         == multiset(a) + multiset(b)
  {
    assert a == a[..i] + a[i..j] + a[j..];
    assert b == b[..i] + b[i..j] + b[j..];
  }

  /** Exchange of the genes at positions i and k. */
  function Swap<T>(s: seq<T>, i: nat, k: nat): (r: seq<T>)
    requires i < |s| && k < |s|
    ensures |r| == |s| && multiset(r) == multiset(s)
    ensures r[i] == s[k] && r[k] == s[i]
    ensures forall p :: 0 <= p < |s| && p != i && p != k ==> r[p] == s[p]
  {
    s[i := s[k]][k := s[i]]
  }

  /** The swap partners drawn for `tools.mutShuffleIndexes` name positions of the genome. */
  predicate ValidPartners(partners: seq<Option<nat>>, size: nat)
  {
    |partners| <= size
    && forall p :: 0 <= p < |partners| && partners[p].Some? ==> partners[p].value < size
  }

  /**
   * `tools.mutShuffleIndexes` with its draws made: position p, visited in
   * order, is swapped with `partners[p]` when a partner was drawn.
   */
  function ShuffleIndexes<T>(s: seq<T>, partners: seq<Option<nat>>): (r: seq<T>)
    requires ValidPartners(partners, |s|)
    ensures |r| == |s| && multiset(r) == multiset(s)
    decreases |partners|
  {
    if partners == [] then s
    else
      var p := |partners| - 1;
      var t := ShuffleIndexes(s, partners[..p]);
      match partners[p]
      case None => t
      case Some(k) => Swap(t, p, k)
  }
}
