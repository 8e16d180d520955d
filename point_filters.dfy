/** Join-point filters and the logical-or combinator `OrPointFilter`.

    A filter answers two questions: which kinds of join point it can be asked
    about (`getKind`, a bit mask) and whether it accepts a given join point
    (`matches`). Filters other than the combinator are leaves here: each
    carries its kind, its predicate and whether it is a dynamic method
    matcher. An `Or` node stores the kind its constructor computed, exactly as
    `OrPointFilter` caches it in its `kind` field. */
module PointFilters {
  import opened Reflection
  import opened Kinds
  import opened Seqs

  datatype Filter =
    | Leaf(kind: Kind, test: JoinPoint -> bool, dynamic: bool)
    | Or(kind: Kind, first: Filter, second: Filter)

  /** `getKind()`: the stored kind, never recomputed. */
  function GetKind(f: Filter): Kind
  {
    f.kind
  }

  /** `matches($point)`; for `Or`, PHP's short-circuit `||`. */
  function Matches(f: Filter, p: JoinPoint): bool
  {
    match f
    case Leaf(_, test, _) => test(p)
    case Or(_, first, second) => Matches(first, p) || Matches(second, p)
  }

  /** The `OrPointFilter` constructor: it keeps both operands and caches the
      bitwise or of their kinds. */
  function NewOr(first: Filter, second: Filter): (f: Filter)
    ensures f.Or? && f.first == first && f.second == second
    ensures GetKind(f) == GetKind(first) | GetKind(second)
    ensures forall p :: Matches(f, p) == (Matches(first, p) || Matches(second, p))
  {
    Or(GetKind(first) | GetKind(second), first, second)
  }

  /** Every `Or` node of `f` holds the kind its constructor computed, i.e. `f`
      was built with `NewOr` all the way down. */
  ghost predicate WellFormed(f: Filter)
  {
    match f
    case Leaf(_, _, _) => true
    case Or(k, first, second) =>
      k == GetKind(first) | GetKind(second) && WellFormed(first) && WellFormed(second)
  }

  /** Reference definition of a filter's kind: recomputed from the leaves. */
  ghost function ComputedKind(f: Filter): Kind
  {
    match f
    case Leaf(k, _, _) => k
    case Or(_, first, second) => ComputedKind(first) | ComputedKind(second)
  }

  /** The leaf filters of `f`, left to right. */
  ghost function Leaves(f: Filter): (ls: seq<Filter>)
    ensures |ls| >= 1 && AllLeaves(ls)
  {
    match f
    case Leaf(_, _, _) => [f]
    case Or(_, first, second) => Leaves(first) + Leaves(second)
  }

  ghost predicate AllLeaves(ls: seq<Filter>)
  {
    forall i :: 0 <= i < |ls| ==> ls[i].Leaf?
  }

  /** The leaves whose `matches` is actually invoked when `f` is asked about
      `p`, in call order: an `Or` asks its second operand only when the first
      one said no. */
  ghost function Evaluated(f: Filter, p: JoinPoint): (ls: seq<Filter>)
    ensures AllLeaves(ls)
  {
    match f
    case Leaf(_, _, _) => [f]
    case Or(_, first, second) =>
      Evaluated(first, p) + (if Matches(first, p) then [] else Evaluated(second, p))
  }

  /** One past the position of the first leaf of `ls` that accepts `p`, or
      `|ls|` when none does. */
  ghost function StopIndex(ls: seq<Filter>, p: JoinPoint): (n: nat)
    requires AllLeaves(ls)
    ensures n <= |ls|
    ensures forall i :: 0 <= i < n - 1 ==> !ls[i].test(p)
    ensures n == |ls| || (n >= 1 && ls[n - 1].test(p))
    ensures (exists i :: 0 <= i < |ls| && ls[i].test(p)) ==> n >= 1 && ls[n - 1].test(p)
  {
    if ls == [] then 0
    else if ls[0].test(p) then 1
    else 1 + StopIndex(ls[1..], p)
  }

  // ---------------------------------------------------------------------
  // Laws of the combinator

  /** The kind of `Or(a, b)` keeps every bit of both operands' kinds. */
  lemma OrKindKeepsOperandBits(a: Filter, b: Filter)
    ensures GetKind(NewOr(a, b)) & GetKind(a) == GetKind(a)
    ensures GetKind(NewOr(a, b)) & GetKind(b) == GetKind(b)
  {
    UnionKeepsBits(GetKind(a), GetKind(b));
  }

  /** `Or(a, b)` is capable of a kind bit exactly when one of its operands is. */
  lemma OrHasKind(a: Filter, b: Filter, bit: Kind)
    ensures HasKind(GetKind(NewOr(a, b)), bit) <==> HasKind(GetKind(a), bit) || HasKind(GetKind(b), bit)
  {
    UnionHasKind(GetKind(a), GetKind(b), bit);
  }

  /** `Or(a, b)` accepts a point exactly when `a` or `b` does. */
  lemma OrMatchesLaws(a: Filter, b: Filter, p: JoinPoint)
    ensures Matches(NewOr(a, b), p) <==> Matches(a, p) || Matches(b, p)
  {
  }

  /** The order of the operands changes neither the kind nor the answer. */
  lemma OrSymmetric(a: Filter, b: Filter, p: JoinPoint)
    ensures GetKind(NewOr(a, b)) == GetKind(NewOr(b, a))
    ensures Matches(NewOr(a, b), p) == Matches(NewOr(b, a), p)
  {
    UnionCommutes(GetKind(a), GetKind(b));
  }

  /** Short circuit: once the first operand accepts, the second one is never
      consulted; otherwise it is consulted after the first. */
  lemma OrShortCircuit(a: Filter, b: Filter, p: JoinPoint)
    ensures Matches(a, p) ==> Evaluated(NewOr(a, b), p) == Evaluated(a, p)
    ensures !Matches(a, p) ==> Evaluated(NewOr(a, b), p) == Evaluated(a, p) + Evaluated(b, p)
  {
  }

  /** Building with the constructor keeps the cached kinds right. */
  lemma NewOrWellFormed(a: Filter, b: Filter)
    requires WellFormed(a) && WellFormed(b)
    ensures WellFormed(NewOr(a, b))
  {
  }

  /** The cached kind of a well-formed filter is what recomputing it from the
      leaves would give: caching changes nothing observable. */
  lemma {:induction false} CachedKindIsComputed(f: Filter)
    requires WellFormed(f)
    ensures GetKind(f) == ComputedKind(f)
  {
    match f
    case Leaf(_, _, _) =>
    case Or(_, first, second) =>
      CachedKindIsComputed(first);
      CachedKindIsComputed(second);
  }

  /** A leaf that accepts the point makes the whole filter accept it. */
  lemma {:induction false} LeafAcceptsThenMatches(f: Filter, p: JoinPoint, i: nat)
    requires i < |Leaves(f)| && Leaves(f)[i].test(p)
    ensures Matches(f, p)
  {
    match f
    case Leaf(_, _, _) =>
      assert Leaves(f)[i] == f;
    case Or(_, first, second) =>
      var n := |Leaves(first)|;
      if i < n {
        assert Leaves(f)[i] == Leaves(first)[i];
        LeafAcceptsThenMatches(first, p, i);
      } else {
        assert Leaves(f)[i] == Leaves(second)[i - n];
        LeafAcceptsThenMatches(second, p, i - n);
      }
  }

  /** A filter that accepts the point has a leaf that accepts it. */
  lemma {:induction false} MatchesThenLeafAccepts(f: Filter, p: JoinPoint) returns (i: nat)
    requires Matches(f, p)
    ensures i < |Leaves(f)| && Leaves(f)[i].test(p)
  {
    match f
    case Leaf(_, _, _) =>
      i := 0;
      assert Leaves(f)[0] == f;
    case Or(_, first, second) =>
      if Matches(first, p) {
        var j := MatchesThenLeafAccepts(first, p);
        assert Leaves(f)[j] == Leaves(first)[j];
        i := j;
      } else {
        var j := MatchesThenLeafAccepts(second, p);
        assert Leaves(f)[|Leaves(first)| + j] == Leaves(second)[j];
        i := |Leaves(first)| + j;
      }
  }

  /** A filter accepts a point exactly when one of its leaves does. */
  lemma MatchesSomeLeaf(f: Filter, p: JoinPoint)
    ensures Matches(f, p) <==> exists i :: 0 <= i < |Leaves(f)| && Leaves(f)[i].test(p)
  {
    if Matches(f, p) {
      var i := MatchesThenLeafAccepts(f, p);
    }
    if exists i :: 0 <= i < |Leaves(f)| && Leaves(f)[i].test(p) {
      var i :| 0 <= i < |Leaves(f)| && Leaves(f)[i].test(p);
      LeafAcceptsThenMatches(f, p, i);
    }
  }

  /** Short-circuit evaluation of a whole tree of `Or`s asks the leaves from
      left to right and stops at the first one that accepts. */
  lemma {:induction false} EvaluatedStopsAtFirstMatch(f: Filter, p: JoinPoint)
    ensures Evaluated(f, p) == Leaves(f)[..StopIndex(Leaves(f), p)]
  {
    match f
    case Leaf(_, _, _) =>
    case Or(_, first, second) =>
      EvaluatedStopsAtFirstMatch(first, p);
      EvaluatedStopsAtFirstMatch(second, p);
      MatchesSomeLeaf(first, p);
      StopIndexOfConcat(Leaves(first), Leaves(second), Matches(first, p), p);
  }

  /** The stopping point of two lists of leaves asked one after the other. */
  lemma StopIndexOfConcat(l1: seq<Filter>, l2: seq<Filter>, m1: bool, p: JoinPoint)
    requires AllLeaves(l1) && AllLeaves(l2)
    requires m1 <==> exists i :: 0 <= i < |l1| && l1[i].test(p)
    ensures AllLeaves(l1 + l2)
    ensures (l1 + l2)[..StopIndex(l1 + l2, p)] ==
      l1[..StopIndex(l1, p)] + (if m1 then [] else l2[..StopIndex(l2, p)])
  {
    var ls := l1 + l2;
    assert AllLeaves(ls);
    var n1, n2 := StopIndex(l1, p), StopIndex(l2, p);
    if m1 {
      StopIndexInPrefix(l1, l2, p);
    } else {
      PastPrefixEvaluated(l1, l2, p);
    }
  }

  lemma {:induction false} StopIndexInPrefix(xs: seq<Filter>, ys: seq<Filter>, p: JoinPoint)
    requires AllLeaves(xs) && AllLeaves(ys)
    requires exists i :: 0 <= i < |xs| && xs[i].test(p)
    ensures AllLeaves(xs + ys) && StopIndex(xs + ys, p) == StopIndex(xs, p)
    ensures (xs + ys)[..StopIndex(xs + ys, p)] == xs[..StopIndex(xs, p)]
  {
    assert AllLeaves(xs + ys);
    var n := StopIndex(xs, p);
    var m := StopIndex(xs + ys, p);
    assert (xs + ys)[n - 1] == xs[n - 1];
    PrefixOfConcat(xs, ys, n);
  }

  lemma {:induction false} StopIndexPastPrefix(xs: seq<Filter>, ys: seq<Filter>, p: JoinPoint)
    requires AllLeaves(xs) && AllLeaves(ys)
    requires forall i :: 0 <= i < |xs| ==> !xs[i].test(p)
    ensures AllLeaves(xs + ys) && StopIndex(xs + ys, p) == |xs| + StopIndex(ys, p)
  {
    var zs := xs + ys;
    assert AllLeaves(zs);
    var n := StopIndex(ys, p);
    var m := StopIndex(zs, p);
    if m <= |xs| && m >= 1 {
      assert zs[m - 1] == xs[m - 1];
    }
    if exists i :: 0 <= i < |ys| && ys[i].test(p) {
      assert zs[|xs| + n - 1] == ys[n - 1];
    } else {
      forall i | |xs| <= i < |zs|
        ensures !zs[i].test(p)
      {
        assert zs[i] == ys[i - |xs|];
      }
    }
  }

  lemma PastPrefixEvaluated(xs: seq<Filter>, ys: seq<Filter>, p: JoinPoint)
    requires AllLeaves(xs) && AllLeaves(ys)
    requires forall i :: 0 <= i < |xs| ==> !xs[i].test(p)
    ensures AllLeaves(xs + ys)
    ensures (xs + ys)[..StopIndex(xs + ys, p)] == xs[..StopIndex(xs, p)] + ys[..StopIndex(ys, p)]
  {
    StopIndexPastPrefix(xs, ys, p);
    PrefixOfConcat(xs, ys, |xs| + StopIndex(ys, p));
    assert StopIndex(xs, p) == |xs|;
    assert xs[..|xs|] == xs;
  }
}
