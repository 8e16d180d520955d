/** `AspectWeaver::getAdvicesForClass`: for one class, every registered
    advisor whose class filter accepts the class contributes its advice under
    member keys, and the contributions are merged without overwriting.

    The specification is given by functions (`OriginalClass`, `MemberKeys`,
    `AdvisorContribution`, `AdvicesForClass`); the class `AspectWeaver` runs
    the loops of the PHP code and is proved to compute them. */
module Weaver {
  import opened Wrappers
  import opened Strings
  import opened Seqs
  import opened Reflection
  import opened Kinds
  import opened PointFilters
  import opened Aop
  import opened AdviceMaps
  import opened Registry

  // ---------------------------------------------------------------------
  // Keys of the advice map

  function MethodKey(m: MethodDesc): string
  {
    (if m.isStatic then STATIC_METHOD_PREFIX else METHOD_PREFIX) + ":" + m.name
  }

  function PropertyKey(p: PropertyDesc): string
  {
    PROPERTY_PREFIX + ":" + p.name
  }

  /** The interfaces are joined in their given order; they are not sorted. */
  function IntroductionKey(interfaces: seq<string>): string
  {
    INTRODUCTION_TRAIT_PREFIX + ":" + Join(":", interfaces)
  }

  /** The four kinds of key never collide: each prefix starts with its own
      character. */
  lemma KeyKindsDisjoint(m: MethodDesc, p: PropertyDesc, interfaces: seq<string>)
    ensures MethodKey(m) != PropertyKey(p)
    ensures MethodKey(m) != IntroductionKey(interfaces)
    ensures PropertyKey(p) != IntroductionKey(interfaces)
  {
    assert MethodKey(m)[0] == (if m.isStatic then 's' else 'm');
    assert PropertyKey(p)[0] == 'p';
    assert IntroductionKey(interfaces)[0] == 'i';
  }

  /** A method key names one method name and one staticness. */
  lemma MethodKeyInjective(m1: MethodDesc, m2: MethodDesc)
    requires MethodKey(m1) == MethodKey(m2)
    ensures m1.name == m2.name && m1.isStatic == m2.isStatic
  {
    var k1, k2 := MethodKey(m1), MethodKey(m2);
    assert k1[0] == (if m1.isStatic then 's' else 'm');
    assert k2[0] == (if m2.isStatic then 's' else 'm');
    assert k1[7..] == m1.name;
    assert k2[7..] == m2.name;
  }

  /** An introduction key gives back the interface list it was made from, in
      order, as long as the interface names hold no ':'. */
  lemma IntroductionKeyInjective(xs: seq<string>, ys: seq<string>)
    requires |xs| >= 1 && |ys| >= 1
    requires forall i :: 0 <= i < |xs| ==> ':' !in xs[i]
    requires forall i :: 0 <= i < |ys| ==> ':' !in ys[i]
    requires IntroductionKey(xs) == IntroductionKey(ys)
    ensures xs == ys
  {
    var n := |INTRODUCTION_TRAIT_PREFIX + ":"|;
    assert IntroductionKey(xs)[n..] == Join(":", xs);
    assert IntroductionKey(ys)[n..] == Join(":", ys);
    JoinInjective(xs, ys, ':');
  }

  // ---------------------------------------------------------------------
  // Which members an advisor reaches

  /** The class whose members are enumerated: the parent when the parent is
      a generated proxy parent (its name ends in the proxied suffix),
      otherwise the class itself. */
  function OriginalClass(cls: ClassDesc): (r: ClassDesc)
    ensures cls.parent.Some? && EndsWith(cls.parent.value.name, AOP_PROXIED_SUFFIX) ==> r == cls.parent.value
    ensures !(cls.parent.Some? && EndsWith(cls.parent.value.name, AOP_PROXIED_SUFFIX)) ==> r == cls
  {
    match cls.parent
    case Some(parent) => if EndsWith(parent.name, AOP_PROXIED_SUFFIX) then parent else cls
    case None => cls
  }

  /** A method of `cls` is advised by the pointcut when it is public or
      protected, is declared by `cls` itself, and the filter accepts it. */
  predicate MethodSelected(cls: ClassDesc, m: MethodDesc, pc: Pointcut)
  {
    PublicOrProtected(m.visibility) && m.declaringClass == cls.name && Matches(pc.filter, MethodPoint(m))
  }

  /** A property is advised when it is public or protected and the filter
      accepts it; where it was declared does not matter. */
  predicate PropertySelected(p: PropertyDesc, pc: Pointcut)
  {
    PublicOrProtected(p.visibility) && Matches(pc.filter, PropertyPoint(p))
  }

  /** Keys of the selected methods among `ms`, in enumeration order. */
  function SelectedMethodKeys(cls: ClassDesc, ms: seq<MethodDesc>, pc: Pointcut): seq<string>
  {
    if ms == [] then []
    else
      var m := ms[|ms| - 1];
      SelectedMethodKeys(cls, ms[..|ms| - 1], pc) + (if MethodSelected(cls, m, pc) then [MethodKey(m)] else [])
  }

  /** Keys of the selected properties among `ps`, in enumeration order. */
  function SelectedPropertyKeys(ps: seq<PropertyDesc>, pc: Pointcut): seq<string>
  {
    if ps == [] then []
    else
      var p := ps[|ps| - 1];
      SelectedPropertyKeys(ps[..|ps| - 1], pc) + (if PropertySelected(p, pc) then [PropertyKey(p)] else [])
  }

  /** One key per advised member of `cls`: methods only if the pointcut's
      kind has the METHOD bit, then properties only if it has the PROPERTY bit. */
  function MemberKeys(cls: ClassDesc, pc: Pointcut): seq<string>
  {
    (if HasKind(GetKind(pc.filter), KIND_METHOD) then SelectedMethodKeys(cls, cls.methods, pc) else [])
    + (if HasKind(GetKind(pc.filter), KIND_PROPERTY) then SelectedPropertyKeys(cls.properties, pc) else [])
  }

  /** The map that gives `advice` once for every occurrence of a key in `ks`. */
  function AdviceUnder(ks: seq<string>, advice: Advice): (r: AdviceMap)
    ensures DistinctKeys(r)
  {
    if ks == [] then [] else Append(AdviceUnder(ks[..|ks| - 1], advice), ks[|ks| - 1], advice)
  }

  /** `m` extended by `advice` once for every occurrence of a key in `ks`. */
  function AppendUnder(m: AdviceMap, ks: seq<string>, advice: Advice): (r: AdviceMap)
    requires DistinctKeys(m)
    ensures DistinctKeys(r)
  {
    if ks == [] then m else Append(AppendUnder(m, ks[..|ks| - 1], advice), ks[|ks| - 1], advice)
  }

  /** `getIntroductionFromAdvisor`: nothing for a trait, otherwise the
      introduction under the key of its interface list. */
  function IntroductionFromAdvisor(cls: ClassDesc, info: IntroductionInfo): (r: AdviceMap)
    ensures DistinctKeys(r)
    ensures cls.isTrait <==> r == []
    ensures !cls.isTrait ==> Keys(r) == [IntroductionKey(info.interfaces)]
    ensures Lookup(r, IntroductionKey(info.interfaces)) == if cls.isTrait then [] else [Introduction(info)]
  {
    if cls.isTrait then [] else [Entry(IntroductionKey(info.interfaces), [Introduction(info)])]
  }

  /** What one advisor adds to the advice map of `cls`. Class filters are
      asked about `cls` itself; members come from `OriginalClass(cls)`. */
  function AdvisorContribution(cls: ClassDesc, advisor: Advisor): (r: AdviceMap)
    ensures DistinctKeys(r)
  {
    match advisor
    case PointcutAdvisor(pc, advice) =>
      if Matches(pc.classFilter, ClassPoint(cls)) then AdviceUnder(MemberKeys(OriginalClass(cls), pc), advice) else []
    case IntroductionAdvisor(classFilter, info) =>
      if Matches(classFilter, ClassPoint(cls)) then IntroductionFromAdvisor(OriginalClass(cls), info) else []
    case OtherAdvisor(_) => []
  }

  /** The advice map for `cls`: the contributions of the advisors, merged in
      registration order. */
  function AdvicesForClass(cls: ClassDesc, advisors: seq<Advisor>): (r: AdviceMap)
    ensures DistinctKeys(r)
  {
    if advisors == [] then []
    else MergeRecursive(AdvicesForClass(cls, advisors[..|advisors| - 1]),
                        AdvisorContribution(cls, advisors[|advisors| - 1]))
  }

  /** The list that each advisor contributes under the key `k`. */
  function ListUnder(cls: ClassDesc, k: string): Advisor -> seq<Advice>
  {
    advisor => Lookup(AdvisorContribution(cls, advisor), k)
  }

  /** The lists of `advisors`, concatenated in their order. */
  function Gathered(lists: Advisor -> seq<Advice>, advisors: seq<Advisor>): seq<Advice>
  {
    if advisors == [] then [] else lists(advisors[0]) + Gathered(lists, advisors[1..])
  }

  /** Reference definition of the list under a key: each advisor's list for
      that key, concatenated in registration order. */
  function Collected(cls: ClassDesc, advisors: seq<Advisor>, k: string): seq<Advice>
  {
    Gathered(ListUnder(cls, k), advisors)
  }

  /** `advice` repeated `n` times. */
  function Repeat(advice: Advice, n: nat): (r: seq<Advice>)
    ensures |r| == n && forall i :: 0 <= i < n ==> r[i] == advice
  {
    if n == 0 then [] else Repeat(advice, n - 1) + [advice]
  }

  /** Occurrences of `k` in `ks`. */
  function Count(ks: seq<string>, k: string): nat
  {
    if ks == [] then 0 else Count(ks[..|ks| - 1], k) + (if ks[|ks| - 1] == k then 1 else 0)
  }

  // ---------------------------------------------------------------------
  // Properties of the specification

  /** Within one advisor every advised member gets exactly one copy of the
      advisor's advice: the list under a key holds as many copies as there are
      members with that key. */
  lemma {:induction false} AdviceUnderLookup(ks: seq<string>, advice: Advice, k: string)
    ensures Lookup(AdviceUnder(ks, advice), k) == Repeat(advice, Count(ks, k))
  {
    if ks != [] {
      AdviceUnderLookup(ks[..|ks| - 1], advice, k);
    }
  }

  /** The keys of that map are exactly the member keys. */
  lemma {:induction false} AdviceUnderKeys(ks: seq<string>, advice: Advice, k: string)
    ensures k in Keys(AdviceUnder(ks, advice)) <==> k in ks
  {
    if ks != [] {
      var init, last := ks[..|ks| - 1], ks[|ks| - 1];
      AdviceUnderKeys(init, advice, k);
      AppendKeys(AdviceUnder(init, advice), last, advice, k);
      SplitLast(ks);
    }
  }

  /** Appending one advisor's contribution at the end of the reference list. */
  lemma {:induction false} GatheredSnoc(lists: Advisor -> seq<Advice>, advisors: seq<Advisor>)
    requires advisors != []
    ensures Gathered(lists, advisors) ==
      Gathered(lists, advisors[..|advisors| - 1]) + lists(advisors[|advisors| - 1])
  {
    var init, last := advisors[..|advisors| - 1], advisors[|advisors| - 1];
    if |advisors| == 1 {
      assert advisors[1..] == [] && init == [];
    } else {
      var tail := advisors[1..];
      GatheredSnoc(lists, tail);
      assert tail[..|tail| - 1] == init[1..] && tail[|tail| - 1] == last && init[0] == advisors[0];
    }
  }

  lemma CollectedSnoc(cls: ClassDesc, advisors: seq<Advisor>, k: string)
    requires advisors != []
    ensures Collected(cls, advisors, k) ==
      Collected(cls, advisors[..|advisors| - 1], k) + Lookup(AdvisorContribution(cls, advisors[|advisors| - 1]), k)
  {
    GatheredSnoc(ListUnder(cls, k), advisors);
  }

  /** Contributions for the same key are concatenated in registration order
      and never overwritten. */
  lemma {:induction false} AdvicesForClassLookup(cls: ClassDesc, advisors: seq<Advisor>, k: string)
    ensures Lookup(AdvicesForClass(cls, advisors), k) == Collected(cls, advisors, k)
  {
    if advisors != [] {
      var init := advisors[..|advisors| - 1];
      AdvicesForClassLookup(cls, init, k);
      MergeRecursiveLookup(AdvicesForClass(cls, init), AdvisorContribution(cls, advisors[|advisors| - 1]), k);
      CollectedSnoc(cls, advisors, k);
    }
  }

  /** Every key of the result comes from some advisor's contribution ... */
  lemma {:induction false} KeyFromSomeAdvisor(cls: ClassDesc, advisors: seq<Advisor>, k: string) returns (i: nat)
    requires k in Keys(AdvicesForClass(cls, advisors))
    ensures i < |advisors| && k in Keys(AdvisorContribution(cls, advisors[i]))
  {
    var init := advisors[..|advisors| - 1];
    AdvicesForClassKeysStep(cls, advisors, k);
    if k in Keys(AdvicesForClass(cls, init)) {
      i := KeyFromSomeAdvisor(cls, init, k);
      assert init[i] == advisors[i];
    } else {
      i := |advisors| - 1;
    }
  }

  /** ... and every key of every contribution is in the result. */
  lemma {:induction false} KeyOfEveryAdvisor(cls: ClassDesc, advisors: seq<Advisor>, i: nat, k: string)
    requires i < |advisors| && k in Keys(AdvisorContribution(cls, advisors[i]))
    ensures k in Keys(AdvicesForClass(cls, advisors))
  {
    var init := advisors[..|advisors| - 1];
    AdvicesForClassKeysStep(cls, advisors, k);
    if i < |init| {
      assert init[i] == advisors[i];
      KeyOfEveryAdvisor(cls, init, i, k);
      assert k in Keys(AdvicesForClass(cls, init));
    } else {
      assert advisors[|advisors| - 1] == advisors[i];
    }
  }

  /** One merge step of `AdvicesForClass`, as far as keys are concerned. */
  lemma AdvicesForClassKeysStep(cls: ClassDesc, advisors: seq<Advisor>, k: string)
    requires advisors != []
    ensures k in Keys(AdvicesForClass(cls, advisors)) <==>
      k in Keys(AdvicesForClass(cls, advisors[..|advisors| - 1]))
      || k in Keys(AdvisorContribution(cls, advisors[|advisors| - 1]))
  {
    MergeRecursiveKeys(AdvicesForClass(cls, advisors[..|advisors| - 1]),
                       AdvisorContribution(cls, advisors[|advisors| - 1]), k);
  }

  /** With no advisor contributing anything the advice map is empty; in
      particular advisors of unrecognised types and advisors whose class
      filter rejects the class never make it non-empty. */
  lemma {:induction false} NothingMatchesEmpty(cls: ClassDesc, advisors: seq<Advisor>)
    requires forall i :: 0 <= i < |advisors| ==> AdvisorContribution(cls, advisors[i]) == []
    ensures AdvicesForClass(cls, advisors) == []
  {
    if advisors != [] {
      NothingMatchesEmpty(cls, advisors[..|advisors| - 1]);
    }
  }

  /** An advisor contributes nothing when it is neither a pointcut nor an
      introduction advisor, when its class filter rejects the class, or when
      it introduces into a trait. */
  lemma ContributionEmptyCases(cls: ClassDesc, advisor: Advisor)
    ensures advisor.OtherAdvisor? ==> AdvisorContribution(cls, advisor) == []
    ensures advisor.PointcutAdvisor? && !Matches(advisor.pointcut.classFilter, ClassPoint(cls))
      ==> AdvisorContribution(cls, advisor) == []
    ensures advisor.IntroductionAdvisor? && !Matches(advisor.classFilter, ClassPoint(cls))
      ==> AdvisorContribution(cls, advisor) == []
    ensures advisor.IntroductionAdvisor? && OriginalClass(cls).isTrait
      ==> AdvisorContribution(cls, advisor) == []
  {
  }

  /** A pointcut advisor whose class filter accepts `cls` gives each key as
      many copies of its advice as `OriginalClass(cls)` has advised members
      with that key; for a proxy (its parent's name has the proxied suffix)
      those are the parent's members. */
  lemma PointcutContribution(cls: ClassDesc, pc: Pointcut, advice: Advice, k: string)
    requires Matches(pc.classFilter, ClassPoint(cls))
    ensures Lookup(AdvisorContribution(cls, PointcutAdvisor(pc, advice)), k)
      == Repeat(advice, Count(MemberKeys(OriginalClass(cls), pc), k))
    ensures cls.parent.Some? && EndsWith(cls.parent.value.name, AOP_PROXIED_SUFFIX) ==>
      Lookup(AdvisorContribution(cls, PointcutAdvisor(pc, advice)), k)
        == Repeat(advice, Count(MemberKeys(cls.parent.value, pc), k))
  {
    AdviceUnderLookup(MemberKeys(OriginalClass(cls), pc), advice, k);
  }

  /** The keys an advisor reaches in a class are exactly the keys of its
      selected methods (only if the kind has the METHOD bit) and of its
      selected properties (only if the kind has the PROPERTY bit). */
  lemma MemberKeysExactly(cls: ClassDesc, pc: Pointcut, k: string)
    ensures k in MemberKeys(cls, pc) <==>
      (HasKind(GetKind(pc.filter), KIND_METHOD) &&
        exists i :: 0 <= i < |cls.methods| && MethodSelected(cls, cls.methods[i], pc) && MethodKey(cls.methods[i]) == k)
      || (HasKind(GetKind(pc.filter), KIND_PROPERTY) &&
        exists i :: 0 <= i < |cls.properties| && PropertySelected(cls.properties[i], pc) && PropertyKey(cls.properties[i]) == k)
  {
    SelectedMethodKeysExactly(cls, cls.methods, pc, k);
    SelectedPropertyKeysExactly(cls.properties, pc, k);
  }

  lemma {:induction false} SelectedMethodKeysExactly(cls: ClassDesc, ms: seq<MethodDesc>, pc: Pointcut, k: string)
    ensures k in SelectedMethodKeys(cls, ms, pc) <==>
      exists i :: 0 <= i < |ms| && MethodSelected(cls, ms[i], pc) && MethodKey(ms[i]) == k
  {
    if ms != [] {
      var init := ms[..|ms| - 1];
      SelectedMethodKeysExactly(cls, init, pc, k);
      if exists i :: 0 <= i < |ms| && MethodSelected(cls, ms[i], pc) && MethodKey(ms[i]) == k {
        var i :| 0 <= i < |ms| && MethodSelected(cls, ms[i], pc) && MethodKey(ms[i]) == k;
        if i < |init| { assert init[i] == ms[i]; }
      }
      if exists i :: 0 <= i < |init| && MethodSelected(cls, init[i], pc) && MethodKey(init[i]) == k {
        var i :| 0 <= i < |init| && MethodSelected(cls, init[i], pc) && MethodKey(init[i]) == k;
        assert init[i] == ms[i];
      }
    }
  }

  lemma {:induction false} SelectedPropertyKeysExactly(ps: seq<PropertyDesc>, pc: Pointcut, k: string)
    ensures k in SelectedPropertyKeys(ps, pc) <==>
      exists i :: 0 <= i < |ps| && PropertySelected(ps[i], pc) && PropertyKey(ps[i]) == k
  {
    if ps != [] {
      var init := ps[..|ps| - 1];
      SelectedPropertyKeysExactly(init, pc, k);
      if exists i :: 0 <= i < |ps| && PropertySelected(ps[i], pc) && PropertyKey(ps[i]) == k {
        var i :| 0 <= i < |ps| && PropertySelected(ps[i], pc) && PropertyKey(ps[i]) == k;
        if i < |init| { assert init[i] == ps[i]; }
      }
      if exists i :: 0 <= i < |init| && PropertySelected(init[i], pc) && PropertyKey(init[i]) == k {
        var i :| 0 <= i < |init| && PropertySelected(init[i], pc) && PropertyKey(init[i]) == k;
        assert init[i] == ps[i];
      }
    }
  }

  /** A method that `cls` only inherits is never advised when weaving `cls`
      directly, unless `cls` itself declares a method with the same key. */
  lemma InheritedMethodNotAdvised(cls: ClassDesc, pc: Pointcut, m: MethodDesc)
    requires m.declaringClass != cls.name
    requires forall i :: 0 <= i < |cls.methods| ==>
      (MethodKey(cls.methods[i]) == MethodKey(m) ==> cls.methods[i].declaringClass != cls.name)
    ensures MethodKey(m) !in SelectedMethodKeys(cls, cls.methods, pc)
  {
    SelectedMethodKeysExactly(cls, cls.methods, pc, MethodKey(m));
  }

  /** Properties have no declaring-class check: an inherited property that
      is public or protected and accepted by the filter is advised. */
  lemma InheritedPropertyAdvised(cls: ClassDesc, pc: Pointcut, i: nat)
    requires i < |cls.properties| && cls.properties[i].declaringClass != cls.name
    requires HasKind(GetKind(pc.filter), KIND_PROPERTY) && PropertySelected(cls.properties[i], pc)
    ensures PropertyKey(cls.properties[i]) in MemberKeys(cls, pc)
  {
    SelectedPropertyKeysExactly(cls.properties, pc, PropertyKey(cls.properties[i]));
  }

  /** PHP forbids two methods, or two properties, of one name in a class. */
  predicate UniqueMemberNames(cls: ClassDesc)
  {
    && (forall i, j :: 0 <= i < j < |cls.methods| ==> cls.methods[i].name != cls.methods[j].name)
    && (forall i, j :: 0 <= i < j < |cls.properties| ==> cls.properties[i].name != cls.properties[j].name)
  }

  /** With unique method names a selected method's key occurs exactly once. */
  lemma {:induction false} SelectedMethodKeyOnce(cls: ClassDesc, ms: seq<MethodDesc>, pc: Pointcut, j: nat)
    requires j < |ms| && MethodSelected(cls, ms[j], pc)
    requires forall a, b :: 0 <= a < b < |ms| ==> ms[a].name != ms[b].name
    ensures Count(SelectedMethodKeys(cls, ms, pc), MethodKey(ms[j])) == 1
  {
    var init := ms[..|ms| - 1];
    var last := ms[|ms| - 1];
    var k := MethodKey(ms[j]);
    var ks := SelectedMethodKeys(cls, ms, pc);
    var tail := if MethodSelected(cls, last, pc) then [MethodKey(last)] else [];
    assert ks == SelectedMethodKeys(cls, init, pc) + tail;
    CountConcat(SelectedMethodKeys(cls, init, pc), tail, k);
    if j == |ms| - 1 {
      SelectedMethodKeyAbsent(cls, init, pc, ms[j]);
    } else {
      SelectedMethodKeyOnce(cls, init, pc, j);
      if MethodKey(last) == k {
        MethodKeyInjective(last, ms[j]);
      }
    }
  }

  /** A key that no method in `ms` has is not among the selected keys. */
  lemma SelectedMethodKeyAbsent(cls: ClassDesc, ms: seq<MethodDesc>, pc: Pointcut, m: MethodDesc)
    requires forall i :: 0 <= i < |ms| ==> ms[i].name != m.name
    ensures Count(SelectedMethodKeys(cls, ms, pc), MethodKey(m)) == 0
  {
    SelectedMethodKeysExactly(cls, ms, pc, MethodKey(m));
    forall i | 0 <= i < |ms|
      ensures MethodKey(ms[i]) != MethodKey(m)
    {
      if MethodKey(ms[i]) == MethodKey(m) { MethodKeyInjective(ms[i], m); }
    }
    CountAbsent(SelectedMethodKeys(cls, ms, pc), MethodKey(m));
  }

  lemma {:induction false} CountConcat(xs: seq<string>, ys: seq<string>, k: string)
    ensures Count(xs + ys, k) == Count(xs, k) + Count(ys, k)
  {
    if ys != [] {
      CountConcat(xs, ys[..|ys| - 1], k);
      assert (xs + ys)[..|xs + ys| - 1] == xs + ys[..|ys| - 1];
    } else {
      assert xs + ys == xs;
    }
  }

  lemma {:induction false} CountAbsent(ks: seq<string>, k: string)
    requires k !in ks
    ensures Count(ks, k) == 0
  {
    if ks != [] {
      CountAbsent(ks[..|ks| - 1], k);
    }
  }

  /** No property key is ever counted as a method key. */
  lemma {:induction false} PropertyKeysAreNotMethodKeys(ps: seq<PropertyDesc>, pc: Pointcut, m: MethodDesc)
    ensures Count(SelectedPropertyKeys(ps, pc), MethodKey(m)) == 0
  {
    if ps != [] {
      var last := ps[|ps| - 1];
      var tail := if PropertySelected(last, pc) then [PropertyKey(last)] else [];
      PropertyKeysAreNotMethodKeys(ps[..|ps| - 1], pc, m);
      KeyKindsDisjoint(m, last, []);
      CountConcat(SelectedPropertyKeys(ps[..|ps| - 1], pc), tail, MethodKey(m));
      CountAbsent(tail, MethodKey(m));
    }
  }

  /** Two pointcut advisors that both reach the same method give that method
      a list of length two, first advisor's advice first: the second
      contribution does not overwrite the first. */
  lemma TwoAdvisorsSameMethod(cls: ClassDesc, pc1: Pointcut, a1: Advice, pc2: Pointcut, a2: Advice, j: nat)
    requires OriginalClass(cls) == cls && UniqueMemberNames(cls)
    requires j < |cls.methods|
    requires Matches(pc1.classFilter, ClassPoint(cls)) && Matches(pc2.classFilter, ClassPoint(cls))
    requires HasKind(GetKind(pc1.filter), KIND_METHOD) && HasKind(GetKind(pc2.filter), KIND_METHOD)
    requires MethodSelected(cls, cls.methods[j], pc1) && MethodSelected(cls, cls.methods[j], pc2)
    ensures Lookup(AdvicesForClass(cls, [PointcutAdvisor(pc1, a1), PointcutAdvisor(pc2, a2)]), MethodKey(cls.methods[j]))
      == [a1, a2]
  {
    var advisors := [PointcutAdvisor(pc1, a1), PointcutAdvisor(pc2, a2)];
    var k := MethodKey(cls.methods[j]);
    OneCopyPerAdvisor(cls, pc1, a1, j);
    OneCopyPerAdvisor(cls, pc2, a2, j);
    CollectedPair(cls, advisors, k);
    AdvicesForClassLookup(cls, advisors, k);
  }

  /** One pointcut advisor reaching a method of a class that is not a
      generated proxy puts exactly
      one copy of its advice under that method's key. */
  lemma OneCopyPerAdvisor(cls: ClassDesc, pc: Pointcut, advice: Advice, j: nat)
    requires OriginalClass(cls) == cls && UniqueMemberNames(cls) && j < |cls.methods|
    requires Matches(pc.classFilter, ClassPoint(cls)) && HasKind(GetKind(pc.filter), KIND_METHOD)
    requires MethodSelected(cls, cls.methods[j], pc)
    ensures Lookup(AdvisorContribution(cls, PointcutAdvisor(pc, advice)), MethodKey(cls.methods[j])) == [advice]
  {
    MemberKeyOnce(cls, pc, j);
    PointcutContribution(cls, pc, advice, MethodKey(cls.methods[j]));
  }

  lemma CollectedPair(cls: ClassDesc, advisors: seq<Advisor>, k: string)
    requires |advisors| == 2
    ensures Collected(cls, advisors, k)
      == Lookup(AdvisorContribution(cls, advisors[0]), k) + Lookup(AdvisorContribution(cls, advisors[1]), k)
  {
    var lists := ListUnder(cls, k);
    var rest := advisors[1..];
    assert rest[0] == advisors[1] && rest[1..] == [];
    assert Gathered(lists, rest) == lists(rest[0]) + Gathered(lists, rest[1..]);
  }

  /** A selected method's key occurs once among all member keys. */
  lemma MemberKeyOnce(cls: ClassDesc, pc: Pointcut, j: nat)
    requires UniqueMemberNames(cls) && j < |cls.methods|
    requires HasKind(GetKind(pc.filter), KIND_METHOD) && MethodSelected(cls, cls.methods[j], pc)
    ensures Count(MemberKeys(cls, pc), MethodKey(cls.methods[j])) == 1
  {
    var m := cls.methods[j];
    var props := if HasKind(GetKind(pc.filter), KIND_PROPERTY) then SelectedPropertyKeys(cls.properties, pc) else [];
    SelectedMethodKeyOnce(cls, cls.methods, pc, j);
    PropertyKeysAreNotMethodKeys(cls.properties, pc, m);
    CountConcat(SelectedMethodKeys(cls, cls.methods, pc), props, MethodKey(m));
  }

  lemma AdviceUnderSnoc(ks: seq<string>, k: string, advice: Advice)
    ensures AdviceUnder(ks + [k], advice) == Append(AdviceUnder(ks, advice), k, advice)
  {
    assert (ks + [k])[..|ks|] == ks;
  }

  /** One step of the weaver's method loop. */
  lemma MethodStep(cls: ClassDesc, ms: seq<MethodDesc>, pc: Pointcut, i: nat, advice: Advice)
    requires i < |ms|
    ensures AdviceUnder(SelectedMethodKeys(cls, ms[..i + 1], pc), advice)
      == if MethodSelected(cls, ms[i], pc)
         then Append(AdviceUnder(SelectedMethodKeys(cls, ms[..i], pc), advice), MethodKey(ms[i]), advice)
         else AdviceUnder(SelectedMethodKeys(cls, ms[..i], pc), advice)
  {
    assert ms[..i + 1][..i] == ms[..i];
    assert ms[..i + 1][i] == ms[i];
    if MethodSelected(cls, ms[i], pc) {
      AdviceUnderSnoc(SelectedMethodKeys(cls, ms[..i], pc), MethodKey(ms[i]), advice);
    } else {
      assert SelectedMethodKeys(cls, ms[..i + 1], pc) == SelectedMethodKeys(cls, ms[..i], pc);
    }
  }

  /** One step of the weaver's property loop, continuing the map `m`. */
  lemma PropertyStep(m: AdviceMap, ps: seq<PropertyDesc>, pc: Pointcut, i: nat, advice: Advice)
    requires DistinctKeys(m) && i < |ps|
    ensures AppendUnder(m, SelectedPropertyKeys(ps[..i + 1], pc), advice)
      == if PropertySelected(ps[i], pc)
         then Append(AppendUnder(m, SelectedPropertyKeys(ps[..i], pc), advice), PropertyKey(ps[i]), advice)
         else AppendUnder(m, SelectedPropertyKeys(ps[..i], pc), advice)
  {
    assert ps[..i + 1][..i] == ps[..i];
    assert ps[..i + 1][i] == ps[i];
    var pre := SelectedPropertyKeys(ps[..i], pc);
    if PropertySelected(ps[i], pc) {
      assert (pre + [PropertyKey(ps[i])])[..|pre|] == pre;
    } else {
      assert SelectedPropertyKeys(ps[..i + 1], pc) == pre;
    }
  }

  /** Giving `advice` to the keys `ks1` and then to `ks2` is giving it to
      `ks1 + ks2`. */
  lemma {:induction false} AdviceUnderConcat(ks1: seq<string>, ks2: seq<string>, advice: Advice)
    ensures AdviceUnder(ks1 + ks2, advice) == AppendUnder(AdviceUnder(ks1, advice), ks2, advice)
  {
    if ks2 == [] {
      assert ks1 + ks2 == ks1;
    } else {
      var init, last := ks2[..|ks2| - 1], ks2[|ks2| - 1];
      var ks := ks1 + init;
      assert ks1 + ks2 == ks + [last];
      calc {
        AdviceUnder(ks1 + ks2, advice);
        AdviceUnder(ks + [last], advice);
        { AdviceUnderSnoc(ks, last, advice); }
        Append(AdviceUnder(ks, advice), last, advice);
        { AdviceUnderConcat(ks1, init, advice); }
        Append(AppendUnder(AdviceUnder(ks1, advice), init, advice), last, advice);
      }
    }
  }

  lemma MemberKeysParts(cls: ClassDesc, pc: Pointcut, wantsMethods: bool, wantsProperties: bool,
                        methodKeys: seq<string>, propertyKeys: seq<string>)
    requires wantsMethods == HasKind(GetKind(pc.filter), KIND_METHOD)
    requires wantsProperties == HasKind(GetKind(pc.filter), KIND_PROPERTY)
    requires methodKeys == if wantsMethods then SelectedMethodKeys(cls, cls.methods, pc) else []
    requires propertyKeys == if wantsProperties then SelectedPropertyKeys(cls.properties, pc) else []
    ensures MemberKeys(cls, pc) == methodKeys + propertyKeys
  {
  }

  /** One step of the weaver's loop: merging the next advisor's contribution,
      where a rejected advisor's empty contribution leaves the map as it is. */
  lemma AdvicesForClassSnoc(cls: ClassDesc, advisors: seq<Advisor>, i: nat)
    requires i < |advisors|
    ensures AdvicesForClass(cls, advisors[..i + 1])
      == MergeRecursive(AdvicesForClass(cls, advisors[..i]), AdvisorContribution(cls, advisors[i]))
    ensures AdvisorContribution(cls, advisors[i]) == [] ==>
      AdvicesForClass(cls, advisors[..i + 1]) == AdvicesForClass(cls, advisors[..i])
  {
    assert advisors[..i + 1][..i] == advisors[..i];
  }

  // ---------------------------------------------------------------------
  // The weaver

  class AspectWeaver {
    const container: AspectContainer

    constructor (container: AspectContainer)
      ensures this.container == container
    {
      this.container := container;
    }

    /** `getAdvicesFromAdvisor($class, $advisor, $filter)`: scans the
        methods, then the properties, of `cls`. */
    method GetAdvicesFromAdvisor(cls: ClassDesc, advice: Advice, pc: Pointcut) returns (r: AdviceMap)
      ensures r == AdviceUnder(MemberKeys(cls, pc), advice)
    {
      r := [];
      var kind := GetKind(pc.filter);
      var wantsMethods := HasKind(kind, KIND_METHOD);
      var wantsProperties := HasKind(kind, KIND_PROPERTY);
      if wantsMethods {
        r := AddMethodAdvices(cls, advice, pc);
      }
      ghost var methodKeys := if wantsMethods then SelectedMethodKeys(cls, cls.methods, pc) else [];
      ghost var propertyKeys: seq<string> := [];
      if wantsProperties {
        r := AddPropertyAdvices(cls.properties, advice, pc, r);
        propertyKeys := SelectedPropertyKeys(cls.properties, pc);
        AdviceUnderConcat(methodKeys, propertyKeys, advice);
      } else {
        assert methodKeys + propertyKeys == methodKeys;
      }
      MemberKeysParts(cls, pc, wantsMethods, wantsProperties, methodKeys, propertyKeys);
    }

    /** The method loop of `getAdvicesFromAdvisor`, starting from an empty map. */
    method AddMethodAdvices(cls: ClassDesc, advice: Advice, pc: Pointcut) returns (r: AdviceMap)
      ensures r == AdviceUnder(SelectedMethodKeys(cls, cls.methods, pc), advice)
    {
      r := [];
      var i := 0;
      while i < |cls.methods|
        invariant 0 <= i <= |cls.methods|
        invariant r == AdviceUnder(SelectedMethodKeys(cls, cls.methods[..i], pc), advice)
      {
        var m := cls.methods[i];
        MethodStep(cls, cls.methods, pc, i, advice);
        if MethodSelected(cls, m, pc) {
          r := Append(r, MethodKey(m), advice);
        }
        i := i + 1;
      }
      assert cls.methods[..i] == cls.methods;
    }

    /** The property loop of `getAdvicesFromAdvisor`, continuing the map
        `r0` built by the method loop. */
    method AddPropertyAdvices(properties: seq<PropertyDesc>, advice: Advice, pc: Pointcut, r0: AdviceMap)
      returns (r: AdviceMap)
      requires DistinctKeys(r0)
      ensures r == AppendUnder(r0, SelectedPropertyKeys(properties, pc), advice)
    {
      r := r0;
      var i := 0;
      while i < |properties|
        invariant 0 <= i <= |properties|
        invariant r == AppendUnder(r0, SelectedPropertyKeys(properties[..i], pc), advice)
      {
        var p := properties[i];
        PropertyStep(r0, properties, pc, i, advice);
        if PropertySelected(p, pc) {
          r := Append(r, PropertyKey(p), advice);
        }
        i := i + 1;
      }
      assert properties[..i] == properties;
    }

    /** `getAdvicesForClass($class)` over the advisors currently registered. */
    method GetAdvicesForClass(cls: ClassDesc) returns (r: AdviceMap)
      requires container.Valid()
      ensures r == AdvicesForClass(cls, container.AdvisorsByTag())
    {
      var original := cls;
      if cls.parent.Some? && EndsWith(cls.parent.value.name, AOP_PROXIED_SUFFIX) {
        original := cls.parent.value;
      }
      var advisors := container.AdvisorsByTag();
      r := [];
      var i := 0;
      while i < |advisors|
        invariant 0 <= i <= |advisors|
        invariant r == AdvicesForClass(cls, advisors[..i])
      {
        AdvicesForClassSnoc(cls, advisors, i);
        r := MergeAdvisor(cls, original, advisors[i], r);
        i := i + 1;
      }
      assert advisors[..i] == advisors;
    }

    /** One pass of the loop of `getAdvicesForClass`: the advice of an
        advisor whose class filter accepts `cls`, found on `original`,
        merged into `r0`. */
    method MergeAdvisor(cls: ClassDesc, original: ClassDesc, advisor: Advisor, r0: AdviceMap) returns (r: AdviceMap)
      requires original == OriginalClass(cls) && DistinctKeys(r0)
      ensures r == MergeRecursive(r0, AdvisorContribution(cls, advisor))
    {
      r := r0;
      match advisor {
        case PointcutAdvisor(pc, advice) =>
          if Matches(pc.classFilter, ClassPoint(cls)) {
            var part := GetAdvicesFromAdvisor(original, advice, pc);
            r := MergeRecursive(r, part);
          }
        case IntroductionAdvisor(classFilter, info) =>
          if Matches(classFilter, ClassPoint(cls)) {
            r := MergeRecursive(r, IntroductionFromAdvisor(original, info));
          }
        case OtherAdvisor(_) =>
      }
    }
  }
}
