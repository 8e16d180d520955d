/** The part of the aspect container that the loader extension writes and the
    weaver reads: the named pointcuts, the advisors by id, and the order in
    which `getByTag('advisor')` returns the advisors. Also the container's
    key prefixes and the proxy-class suffix. */
module Registry {
  import opened Aop

  /** Key prefixes of the advice map and the suffix of generated proxy
      parents. The model relies only on their being distinct, colon-free
      and starting with different characters. */
  const METHOD_PREFIX: string := "method"
  const STATIC_METHOD_PREFIX: string := "static"
  const PROPERTY_PREFIX: string := "prop"
  const INTRODUCTION_TRAIT_PREFIX: string := "introduction"
  const AOP_PROXIED_SUFFIX: string := "__AopProxied"

  /** The advisors stored under `ids`, in the order of `ids`. */
  function InOrder(ids: seq<string>, byId: map<string, Advisor>): (r: seq<Advisor>)
    requires forall i :: 0 <= i < |ids| ==> ids[i] in byId
    ensures |r| == |ids|
    ensures forall i :: 0 <= i < |ids| ==> r[i] == byId[ids[i]]
  {
    if ids == [] then [] else [byId[ids[0]]] + InOrder(ids[1..], byId)
  }

  class AspectContainer {
    var pointcuts: map<string, Pointcut>
    var advisors: map<string, Advisor>
    var advisorIds: seq<string>

    /** Every advisor id is listed once, in registration order. */
    ghost predicate Valid()
      reads this
    {
      && (forall i, j :: 0 <= i < j < |advisorIds| ==> advisorIds[i] != advisorIds[j])
      && (forall id :: id in advisors <==> id in advisorIds)
    }

    constructor ()
      ensures Valid()
      ensures pointcuts == map[] && advisors == map[] && advisorIds == []
    {
      pointcuts := map[];
      advisors := map[];
      advisorIds := [];
    }

    /** `getByTag('advisor')`: the registered advisors in registration order. */
    function AdvisorsByTag(): (r: seq<Advisor>)
      reads this
      requires Valid()
      ensures |r| == |advisorIds|
      ensures forall i :: 0 <= i < |r| ==> r[i] == advisors[advisorIds[i]]
    {
      InOrder(advisorIds, advisors)
    }

    /** `registerPointcut($pointcut, $id)`: a named pointcut, replacing any
        earlier one of that name. */
    method RegisterPointcut(pointcut: Pointcut, id: string)
      requires Valid()
      modifies this
      ensures Valid()
      ensures pointcuts == old(pointcuts)[id := pointcut]
      ensures advisors == old(advisors) && advisorIds == old(advisorIds)
    {
      pointcuts := pointcuts[id := pointcut];
    }

    /** `registerAdvisor($advisor, $id)`: a new id goes to the end of the
        advisor order; an existing id keeps its place and gets the new advisor. */
    method RegisterAdvisor(advisor: Advisor, id: string)
      requires Valid()
      modifies this
      ensures Valid()
      ensures advisors == old(advisors)[id := advisor]
      ensures advisorIds == if id in old(advisorIds) then old(advisorIds) else old(advisorIds) + [id]
      ensures pointcuts == old(pointcuts)
    {
      if id !in advisorIds {
        advisorIds := advisorIds + [id];
      }
      advisors := advisors[id := advisor];
    }
  }
}
