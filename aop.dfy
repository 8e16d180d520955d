/** The values the loader builds and the weaver distributes: pointcuts,
    advice (interceptors and introductions) and advisors. Constructing the
    PHP callbacks and interceptor objects is outside the model; they appear
    here as tagged values that record what they were built from. */
module Aop {
  import opened Kinds
  import opened PointFilters

  /** The four interceptor styles: when advice runs relative to the member. */
  datatype Style = Before | After | Around | AfterThrowing

  /** The advice callback: `BaseAdvice::fromAspectReflection($aspect, $method)`,
      possibly wrapped by `BaseAdvice::createScopeCallback($callback, $scope)`. */
  datatype Callback =
    | AspectCallback(aspect: string, methodId: string)
    | ScopedCallback(inner: Callback, scope: string)

  /** What an introduction advisor adds to a class. */
  datatype IntroductionInfo = IntroductionInfo(interfaces: seq<string>)

  /** A parsed pointcut: its class filter, and the member filter that its own
      `getKind`/`matches` answer with. `isPointFilter` and `className` stand for
      `$pointcut instanceof PointFilter` and `get_class($pointcut)`. */
  datatype Pointcut = Pointcut(
    classFilter: Filter,
    filter: Filter,
    isPointFilter: bool,
    className: string)

  /** The pointcut is a `DynamicMethodMatcher`: its member filter is a leaf
      that can only decide with the call's arguments. */
  predicate IsDynamicMethodMatcher(pc: Pointcut)
  {
    pc.filter.Leaf? && pc.filter.dynamic
  }

  datatype Advice =
    | MethodInterceptor(style: Style, callback: Callback, order: int)
    | FieldInterceptor(style: Style, callback: Callback, order: int)
    | DynamicMethodMatcherInterceptor(pointcut: Pointcut, interceptor: Advice)
    | Introduction(info: IntroductionInfo)

  /** The entries tagged 'advisor' in the container. `OtherAdvisor` is any
      object that is neither a `PointcutAdvisor` nor an `IntroductionAdvisor`. */
  datatype Advisor =
    | PointcutAdvisor(pointcut: Pointcut, advice: Advice)
    | IntroductionAdvisor(classFilter: Filter, info: IntroductionInfo)
    | OtherAdvisor(className: string)
}
