/** `GeneralAspectLoaderExtension`: turns one annotated aspect method into
    either a named pointcut or an advisor in the container.

    What `load` decides is the pure function `Decision`; the method `Load`
    carries it out on the container. The pointcut lexer and parser are
    outside the model: their answer for the annotation's expression is a
    parameter, `grammar`. */
module GeneralAspectLoaderExtension {
  import opened Wrappers
  import opened Strings
  import opened Kinds
  import opened PointFilters
  import opened Aop
  import opened Registry

  /** The interceptor annotation classes `Before`, `After`, `Around`,
      `AfterThrowing`, and any other subclass of `Interceptor`. */
  datatype AnnotationClass =
    | BeforeAnnotation
    | AfterAnnotation
    | AroundAnnotation
    | AfterThrowingAnnotation
    | OtherInterceptor(className: string)

  /** The meta-information handed to the extension for an aspect method. */
  datatype MetaInformation =
    | PointcutAnnotation(value: string)
    | InterceptorAnnotation(annotation: AnnotationClass, value: string, order: int, scope: Option<string>)
    | OtherMetaInformation(className: string)

  /** The reflection of the aspect method: declaring class (if set), name,
      file and first line. */
  datatype AspectMethod = AspectMethod(cls: Option<string>, name: string, fileName: string, startLine: int)

  /** What the lexer and parser make of an expression. */
  datatype ParseOutcome =
    | Parsed(pointcut: Pointcut)
    | LexFailure
    | UnexpectedTokenFailure(token: string, expected: seq<string>)

  /** The `UnexpectedValueException`s that `load` throws, by origin. */
  datatype LoadError =
    | LexicalError(message: string)
    | SyntaxError(message: string)
    | UnsupportedMetaClass(message: string)
    | UnsupportedPointcutClass(message: string)

  /** The container call that `load` makes. */
  datatype Registration =
    | NamedPointcut(id: string, pointcut: Pointcut)
    | NewAdvisor(id: string, advisor: Advisor)

  /** `supports`: interceptor and pointcut annotations are handled, nothing else. */
  predicate Supports(meta: MetaInformation): (r: bool)
    ensures r <==> meta.PointcutAnnotation? || meta.InterceptorAnnotation?
  {
    !meta.OtherMetaInformation?
  }

  /** `get_class($metaInformation)` for an interceptor annotation. */
  function ClassName(a: AnnotationClass): (name: string)
    ensures a.OtherInterceptor? ==> name == a.className
  {
    match a
    case BeforeAnnotation => "Go\\Lang\\Annotation\\Before"
    case AfterAnnotation => "Go\\Lang\\Annotation\\After"
    case AroundAnnotation => "Go\\Lang\\Annotation\\Around"
    case AfterThrowingAnnotation => "Go\\Lang\\Annotation\\AfterThrowing"
    case OtherInterceptor(name) => name
  }

  /** Where the expression was written: `Class->method`, or only the method
      name when the reflection has no class. */
  function Location(m: AspectMethod): string
  {
    (if m.cls.Some? then m.cls.value + "->" else "") + m.name
  }

  /** The id under which the method's pointcut or advisor is registered:
      `sprintf("%s->%s", class, name)`, where an unset class prints as "". */
  function MethodId(m: AspectMethod): string
  {
    (if m.cls.Some? then m.cls.value else "") + "->" + m.name
  }

  /** The two sides of `MethodId` can be read back when the class name
      holds no '>'. */
  lemma MethodIdSplits(m: AspectMethod)
    requires m.cls.Some? && '>' !in m.cls.value
    ensures IndexOf(MethodId(m), '>') == |m.cls.value| + 1
    ensures MethodId(m)[..|m.cls.value|] == m.cls.value
    ensures MethodId(m)[|m.cls.value| + 2..] == m.name
  {
    var c := m.cls.value;
    var id := MethodId(m);
    assert id == c + "->" + m.name;
    assert id[|c| + 1] == '>';
    assert forall i :: 0 <= i < |c| ==> id[i] == c[i];
    assert id[|c|] == '-';
  }

  /** An expression as the messages quote it, between backquotes. */
  function Quoted(value: string): string
  {
    "`" + value + "`"
  }

  /** The lexer failure's message for expression `value` written at
      `location` in `place` (file and line). */
  function LexicalMessage(value: string, location: string, place: string): string
  {
    "Can not recognize the lexical structure " + Quoted(value) + (" before " + location) + (", defined in " + place)
  }

  /** The parser failure's message; `expected` is the joined list of tokens
      that would have been accepted. */
  function SyntaxMessage(token: string, value: string, location: string, place: string, expected: string): string
  {
    ("Unexpected token " + token + " ") + ("in the " + Quoted(value)) + (" before " + location)
    + (", defined in " + place + ".\n") + ("Expected one of: " + expected)
  }

  /** `parsePointcut`: the pointcut for the annotation's expression, or the
      exception with its message. */
  function ParsePointcut(m: AspectMethod, value: string, outcome: ParseOutcome): (r: Result<Pointcut, LoadError>)
    ensures outcome.Parsed? <==> r.Success?
    ensures outcome.Parsed? ==> r.value == outcome.pointcut
    ensures outcome.LexFailure? ==> r.Failure? && r.error.LexicalError?
    ensures outcome.UnexpectedTokenFailure? ==> r.Failure? && r.error.SyntaxError?
  {
    var place := m.fileName + ":" + IntToString(m.startLine);
    match outcome
    case Parsed(pc) => Success(pc)
    case LexFailure => Failure(LexicalError(LexicalMessage(value, Location(m), place)))
    case UnexpectedTokenFailure(token, expected) =>
      Failure(SyntaxError(SyntaxMessage(token, value, Location(m), place, Join(", ", expected))))
  }

  /** `getMethodInterceptor`: a method interceptor of the annotation's
      style and order; other interceptor classes are unsupported. */
  function GetMethodInterceptor(a: AnnotationClass, order: int, callback: Callback): (r: Result<Advice, LoadError>)
    ensures r.Success? <==> !a.OtherInterceptor?
    ensures r.Success? ==> r.value.MethodInterceptor? && r.value.order == order && r.value.callback == callback
    ensures r.Failure? ==> r.error == UnsupportedMetaClass("Unsupported method meta class: " + ClassName(a))
  {
    match a
    case BeforeAnnotation => Success(MethodInterceptor(Before, callback, order))
    case AfterAnnotation => Success(MethodInterceptor(After, callback, order))
    case AroundAnnotation => Success(MethodInterceptor(Around, callback, order))
    case AfterThrowingAnnotation => Success(MethodInterceptor(AfterThrowing, callback, order))
    case OtherInterceptor(_) => Failure(UnsupportedMetaClass("Unsupported method meta class: " + ClassName(a)))
  }

  /** `getPropertyInterceptor`: like `GetMethodInterceptor`, but there is no
      after-throwing field interceptor, so `AfterThrowing` is unsupported too
      (with the same message as for methods). */
  function GetPropertyInterceptor(a: AnnotationClass, order: int, callback: Callback): (r: Result<Advice, LoadError>)
    ensures r.Success? <==> !(a.OtherInterceptor? || a.AfterThrowingAnnotation?)
    ensures r.Success? ==> r.value.FieldInterceptor? && r.value.order == order && r.value.callback == callback
    ensures r.Failure? ==> r.error == UnsupportedMetaClass("Unsupported method meta class: " + ClassName(a))
  {
    match a
    case BeforeAnnotation => Success(FieldInterceptor(Before, callback, order))
    case AfterAnnotation => Success(FieldInterceptor(After, callback, order))
    case AroundAnnotation => Success(FieldInterceptor(Around, callback, order))
    case _ => Failure(UnsupportedMetaClass("Unsupported method meta class: " + ClassName(a)))
  }

  /** The style an interceptor annotation names, if it names one. */
  function StyleOf(a: AnnotationClass): Option<Style>
  {
    match a
    case BeforeAnnotation => Some(Before)
    case AfterAnnotation => Some(After)
    case AroundAnnotation => Some(Around)
    case AfterThrowingAnnotation => Some(AfterThrowing)
    case OtherInterceptor(_) => None
  }

  /** The interceptors keep the annotation's style: method interceptors for
      all four styles, field interceptors for all but `AfterThrowing`. */
  lemma InterceptorsKeepStyle(a: AnnotationClass, order: int, callback: Callback)
    ensures GetMethodInterceptor(a, order, callback).Success? <==> StyleOf(a).Some?
    ensures GetMethodInterceptor(a, order, callback).Success? ==>
      GetMethodInterceptor(a, order, callback).value.style == StyleOf(a).value
    ensures GetPropertyInterceptor(a, order, callback).Success? <==>
      (StyleOf(a).Some? && StyleOf(a).value != AfterThrowing)
    ensures GetPropertyInterceptor(a, order, callback).Success? ==>
      GetPropertyInterceptor(a, order, callback).value.style == StyleOf(a).value
  {
  }

  /** The advice callback: built from the aspect and the method, and wrapped
      in a scope callback when the annotation sets a scope other than "aspect". */
  function AdviceCallback(aspect: string, m: AspectMethod, meta: MetaInformation): (cb: Callback)
  {
    var base := AspectCallback(aspect, MethodId(m));
    if meta.InterceptorAnnotation? && meta.scope.Some? && meta.scope.value != "aspect"
    then ScopedCallback(base, meta.scope.value)
    else base
  }

  /** The callback is scoped exactly when a scope other than "aspect" is
      set, and the wrapped callback is always the aspect method's own. */
  lemma ScopeWrapping(aspect: string, m: AspectMethod, meta: MetaInformation)
    ensures AdviceCallback(aspect, m, meta).ScopedCallback? <==>
      (meta.InterceptorAnnotation? && meta.scope.Some? && meta.scope.value != "aspect")
    ensures AdviceCallback(aspect, m, meta).ScopedCallback? ==>
      AdviceCallback(aspect, m, meta) == ScopedCallback(AspectCallback(aspect, MethodId(m)), meta.scope.value)
    ensures !AdviceCallback(aspect, m, meta).ScopedCallback? ==>
      AdviceCallback(aspect, m, meta) == AspectCallback(aspect, MethodId(m))
  {
  }

  /** The body of `load`: parse, then dispatch on the annotation and on the
      kind of the parsed pointcut. */
  function Decision(aspect: string, m: AspectMethod, meta: MetaInformation, grammar: string -> ParseOutcome)
    : (r: Result<Registration, LoadError>)
    requires Supports(meta)
    ensures r.Success? ==> r.value.id == MethodId(m)
    ensures grammar(meta.value).LexFailure? ==> r.Failure? && r.error.LexicalError?
    ensures grammar(meta.value).UnexpectedTokenFailure? ==> r.Failure? && r.error.SyntaxError?
  {
    match ParsePointcut(m, meta.value, grammar(meta.value))
    case Failure(e) => Failure(e)
    case Success(pc) =>
      var id := MethodId(m);
      var callback := AdviceCallback(aspect, m, meta);
      if meta.PointcutAnnotation? then
        Success(NamedPointcut(id, pc))
      else if pc.isPointFilter && HasKind(GetKind(pc.filter), KIND_METHOD) then
        match GetMethodInterceptor(meta.annotation, meta.order, callback)
        case Failure(e) => Failure(e)
        case Success(advice) =>
          var wrapped := if IsDynamicMethodMatcher(pc) then DynamicMethodMatcherInterceptor(pc, advice) else advice;
          Success(NewAdvisor(id, PointcutAdvisor(pc, wrapped)))
      else if pc.isPointFilter && HasKind(GetKind(pc.filter), KIND_PROPERTY) then
        match GetPropertyInterceptor(meta.annotation, meta.order, callback)
        case Failure(e) => Failure(e)
        case Success(advice) => Success(NewAdvisor(id, PointcutAdvisor(pc, advice)))
      else
        Failure(UnsupportedPointcutClass("Unsupported pointcut class: " + pc.className))
  }

  // ---------------------------------------------------------------------
  // Properties of `load`

  /** A pointcut annotation registers the parsed pointcut under the method's
      id, whatever the pointcut's kind. */
  lemma PointcutAnnotationRegistersPointcut(aspect: string, m: AspectMethod, value: string,
                                            grammar: string -> ParseOutcome)
    requires grammar(value).Parsed?
    ensures Decision(aspect, m, PointcutAnnotation(value), grammar)
      == Success(NamedPointcut(MethodId(m), grammar(value).pointcut))
  {
  }

  /** An interceptor on a point filter of METHOD kind gets a method
      interceptor of its style and order, even when the kind also has the
      PROPERTY bit; a dynamic method matcher is wrapped so it is checked at
      call time. */
  lemma MethodKindGetsMethodInterceptor(aspect: string, m: AspectMethod, meta: MetaInformation,
                                        grammar: string -> ParseOutcome)
    requires meta.InterceptorAnnotation? && StyleOf(meta.annotation).Some?
    requires grammar(meta.value).Parsed?
    requires grammar(meta.value).pointcut.isPointFilter
    requires HasKind(GetKind(grammar(meta.value).pointcut.filter), KIND_METHOD)
    ensures
      var pc := grammar(meta.value).pointcut;
      var interceptor := MethodInterceptor(StyleOf(meta.annotation).value, AdviceCallback(aspect, m, meta), meta.order);
      Decision(aspect, m, meta, grammar) == Success(NewAdvisor(MethodId(m), PointcutAdvisor(pc,
        if IsDynamicMethodMatcher(pc) then DynamicMethodMatcherInterceptor(pc, interceptor) else interceptor)))
  {
  }

  /** An interceptor on a point filter of PROPERTY kind only gets a field
      interceptor; `AfterThrowing` there is rejected as unsupported. */
  lemma PropertyKindGetsFieldInterceptor(aspect: string, m: AspectMethod, meta: MetaInformation,
                                         grammar: string -> ParseOutcome)
    requires meta.InterceptorAnnotation?
    requires grammar(meta.value).Parsed?
    requires grammar(meta.value).pointcut.isPointFilter
    requires !HasKind(GetKind(grammar(meta.value).pointcut.filter), KIND_METHOD)
    requires HasKind(GetKind(grammar(meta.value).pointcut.filter), KIND_PROPERTY)
    ensures meta.annotation.AfterThrowingAnnotation? ==>
      Decision(aspect, m, meta, grammar)
        == Failure(UnsupportedMetaClass("Unsupported method meta class: " + ClassName(AfterThrowingAnnotation)))
    ensures StyleOf(meta.annotation).Some? && !meta.annotation.AfterThrowingAnnotation? ==>
      Decision(aspect, m, meta, grammar) == Success(NewAdvisor(MethodId(m), PointcutAdvisor(grammar(meta.value).pointcut,
        FieldInterceptor(StyleOf(meta.annotation).value, AdviceCallback(aspect, m, meta), meta.order))))
  {
  }

  /** An interceptor whose pointcut is not a point filter, or whose kind has
      neither the METHOD nor the PROPERTY bit, is rejected with the
      pointcut's class name. */
  lemma OtherKindsRejected(aspect: string, m: AspectMethod, meta: MetaInformation,
                           grammar: string -> ParseOutcome)
    requires meta.InterceptorAnnotation?
    requires grammar(meta.value).Parsed?
    requires
      var pc := grammar(meta.value).pointcut;
      !pc.isPointFilter || (!HasKind(GetKind(pc.filter), KIND_METHOD) && !HasKind(GetKind(pc.filter), KIND_PROPERTY))
    ensures Decision(aspect, m, meta, grammar)
      == Failure(UnsupportedPointcutClass("Unsupported pointcut class: " + grammar(meta.value).pointcut.className))
  {
  }

  /** `load` succeeds exactly when the expression parses and either the
      annotation is a pointcut, or the interceptor style fits the kind. */
  lemma DecisionSucceedsExactly(aspect: string, m: AspectMethod, meta: MetaInformation,
                                grammar: string -> ParseOutcome)
    requires Supports(meta)
    ensures Decision(aspect, m, meta, grammar).Success? <==>
      grammar(meta.value).Parsed? &&
      (meta.PointcutAnnotation? ||
        (var pc := grammar(meta.value).pointcut;
         pc.isPointFilter &&
         (if HasKind(GetKind(pc.filter), KIND_METHOD) then StyleOf(meta.annotation).Some?
          else (HasKind(GetKind(pc.filter), KIND_PROPERTY)
                && StyleOf(meta.annotation).Some? && StyleOf(meta.annotation).value != AfterThrowing))))
  {
  }

  /** The lexer's message names the expression, where it was written, the
      file and the line. */
  lemma LexicalErrorMessage(m: AspectMethod, value: string)
    ensures
      var msg := ParsePointcut(m, value, LexFailure).error.message;
      Contains(msg, Quoted(value)) && Contains(msg, Location(m))
      && Contains(msg, m.fileName + ":" + IntToString(m.startLine))
  {
    LexicalMessageParts(value, Location(m), m.fileName + ":" + IntToString(m.startLine));
  }

  lemma LexicalMessageParts(value: string, location: string, place: string)
    ensures
      var msg := LexicalMessage(value, location, place);
      Contains(msg, Quoted(value)) && Contains(msg, location) && Contains(msg, place)
  {
    var head := "Can not recognize the lexical structure ";
    var before, defined := " before " + location, ", defined in " + place;
    ContainsEnds(head, Quoted(value));
    ContainsEnds(" before ", location);
    ContainsEnds(", defined in ", place);
    ContainsWithin(head + Quoted(value), before, Quoted(value));
    ContainsWithin(head + Quoted(value), before, location);
    ContainsWithin(head + Quoted(value) + before, defined, Quoted(value));
    ContainsWithin(head + Quoted(value) + before, defined, location);
    ContainsWithin(head + Quoted(value) + before, defined, place);
  }

  /** The parser's message names the offending token, the expression, where
      it was written, the file and the line, and every expected token. */
  lemma SyntaxErrorMessage(m: AspectMethod, value: string, token: string, expected: seq<string>)
    ensures
      var msg := ParsePointcut(m, value, UnexpectedTokenFailure(token, expected)).error.message;
      Contains(msg, "Unexpected token " + token + " ") && Contains(msg, Quoted(value))
      && Contains(msg, Location(m)) && Contains(msg, m.fileName + ":" + IntToString(m.startLine))
      && Contains(msg, "Expected one of: " + Join(", ", expected))
  {
    SyntaxMessageParts(token, value, Location(m), m.fileName + ":" + IntToString(m.startLine), Join(", ", expected));
  }

  lemma SyntaxMessageParts(token: string, value: string, location: string, place: string, expected: string)
    ensures
      var msg := SyntaxMessage(token, value, location, place, expected);
      Contains(msg, "Unexpected token " + token + " ") && Contains(msg, Quoted(value))
      && Contains(msg, location) && Contains(msg, place) && Contains(msg, "Expected one of: " + expected)
  {
    var p1, p2, p3 := "Unexpected token " + token + " ", "in the " + Quoted(value), " before " + location;
    var p4, p5 := ", defined in " + place + ".\n", "Expected one of: " + expected;
    ContainsEnds(p1, p2);
    ContainsEnds("in the ", Quoted(value));
    ContainsEnds(" before ", location);
    ContainsEnds(", defined in ", place);
    ContainsWithin(", defined in " + place, ".\n", place);
    ContainsWithin(p1, p2, Quoted(value));
    ContainsWithin(p1 + p2, p3, p1);
    ContainsWithin(p1 + p2, p3, Quoted(value));
    ContainsWithin(p1 + p2, p3, location);
    ContainsWithin(p1 + p2 + p3, p4, p1);
    ContainsWithin(p1 + p2 + p3, p4, Quoted(value));
    ContainsWithin(p1 + p2 + p3, p4, location);
    ContainsWithin(p1 + p2 + p3, p4, place);
    ContainsWithin(p1 + p2 + p3 + p4, p5, p1);
    ContainsWithin(p1 + p2 + p3 + p4, p5, Quoted(value));
    ContainsWithin(p1 + p2 + p3 + p4, p5, location);
    ContainsWithin(p1 + p2 + p3 + p4, p5, place);
    ContainsEnds(p1 + p2 + p3 + p4, p5);
  }

  // ---------------------------------------------------------------------
  // `load` against the container

  /** `load`: the container gets the registration `Decision` describes, or,
      when `Decision` is an error, is left as it was and the error is
      returned. */
  method Load(container: AspectContainer, aspect: string, m: AspectMethod, meta: MetaInformation,
              grammar: string -> ParseOutcome)
    returns (outcome: Outcome<LoadError>)
    requires Supports(meta) && container.Valid()
    modifies container
    ensures container.Valid()
    ensures outcome.Fail? <==> Decision(aspect, m, meta, grammar).Failure?
    ensures outcome.Fail? ==> outcome.error == Decision(aspect, m, meta, grammar).error
    ensures outcome.Fail? ==> unchanged(container)
    ensures Decision(aspect, m, meta, grammar).Success? ==>
      var reg := Decision(aspect, m, meta, grammar).value;
      if reg.NamedPointcut? then
        && container.pointcuts == old(container.pointcuts)[reg.id := reg.pointcut]
        && container.advisors == old(container.advisors)
        && container.advisorIds == old(container.advisorIds)
      else
        && container.advisors == old(container.advisors)[reg.id := reg.advisor]
        && container.advisorIds == (if reg.id in old(container.advisorIds) then old(container.advisorIds)
                                    else old(container.advisorIds) + [reg.id])
        && container.pointcuts == old(container.pointcuts)
  {
    var parsed := ParsePointcut(m, meta.value, grammar(meta.value));
    if parsed.Failure? {
      return Fail(parsed.error);
    }
    var pointcut := parsed.value;
    var methodId := MethodId(m);
    var adviceCallback := AdviceCallback(aspect, m, meta);
    var isPointFilter := pointcut.isPointFilter;
    if meta.PointcutAnnotation? {
      container.RegisterPointcut(pointcut, methodId);
    } else if isPointFilter && HasKind(GetKind(pointcut.filter), KIND_METHOD) {
      var interceptor := GetMethodInterceptor(meta.annotation, meta.order, adviceCallback);
      if interceptor.Failure? {
        return Fail(interceptor.error);
      }
      var advice := interceptor.value;
      if IsDynamicMethodMatcher(pointcut) {
        advice := DynamicMethodMatcherInterceptor(pointcut, advice);
      }
      container.RegisterAdvisor(PointcutAdvisor(pointcut, advice), methodId);
    } else if isPointFilter && HasKind(GetKind(pointcut.filter), KIND_PROPERTY) {
      var interceptor := GetPropertyInterceptor(meta.annotation, meta.order, adviceCallback);
      if interceptor.Failure? {
        return Fail(interceptor.error);
      }
      container.RegisterAdvisor(PointcutAdvisor(pointcut, interceptor.value), methodId);
    } else {
      return Fail(UnsupportedPointcutClass("Unsupported pointcut class: " + pointcut.className));
    }
    outcome := Pass;
  }
}
