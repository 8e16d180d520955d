# Go! AOP matching and composition engine, in Dafny

This project models the core of the Go! AOP PHP framework that decides
which advice applies where. It has three parts:

- **`OrPointFilter`** combines two join-point filters. Its kind is the
  bitwise OR of the operands' kinds, cached at construction. It matches with
  short-circuit `||`.
- **`AspectWeaver`** builds the advice map of one class. It walks the
  registered advisors in order and asks each advisor's class filter about
  the class. It enumerates methods and properties of the "original" class:
  the parent, when the parent is a generated proxy parent. Advice is
  appended under member keys (`prefix:name`), and the contributions of
  different advisors are merged without overwriting.
- **`GeneralAspectLoaderExtension`** turns one annotated aspect method into
  a named pointcut, an advisor, or an `UnexpectedValueException`.

Layout:

- `wrappers.dfy`: `Option`, `Result`, `Outcome`.
- `seqs.dfy`: two facts about sequences of any element type.
- `strings.dfy`: the PHP string operations involved: suffix test, `join`, and `%d`.
- `reflection.dfy`: class, method and property descriptions, and join points.
- `kinds.dfy`: the kind bit mask of a filter and its bit laws.
- `point_filters.dfy`: filters, `OrPointFilter`, and the laws of the combinator.
- `aop.dfy`: pointcuts, advice and advisors.
- `advice_maps.dfy`: PHP ordered arrays of advice lists, with `$m[$k][] = $v`
  and `array_merge_recursive`.
- `aspect_container.dfy`: the part of the aspect container that the loader
  writes and the weaver reads. It is a class with pointcut and advisor maps
  and the advisor order.
- `aspect_weaver.dfy`: the specification of the advice map as functions, its
  properties, and the class `AspectWeaver`. Its loops are proved to compute
  those functions.
- `general_aspect_loader_extension.dfy`: the decision of `load` as a function
  (`Decision`), its properties, and the method `Load`, which applies it to
  the container.

Filters are a datatype. A leaf carries a kind mask and an abstract test. An
`Or` node carries its cached kind and its two operands. Short-circuit
evaluation is made observable through `Evaluated`, the sequence of leaves
whose `matches` is called.

The advice map is a sequence of `(key, advice list)` entries with distinct
keys, in insertion order, like a PHP array. The container's `registerAdvisor`
is not part of this model's sources, so its behaviour is an assumption:
- a new id goes to the end of the advisor order;
- a repeated id keeps its position and gets the new advisor.

## Model

| member | source | states |
|---|---|---|
| PointFilters.NewOr | src/Go/Aop/Support/OrPointFilter.php:46-51 | the new `Or` keeps both operands, caches the bitwise OR of the operands' kinds, and accepts a point exactly when one operand does |
| PointFilters.OrKindKeepsOperandBits | src/Go/Aop/Support/OrPointFilter.php:48 | every bit of either operand's kind is in the kind of `Or(a, b)` |
| PointFilters.OrHasKind | src/Go/Aop/Support/OrPointFilter.php:48 | `Or(a, b)` has a kind bit if and only if `a` or `b` has it |
| PointFilters.OrMatchesLaws | src/Go/Aop/Support/OrPointFilter.php:62 | `Or(a, b)` matches `p` if and only if `a` or `b` matches `p` |
| PointFilters.OrSymmetric | src/Go/Aop/Support/OrPointFilter.php:46-63 | swapping the operands changes neither the kind nor the match result |
| PointFilters.OrShortCircuit | src/Go/Aop/Support/OrPointFilter.php:62 | when `a` matches, no leaf of `b` is evaluated; otherwise `b`'s leaves are evaluated after `a`'s |
| PointFilters.EvaluatedStopsAtFirstMatch | src/Go/Aop/Support/OrPointFilter.php:60-63 | across a whole tree of `Or`s, evaluation visits the leaves left to right and stops at the first one that accepts |
| PointFilters.MatchesSomeLeaf | src/Go/Aop/Support/OrPointFilter.php:60-63 | a tree of `Or`s matches if and only if one of its leaves accepts |
| PointFilters.LeafAcceptsThenMatches | src/Go/Aop/Support/OrPointFilter.php:60-63 | a leaf that accepts the point makes the whole tree accept it |
| PointFilters.MatchesThenLeafAccepts | src/Go/Aop/Support/OrPointFilter.php:60-63 | a tree that accepts the point has a leaf that accepts it, and the lemma names it |
| PointFilters.NewOrWellFormed | src/Go/Aop/Support/OrPointFilter.php:46-51 | building with the constructor keeps every cached kind equal to the OR of its operands' kinds |
| PointFilters.CachedKindIsComputed | src/Go/Aop/Support/OrPointFilter.php:70-73 | `getKind` of a well-formed filter equals the kind recomputed from its leaves, so caching changes nothing |
| Strings.SplitJoin | src/Go/Core/AspectWeaver.php:154 | joining with a separator found in no part can be undone by splitting, giving back the parts in order |
| Strings.JoinInjective | src/Go/Core/AspectWeaver.php:154 | two lists of separator-free parts that join to the same string are equal |
| Strings.IntToStringRoundTrip | src/Go/Core/GeneralAspectLoaderExtension.php:188 | the `%d` rendering of the line number has a leading '-' exactly for negative numbers, and its digits read back as the magnitude |
| AdviceMaps.AppendAll | src/Go/Core/AspectWeaver.php:116 | appending to a key keeps the keys distinct and adds the key at the end if it was new, keeping the order of the others |
| AdviceMaps.AppendAllLookup | src/Go/Core/AspectWeaver.php:116 | appending to a key extends the list under that key by the given values and leaves the list under every other key alone |
| AdviceMaps.AppendKeys | src/Go/Core/AspectWeaver.php:116 | after `$m[$k][] = $v` the keys are the old keys and `k` |
| AdviceMaps.Append | src/Go/Core/AspectWeaver.php:127 | `$m[$k][] = $v` adds `v` at the end of the list under `k` and changes no other key |
| AdviceMaps.MergeRecursive | src/Go/Core/AspectWeaver.php:76-79 | the merge of two PHP arrays again has distinct keys |
| AdviceMaps.MergeRecursiveLookup | src/Go/Core/AspectWeaver.php:76-79 | under every key the merged list is the first map's list followed by the second's: nothing is overwritten |
| AdviceMaps.MergeRecursiveKeys | src/Go/Core/AspectWeaver.php:76-79 | a key is in the merge if and only if it is in one of the two maps |
| AdviceMaps.MergeRecursiveKeepsOrder | src/Go/Core/AspectWeaver.php:76-79 | the first map's keys stay first, in their order |
| AdviceMaps.LookupEntry | src/Go/Core/AspectWeaver.php:116 | in a map with distinct keys, reading a key gives the list stored in its entry |
| Registry.AspectContainer.AdvisorsByTag | src/Go/Core/AspectWeaver.php:70 | the advisors are listed in registration order, one per registered id |
| Registry.AspectContainer.RegisterPointcut | src/Go/Core/GeneralAspectLoaderExtension.php:92 | the pointcut is stored under its id; advisors and their order are untouched |
| Registry.AspectContainer.RegisterAdvisor | src/Go/Core/GeneralAspectLoaderExtension.php:103 | the advisor is stored under its id; a new id goes last in the advisor order; pointcuts are untouched |
| Weaver.OriginalClass | src/Go/Core/AspectWeaver.php:62-68 | members come from the parent exactly when there is a parent whose name ends with the proxied suffix, otherwise from the class itself |
| Weaver.KeyKindsDisjoint | src/Go/Core/AspectWeaver.php:115-116 | method, property and introduction keys never coincide |
| Weaver.MethodKeyInjective | src/Go/Core/AspectWeaver.php:115-116 | two methods with the same key have the same name and the same staticness |
| Weaver.IntroductionKeyInjective | src/Go/Core/AspectWeaver.php:154 | the introduction key determines the interface list, including its order |
| Weaver.IntroductionFromAdvisor | src/Go/Core/AspectWeaver.php:143-156 | a trait gets nothing; any other class gets exactly the introduction key, holding the introduction |
| Weaver.MemberKeysExactly | src/Go/Core/AspectWeaver.php:104-133 | a key is produced if and only if: the kind has METHOD and some public or protected method declared by the class itself matches with that key; or the kind has PROPERTY and some public or protected property matches with that key |
| Weaver.InheritedMethodNotAdvised | src/Go/Core/AspectWeaver.php:114 | a method that the class only inherits gets no advice |
| Weaver.InheritedPropertyAdvised | src/Go/Core/AspectWeaver.php:122-129 | properties have no declaring-class check: an inherited matching property is advised |
| Weaver.AdviceUnderLookup | src/Go/Core/AspectWeaver.php:116 | within one advisor, each key holds exactly one copy of the advice per member with that key |
| Weaver.AdviceUnderKeys | src/Go/Core/AspectWeaver.php:112-128 | within one advisor, the keys of the map are exactly the keys of the advised members |
| Weaver.PointcutContribution | src/Go/Core/AspectWeaver.php:72-79 | a pointcut advisor whose class filter accepts the class gives each key one copy of its advice per advised member of the original class, which is the parent for a proxy |
| Weaver.ContributionEmptyCases | src/Go/Core/AspectWeaver.php:70-91 | an advisor of another type contributes nothing; neither does one whose class filter rejects the given class; nor an introduction into a trait |
| Weaver.AdvicesForClassLookup | src/Go/Core/AspectWeaver.php:70-91 | the list under a key is every advisor's list for that key, concatenated in registration order; nothing is overwritten |
| Weaver.KeyFromSomeAdvisor | src/Go/Core/AspectWeaver.php:70-91 | every key of the result comes from some advisor's contribution |
| Weaver.KeyOfEveryAdvisor | src/Go/Core/AspectWeaver.php:70-91 | every key that any advisor contributes is in the result |
| Weaver.NothingMatchesEmpty | src/Go/Core/AspectWeaver.php:57 | when no advisor contributes, the result is the empty map |
| Weaver.TwoAdvisorsSameMethod | src/Go/Core/AspectWeaver.php:70-91 | for any class whose parent is not a generated proxy (its own original class) with unique member names, two pointcut advisors that reach the same method leave it a list of their two advices, in registration order |
| Weaver.OneCopyPerAdvisor | src/Go/Core/AspectWeaver.php:108-117 | a pointcut advisor that reaches a method of a class whose parent is not a generated proxy, with unique member names, puts exactly one copy of its advice under that method's key |
| Weaver.MemberKeyOnce | src/Go/Core/AspectWeaver.php:112-117 | with unique method names, a selected method's key is produced exactly once |
| Weaver.AspectWeaver.GetAdvicesFromAdvisor | src/Go/Core/AspectWeaver.php:104-133 | the two loops build exactly the map with one copy of the advice under each advised member's key |
| Weaver.AspectWeaver.AddMethodAdvices | src/Go/Core/AspectWeaver.php:109-118 | the method loop builds, from an empty map, one copy of the advice under the key of each public or protected method declared by the class and accepted by the filter, in declaration order |
| Weaver.AspectWeaver.AddPropertyAdvices | src/Go/Core/AspectWeaver.php:122-130 | the property loop extends the map built so far by one copy of the advice per matching property |
| Weaver.AspectWeaver.GetAdvicesForClass | src/Go/Core/AspectWeaver.php:51-93 | the advisor loop computes the merge of all contributions in registration order, whose per-key content is stated by `AdvicesForClassLookup` |
| Weaver.AspectWeaver.MergeAdvisor | src/Go/Core/AspectWeaver.php:72-90 | one pass of the advisor loop merges exactly that advisor's contribution into the map |
| GeneralAspectLoaderExtension.Supports | src/Go/Core/GeneralAspectLoaderExtension.php:62-66 | true exactly for pointcut and interceptor annotations |
| GeneralAspectLoaderExtension.MethodIdSplits | src/Go/Core/GeneralAspectLoaderExtension.php:80 | the id `Class->method` can be split back into class and method name |
| GeneralAspectLoaderExtension.ParsePointcut | src/Go/Core/GeneralAspectLoaderExtension.php:175-213 | a parsed expression gives its pointcut; a lexer failure gives a lexical error; a parser failure gives a syntax error |
| GeneralAspectLoaderExtension.LexicalErrorMessage | src/Go/Core/GeneralAspectLoaderExtension.php:182-190 | the lexer error names the quoted expression, `Class->method` (or only the method name), and `file:line` |
| GeneralAspectLoaderExtension.SyntaxErrorMessage | src/Go/Core/GeneralAspectLoaderExtension.php:197-211 | the parser error names the offending token, the quoted expression, the location, the file name and start line as `file:line`, and the expected tokens joined with ", " |
| GeneralAspectLoaderExtension.GetMethodInterceptor | src/Go/Core/GeneralAspectLoaderExtension.php:122-140 | Before, After, Around and AfterThrowing give a method interceptor with the annotation's order and the callback; any other class fails with "Unsupported method meta class: " and its class name |
| GeneralAspectLoaderExtension.GetPropertyInterceptor | src/Go/Core/GeneralAspectLoaderExtension.php:148-163 | Before, After and Around give a field interceptor; AfterThrowing and any other class fail with the same message |
| GeneralAspectLoaderExtension.InterceptorsKeepStyle | src/Go/Core/GeneralAspectLoaderExtension.php:122-163 | the interceptor built has the annotation's style; method interceptors accept all four styles and field interceptors all but AfterThrowing |
| GeneralAspectLoaderExtension.ScopeWrapping | src/Go/Core/GeneralAspectLoaderExtension.php:81-86 | the callback is scope-wrapped if and only if a scope other than "aspect" is set, and it always wraps the aspect method's own callback |
| GeneralAspectLoaderExtension.Decision | src/Go/Core/GeneralAspectLoaderExtension.php:76-114 | every registration uses the id `Class->method`; lexer and parser failures end in their own errors |
| GeneralAspectLoaderExtension.PointcutAnnotationRegistersPointcut | src/Go/Core/GeneralAspectLoaderExtension.php:91-93 | a pointcut annotation registers the parsed pointcut under `Class->method`, whatever its kind |
| GeneralAspectLoaderExtension.MethodKindGetsMethodInterceptor | src/Go/Core/GeneralAspectLoaderExtension.php:95-104 | a METHOD-kind point filter gets an advisor with a method interceptor of the annotation's style and order, even when PROPERTY is also set, wrapped for a dynamic method matcher |
| GeneralAspectLoaderExtension.PropertyKindGetsFieldInterceptor | src/Go/Core/GeneralAspectLoaderExtension.php:106-109 | a PROPERTY-only point filter gets a field interceptor, and AfterThrowing is rejected as unsupported |
| GeneralAspectLoaderExtension.OtherKindsRejected | src/Go/Core/GeneralAspectLoaderExtension.php:111-112 | a pointcut that is not a point filter, or has neither bit, fails with "Unsupported pointcut class: " and its class name |
| GeneralAspectLoaderExtension.DecisionSucceedsExactly | src/Go/Core/GeneralAspectLoaderExtension.php:76-114 | `load` succeeds if and only if the expression parses and either the annotation is a pointcut or the style fits the kind |
| GeneralAspectLoaderExtension.Load | src/Go/Core/GeneralAspectLoaderExtension.php:76-114 | the container receives exactly the registration `Decision` describes; on any error it is unchanged and the error is returned |

## Left out

- `AspectContainer.php`, `AspectLoader.php`, `PointFilter.php`, the annotation classes and the interceptor classes are not part of this model. Their constants and behaviour are assumed as follows:
  - kind bits METHOD = 1, PROPERTY = 2, CLASS = 4; only their distinctness matters;
  - key prefixes with distinct first letters and no ':';
  - container registration as described above.
- `loadAdvisorsAndPointcuts` and the call to it at the start of `getAdvicesForClass`: it re-runs the aspect loader, whose code is not part of this model. `GetAdvicesForClass` reads the advisors currently registered.
- PHP reflection is replaced by class descriptions:
  - `getMethods`/`getProperties` with the public-or-protected mask become the `PublicOrProtected` test;
  - a class name given as a string (the `ReflectionClass` construction) is not modelled.
- The lexer and parser of pointcut expressions are a parameter (`grammar`) giving a pointcut, a lexer failure, or an unexpected token with the expected tokens.
- Callbacks and interceptors are tagged values; building and invoking them is not modelled.
- The loader's `getKind` and `getTarget` return interface constants that are not part of this model.
- `PHP_EOL` is taken to be "\n".
- The `preg_match` suffix test is a plain suffix comparison; regular-expression metacharacters in the suffix are not modelled.
- An advisor that is both a `PointcutAdvisor` and an `IntroductionAdvisor` is not modelled; advisors are exactly one of the two, or neither.
- Weaver.IntroductionFromAdvisor: the introduction is stored as a one-element list. PHP's `array_merge_recursive` turns an object into an array when two introductions meet under one key; the model instead appends a second element.
- A pointcut annotation carries no scope in the model. The named-pointcut branch of `load` does not use the callback, so this does not affect any result.
- GeneralAspectLoaderExtension.Load: requires `Supports`, since callers must call `supports` first. Its behaviour on other meta-information is not modelled.
