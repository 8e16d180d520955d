/** What the weaver and the filters see of PHP's reflection: a read-only
    description of a class, of its methods and properties, and the join
    points that filters are asked about. */
module Reflection {
  import opened Wrappers

  datatype Visibility = Public | Protected | Private

  /** One entry of `ReflectionClass::getMethods()`; `declaringClass` is the
      name of the class whose body declares it, which differs from the
      enumerated class for an inherited, non-redeclared method. */
  datatype MethodDesc = MethodDesc(
    name: string,
    visibility: Visibility,
    isStatic: bool,
    declaringClass: string)

  /** One entry of `ReflectionClass::getProperties()`. */
  datatype PropertyDesc = PropertyDesc(
    name: string,
    visibility: Visibility,
    declaringClass: string)

  /** A class as reflection describes it: `methods` and `properties` list
      everything reflection enumerates for it, inherited members included,
      in reflection's order; `parent` is `getParentClass()`. */
  datatype ClassDesc = ClassDesc(
    name: string,
    isTrait: bool,
    parent: Option<ClassDesc>,
    methods: seq<MethodDesc>,
    properties: seq<PropertyDesc>)

  /** The points a filter can be asked about: a class (class filters), a
      method or a property (member filters). */
  datatype JoinPoint =
    | ClassPoint(cls: ClassDesc)
    | MethodPoint(member: MethodDesc)
    | PropertyPoint(property: PropertyDesc)

  /** The reflection mask `IS_PUBLIC | IS_PROTECTED`. */
  predicate PublicOrProtected(v: Visibility)
  {
    v == Public || v == Protected
  }
}
