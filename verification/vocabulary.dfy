/** The closed enumerations of the access-control system, the host objects the
    decision rules talk about, and the collaborators the rules consult but whose
    implementation is not part of this model. */
module Vocabulary {
  import opened Wrappers

  /** A member's declared visibility. */
  datatype AccessLevel = Public | Protected | Private

  /** The visibility keyword of one inheritance edge, as in C++. */
  datatype InheritanceKind = PublicInheritance | ProtectedInheritance | PrivateInheritance

  /** The enumeration value string of an access level (`AccessLevel.value`). */
  function LevelValue(l: AccessLevel): string {
    match l
    case Public => "public"
    case Protected => "protected"
    case Private => "private"
  }

  /** The enumeration value string of an inheritance kind (`InheritanceType.value`). */
  function KindValue(k: InheritanceKind): string {
    match k
    case PublicInheritance => "public"
    case ProtectedInheritance => "protected"
    case PrivateInheritance => "private"
  }

  /** `InheritanceType(level.value)`: the inheritance kind carrying the same name as
      the decorator's access level. */
  function KindNamedAfter(l: AccessLevel): (k: InheritanceKind)
    ensures KindValue(k) == LevelValue(l)
    ensures forall k' :: KindValue(k') == LevelValue(l) ==> k' == k
  {
    match l
    case Public => PublicInheritance
    case Protected => ProtectedInheritance
    case Private => PrivateInheritance
  }

  /** A class object: `id` is its identity (Python's `is`/`==` on classes), `name`
      its display name `__name__`, which distinct classes may share. */
  datatype Cls = Cls(id: nat, name: string)

  /** Who is calling, as resolved from the call stack: either part may be missing. */
  datatype CallerInfo = CallerInfo(callerClass: Option<Cls>, callerMethod: Option<string>)

  /** Python truthiness of an optional method name: absent and empty are both false. */
  predicate Truthy(m: Option<string>) {
    m.Some? && m.value != ""
  }

  /** The class-hierarchy collaborators of the access checker:
      `isSubclass` is Python's `issubclass`; `inheritanceType` and `inheritedLevel`
      are the inheritance analyser's `get_inheritance_type` (which may answer none
      of the three kinds) and `get_inherited_access_level`, left uninterpreted. */
  datatype Analyzer = Analyzer(
    isSubclass: (Cls, Cls) -> bool,
    inheritanceType: (Cls, Cls) -> Option<InheritanceKind>,
    inheritedLevel: (Cls, string, AccessLevel, Option<Cls>) -> AccessLevel)

  /** `issubclass` is reflexive, transitive and acyclic (antisymmetric). */
  ghost predicate WellFormed(a: Analyzer) {
    && (forall c :: a.isSubclass(c, c))
    && (forall x, y, z :: a.isSubclass(x, y) && a.isSubclass(y, z) ==> a.isSubclass(x, z))
    && (forall x, y :: a.isSubclass(x, y) && a.isSubclass(y, x) ==> x == y)
  }

  /** Either class derives from the other. */
  predicate Related(a: Analyzer, x: Cls, y: Cls) {
    a.isSubclass(x, y) || a.isSubclass(y, x)
  }

  /** The verdict for a caller that derives from the declaring class through an edge
      of a known kind: the private-, protected- and public-inheritance branches. */
  function DerivedCallerAllows(kind: InheritanceKind, level: AccessLevel): (allowed: bool)
    ensures allowed <==> level != Private
  {
    match kind
    case PrivateInheritance => level == Protected || level == Public
    case ProtectedInheritance => level == Protected || level == Public
    case PublicInheritance => level == Public || level == Protected
  }
}
