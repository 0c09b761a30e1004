/** The newest access checker (the `limen` package): friend short-circuit, strict
    private rule with the constructor-chain exception, same-class shortcut,
    derived-caller rule, and a fallback on the effective level. */
module LimenChecker {
  import opened Wrappers
  import opened Vocabulary
  import Friendship

  /** Friend registries other than the class-friend registry, as answers only:
      `friendAttr(c, m, t)` is the reflective probe of method `m` of class `c` for
      friend attributes naming `t`; `isFriendMethod`, `isFriendFunction` and
      `isStaticFriend` are the friend-method, friend-function and static-method
      friend registries of the `limen` friendship manager. */
  datatype FriendOracles = FriendOracles(
    friendAttr: (Cls, string, Cls) -> bool,
    isFriendMethod: (Cls, Cls, string) -> bool,
    isFriendFunction: (Cls, string) -> bool,
    isStaticFriend: (Cls, string) -> bool)

  /** Everything the checker reads: the class hierarchy and inheritance analyser,
      the class-friend registry, and the other friend registries. */
  datatype Env = Env(analyzer: Analyzer, friends: Friendship.Registry, oracles: FriendOracles)

  /** The identity the friend registries are asked about: the resolved caller, or the
      active static-method context when no caller class was resolved. */
  function FriendIdentity(caller: CallerInfo, staticCtx: Option<CallerInfo>): (who: CallerInfo)
    ensures caller.callerClass.Some? ==> who == caller
    ensures staticCtx.None? ==> who == caller
    ensures caller.callerClass.None? && staticCtx.Some? ==> who == staticCtx.value
  {
    if caller.callerClass.None? && staticCtx.Some? then staticCtx.value else caller
  }

  /** `_check_friend_access`: does a friend grant of `target` cover this caller? */
  function CheckFriendAccess(env: Env, target: Cls, level: AccessLevel, caller: CallerInfo,
                             staticCtx: Option<CallerInfo>): (granted: bool)
    ensures granted ==> level != Public
    ensures granted ==> Truthy(FriendIdentity(caller, staticCtx).callerMethod)
  {
    if level == Public then false
    else if caller.callerClass.Some? && Truthy(caller.callerMethod)
            && env.oracles.friendAttr(caller.callerClass.value, caller.callerMethod.value, target)
    then true
    else
      var who := FriendIdentity(caller, staticCtx);
      if !Truthy(who.callerMethod) then false
      else if who.callerClass.None? then
        || env.oracles.isFriendFunction(target, who.callerMethod.value)
        || env.oracles.isStaticFriend(target, who.callerMethod.value)
      else
        || env.oracles.isFriendMethod(target, who.callerClass.value, who.callerMethod.value)
        || Friendship.IsFriend(env.friends, Some(target), who.callerClass)
  }

  /** The constructor-chain exception: an `__init__` running on an instance whose
      class is related to the declaring class by subclassing, in either direction. */
  predicate ConstructorException(a: Analyzer, target: Cls, caller: CallerInfo, instance: Option<Cls>) {
    && caller.callerMethod == Some("__init__")
    && instance.Some? && caller.callerClass.Some?
    && Related(a, instance.value, target)
  }

  /** The strict private branch of `can_access`; nothing after it runs for a private member. */
  function PrivateRule(a: Analyzer, target: Cls, caller: CallerInfo, instance: Option<Cls>): (allowed: bool)
    ensures caller.callerClass != Some(target) ==> (allowed <==> ConstructorException(a, target, caller, instance))
    ensures instance.None? ==> (allowed <==> caller.callerClass == Some(target))
  {
    if ConstructorException(a, target, caller, instance) then true
    else if caller.callerClass == Some(target) then instance.None? || instance == Some(target)
    else false
  }

  /** `_check_private_access`, the looser private rule reached only through the
      fallback on the effective level. */
  function CheckPrivateAccess(a: Analyzer, target: Cls, callerClass: Option<Cls>, caller: CallerInfo): (allowed: bool)
    ensures callerClass.None? ==> !allowed
    ensures callerClass == Some(target) ==> allowed
    ensures callerClass.Some? && Truthy(caller.callerMethod) && a.isSubclass(callerClass.value, target) ==> allowed
    ensures callerClass.Some? && caller.callerMethod == Some("__init__") && a.isSubclass(target, callerClass.value) ==> allowed
    ensures allowed ==> callerClass == Some(target) || (Truthy(caller.callerMethod) && Related(a, callerClass.value, target))
    ensures callerClass.Some? && callerClass != Some(target) && caller.callerMethod != Some("__init__") ==>
              (allowed <==> Truthy(caller.callerMethod) && a.isSubclass(callerClass.value, target))
  {
    if callerClass.None? then false
    else if callerClass.value == target then true
    else if Truthy(caller.callerMethod) then
      if caller.callerMethod.value == "__init__" && Related(a, callerClass.value, target) then true
      else a.isSubclass(callerClass.value, target)
    else false
  }

  /** `_check_protected_access`: related classes only, and a derived caller only
      through a public or protected inheritance edge. */
  function CheckProtectedAccess(a: Analyzer, target: Cls, callerClass: Option<Cls>): (allowed: bool)
    ensures callerClass.None? ==> !allowed
    ensures callerClass.Some? && a.isSubclass(callerClass.value, target) ==>
              (allowed <==> a.inheritanceType(callerClass.value, target) in {Some(PublicInheritance), Some(ProtectedInheritance)})
    ensures callerClass.Some? && !a.isSubclass(callerClass.value, target) ==>
              (allowed <==> a.isSubclass(target, callerClass.value))
  {
    if callerClass.None? then false
    else
      var c := callerClass.value;
      if Related(a, c, target) then
        if a.isSubclass(c, target) then
          a.inheritanceType(c, target) in {Some(PublicInheritance), Some(ProtectedInheritance)}
        else true
      else false
  }

  /** `_check_access_by_level`: the verdict for an effective level. */
  function CheckAccessByLevel(a: Analyzer, effective: AccessLevel, target: Cls,
                              callerClass: Option<Cls>, caller: CallerInfo): (allowed: bool)
    ensures effective == Public ==> allowed
    ensures effective != Public && callerClass.None? ==> !allowed
  {
    match effective
    case Public => true
    case Private => CheckPrivateAccess(a, target, callerClass, caller)
    case Protected => CheckProtectedAccess(a, target, callerClass)
  }

  /** The caller derives from the declaring class through an edge of a kind the
      analyser knows. */
  predicate DerivedWithKnownKind(a: Analyzer, target: Cls, callerClass: Option<Cls>) {
    && callerClass.Some?
    && a.isSubclass(callerClass.value, target)
    && a.inheritanceType(callerClass.value, target).Some?
  }

  /** `can_access`: the decision, evaluated in the fixed order of the steps. */
  function CanAccess(env: Env, target: Cls, memberName: string, level: AccessLevel,
                     caller: CallerInfo, instance: Option<Cls>, staticCtx: Option<CallerInfo>): (allowed: bool)
    ensures CheckFriendAccess(env, target, level, caller, staticCtx) ==> allowed
    ensures level == Private ==>
              (allowed <==> CheckFriendAccess(env, target, level, caller, staticCtx)
                            || PrivateRule(env.analyzer, target, caller, instance))
    ensures level != Private && caller.callerClass == Some(target) ==> allowed
    ensures level != Private && DerivedWithKnownKind(env.analyzer, target, caller.callerClass) ==> allowed
  {
    var a := env.analyzer;
    var callerClass := caller.callerClass;
    if CheckFriendAccess(env, target, level, caller, staticCtx) then true
    else
      var actualTarget := if instance.Some? then instance.value else target;
      if level == Private then PrivateRule(a, target, caller, instance)
      else if callerClass == Some(target) then true
      else if DerivedWithKnownKind(a, target, callerClass) then
        DerivedCallerAllows(a.inheritanceType(callerClass.value, target).value, level)
      else
        var effective := a.inheritedLevel(actualTarget, memberName, level, callerClass);
        CheckAccessByLevel(a, effective, target, callerClass, caller)
  }

  // ---------------------------------------------------------------------------
  // Friend lookup

  /** Without a method name (and no static context standing in for a missing caller
      class), no friend grant applies. */
  lemma FriendLookupNeedsMethod(env: Env, target: Cls, level: AccessLevel, caller: CallerInfo,
                                staticCtx: Option<CallerInfo>)
    requires !Truthy(caller.callerMethod)
    requires caller.callerClass.Some? || staticCtx.None?
    ensures !CheckFriendAccess(env, target, level, caller, staticCtx)
  {
  }

  /** With no caller class, only the friend-function and static-method registries
      are consulted. */
  lemma FriendLookupWithoutClass(env: Env, target: Cls, level: AccessLevel, caller: CallerInfo,
                                 staticCtx: Option<CallerInfo>)
    requires FriendIdentity(caller, staticCtx).callerClass.None?
    ensures var m := FriendIdentity(caller, staticCtx).callerMethod;
            CheckFriendAccess(env, target, level, caller, staticCtx)
            <==> level != Public && Truthy(m)
                 && (env.oracles.isFriendFunction(target, m.value) || env.oracles.isStaticFriend(target, m.value))
  {
  }

  /** With a class to ask about (resolved from the stack, or taken from the static
      context), the friend-method and class-friend registries are consulted with it;
      the reflective probe is tried only for a class resolved from the stack. */
  lemma FriendLookupWithClass(env: Env, target: Cls, level: AccessLevel, caller: CallerInfo,
                              staticCtx: Option<CallerInfo>)
    requires FriendIdentity(caller, staticCtx).callerClass.Some?
    ensures var who := FriendIdentity(caller, staticCtx);
            var c := who.callerClass.value;
            var m := who.callerMethod;
            CheckFriendAccess(env, target, level, caller, staticCtx)
            <==> level != Public
                 && (|| (caller.callerClass.Some? && Truthy(caller.callerMethod)
                         && env.oracles.friendAttr(caller.callerClass.value, caller.callerMethod.value, target))
                     || (Truthy(m) && env.oracles.isFriendMethod(target, c, m.value))
                     || (Truthy(m) && Friendship.IsFriend(env.friends, Some(target), Some(c))))
  {
  }

  /** A static method with no class on the stack: the class and method of the active
      static-method context are checked against the friend-method and class-friend
      registries, and the reflective probe is never consulted. */
  lemma StaticContextFriendLookup(env: Env, target: Cls, level: AccessLevel, m: Option<string>,
                                  c: Cls, sm: string)
    requires sm != ""
    ensures CheckFriendAccess(env, target, level, CallerInfo(None, m), Some(CallerInfo(Some(c), Some(sm))))
            <==> level != Public
                 && (env.oracles.isFriendMethod(target, c, sm) || Friendship.IsFriend(env.friends, Some(target), Some(c)))
  {
  }

  /** Outside a constructor, whatever the strict private rule admits, the looser
      fallback rule admits too. */
  lemma StrictPrivateWithinLoose(a: Analyzer, target: Cls, caller: CallerInfo, instance: Option<Cls>)
    requires caller.callerMethod != Some("__init__")
    ensures PrivateRule(a, target, caller, instance) ==> CheckPrivateAccess(a, target, caller.callerClass, caller)
  {
  }

  /** The class-friend registry answers by display name, so a grant to one class
      reaches every class sharing its name. */
  lemma FriendClassByName(env: Env, target: Cls, level: AccessLevel, c1: Cls, c2: Cls, m: string,
                          staticCtx: Option<CallerInfo>)
    requires c1.name == c2.name && level != Public && m != ""
    requires Friendship.IsFriend(env.friends, Some(target), Some(c1))
    ensures CheckFriendAccess(env, target, level, CallerInfo(Some(c2), Some(m)), staticCtx)
  {
  }

  // ---------------------------------------------------------------------------
  // Private members

  /** A private member is denied to a different class with no friend grant and no
      constructor exception. */
  lemma PrivateStrangerDenied(env: Env, target: Cls, name: string, caller: CallerInfo,
                              instance: Option<Cls>, staticCtx: Option<CallerInfo>)
    requires caller.callerClass != Some(target)
    requires !CheckFriendAccess(env, target, Private, caller, staticCtx)
    requires !ConstructorException(env.analyzer, target, caller, instance)
    ensures !CanAccess(env, target, name, Private, caller, instance, staticCtx)
  {
  }

  /** No step after the private branch runs for a private member: the verdict does not
      depend on the inheritance kinds or the effective levels the analyser reports. */
  lemma PrivateIgnoresAnalyzerLevels(env: Env, target: Cls, name: string, caller: CallerInfo,
                                     instance: Option<Cls>, staticCtx: Option<CallerInfo>,
                                     kinds: (Cls, Cls) -> Option<InheritanceKind>,
                                     levels: (Cls, string, AccessLevel, Option<Cls>) -> AccessLevel)
    ensures var env' := env.(analyzer := env.analyzer.(inheritanceType := kinds, inheritedLevel := levels));
            CanAccess(env, target, name, Private, caller, instance, staticCtx)
            == CanAccess(env', target, name, Private, caller, instance, staticCtx)
  {
    var env' := env.(analyzer := env.analyzer.(inheritanceType := kinds, inheritedLevel := levels));
    assert CheckFriendAccess(env, target, Private, caller, staticCtx)
        == CheckFriendAccess(env', target, Private, caller, staticCtx);
    assert PrivateRule(env.analyzer, target, caller, instance) == PrivateRule(env'.analyzer, target, caller, instance);
  }

  /** The declaring class calling its own private member outside a constructor is
      allowed exactly when the instance is absent or of exactly that class. */
  lemma PrivateSameClass(env: Env, target: Cls, name: string, m: Option<string>,
                         instance: Option<Cls>, staticCtx: Option<CallerInfo>)
    requires m != Some("__init__")
    requires !CheckFriendAccess(env, target, Private, CallerInfo(Some(target), m), staticCtx)
    ensures CanAccess(env, target, name, Private, CallerInfo(Some(target), m), instance, staticCtx)
            <==> instance.None? || instance == Some(target)
  {
  }

  /** Strict semantics across a hierarchy: a base class's own method calling the base's
      private member on an instance of a different (derived) class is denied unless it
      runs as a constructor or a friend grant applies. */
  lemma PrivateOnDerivedInstanceDenied(env: Env, target: Cls, derived: Cls, name: string, m: Option<string>,
                                       staticCtx: Option<CallerInfo>)
    requires env.analyzer.isSubclass(derived, target) && derived != target
    requires m != Some("__init__")
    requires !CheckFriendAccess(env, target, Private, CallerInfo(Some(target), m), staticCtx)
    ensures !CanAccess(env, target, name, Private, CallerInfo(Some(target), m), Some(derived), staticCtx)
  {
  }

  /** The constructor-chain exception allows a private member. */
  lemma ConstructorChainAllowed(env: Env, target: Cls, name: string, caller: CallerInfo,
                                instance: Option<Cls>, staticCtx: Option<CallerInfo>)
    requires ConstructorException(env.analyzer, target, caller, instance)
    ensures CanAccess(env, target, name, Private, caller, instance, staticCtx)
  {
  }

  /** A chain `c` derives from `b` derives from `a`, each constructor calling its own
      class's private initialiser while an instance of `c` is built: all three calls
      are allowed. */
  lemma ConstructorChainScenario(env: Env, a: Cls, b: Cls, c: Cls, name: string, staticCtx: Option<CallerInfo>)
    requires WellFormed(env.analyzer)
    requires env.analyzer.isSubclass(c, b) && env.analyzer.isSubclass(b, a)
    ensures CanAccess(env, a, name, Private, CallerInfo(Some(a), Some("__init__")), Some(c), staticCtx)
    ensures CanAccess(env, b, name, Private, CallerInfo(Some(b), Some("__init__")), Some(c), staticCtx)
    ensures CanAccess(env, c, name, Private, CallerInfo(Some(c), Some("__init__")), Some(c), staticCtx)
  {
    assert env.analyzer.isSubclass(c, a);
    assert env.analyzer.isSubclass(c, c);
  }

  // ---------------------------------------------------------------------------
  // Non-private members

  /** Past the derived-caller rule, the verdict is the one for the effective level. */
  lemma FallbackUsesEffectiveLevel(env: Env, target: Cls, name: string, level: AccessLevel,
                                   caller: CallerInfo, instance: Option<Cls>, staticCtx: Option<CallerInfo>)
    requires level != Private
    requires !CheckFriendAccess(env, target, level, caller, staticCtx)
    requires caller.callerClass != Some(target)
    requires !DerivedWithKnownKind(env.analyzer, target, caller.callerClass)
    ensures var actual := if instance.Some? then instance.value else target;
            var effective := env.analyzer.inheritedLevel(actual, name, level, caller.callerClass);
            CanAccess(env, target, name, level, caller, instance, staticCtx)
            == CheckAccessByLevel(env.analyzer, effective, target, caller.callerClass, caller)
  {
  }

  /** In the fallback, an effective private level is allowed to any subclass caller
      that names its method: the looser of the two private rules. */
  lemma FallbackPrivateLoose(env: Env, target: Cls, name: string, level: AccessLevel,
                             c: Cls, m: string, instance: Option<Cls>, staticCtx: Option<CallerInfo>)
    requires level != Private && c != target && m != ""
    requires env.analyzer.isSubclass(c, target)
    requires env.analyzer.inheritanceType(c, target).None?
    requires var actual := if instance.Some? then instance.value else target;
             env.analyzer.inheritedLevel(actual, name, level, Some(c)) == Private
    ensures CanAccess(env, target, name, level, CallerInfo(Some(c), Some(m)), instance, staticCtx)
  {
  }
}
