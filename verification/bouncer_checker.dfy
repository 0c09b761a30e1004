/** The older access checker (the `bouncer` package): same-class shortcut for every
    level, derived-caller rule, and a fallback on the effective level in which
    friendship is consulted. */
module BouncerChecker {
  import opened Wrappers
  import opened Vocabulary
  import Friendship

  /** `_check_private_access`: only a registered friend of the declaring class. */
  function CheckPrivateAccess(friends: Friendship.Registry, target: Cls, callerClass: Option<Cls>): (allowed: bool)
    ensures allowed <==> callerClass.Some? && Friendship.IsFriend(friends, Some(target), callerClass)
  {
    if callerClass.None? then false
    else Friendship.IsFriend(friends, Some(target), callerClass)
  }

  /** `_check_protected_access`: a friend, or a related class, with a derived caller
      admitted only through a public or protected inheritance edge. */
  function CheckProtectedAccess(a: Analyzer, friends: Friendship.Registry, target: Cls,
                                callerClass: Option<Cls>): (allowed: bool)
    ensures callerClass.None? ==> !allowed
    ensures callerClass.Some? && Friendship.IsFriend(friends, Some(target), callerClass) ==> allowed
    ensures callerClass.Some? && !Friendship.IsFriend(friends, Some(target), callerClass) ==>
              (allowed <==> || (a.isSubclass(callerClass.value, target)
                                && a.inheritanceType(callerClass.value, target)
                                   in {Some(PublicInheritance), Some(ProtectedInheritance)})
                            || (!a.isSubclass(callerClass.value, target) && a.isSubclass(target, callerClass.value)))
  {
    if callerClass.None? then false
    else if Friendship.IsFriend(friends, Some(target), callerClass) then true
    else
      var c := callerClass.value;
      if Related(a, c, target) then
        if a.isSubclass(c, target) then
          a.inheritanceType(c, target) in {Some(PublicInheritance), Some(ProtectedInheritance)}
        else true
      else false
  }

  /** `_check_access_by_level`: the verdict for an effective level. */
  function CheckAccessByLevel(a: Analyzer, friends: Friendship.Registry, effective: AccessLevel,
                              target: Cls, callerClass: Option<Cls>): (allowed: bool)
    ensures effective == Public ==> allowed
    ensures effective != Public && callerClass.None? ==> !allowed
  {
    match effective
    case Public => true
    case Private => CheckPrivateAccess(friends, target, callerClass)
    case Protected => CheckProtectedAccess(a, friends, target, callerClass)
  }

  /** The caller derives from the declaring class through an edge of a kind the
      analyser knows. */
  predicate DerivedWithKnownKind(a: Analyzer, target: Cls, callerClass: Option<Cls>) {
    && callerClass.Some?
    && a.isSubclass(callerClass.value, target)
    && a.inheritanceType(callerClass.value, target).Some?
  }

  /** `can_access` of the older checker. */
  function CanAccess(a: Analyzer, friends: Friendship.Registry, target: Cls, memberName: string,
                     level: AccessLevel, caller: CallerInfo, instance: Option<Cls>): (allowed: bool)
    ensures caller.callerClass == Some(target) ==> allowed
    ensures caller.callerClass != Some(target) && DerivedWithKnownKind(a, target, caller.callerClass) ==>
              (allowed <==> level != Private)
  {
    var callerClass := caller.callerClass;
    var actualTarget := if instance.Some? then instance.value else target;
    if callerClass == Some(target) then true
    else if DerivedWithKnownKind(a, target, callerClass) then
      DerivedCallerAllows(a.inheritanceType(callerClass.value, target).value, level)
    else
      var effective := a.inheritedLevel(actualTarget, memberName, level, callerClass);
      CheckAccessByLevel(a, friends, effective, target, callerClass)
  }

  /** Past the derived-caller rule, the verdict is the one for the effective level. */
  lemma FallbackUsesEffectiveLevel(a: Analyzer, friends: Friendship.Registry, target: Cls, name: string,
                                   level: AccessLevel, caller: CallerInfo, instance: Option<Cls>)
    requires caller.callerClass != Some(target)
    requires !DerivedWithKnownKind(a, target, caller.callerClass)
    ensures var actual := if instance.Some? then instance.value else target;
            var effective := a.inheritedLevel(actual, name, level, caller.callerClass);
            CanAccess(a, friends, target, name, level, caller, instance)
            == CheckAccessByLevel(a, friends, effective, target, caller.callerClass)
  {
  }

  /** In the fallback, an effective private level is allowed only to a present caller
      registered as a friend of the declaring class. */
  lemma FallbackPrivateOnlyFriends(a: Analyzer, friends: Friendship.Registry, target: Cls, name: string,
                                   level: AccessLevel, caller: CallerInfo, instance: Option<Cls>)
    requires caller.callerClass != Some(target)
    requires !DerivedWithKnownKind(a, target, caller.callerClass)
    requires var actual := if instance.Some? then instance.value else target;
             a.inheritedLevel(actual, name, level, caller.callerClass) == Private
    ensures CanAccess(a, friends, target, name, level, caller, instance)
            <==> caller.callerClass.Some? && Friendship.IsFriend(friends, Some(target), caller.callerClass)
  {
  }

  /** Reading the class-friend registry is all the checker does with it: only the
      answers `IsFriend` gives for the declaring class matter, so two registries that
      agree on that class give the same verdict. */
  lemma VerdictDependsOnlyOnFriendAnswers(a: Analyzer, r1: Friendship.Registry, r2: Friendship.Registry,
                                          target: Cls, name: string, level: AccessLevel,
                                          caller: CallerInfo, instance: Option<Cls>)
    requires Friendship.IsFriend(r1, Some(target), caller.callerClass)
             == Friendship.IsFriend(r2, Some(target), caller.callerClass)
    ensures CanAccess(a, r1, target, name, level, caller, instance)
            == CanAccess(a, r2, target, name, level, caller, instance)
  {
  }
}
