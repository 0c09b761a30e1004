/** Where the two checkers agree and where they give different verdicts for the same
    inputs. Both read the same hierarchy, analyser and class-friend registry; the
    newest one also reads the other friend registries. */
module CheckerDivergence {
  import opened Wrappers
  import opened Vocabulary
  import Friendship
  import LimenChecker
  import BouncerChecker

  /** The declaring class calling its own private member on an instance of another
      class (outside a constructor, without friend grants): the older checker allows
      it, the newest one denies it. */
  lemma SameClassPrivateOnDerivedInstance(env: LimenChecker.Env, target: Cls, derived: Cls, name: string,
                                          m: Option<string>, staticCtx: Option<CallerInfo>)
    requires derived != target && m != Some("__init__")
    requires !LimenChecker.CheckFriendAccess(env, target, Private, CallerInfo(Some(target), m), staticCtx)
    ensures BouncerChecker.CanAccess(env.analyzer, env.friends, target, name, Private,
                                     CallerInfo(Some(target), m), Some(derived))
    ensures !LimenChecker.CanAccess(env, target, name, Private, CallerInfo(Some(target), m), Some(derived), staticCtx)
  {
  }

  /** A non-private member whose effective level is private, asked for by a subclass
      whose inheritance kind is unknown and which is no registered friend: the newest
      checker's looser private rule allows it, the older checker denies it. */
  lemma EffectivePrivateForSubclass(env: LimenChecker.Env, target: Cls, c: Cls, name: string,
                                    level: AccessLevel, m: string, instance: Option<Cls>,
                                    staticCtx: Option<CallerInfo>)
    requires level != Private && c != target && m != ""
    requires env.analyzer.isSubclass(c, target)
    requires env.analyzer.inheritanceType(c, target).None?
    requires var actual := if instance.Some? then instance.value else target;
             env.analyzer.inheritedLevel(actual, name, level, Some(c)) == Private
    requires !Friendship.IsFriend(env.friends, Some(target), Some(c))
    ensures LimenChecker.CanAccess(env, target, name, level, CallerInfo(Some(c), Some(m)), instance, staticCtx)
    ensures !BouncerChecker.CanAccess(env.analyzer, env.friends, target, name, level,
                                      CallerInfo(Some(c), Some(m)), instance)
  {
  }

  /** For a non-private member, both checkers allow the declaring class itself and a
      caller deriving from it through an edge of known kind. */
  lemma AgreeOnInternalNonPrivate(env: LimenChecker.Env, target: Cls, name: string, level: AccessLevel,
                                  caller: CallerInfo, instance: Option<Cls>, staticCtx: Option<CallerInfo>)
    requires level != Private
    requires caller.callerClass == Some(target)
             || LimenChecker.DerivedWithKnownKind(env.analyzer, target, caller.callerClass)
    ensures LimenChecker.CanAccess(env, target, name, level, caller, instance, staticCtx)
    ensures BouncerChecker.CanAccess(env.analyzer, env.friends, target, name, level, caller, instance)
  {
  }

  /** For a private member asked for by a strict subclass through an edge of known
      kind, outside any constructor and without friend grants, both checkers deny. */
  lemma AgreeDerivedCallerPrivateDenied(env: LimenChecker.Env, target: Cls, c: Cls, name: string,
                                        m: Option<string>, instance: Option<Cls>, staticCtx: Option<CallerInfo>)
    requires c != target && m != Some("__init__")
    requires env.analyzer.isSubclass(c, target) && env.analyzer.inheritanceType(c, target).Some?
    requires !LimenChecker.CheckFriendAccess(env, target, Private, CallerInfo(Some(c), m), staticCtx)
    ensures !LimenChecker.CanAccess(env, target, name, Private, CallerInfo(Some(c), m), instance, staticCtx)
    ensures !BouncerChecker.CanAccess(env.analyzer, env.friends, target, name, Private, CallerInfo(Some(c), m), instance)
  {
  }
}
