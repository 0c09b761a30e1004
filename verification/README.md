# Access control for Python classes: a Dafny model

The system adds C++-style access control to Python classes. Members are public, protected or private. A member gets its level from an explicit decorator (`@private`, `@protected`, `@public`) or implicitly from its name (`_x` is protected, `__x` is private). Classes can declare friends. A decorator applied to a class with arguments (`@private(Base)`) declares the inheritance kind of the edge to `Base`.

This project models the definition-time rules and the run-time access decision:

- **`Strings`**: the string operations the rules rely on. `str.split` on one separator character is modelled with its inverse `Join`, and the two round trips are proved.
- **`Vocabulary`**: access levels, inheritance kinds and their value strings. Also classes, treated by identity but carrying a display name. Also the caller information resolved from the call stack, and the class-hierarchy analyser. The analyser is given as functions: `issubclass`, the inheritance kind of an edge, and the effective level of an inherited member.
- **`Friendship`**: the class-friend registry of access/friendship.py. It is keyed by class `__name__`.
- **`LimenChecker`**: the newest access checker (`limen`). It has a friend short-circuit and a strict private rule with a constructor-chain exception. Then come the same-class rule, the derived-caller rule and the effective-level fallback.
- **`BouncerChecker`**: the older checker (`bouncer`). **`CheckerDivergence`** proves where the two give different verdicts and where they agree.
- **`Implicit`**: the naming classifier, undoing of name mangling, and the rewrite of a class body that wraps every undecorated callable in a descriptor. It also covers the `bouncer` pass that wraps inherited methods.
- **`Validation`**: the stand-alone qualified-name check.
- **`DecoratorCommon`**, **`Decorators`**, **`LegacyDecorators`**:
  - argument dispatch of a decorator call
  - the qualified-name checks
  - the checks for a level already present
  - application to a function
  - the inheritance decorator

  `Decorators` is the `bouncer` variant (bouncer/decorators/base.py). `LegacyDecorators` is the earlier top-level variant (decorators/base.py). Lemmas state how the two differ.
- **`InheritanceInfo`**: how an inheritance decorator records `_inheritance_info`. This includes a defect in the code as written, described under Findings.

Operations are modelled as the code is written, including the two defects listed under Findings. Each defect's corrected definition sits beside it with the intended property proved.

Python objects are values here. The class body is a sequence of `(name, attribute)` pairs in definition order. A function object carries the marks the decorators read and set. A class decorator returns the rewritten body and the updated `_inheritance_info` dictionaries instead of mutating the class.

## Model

| member | source | states |
|---|---|---|
| Strings.Split | utils/validation.py:10 | splitting on one character gives one more piece than there are separators, and no piece contains the separator |
| Strings.JoinSplit | utils/validation.py:10 | joining the pieces of a split with the separator gives back the original qualified name |
| Strings.SplitJoin | utils/validation.py:10 | splitting the join of separator-free pieces gives back the pieces |
| Strings.SplitHasManyParts | utils/validation.py:10-11 | a name splits into at least two pieces exactly when it contains a dot, so "fewer than two parts" means "no dot" |
| Vocabulary.KindNamedAfter | bouncer/decorators/base.py:72 | the inheritance kind built from a level's value has that same value, and it is the only kind that does |
| Vocabulary.DerivedCallerAllows | limen/access/checker.py:69-92 | a caller deriving through an edge of known kind may use public and protected members but not private ones, whatever the kind |
| Friendship.IsFriend | access/friendship.py:23-32 | a missing target or caller is never a friend |
| Friendship.RegisterFriend | access/friendship.py:13-21 | after registration the pair is friends; the target's friend set only gains the new friend; other targets are untouched |
| Friendship.Clear | access/friendship.py:42-44 | after clearing both counts are zero and nobody is a friend of anybody |
| Friendship.RegisterPreservesValid | access/friendship.py:13-21 | registration keeps every recorded target with a non-empty friend set |
| Friendship.RegisterIdempotent | access/friendship.py:18-21 | registering an existing pair changes nothing; registering twice equals registering once |
| Friendship.RegisterFrame | access/friendship.py:13-32 | registration changes no answer for a target with a different name |
| Friendship.RegisterPairs | access/friendship.py:13-21 | registration adds exactly the new (target, friend) pair to the set of pairs |
| Friendship.RegisterFriendsCount | access/friendship.py:34-36 | the friends count grows by one exactly when the pair was not yet recorded |
| Friendship.RegisterRelationshipsCount | access/friendship.py:38-40 | the relationships count grows by one exactly when the target had no friends yet |
| Friendship.FriendsCountIsPairCount | access/friendship.py:34-36 | the sum of the friend-set sizes equals the number of (target, friend) pairs |
| Friendship.FriendsCountAtLeastTargets | access/friendship.py:34-40 | in a registry built by registrations there are at least as many friendships as relationships |
| Friendship.SameNameSameAnswer | access/friendship.py:18-32 | the registry answers by `__name__`: two classes with the same name get the same answers in both roles |
| Friendship.NameSharingGrantsFriendship | access/friendship.py:18-32 | befriending one class named "Helper" also befriends a different class with the same name |
| LimenChecker.FriendIdentity | limen/access/checker.py:128-137 | a resolved caller class is kept as the identity; when no class was resolved, an active thread-local static context replaces the caller; with neither, the caller stays as it is |
| LimenChecker.CheckFriendAccess | limen/access/checker.py:101-160 | a friend grant never applies to a public member and always needs a non-empty caller method name |
| LimenChecker.PrivateRule | limen/access/checker.py:38-62 | for a private member, a caller from another class is allowed exactly under the constructor-chain exception; without an instance only the declaring class is allowed |
| LimenChecker.CheckPrivateAccess | limen/access/checker.py:180-205 | the looser private rule needs a caller class; the declaring class is always allowed; an `__init__` of a base of the declaring class is allowed; any other caller is allowed exactly when it names a method and is a subclass of the declaring class |
| LimenChecker.CheckProtectedAccess | limen/access/checker.py:207-221 | protected access needs a caller class; a subclass caller is allowed exactly through a public or protected inheritance edge; a base-class caller is allowed; an unrelated caller is refused |
| LimenChecker.CheckAccessByLevel | limen/access/checker.py:167-178 | an effective public level is always allowed; any other level needs a caller class |
| LimenChecker.CanAccess | limen/access/checker.py:21-99 | a friend grant allows; a private member is allowed exactly by the strict private rule; the declaring class gets every non-private member; a derived caller through a known kind gets every non-private member |
| LimenChecker.FriendLookupNeedsMethod | limen/access/checker.py:110-140 | without a caller method name, and with no static context standing in, no friend grant applies |
| LimenChecker.FriendLookupWithoutClass | limen/access/checker.py:128-150 | with no caller class, only the friend-function and static-method registries are consulted, with the method name |
| LimenChecker.FriendLookupWithClass | limen/access/checker.py:110-158 | when the identity has a class (from the stack or from the static context), a non-public member is granted exactly by the friend probe (tried only for a class from the stack), or with a method name by the friend-method or class-friend registry for the identity |
| LimenChecker.StaticContextFriendLookup | limen/access/checker.py:128-158 | a static method with no class on the stack is judged as the class and method of the static context, against the friend-method and class-friend registries only |
| LimenChecker.StrictPrivateWithinLoose | limen/access/checker.py:38-62 | outside a constructor, whatever the strict private rule allows the loose fallback rule (:180-205) allows too |
| LimenChecker.FriendClassByName | limen/access/checker.py:156-158 | a friend grant to one class extends to any class with the same name calling with a method name |
| LimenChecker.PrivateStrangerDenied | limen/access/checker.py:38-62 | a private member is refused to another class with neither a friend grant nor the constructor exception |
| LimenChecker.PrivateIgnoresAnalyzerLevels | limen/access/checker.py:38-62 | the verdict for a private member does not depend on inheritance kinds or effective levels |
| LimenChecker.PrivateSameClass | limen/access/checker.py:51-55 | the declaring class may use its own private member outside a constructor |
| LimenChecker.PrivateOnDerivedInstanceDenied | limen/access/checker.py:51-59 | strict semantics: the base's own method may not use the base's private member on a derived instance outside a constructor |
| LimenChecker.ConstructorChainAllowed | limen/access/checker.py:41-46 | the constructor-chain exception allows a private member |
| LimenChecker.ConstructorChainScenario | tests/test_inheritance_access_control_bugs.py:397-429 | in a chain C from B from A, each constructor may use its own class's private members while building a C |
| LimenChecker.FallbackUsesEffectiveLevel | limen/access/checker.py:94-99 | past the earlier rules, the verdict is the one for the effective level of the member in the instance's class |
| LimenChecker.FallbackPrivateLoose | limen/access/checker.py:94-99 | in the fallback, an effective private level is allowed to any subclass caller with a method name |
| BouncerChecker.CheckPrivateAccess | bouncer/access/checker.py:84-94 | private access is allowed exactly to a registered friend of the declaring class |
| BouncerChecker.CheckProtectedAccess | bouncer/access/checker.py:96-114 | protected access needs a caller class; a friend is allowed; otherwise a subclass caller is allowed exactly through a public or protected edge, a base-class caller is allowed, and an unrelated class is refused |
| BouncerChecker.CheckAccessByLevel | bouncer/access/checker.py:70-82 | an effective public level is always allowed; any other level needs a caller class |
| BouncerChecker.CanAccess | bouncer/access/checker.py:21-68 | the declaring class is allowed every member, private included; a derived caller through a known kind is allowed exactly the non-private members |
| BouncerChecker.FallbackUsesEffectiveLevel | bouncer/access/checker.py:63-68 | past the earlier rules, the verdict is the one for the effective level |
| BouncerChecker.FallbackPrivateOnlyFriends | bouncer/access/checker.py:63-68 | in the fallback, an effective private level is allowed only to a friend |
| BouncerChecker.VerdictDependsOnlyOnFriendAnswers | bouncer/access/checker.py:84-114 | two registries that give the same friend answer give the same verdict |
| CheckerDivergence.SameClassPrivateOnDerivedInstance | limen/access/checker.py:38-66 | the declaring class using its private member on a derived instance: allowed by `bouncer`, refused by `limen` |
| CheckerDivergence.EffectivePrivateForSubclass | limen/access/checker.py:94-99 | a subclass caller of unknown edge kind on an effectively private member: allowed by `limen`, refused by `bouncer` without a friend |
| CheckerDivergence.AgreeOnInternalNonPrivate | bouncer/access/checker.py:33-35 | both checkers allow the declaring class every non-private member |
| CheckerDivergence.AgreeDerivedCallerPrivateDenied | limen/access/checker.py:69-92 | both checkers refuse a private member to a strict subclass of known edge kind without a friend grant or the constructor exception |
| Implicit.DetectImplicitLevel | utils/implicit.py:9-28 | a name is private exactly when it starts but does not end with two underscores; protected exactly with one leading underscore; special names are public |
| Implicit.NoUnderscoreIsPublic | utils/implicit.py:26-28 | a name without a leading underscore is public |
| Implicit.SingleUnderscoreIsProtected | utils/implicit.py:23-25 | a name with exactly one leading underscore is protected |
| Implicit.DoubleUnderscoreIsPrivate | utils/implicit.py:20-22 | a name with two leading underscores not ending in one is private |
| Implicit.Demangle | utils/implicit.py:58-62 | names without the source's prefix `_<class name>__` come out unchanged |
| Implicit.DemangleMangled | utils/implicit.py:58-62 | a name under the source's prefix loses it: `_C__x` becomes `__x` in class `C` |
| Implicit.MangledNameIsPrivate | utils/implicit.py:58-65 | a name under the source's prefix is classified private after demangling |
| Implicit.StripLeadingUnderscores | utils/implicit.py:60 | the class name Python's own mangling uses: a suffix of the name, not starting with `_`, after only underscores |
| Implicit.Mangle | utils/implicit.py:58-62 | Python's mangling leaves special names and names without two leading underscores unchanged |
| Implicit.DemangleCorrected | utils/implicit.py:58-62 | the corrected demangling leaves names without Python's prefix unchanged |
| Implicit.DemangleCorrectedInvertsMangle | utils/implicit.py:58-65 | the corrected demangling inverts Python's mangling for every class name that is not all underscores, and the result is private |
| Implicit.UnderscoreClassPrivateNameMisread | utils/implicit.py:58-65 | as written, `__x` in class `_Ham` (stored `_Ham__x`) is not demangled and is classified protected; the corrected demangling makes it private |
| Implicit.DescriptorFor | utils/implicit.py:72-90 | static methods, class methods and properties get descriptors of their own kind, and only they do; the class-method and property branches are never reached in CPython, see `ClassMethodsAndPropertiesStayUnguarded` |
| Implicit.ApplyImplicit | utils/implicit.py:31-96 | the rewrite keeps every name in place and leaves uncollected entries unchanged; each collected entry becomes a descriptor of its kind, carrying the level of its demangled name |
| Implicit.ApplyImplicitSkips | bouncer/utils/implicit.py:24-34 | special names, entries with a level, and non-callables come out unchanged |
| Implicit.ApplyImplicitIdempotent | bouncer/utils/implicit.py:18-47 | rewriting an already rewritten body changes nothing |
| Implicit.DispatchByKind | bouncer/utils/implicit.py:50-66 | a collected entry's descriptor kind is chosen by what the entry holds |
| Implicit.ClassMethodsAndPropertiesStayUnguarded | utils/implicit.py:67-90 | with `callable()` as CPython has it, class-method and property entries are left unguarded, and the rewrite installs only method and static-method descriptors |
| Implicit.MangledEntryWrappedPrivate | bouncer/utils/implicit.py:36-47 | a method defined in the class body under the source's prefix `_<class name>__x` is wrapped as private |
| Implicit.InheritedLevel | bouncer/decorators/base.py:245-248 | an inherited undecorated method is never private, and is protected exactly when its name starts with an underscore |
| Implicit.InheritedVersusImplicit | bouncer/decorators/base.py:245-248 | the inherited rule agrees with the naming classifier except on `__x` names, which it makes protected rather than private |
| Implicit.WrapInherited | bouncer/decorators/base.py:225-254 | the class's own entries are kept; each added entry is a method descriptor with the inherited level, for a visible name that is not special, not mangled, callable, unguarded and not defined in the class; every such visible name is added |
| Implicit.WrapInheritedDistinct | bouncer/decorators/base.py:225-254 | a body with distinct names keeps distinct names after inherited methods are added |
| Implicit.ApplyImplicitWithInherited | bouncer/decorators/base.py:215-254 | the rewritten body starts with the implicit rewrite of the class's own entries; the rest are method descriptors at the inherited level, exactly one for every wrappable visible inherited name |
| Implicit.ApplyImplicitKeepsNames | utils/implicit.py:92-93 | the implicit rewrite keeps the set of names of the class body |
| Validation.ModuleLevelMessage | utils/validation.py:12-15 | the error message names both the decorator and the offending function |
| Validation.ValidateMethodUsage | utils/validation.py:7-15 | the check fails exactly when a qualified name is present and has no dot, and its message names the decorator and the function |
| DecoratorCommon.ClassesOf | bouncer/decorators/base.py:44-47 | the bases handed to the inheritance decorator are the argument classes, in order |
| DecoratorCommon.Dispatch | bouncer/decorators/base.py:15-49 | no argument gives a parameterized decorator; several arguments are refused exactly when one is not a class; a single class is refused exactly when bare; classes otherwise give an inheritance decorator of the kind named after the level; a single function is applied, with its error passed on |
| Decorators.LastIndexOf | bouncer/decorators/base.py:129 | finds the last occurrence of `<locals>`, and nothing after it is `<locals>` |
| Decorators.ValidateFunctionUsage | bouncer/decorators/base.py:106-140 | no qualified name passes; a dot-free one fails; with a dot, it fails exactly when `<locals>` is among the last two pieces |
| Decorators.SplitThree | bouncer/decorators/base.py:109 | a qualified name of three dot-free pieces splits into exactly those pieces |
| Decorators.NestedFunctionRejected | bouncer/decorators/base.py:118-138 | a function defined in a function (`outer.<locals>.helper`) is refused |
| Decorators.LocalClassMethodAccepted | bouncer/decorators/base.py:114-134 | a method of a class defined in a function (`outer.<locals>.C.m`) is accepted |
| Decorators.ExistingMarks | bouncer/decorators/base.py:144-162 | a level on the object itself is the one found; only without it is the level inside a property, static method or class method wrapper found |
| Decorators.CheckAccessLevelConflict | bouncer/decorators/base.py:142-189 | an existing level is an error unless it is the friend decorator's public default; it is a duplicate when equal to the new level and a conflict otherwise, naming the wrapper |
| Decorators.ApplyToFunction | bouncer/decorators/base.py:51-63 | succeeds exactly when both checks pass; an existing descriptor of the system is updated in place to the new level, anything else gets a new method descriptor |
| Decorators.InPlaceUpdateOnlyOverFriendDefault | bouncer/decorators/base.py:58-61 | an existing descriptor with a level is re-decorated only over the friend default, and keeps everything but its level |
| Decorators.Call | bouncer/decorators/base.py:15-36 | a single function argument succeeds exactly when applying to it does; inheritance decorators carry the kind named after the level |
| Decorators.ApplyInheritanceDecorator | bouncer/decorators/base.py:70-104 | a non-callable non-class is refused, and a callable is refused as a "method" exactly when its qualified name has a dot; a class is accepted: the bases are written at the kind into the dictionary `hasattr` finds, which may be a base's, no other class's dictionary changes, the decorated class then sees every base at the kind, the body starts with its implicit rewrite, and every wrappable inherited name is wrapped |
| LegacyDecorators.ValidateFunctionUsage | decorators/base.py:80-86 | fails exactly when a qualified name is present and has no dot |
| LegacyDecorators.CheckAccessLevelConflict | decorators/base.py:88-98 | fails exactly when the object already carries a different level; otherwise a callable without `func` is marked with the level and nothing else changes |
| LegacyDecorators.ApplyToFunction | decorators/base.py:51-55 | succeeds exactly when both checks pass, and always returns a new method descriptor of the level around the marked object |
| LegacyDecorators.Call | decorators/base.py:15-55 | a single function argument succeeds exactly when applying to it does, and the result is always a new method descriptor of the level; inheritance decorators carry the kind named after the level |
| LegacyDecorators.ApplyInheritanceDecorator | decorators/base.py:62-78 | the body gets the implicit rewrite only; the bases are written at the kind into the dictionary `hasattr` finds, which may be a base's; no other class's dictionary changes; the decorated class then sees every base at the kind |
| LegacyDecorators.AgreeOnArgumentDispatch | decorators/base.py:15-49 | for any call other than a single function, both variants dispatch identically |
| LegacyDecorators.SameLevelTwice | decorators/base.py:88-95 | re-applying the level an object already carries is accepted here and a duplicate error in `bouncer` |
| LegacyDecorators.NestedFunctionOnlyRejectedByBouncer | decorators/base.py:80-86 | `outer.<locals>.helper` is accepted here and refused in `bouncer` |
| LegacyDecorators.FriendDefaultOnlyReplacedByBouncer | decorators/base.py:88-95 | the friend decorator's public default is replaced in `bouncer` and is a conflict here |
| InheritanceInfo.FirstHolder | bouncer/decorators/base.py:95 | attribute lookup finds the first class in method-resolution order that owns a dictionary, or none |
| InheritanceInfo.FirstHolderSameOwners | bouncer/decorators/base.py:95 | lookup depends only on which classes own a dictionary |
| InheritanceInfo.Holder | bouncer/decorators/base.py:95-97 | the class whose dictionary is written: the decorated class when it owns one or no class in its order does, otherwise a base that owns one |
| InheritanceInfo.WithBases | bouncer/decorators/base.py:98-99 | every base name maps to the kind; other entries are kept |
| InheritanceInfo.RecordAsWritten | bouncer/decorators/base.py:95-99 | as written, only the holder's dictionary changes: it maps every base to the kind and keeps the decorated class's earlier view otherwise; no class loses its dictionary |
| InheritanceInfo.RecordAsWrittenVisibleFromDerived | bouncer/decorators/base.py:95-99 | as written, the decorated class then sees every base at the kind and its earlier view otherwise |
| InheritanceInfo.Record | bouncer/decorators/base.py:95-99 | the decorated class owns a dictionary with every base at the kind and its earlier view otherwise; no other class's dictionary changes |
| InheritanceInfo.RecordVisibleFromDerived | bouncer/decorators/base.py:95-99 | after recording, the decorated class sees every base with the kind |
| InheritanceInfo.RecordSameViewAsWritten | bouncer/decorators/base.py:95-99 | the corrected recording gives the decorated class the same view as the code as written |
| InheritanceInfo.AsWrittenWritesIntoBase | bouncer/decorators/base.py:95-99 | as written, decorating C(B) when B already owns a dictionary writes C's entries into B's |

## Left out

- Call-stack walking that resolves the caller class and method is left out. The result is an input (`CallerInfo`).
- The thread-local static-method context of `limen` is left out. It is an optional input.
- The class-hierarchy analyser is not part of this model. `issubclass`, the inheritance kind of an edge and the effective level of an inherited member are uninterpreted inputs. Only `issubclass` is assumed well-formed where a lemma needs it.
- The `limen` friendship manager's friend-method, friend-function and static-method registries are not part of this model. They enter as answer functions. So does the reflective probe of the caller's method for `_limen_friend_target` and `_limen_is_friend_method` (limen/access/checker.py:114-123).
- Both checkers import the friendship manager of their own package (limen/access/checker.py:7, bouncer/access/checker.py:7), and those modules are not part of this model. Their class-friend `is_friend` is assumed to behave like access/friendship.py, the registry modelled in `Friendship`. `LimenChecker.FriendClassByName`, `BouncerChecker.FallbackPrivateOnlyFriends` and `BouncerChecker.VerdictDependsOnlyOnFriendAnswers` rest on that assumption.
- `_is_bare_class_decoration` is left out. It sniffs source text, so its verdict is the input `bare`.
- `validate_class_decoration` (utils/validation.py:18-32) inspects interpreter frames. It is left out.
- Descriptor classes, `DescriptorFactory` and the friend decorators are left out. A descriptor is represented by its kind and level.
- bouncer/utils/naming.py is not part of this model. The `bouncer` body rewrite is taken to classify names as utils/implicit.py does.
- Decorator error messages are kept as structured errors. Only the stand-alone `validate_method_usage` message is modelled as text.
- `_inheritance_info` stores `InheritanceType.value` strings. The model stores the kinds, which `KindNamedAfter` relates to the values one to one.
- LegacyDecorators.ApplyInheritanceDecorator: only class targets are modelled. On a non-class, the legacy decorator reads the object's `__dict__` and sets an attribute, or raises when there is none. That behaviour depends on the object.
- LegacyDecorators.CheckAccessLevelConflict: compares levels, not the stored value strings. The value string is stored only on a raw function marked at decorators/base.py:98. Every descriptor, the legacy decorators' own included (decorators/base.py:55, descriptors/base.py:14), stores the enumeration member, which would not compare equal to a string at decorators/base.py:91. So `LegacyDecorators.SameLevelTwice`'s "accepted" holds for a raw marked function; stacking two legacy decorators of the same level would raise a conflict in the source.
- `can_access` leaves the registries unchanged. The checkers here are pure functions, so this holds by construction.
- Whether a static-method object is callable depends on the Python version (from 3.10 on it is). `CallableAsInPython` leaves it free; class-method and property objects are never callable.
- Integer widths, concurrency and logging play no role in these rules.

## Findings

| source | as written | input that shows it | evidently intended | confidence | as-written member | corrected member |
|---|---|---|---|---|---|---|
| bouncer/decorators/base.py:95-99 (same in decorators/base.py:69-73) | `hasattr(derived_class, '_inheritance_info')` also finds a dictionary inherited from a base, and the entries are then written into that base's dictionary | classes A, B(A), C(B); B decorated `@private(A)` so B owns `{"A": private}`; then C decorated `@public(B)` writes `"B": public` into B's dictionary | each decorated class gets its own dictionary; bases are unaffected | not executed | InheritanceInfo.RecordAsWritten (shown by InheritanceInfo.AsWrittenWritesIntoBase) | InheritanceInfo.Record (proved by InheritanceInfo.RecordVisibleFromDerived and InheritanceInfo.RecordSameViewAsWritten) |
| utils/implicit.py:58-62 (same in bouncer/utils/implicit.py:36-40) | the mangling prefix is `_<cls.__name__>__`, but Python strips leading underscores from the class name when it mangles | in class `_Ham`, `__x` is stored as `_Ham__x`; the prefix tested is `__Ham__`, so the name is not demangled and is classified protected | private | not executed | Implicit.Demangle (shown by Implicit.UnderscoreClassPrivateNameMisread) | Implicit.DemangleCorrected (proved by Implicit.DemangleCorrectedInvertsMangle) |
