/** The definition-time rules of the earlier, top-level access decorators, and the
    points where they differ from the `bouncer` ones. */
module LegacyDecorators {
  import opened Wrappers
  import opened Vocabulary
  import opened Strings
  import opened DecoratorCommon
  import Implicit
  import InheritanceInfo
  import Decorators

  /** `_validate_function_usage`: only a qualified name with no dot is refused. */
  function ValidateFunctionUsage(f: FuncObj): (o: Outcome<DecoratorError>)
    ensures o.Fail? <==> f.qualname.Some? && '.' !in f.qualname.value
    ensures o.Fail? ==> o.error == ModuleLevelFunction
  {
    match f.qualname
    case None => Pass
    case Some(q) =>
      SplitHasManyParts(q, '.');
      if |Split(q, '.')| < 2 then Fail(ModuleLevelFunction) else Pass
  }

  /** `_check_access_level_conflict`: a different level already on the object is an
      error; otherwise a callable that does not wrap a `func` is marked with the level. */
  function CheckAccessLevelConflict(f: FuncObj, level: AccessLevel): (r: Result<FuncObj, DecoratorError>)
    ensures r.Err? <==> f.own.level.Some? && f.own.level.value != level
    ensures r.Err? ==> r.error == LevelConflict(f.own.level.value, level)
    ensures r.Ok? ==> r.value.(own := f.own) == f && r.value.own.byFriend == f.own.byFriend
    ensures r.Ok? ==> r.value.own.level == (if f.isCallable && !f.hasFuncAttr then Some(level) else f.own.level)
  {
    if f.own.level.Some? && f.own.level.value != level then Err(LevelConflict(f.own.level.value, level))
    else if f.isCallable && !f.hasFuncAttr then Ok(f.(own := f.own.(level := Some(level))))
    else Ok(f)
  }

  /** `_apply_to_function`: validate, check and mark, then always wrap the object in a
      new method descriptor. */
  function ApplyToFunction(level: AccessLevel, f: FuncObj): (r: Result<Applied, DecoratorError>)
    ensures r.Ok? <==> ValidateFunctionUsage(f).Pass? && CheckAccessLevelConflict(f, level).Ok?
    ensures r.Err? ==> FunctionError(r.error)
    ensures r.Ok? ==> r.value.NewMethodDescriptor? && r.value.level == level
                      && r.value.of == CheckAccessLevelConflict(f, level).value
  {
    match ValidateFunctionUsage(f)
    case Fail(e) => Err(e)
    case Pass =>
      match CheckAccessLevelConflict(f, level)
      case Err(e) => Err(e)
      case Ok(g) => Ok(NewMethodDescriptor(g, level))
  }

  /** `__call__` of the top-level decorators. */
  function Call(level: AccessLevel, args: seq<Arg>, bare: bool): (r: Result<Dispatched, DecoratorError>)
    ensures |args| == 1 && args[0].ValueArg? ==>
              (r.Ok? <==> ApplyToFunction(level, args[0].obj).Ok?)
    ensures r.Ok? && r.value.AppliedToFunction? ==>
              r.value.applied.NewMethodDescriptor? && r.value.applied.level == level
    ensures r.Ok? && r.value.InheritanceDecorator? ==> r.value.kind == KindNamedAfter(level)
  {
    Dispatch(level, args, bare, f => ApplyToFunction(level, f))
  }

  /** The decorator `_create_inheritance_decorator` returns, applied to a class: the
      body gets the implicit levels (inherited members are not wrapped) and every
      listed base name is recorded with the kind, in the dictionary attribute lookup
      finds, as in the `bouncer` variant. */
  function ApplyInheritanceDecorator(bases: seq<Cls>, kind: InheritanceKind, cls: Cls,
                                     body: Implicit.ClassDict, ancestors: seq<Cls>,
                                     store: InheritanceInfo.InfoStore): (r: Decorators.Decorated)
    ensures r.body == Implicit.ApplyImplicit(cls.name, body)
    ensures var w := InheritanceInfo.Holder(store, cls, ancestors);
            && w in r.store
            && (forall i :: 0 <= i < |bases| ==> bases[i].name in r.store[w] && r.store[w][bases[i].name] == kind)
            && (forall c :: c != w && c in store ==> c in r.store && r.store[c] == store[c])
    ensures var seen := InheritanceInfo.Visible(r.store, cls, ancestors);
            forall i :: 0 <= i < |bases| ==> bases[i].name in seen && seen[bases[i].name] == kind
  {
    var names := Decorators.BaseNames(bases);
    assert forall i :: 0 <= i < |bases| ==> bases[i].name in names;
    InheritanceInfo.RecordAsWrittenVisibleFromDerived(store, cls, ancestors, names, kind);
    Decorators.Decorated(Implicit.ApplyImplicit(cls.name, body),
                         InheritanceInfo.RecordAsWritten(store, cls, ancestors, names, kind))
  }

  /** Both variants refuse a call with several arguments that are not all classes,
      and both turn a class list into an inheritance decorator of the kind named
      after the level. */
  lemma AgreeOnArgumentDispatch(level: AccessLevel, args: seq<Arg>, bare: bool)
    requires |args| != 1 || args[0].ClassArg?
    ensures Call(level, args, bare) == Decorators.Call(level, args, bare)
  {
  }

  /** Re-applying the level an object already carries: accepted here, a "Duplicate"
      error in `bouncer`. */
  lemma SameLevelTwice(level: AccessLevel, f: FuncObj)
    requires f.qualname.Some? && '.' in f.qualname.value && "<locals>" !in Split(f.qualname.value, '.')
    requires f.own.level == Some(level) && !f.own.byFriend
    ensures ApplyToFunction(level, f).Ok?
    ensures Decorators.ApplyToFunction(level, f) == Err(DuplicateLevel(level, level, f.wrapper))
  {
  }

  /** A function nested in a function: accepted here, rejected in `bouncer`. */
  lemma NestedFunctionOnlyRejectedByBouncer(f: FuncObj, outer: string, helper: string)
    requires '.' !in outer && '.' !in helper
    requires f.qualname == Some(outer + "." + "<locals>" + "." + helper)
    ensures ValidateFunctionUsage(f).Pass?
    ensures Decorators.ValidateFunctionUsage(f).Fail?
  {
    Decorators.NestedFunctionRejected(f, outer, helper);
  }

  /** A level set by the friend decorator: `bouncer` replaces it, this variant
      reports a conflict for any other level. */
  lemma FriendDefaultOnlyReplacedByBouncer(level: AccessLevel, f: FuncObj)
    requires level != Public
    requires f.own == Marks(Some(Public), true)
    ensures CheckAccessLevelConflict(f, level) == Err(LevelConflict(Public, level))
    ensures Decorators.CheckAccessLevelConflict(f, level).Pass?
  {
  }
}
