/** What the access decorators are applied to, the errors they raise at definition
    time, and the argument dispatch both decorator variants share. */
module DecoratorCommon {
  import opened Wrappers
  import opened Vocabulary

  /** The standard wrapper the decorated object is, if any. */
  datatype Wrapper = Bare | PropertyWrapper | StaticMethodWrapper | ClassMethodWrapper

  /** Marks a function object may carry: `_access_level` (when present) and
      `_created_by_friend_decorator`. */
  datatype Marks = Marks(level: Option<AccessLevel>, byFriend: bool)

  /** A non-class object handed to an access decorator. `own` are the marks on the
      object itself, `inner` those on the wrapped `fget` / `__func__` of a wrapper;
      `guarded` says it is already an access-controlled descriptor of this system;
      `isCallable` is `hasattr(obj, '__call__')`; `hasFuncAttr` is `hasattr(obj, 'func')`. */
  datatype FuncObj = FuncObj(
    name: string,
    qualname: Option<string>,
    wrapper: Wrapper,
    own: Marks,
    inner: Marks,
    guarded: bool,
    isCallable: bool,
    hasFuncAttr: bool)

  /** A decorator argument: a class, or anything else. */
  datatype Arg = ClassArg(cls: Cls) | ValueArg(obj: FuncObj)

  /** The `ValueError`s raised while decorators are applied. */
  datatype DecoratorError =
    | ModuleLevelFunction
    | BareClassDecoration
    | NonClassBaseArgument
    | DuplicateLevel(existing: AccessLevel, requested: AccessLevel, foundIn: Wrapper)
    | ConflictingLevel(existing: AccessLevel, requested: AccessLevel, foundIn: Wrapper)
    | LevelConflict(existing: AccessLevel, requested: AccessLevel)
    | InheritanceOnCallable(targetType: string)
    | InheritanceOnNonClass

  /** What applying a level to a function object returns: the same descriptor with
      its level updated, or a new method descriptor around the object. */
  datatype Applied = UpdatedInPlace(obj: FuncObj) | NewMethodDescriptor(of: FuncObj, level: AccessLevel)

  /** What calling a decorator returns. */
  datatype Dispatched =
    | ParameterizedDecorator
    | AppliedToFunction(applied: Applied)
    | InheritanceDecorator(bases: seq<Cls>, kind: InheritanceKind)

  predicate AllClasses(args: seq<Arg>) {
    forall i :: 0 <= i < |args| ==> args[i].ClassArg?
  }

  function ClassesOf(args: seq<Arg>): (cs: seq<Cls>)
    requires AllClasses(args)
    ensures |cs| == |args|
    ensures forall i :: 0 <= i < |args| ==> cs[i] == args[i].cls
  {
    if |args| == 0 then [] else [args[0].cls] + ClassesOf(args[1..])
  }

  /** The errors `_apply_to_function` can raise. */
  predicate FunctionError(e: DecoratorError) {
    e.ModuleLevelFunction? || e.DuplicateLevel? || e.ConflictingLevel? || e.LevelConflict?
  }

  /** `__call__`: no argument gives a decorator awaiting a function; one class gives
      an inheritance decorator unless the decoration is bare; one other object is
      decorated directly by the variant's `apply`; several arguments must all be
      classes. `bare` is the verdict of the source-text probe for a bare `@level`. */
  function Dispatch(level: AccessLevel, args: seq<Arg>, bare: bool,
                    apply: FuncObj -> Result<Applied, DecoratorError>): (r: Result<Dispatched, DecoratorError>)
    requires forall f :: apply(f).Err? ==> FunctionError(apply(f).error)
    ensures r == Ok(ParameterizedDecorator) <==> |args| == 0
    ensures r == Err(NonClassBaseArgument) <==> |args| > 1 && !AllClasses(args)
    ensures r == Err(BareClassDecoration) <==> |args| == 1 && args[0].ClassArg? && bare
    ensures r.Ok? && r.value.InheritanceDecorator? ==>
              && |args| >= 1 && AllClasses(args)
              && r.value.bases == ClassesOf(args)
              && KindValue(r.value.kind) == LevelValue(level)
    ensures |args| >= 1 && AllClasses(args) && !(|args| == 1 && bare) ==> r.Ok? && r.value.InheritanceDecorator?
    ensures |args| == 1 && args[0].ValueArg? ==>
              (r.Ok? <==> apply(args[0].obj).Ok?)
              && (r.Ok? ==> r.value == AppliedToFunction(apply(args[0].obj).value))
              && (r.Err? ==> r.error == apply(args[0].obj).error)
  {
    if |args| == 0 then Ok(ParameterizedDecorator)
    else if |args| == 1 then
      match args[0]
      case ClassArg(c) =>
        if bare then Err(BareClassDecoration) else Ok(InheritanceDecorator([c], KindNamedAfter(level)))
      case ValueArg(f) =>
        match apply(f)
        case Ok(a) => Ok(AppliedToFunction(a))
        case Err(e) => assert FunctionError(apply(f).error); Err(e)
    else if AllClasses(args) then Ok(InheritanceDecorator(ClassesOf(args), KindNamedAfter(level)))
    else Err(NonClassBaseArgument)
  }
}
