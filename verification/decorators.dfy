/** The definition-time rules of the `bouncer` access decorators: what a decorator
    call dispatches to, which qualified names are accepted, when an existing level
    makes a second decorator an error, and what an inheritance decorator records. */
module Decorators {
  import opened Wrappers
  import opened Vocabulary
  import opened Strings
  import opened DecoratorCommon
  import Implicit
  import InheritanceInfo

  /** Index of the last occurrence of `x`. */
  function LastIndexOf(parts: seq<string>, x: string): (k: Option<nat>)
    ensures k.None? <==> x !in parts
    ensures k.Some? ==> k.value < |parts| && parts[k.value] == x
    ensures k.Some? ==> forall j :: k.value < j < |parts| ==> parts[j] != x
  {
    if |parts| == 0 then None
    else if parts[|parts| - 1] == x then Some(|parts| - 1)
    else LastIndexOf(parts[..|parts| - 1], x)
  }

  /** `_validate_function_usage`: a single part is a module-level function; with
      `<locals>` present, at least a class and a method name must follow its last
      occurrence; every other qualified name is accepted. */
  function ValidateFunctionUsage(f: FuncObj): (o: Outcome<DecoratorError>)
    ensures o.Fail? ==> o.error == ModuleLevelFunction
    ensures f.qualname.None? ==> o.Pass?
    ensures f.qualname.Some? && '.' !in f.qualname.value ==> o.Fail?
    ensures f.qualname.Some? && '.' in f.qualname.value ==>
              var parts := Split(f.qualname.value, '.');
              (o.Fail? <==> exists j :: 0 <= j < |parts| && |parts| - 2 <= j && parts[j] == "<locals>")
  {
    match f.qualname
    case None => Pass
    case Some(q) =>
      var parts := Split(q, '.');
      SplitHasManyParts(q, '.');
      if |parts| < 2 then Fail(ModuleLevelFunction)
      else if "<locals>" in parts then
        var k := LastIndexOf(parts, "<locals>").value;
        if |parts[k + 1..]| < 2 then Fail(ModuleLevelFunction) else Pass
      else
        Pass
  }

  /** A qualified name of three dot-free pieces splits into those pieces. */
  lemma SplitThree(a: string, b: string, c: string)
    requires '.' !in a && '.' !in b && '.' !in c
    ensures Split(a + "." + b + "." + c, '.') == [a, b, c]
  {
    SplitPlain(c, '.');
    SplitAfterPlain(b, c, '.');
    assert b + "." + c == b + ['.'] + c;
    SplitAfterPlain(a, b + "." + c, '.');
    assert a + "." + b + "." + c == a + ['.'] + (b + "." + c);
  }

  /** A function nested in a function (`outer.<locals>.helper`) is rejected. */
  lemma NestedFunctionRejected(f: FuncObj, outer: string, helper: string)
    requires '.' !in outer && '.' !in helper
    requires f.qualname == Some(outer + "." + "<locals>" + "." + helper)
    ensures ValidateFunctionUsage(f) == Fail(ModuleLevelFunction)
  {
    SplitThree(outer, "<locals>", helper);
    assert '.' in f.qualname.value by {
      assert f.qualname.value[|outer|] == '.';
    }
    var parts := Split(f.qualname.value, '.');
    assert parts[1] == "<locals>";
  }

  /** A method of a class defined inside a function (`outer.<locals>.C.m`) is accepted. */
  lemma LocalClassMethodAccepted(f: FuncObj, outer: string, cls: string, meth: string)
    requires '.' !in outer && '.' !in cls && '.' !in meth
    requires cls != "<locals>" && meth != "<locals>"
    requires f.qualname == Some(outer + "." + "<locals>" + "." + cls + "." + meth)
    ensures ValidateFunctionUsage(f).Pass?
  {
    var q := f.qualname.value;
    SplitThree("<locals>", cls, meth);
    SplitAfterPlain(outer, "<locals>" + "." + cls + "." + meth, '.');
    assert q == outer + ['.'] + ("<locals>" + "." + cls + "." + meth);
    assert q[|outer|] == '.';
    var parts := Split(q, '.');
    assert parts == [outer, "<locals>", cls, meth];
  }

  /** The access level recorded on a function object, or on what a wrapper wraps. */
  function ExistingMarks(f: FuncObj): (m: Option<Marks>)
    ensures m.Some? ==> m.value.level.Some?
    ensures f.own.level.Some? ==> m == Some(f.own)
    ensures f.own.level.None? && f.wrapper != Bare && f.inner.level.Some? ==> m == Some(f.inner)
    ensures m.None? ==> f.own.level.None? && (f.wrapper == Bare || f.inner.level.None?)
  {
    if f.own.level.Some? then Some(f.own)
    else if f.wrapper != Bare && f.inner.level.Some? then Some(f.inner)
    else None
  }

  /** `_check_access_level_conflict`: any level already present is an error —
      "Duplicate" when equal to the new one, "Conflicting" otherwise — unless it is the
      public level the friend decorator set by default. */
  function CheckAccessLevelConflict(f: FuncObj, level: AccessLevel): (o: Outcome<DecoratorError>)
    ensures ExistingMarks(f).None? ==> o.Pass?
    ensures ExistingMarks(f).Some? ==>
              var m := ExistingMarks(f).value;
              && (o.Pass? <==> m.byFriend && m.level == Some(Public))
              && (o.Fail? && m.level == Some(level) ==> o.error == DuplicateLevel(level, level, f.wrapper))
              && (o.Fail? && m.level != Some(level) ==> o.error == ConflictingLevel(m.level.value, level, f.wrapper))
  {
    match ExistingMarks(f)
    case None => Pass
    case Some(m) =>
      var existing := m.level.value;
      if m.byFriend && existing == Public then Pass
      else if existing == level then Fail(DuplicateLevel(existing, level, f.wrapper))
      else Fail(ConflictingLevel(existing, level, f.wrapper))
  }

  /** `_apply_to_function`: validate, check for an existing level, then either update
      an existing descriptor of this system in place or wrap the object in a new
      method descriptor. */
  function ApplyToFunction(level: AccessLevel, f: FuncObj): (r: Result<Applied, DecoratorError>)
    ensures r.Ok? <==> ValidateFunctionUsage(f).Pass? && CheckAccessLevelConflict(f, level).Pass?
    ensures r.Err? ==> FunctionError(r.error)
    ensures r.Ok? && f.guarded ==> r.value == UpdatedInPlace(f.(own := f.own.(level := Some(level))))
    ensures r.Ok? && !f.guarded ==> r.value == NewMethodDescriptor(f, level)
  {
    match ValidateFunctionUsage(f)
    case Fail(e) => Err(e)
    case Pass =>
      match CheckAccessLevelConflict(f, level)
      case Fail(e) => Err(e)
      case Pass =>
        if f.guarded then Ok(UpdatedInPlace(f.(own := f.own.(level := Some(level)))))
        else Ok(NewMethodDescriptor(f, level))
  }

  /** A descriptor of this system can only be re-decorated when it holds the friend
      decorator's default public level, and it then keeps everything but its level. */
  lemma InPlaceUpdateOnlyOverFriendDefault(level: AccessLevel, f: FuncObj)
    requires f.guarded && f.own.level.Some?
    ensures ApplyToFunction(level, f).Ok? ==> f.own.byFriend && f.own.level == Some(Public)
    ensures ApplyToFunction(level, f).Ok? ==>
              var g := ApplyToFunction(level, f).value.obj;
              g.own.level == Some(level) && g.own.byFriend == f.own.byFriend
              && g.(own := f.own) == f
  {
  }

  /** `__call__` of the `bouncer` decorators. */
  function Call(level: AccessLevel, args: seq<Arg>, bare: bool): (r: Result<Dispatched, DecoratorError>)
    ensures |args| == 1 && args[0].ValueArg? ==>
              (r.Ok? <==> ApplyToFunction(level, args[0].obj).Ok?)
    ensures r.Ok? && r.value.InheritanceDecorator? ==> r.value.kind == KindNamedAfter(level)
  {
    Dispatch(level, args, bare, f => ApplyToFunction(level, f))
  }

  /** What an inheritance decorator is applied to. A class comes with its body
      (`__dict__` in order), what `dir()` shows of it, and its ancestors in
      method-resolution order. */
  datatype Target =
    | ClassTarget(cls: Cls, body: Implicit.ClassDict, visible: Implicit.ClassDict, ancestors: seq<Cls>)
    | CallableTarget(qualname: Option<string>)
    | OtherTarget

  /** A decorated class: its rewritten body and the recorded inheritance kinds. */
  datatype Decorated = Decorated(body: Implicit.ClassDict, store: InheritanceInfo.InfoStore)

  function BaseNames(bases: seq<Cls>): (names: seq<string>)
    ensures |names| == |bases|
    ensures forall i :: 0 <= i < |bases| ==> names[i] == bases[i].name
  {
    seq(|bases|, i requires 0 <= i < |bases| => bases[i].name)
  }

  /** The decorator `_create_inheritance_decorator` returns, applied to its target:
      a non-class raises; a class has its body rewritten and records the kind for
      every listed base name. The entries go into the dictionary attribute lookup
      finds, which is a base's when only a base owns one (see `InheritanceInfo`). */
  function ApplyInheritanceDecorator(bases: seq<Cls>, kind: InheritanceKind, target: Target,
                                     store: InheritanceInfo.InfoStore): (r: Result<Decorated, DecoratorError>)
    ensures target.OtherTarget? ==> r == Err(InheritanceOnNonClass)
    ensures target.CallableTarget? ==>
              r.Err? && r.error.InheritanceOnCallable?
              && (r.error.targetType == "method" <==> target.qualname.Some? && '.' in target.qualname.value)
    ensures target.ClassTarget? <==> r.Ok?
    ensures r.Ok? ==>
              var w := InheritanceInfo.Holder(store, target.cls, target.ancestors);
              && w in r.value.store
              && |r.value.body| >= |target.body|
              && (forall i :: 0 <= i < |bases| ==>
                    bases[i].name in r.value.store[w] && r.value.store[w][bases[i].name] == kind)
              && (forall c' :: c' != w && c' in store ==> c' in r.value.store && r.value.store[c'] == store[c'])
              && r.value.body[..|target.body|] == Implicit.ApplyImplicit(target.cls.name, target.body)
    ensures r.Ok? ==>
              var seen := InheritanceInfo.Visible(r.value.store, target.cls, target.ancestors);
              forall i :: 0 <= i < |bases| ==> bases[i].name in seen && seen[bases[i].name] == kind
    ensures r.Ok? ==>
              forall j :: 0 <= j < |target.visible|
                          && Implicit.WrapsInherited(target.cls.name, target.visible[j].0, target.visible[j].1, target.body) ==>
                          target.visible[j].0 in Implicit.Names(r.value.body)
  {
    match target
    case OtherTarget => Err(InheritanceOnNonClass)
    case CallableTarget(q) =>
      Err(InheritanceOnCallable(if q.Some? && '.' in q.value then "method" else "function"))
    case ClassTarget(c, body, visible, ancestors) =>
      var names := BaseNames(bases);
      assert forall i :: 0 <= i < |bases| ==> bases[i].name in names;
      InheritanceInfo.RecordAsWrittenVisibleFromDerived(store, c, ancestors, names, kind);
      Ok(Decorated(
        Implicit.ApplyImplicitWithInherited(c.name, body, visible),
        InheritanceInfo.RecordAsWritten(store, c, ancestors, names, kind)))
  }
}
