/** Access levels from Python naming conventions, and the rules that decide which
    entries of a class body get wrapped in access-controlled descriptors. */
module Implicit {
  import opened Wrappers
  import opened Vocabulary
  import opened Strings

  /** A special name such as `__init__`: starts and ends with two underscores. */
  predicate IsDunder(name: string) {
    StartsWith(name, "__") && EndsWith(name, "__")
  }

  /** `detect_implicit_access_level`: dunder names are public, other `__` names are
      private, `_` names are protected, everything else is public. */
  function DetectImplicitLevel(name: string): (l: AccessLevel)
    ensures l == Private <==> StartsWith(name, "__") && !EndsWith(name, "__")
    ensures l == Protected <==> StartsWith(name, "_") && !StartsWith(name, "__")
    ensures IsDunder(name) ==> l == Public
  {
    if IsDunder(name) then Public
    else if StartsWith(name, "__") then Private
    else if StartsWith(name, "_") then Protected
    else Public
  }

  /** A name without a leading underscore is public. */
  lemma NoUnderscoreIsPublic(name: string)
    requires |name| == 0 || name[0] != '_'
    ensures DetectImplicitLevel(name) == Public
  {
    if |name| > 0 {
      assert name[..1][0] == name[0];
    }
  }

  /** A name with exactly one leading underscore is protected. */
  lemma SingleUnderscoreIsProtected(name: string)
    requires |name| >= 1 && name[0] == '_'
    requires |name| == 1 || name[1] != '_'
    ensures DetectImplicitLevel(name) == Protected
  {
    assert name[..1] == "_";
    if |name| >= 2 {
      assert name[..2][1] == name[1];
    }
  }

  /** A name with two leading underscores and a last character other than an
      underscore is private. */
  lemma DoubleUnderscoreIsPrivate(name: string)
    requires |name| >= 3 && name[0] == '_' && name[1] == '_' && name[|name| - 1] != '_'
    ensures DetectImplicitLevel(name) == Private
  {
    assert name[..2] == "__";
    assert name[|name| - 2..][1] == name[|name| - 1];
  }

  /** The prefix the source takes name mangling to put before a `__x` name inside a
      class: `_` + the class's `__name__` + `__`. Python itself first strips leading
      underscores from the class name (see `PythonMangledPrefix`), so the two differ
      for a class such as `_Ham`. */
  function MangledPrefix(className: string): string {
    "_" + className + "__"
  }

  /** Undo name mangling with the source's prefix: `_<Cls>__x` becomes `__x`; every
      other name is unchanged. */
  function Demangle(name: string, className: string): (original: string)
    ensures !StartsWith(name, MangledPrefix(className)) ==> original == name
  {
    var prefix := MangledPrefix(className);
    if StartsWith(name, prefix) then "__" + name[|prefix|..] else name
  }

  /** Demangling with the source's prefix removes exactly that prefix. */
  lemma DemangleMangled(className: string, x: string)
    ensures Demangle(MangledPrefix(className) + x, className) == "__" + x
  {
    var p := MangledPrefix(className);
    assert (p + x)[..|p|] == p;
    assert (p + x)[|p|..] == x;
  }

  /** A mangled private name (whose own part does not end in an underscore) is
      classified private once demangled. */
  lemma MangledNameIsPrivate(className: string, x: string)
    requires |x| > 0 && x[|x| - 1] != '_'
    ensures DetectImplicitLevel(Demangle(MangledPrefix(className) + x, className)) == Private
  {
    DemangleMangled(className, x);
    var n := "__" + x;
    assert n[..2] == "__";
    assert n[|n| - 2..][1] == x[|x| - 1];
  }

  /** The class name as Python's mangling uses it: without its leading underscores. */
  function StripLeadingUnderscores(s: string): (t: string)
    ensures |t| <= |s| && t == s[|s| - |t|..]
    ensures |t| == 0 || t[0] != '_'
    ensures forall i :: 0 <= i < |s| - |t| ==> s[i] == '_'
  {
    if |s| > 0 && s[0] == '_' then StripLeadingUnderscores(s[1..]) else s
  }

  /** The prefix Python's compiler puts before a `__x` name inside a class. */
  function PythonMangledPrefix(className: string): string {
    "_" + StripLeadingUnderscores(className) + "__"
  }

  /** Python's private name mangling: a `__x` name that is not special, inside a class
      whose name is not all underscores, is stored as `_<stripped class name>__x`. */
  function Mangle(name: string, className: string): (stored: string)
    ensures !StartsWith(name, "__") || EndsWith(name, "__") ==> stored == name
  {
    var stripped := StripLeadingUnderscores(className);
    if StartsWith(name, "__") && !EndsWith(name, "__") && stripped != "" then "_" + stripped + name
    else name
  }

  /** Demangling corrected to Python's own prefix. */
  function DemangleCorrected(name: string, className: string): (original: string)
    ensures !StartsWith(name, PythonMangledPrefix(className)) ==> original == name
  {
    var prefix := PythonMangledPrefix(className);
    if StripLeadingUnderscores(className) != "" && StartsWith(name, prefix) then "__" + name[|prefix|..]
    else name
  }

  /** Python stores a private name under its own prefix. */
  lemma MangleUsesPythonPrefix(className: string, name: string)
    requires StartsWith(name, "__") && !EndsWith(name, "__")
    requires StripLeadingUnderscores(className) != ""
    ensures |name| >= 2 && Mangle(name, className) == PythonMangledPrefix(className) + name[2..]
  {
    var stripped := StripLeadingUnderscores(className);
    assert Mangle(name, className) == "_" + stripped + name;
    assert name == "__" + name[2..];
    assert "_" + stripped + name == ("_" + stripped + "__") + name[2..];
  }

  /** The corrected demangling removes Python's prefix and restores the two underscores. */
  lemma DemangleCorrectedPrefixed(className: string, rest: string)
    requires StripLeadingUnderscores(className) != ""
    ensures DemangleCorrected(PythonMangledPrefix(className) + rest, className) == "__" + rest
  {
    var prefix := PythonMangledPrefix(className);
    assert (prefix + rest)[..|prefix|] == prefix;
    assert (prefix + rest)[|prefix|..] == rest;
  }

  /** The corrected demangling inverts Python's mangling of every private name, which
      is then classified private. */
  lemma DemangleCorrectedInvertsMangle(className: string, name: string)
    requires StartsWith(name, "__") && !EndsWith(name, "__")
    requires StripLeadingUnderscores(className) != ""
    ensures DemangleCorrected(Mangle(name, className), className) == name
    ensures DetectImplicitLevel(DemangleCorrected(Mangle(name, className), className)) == Private
  {
    MangleUsesPythonPrefix(className, name);
    DemangleCorrectedPrefixed(className, name[2..]);
    assert "__" + name[2..] == name;
  }

  /** As written, a private method of a class whose name starts with an underscore
      (`__x` in class `_Ham`, stored by Python as `_Ham__x`) is not demangled and is
      classified protected; the corrected demangling classifies it private. */
  lemma UnderscoreClassPrivateNameMisread(c: string, x: string)
    requires |c| > 0 && c[0] != '_'
    requires |x| > 0 && x[|x| - 1] != '_'
    ensures var stored := Mangle("__" + x, "_" + c);
            && stored == "_" + c + "__" + x
            && Demangle(stored, "_" + c) == stored
            && DetectImplicitLevel(Demangle(stored, "_" + c)) == Protected
            && DetectImplicitLevel(DemangleCorrected(stored, "_" + c)) == Private
  {
    var className := "_" + c;
    var name := "__" + x;
    StripOneUnderscore(c);
    PrivateShaped(x);
    MangleUsesPythonPrefix(className, name);
    assert name[2..] == x;
    assert PythonMangledPrefix(className) == "_" + c + "__";
    StoredMissesSourcePrefix(c, x);
    DemangleCorrectedInvertsMangle(className, name);
  }

  /** One leading underscore is all that is stripped from `_c`. */
  lemma StripOneUnderscore(c: string)
    requires |c| > 0 && c[0] != '_'
    ensures StripLeadingUnderscores("_" + c) == c
  {
    assert ("_" + c)[1..] == c;
  }

  /** `__x` is private-shaped when `x` does not end with an underscore. */
  lemma PrivateShaped(x: string)
    requires |x| > 0 && x[|x| - 1] != '_'
    ensures StartsWith("__" + x, "__") && !EndsWith("__" + x, "__")
  {
    var name := "__" + x;
    assert name[..2] == "__";
    assert name[|name| - 2..][1] == x[|x| - 1];
  }

  /** Python's stored name `_c__x` does not start with the source's prefix `__c__`
      for class `_c`, and has exactly one leading underscore. */
  lemma StoredMissesSourcePrefix(c: string, x: string)
    requires |c| > 0 && c[0] != '_'
    ensures var stored := "_" + c + "__" + x;
            && !StartsWith(stored, MangledPrefix("_" + c))
            && StartsWith(stored, "_") && !StartsWith(stored, "__")
  {
    var stored := "_" + c + "__" + x;
    assert stored[1] == c[0];
    assert MangledPrefix("_" + c)[1] == '_';
    assert stored[..1] == "_";
  }

  /** The kind of the descriptor that guards an entry. */
  datatype DescriptorKind = MethodDescriptor | StaticMethodDescriptor | ClassMethodDescriptor | PropertyDescriptor

  /** What a class-body entry holds. */
  datatype AttrKind =
    | PlainFunction
    | StaticMethodObject
    | ClassMethodObject
    | PropertyObject
    | OtherValue
    | Guarded(descriptor: DescriptorKind)

  /** One class attribute: what it holds, whether `callable()` is true of it, the
      `_access_level` it carries if any, whether it carries `_owner`, and whether
      its `__objclass__` (if it has one) is the class itself. */
  datatype Attr = Attr(kind: AttrKind, isCallable: bool, accessLevel: Option<AccessLevel>,
                       hasOwner: bool, objClassIsOwner: bool)

  /** What CPython's `callable()` says of the stored objects: class-method and property
      objects have no `__call__`. (Static-method objects are callable from Python 3.10
      on, so their flag is left free.) */
  predicate CallableAsInPython(a: Attr) {
    (a.kind == ClassMethodObject || a.kind == PropertyObject) ==> !a.isCallable
  }

  /** A class `__dict__`, in definition order. */
  type ClassDict = seq<(string, Attr)>

  function Names(d: ClassDict): set<string> {
    set i | 0 <= i < |d| :: d[i].0
  }

  /** No name occurs twice. */
  predicate DistinctNames(d: ClassDict) {
    forall i, j :: 0 <= i < j < |d| ==> d[i].0 != d[j].0
  }

  /** A descriptor of the given kind carrying the given level, as installed by `setattr`
      after `__set_name__` has recorded its owner. */
  function Descriptor(k: DescriptorKind, level: AccessLevel): Attr {
    Attr(Guarded(k), false, Some(level), true, true)
  }

  /** The descriptor kind chosen for a collected entry: static methods, class methods
      and properties get their own descriptors, any other callable a method descriptor. */
  function DescriptorFor(k: AttrKind): (d: DescriptorKind)
    ensures k == StaticMethodObject <==> d == StaticMethodDescriptor
    ensures k == ClassMethodObject <==> d == ClassMethodDescriptor
    ensures k == PropertyObject <==> d == PropertyDescriptor
  {
    match k
    case StaticMethodObject => StaticMethodDescriptor
    case ClassMethodObject => ClassMethodDescriptor
    case PropertyObject => PropertyDescriptor
    case _ => MethodDescriptor
  }

  /** The collection rules of `apply_implicit_access_control`: defined on this class,
      not a special name, not already carrying an access level, and callable. */
  predicate Collected(name: string, a: Attr) {
    && a.objClassIsOwner
    && !IsDunder(name)
    && a.accessLevel.None?
    && a.isCallable
  }

  /** The level given to a collected entry: the classification of its demangled name. */
  function ImplicitLevelOf(className: string, name: string): AccessLevel {
    DetectImplicitLevel(Demangle(name, className))
  }

  /** One entry after the rewrite. */
  function Rewrite(className: string, name: string, a: Attr): Attr {
    if Collected(name, a) then Descriptor(DescriptorFor(a.kind), ImplicitLevelOf(className, name)) else a
  }

  /** `apply_implicit_access_control`: every collected entry is replaced, under its
      original name and at its original position, by a descriptor of the kind matching
      the entry and carrying the implicit level; every other entry is untouched. */
  function ApplyImplicit(className: string, d: ClassDict): (r: ClassDict)
    ensures |r| == |d|
    ensures forall i :: 0 <= i < |d| ==> r[i].0 == d[i].0
    ensures forall i :: 0 <= i < |d| && !Collected(d[i].0, d[i].1) ==> r[i].1 == d[i].1
    ensures forall i :: 0 <= i < |d| && Collected(d[i].0, d[i].1) ==>
              r[i].1.kind == Guarded(DescriptorFor(d[i].1.kind))
              && r[i].1.accessLevel == Some(DetectImplicitLevel(Demangle(d[i].0, className)))
  {
    if |d| == 0 then []
    else [(d[0].0, Rewrite(className, d[0].0, d[0].1))] + ApplyImplicit(className, d[1..])
  }

  /** Entries that are special names or already carry a level come out unchanged, and
      so do entries that are not callable. */
  lemma ApplyImplicitSkips(className: string, d: ClassDict, i: int)
    requires 0 <= i < |d|
    requires IsDunder(d[i].0) || d[i].1.accessLevel.Some? || !d[i].1.isCallable
    ensures ApplyImplicit(className, d)[i] == d[i]
  {
  }

  /** After the rewrite no entry is collected any more, so rewriting again changes
      nothing. */
  lemma ApplyImplicitIdempotent(className: string, d: ClassDict)
    ensures ApplyImplicit(className, ApplyImplicit(className, d)) == ApplyImplicit(className, d)
  {
    var r := ApplyImplicit(className, d);
    var r2 := ApplyImplicit(className, r);
    forall i | 0 <= i < |r| ensures r2[i] == r[i] {
      assert !Collected(r[i].0, r[i].1);
    }
  }

  /** The descriptor chosen for a collected entry, by what the entry holds. */
  lemma DispatchByKind(className: string, d: ClassDict, i: int)
    requires 0 <= i < |d| && Collected(d[i].0, d[i].1)
    ensures var k := ApplyImplicit(className, d)[i].1.kind;
            && (d[i].1.kind == StaticMethodObject ==> k == Guarded(StaticMethodDescriptor))
            && (d[i].1.kind == ClassMethodObject ==> k == Guarded(ClassMethodDescriptor))
            && (d[i].1.kind == PropertyObject ==> k == Guarded(PropertyDescriptor))
            && (d[i].1.kind !in {StaticMethodObject, ClassMethodObject, PropertyObject} ==>
                  k == Guarded(MethodDescriptor))
  {
  }

  /** Since `callable()` rejects class-method and property objects, the rewrite never
      collects them: they stay unguarded, and the only descriptors it installs are
      method and static-method descriptors. */
  lemma ClassMethodsAndPropertiesStayUnguarded(className: string, d: ClassDict, i: int)
    requires 0 <= i < |d| && CallableAsInPython(d[i].1)
    ensures d[i].1.kind in {ClassMethodObject, PropertyObject} ==> ApplyImplicit(className, d)[i] == d[i]
    ensures Collected(d[i].0, d[i].1) ==>
              ApplyImplicit(className, d)[i].1.kind in {Guarded(MethodDescriptor), Guarded(StaticMethodDescriptor)}
  {
  }

  /** A mangled private method defined in the class body is wrapped as private. */
  lemma MangledEntryWrappedPrivate(className: string, d: ClassDict, i: int, x: string)
    requires 0 <= i < |d| && Collected(d[i].0, d[i].1)
    requires d[i].0 == MangledPrefix(className) + x
    requires |x| > 0 && x[|x| - 1] != '_'
    ensures ApplyImplicit(className, d)[i].1.accessLevel == Some(Private)
  {
    MangledNameIsPrivate(className, x);
  }

  // ---------------------------------------------------------------------------
  // Inherited methods (inheritance decorators of the `bouncer` package)

  /** The level given to an inherited, undecorated method: protected for a leading
      underscore, public otherwise; never private. */
  function InheritedLevel(name: string): (l: AccessLevel)
    ensures l != Private
    ensures l == Protected <==> StartsWith(name, "_")
  {
    if StartsWith(name, "_") then Protected else Public
  }

  /** The two naming rules agree except on `__x` names, which the implicit rule makes
      private and the inherited-method rule protected. */
  lemma InheritedVersusImplicit(name: string)
    ensures !StartsWith(name, "__") ==> InheritedLevel(name) == DetectImplicitLevel(name)
    ensures StartsWith(name, "__") && !EndsWith(name, "__") ==>
              InheritedLevel(name) == Protected && DetectImplicitLevel(name) == Private
  {
    if StartsWith(name, "__") {
      assert name[..1] == name[..2][..1];
    }
  }

  /** An attribute reached through `dir(cls)` is wrapped when it is not a special
      name, not a mangled name of this class, callable, carries neither an access level
      nor an owner, and is not defined in the class body itself. */
  predicate WrapsInherited(className: string, name: string, a: Attr, own: ClassDict) {
    && !IsDunder(name)
    && !StartsWith(name, MangledPrefix(className))
    && a.isCallable
    && a.accessLevel.None?
    && !a.hasOwner
    && name !in Names(own)
  }

  /** The inherited-method pass: walking `dir(cls)` in order, each wrapped attribute is
      added to the class body as a method descriptor with its inherited level. */
  function WrapInherited(className: string, own: ClassDict, visible: ClassDict): (r: ClassDict)
    ensures WrappedShape(className, own, visible, r)
    ensures WrappedSound(className, own, visible, r)
    ensures WrappedComplete(className, own, visible, r)
    decreases |visible|
  {
    if |visible| == 0 then own
    else
      var own' := WrapOne(className, own, visible[0].0, visible[0].1);
      var r := WrapInherited(className, own', visible[1..]);
      WrapStepShape(className, own, visible, r);
      WrapStepSound(className, own, visible, r);
      WrapStepComplete(className, own, visible, r);
      r
  }

  /** One step of the pass: the body with `name` added when it is wrapped. */
  function WrapOne(className: string, own: ClassDict, name: string, a: Attr): ClassDict {
    if WrapsInherited(className, name, a, own)
    then own + [(name, Descriptor(MethodDescriptor, InheritedLevel(name)))]
    else own
  }

  /** The class's own entries come first; each added entry is a method descriptor
      with its inherited level, for a visible name new to the class. */
  predicate WrappedShape(className: string, own: ClassDict, visible: ClassDict, r: ClassDict) {
    && |own| <= |r| && r[..|own|] == own
    && forall i :: |own| <= i < |r| ==>
         && r[i].1 == Descriptor(MethodDescriptor, InheritedLevel(r[i].0))
         && !IsDunder(r[i].0)
         && !StartsWith(r[i].0, MangledPrefix(className))
         && r[i].0 !in Names(own)
         && r[i].0 in Names(visible)
  }

  /** `name` is the name of a visible attribute the pass wraps. */
  predicate FromWrappable(className: string, own: ClassDict, visible: ClassDict, name: string) {
    exists j :: 0 <= j < |visible| && visible[j].0 == name
                && WrapsInherited(className, visible[j].0, visible[j].1, own)
  }

  /** Every added entry comes from a visible attribute the pass wraps. */
  predicate WrappedSound(className: string, own: ClassDict, visible: ClassDict, r: ClassDict) {
    forall i :: |own| <= i < |r| ==> FromWrappable(className, own, visible, r[i].0)
  }

  /** Every visible attribute the pass wraps is in the result. */
  predicate WrappedComplete(className: string, own: ClassDict, visible: ClassDict, r: ClassDict) {
    forall j :: 0 <= j < |visible| && WrapsInherited(className, visible[j].0, visible[j].1, own) ==>
      visible[j].0 in Names(r)
  }

  /** One step of the pass keeps the shape of the result. */
  lemma WrapStepShape(className: string, own: ClassDict, visible: ClassDict, r: ClassDict)
    requires |visible| > 0
    requires WrappedShape(className, WrapOne(className, own, visible[0].0, visible[0].1), visible[1..], r)
    ensures WrappedShape(className, own, visible, r)
  {
    var own' := WrapOne(className, own, visible[0].0, visible[0].1);
    assert r[..|own|] == own by {
      assert r[..|own'|] == own';
      assert own'[..|own|] == own;
    }
    NamesOfTail(visible);
    NamesOfPrefix(own, own');
    forall i | |own| <= i < |r|
      ensures && r[i].1 == Descriptor(MethodDescriptor, InheritedLevel(r[i].0))
              && !IsDunder(r[i].0)
              && !StartsWith(r[i].0, MangledPrefix(className))
              && r[i].0 !in Names(own)
              && r[i].0 in Names(visible)
    {
      if i < |own'| {
        assert r[..|own'|][i] == own'[i];
      }
    }
  }

  /** One step of the pass adds only names of wrappable attributes. */
  lemma WrapStepSound(className: string, own: ClassDict, visible: ClassDict, r: ClassDict)
    requires |visible| > 0
    requires var own' := WrapOne(className, own, visible[0].0, visible[0].1);
             |own'| <= |r| && r[..|own'|] == own' && WrappedSound(className, own', visible[1..], r)
    ensures WrappedSound(className, own, visible, r)
  {
    var own' := WrapOne(className, own, visible[0].0, visible[0].1);
    NamesOfPrefix(own, own');
    forall i | |own| <= i < |r|
      ensures FromWrappable(className, own, visible, r[i].0)
    {
      if i < |own'| {
        assert r[..|own'|][i] == own'[i];
        assert visible[0].0 == r[i].0 && WrapsInherited(className, visible[0].0, visible[0].1, own);
      } else {
        assert FromWrappable(className, own', visible[1..], r[i].0);
        var j :| 0 <= j < |visible[1..]| && visible[1..][j].0 == r[i].0
                 && WrapsInherited(className, visible[1..][j].0, visible[1..][j].1, own');
        assert visible[j + 1] == visible[1..][j];
        assert visible[j + 1].0 == r[i].0 && WrapsInherited(className, visible[j + 1].0, visible[j + 1].1, own);
      }
    }
  }

  /** One step of the pass misses no wrappable attribute. */
  lemma WrapStepComplete(className: string, own: ClassDict, visible: ClassDict, r: ClassDict)
    requires |visible| > 0
    requires var own' := WrapOne(className, own, visible[0].0, visible[0].1);
             |own'| <= |r| && r[..|own'|] == own' && WrappedComplete(className, own', visible[1..], r)
    ensures WrappedComplete(className, own, visible, r)
  {
    var own' := WrapOne(className, own, visible[0].0, visible[0].1);
    NamesOfPrefix(own', r);
    forall j | 0 <= j < |visible| && WrapsInherited(className, visible[j].0, visible[j].1, own)
      ensures visible[j].0 in Names(r)
    {
      if j == 0 {
        assert own'[|own|].0 == visible[0].0;
      } else if visible[j].0 !in Names(own') {
        assert visible[j] == visible[1..][j - 1];
      }
    }
  }

  /** Dropping the first entry of a class body loses at most its name. */
  lemma NamesOfTail(d: ClassDict)
    requires |d| > 0
    ensures Names(d[1..]) <= Names(d)
  {
    forall s | s in Names(d[1..]) ensures s in Names(d) {
      var j :| 0 <= j < |d[1..]| && d[1..][j].0 == s;
      assert d[j + 1].0 == s;
    }
  }

  /** A class body has every name of a prefix of it. */
  lemma NamesOfPrefix(d: ClassDict, e: ClassDict)
    requires |d| <= |e| && e[..|d|] == d
    ensures Names(d) <= Names(e)
  {
    forall s | s in Names(d) ensures s in Names(e) {
      var j :| 0 <= j < |d| && d[j].0 == s;
      assert e[..|d|][j] == d[j];
    }
  }

  /** Class bodies have distinct names, and the inherited-method pass keeps them so. */
  lemma {:induction false} WrapInheritedDistinct(className: string, own: ClassDict, visible: ClassDict)
    requires DistinctNames(own)
    ensures DistinctNames(WrapInherited(className, own, visible))
    decreases |visible|
  {
    if |visible| > 0 {
      var (n, a) := visible[0];
      if WrapsInherited(className, n, a, own) {
        var own' := own + [(n, Descriptor(MethodDescriptor, InheritedLevel(n)))];
        forall i, j | 0 <= i < j < |own'| ensures own'[i].0 != own'[j].0 {
          if j == |own| {
            assert own[i].0 in Names(own);
          }
        }
        WrapInheritedDistinct(className, own', visible[1..]);
      } else {
        WrapInheritedDistinct(className, own, visible[1..]);
      }
    }
  }

  /** `_apply_implicit_access_control` of the `bouncer` inheritance decorators: the
      naming-convention rewrite of the class body, then the inherited-method pass. */
  function ApplyImplicitWithInherited(className: string, own: ClassDict, visible: ClassDict): (r: ClassDict)
    ensures |r| >= |own|
    ensures r[..|own|] == ApplyImplicit(className, own)
    ensures forall i :: |own| <= i < |r| ==> r[i].1 == Descriptor(MethodDescriptor, InheritedLevel(r[i].0))
    ensures WrappedSound(className, own, visible, r)
    ensures WrappedComplete(className, own, visible, r)
  {
    ApplyImplicitKeepsNames(className, own);
    WrapInherited(className, ApplyImplicit(className, own), visible)
  }

  /** The rewrite keeps the set of names. */
  lemma ApplyImplicitKeepsNames(className: string, d: ClassDict)
    ensures Names(ApplyImplicit(className, d)) == Names(d)
  {
    var r := ApplyImplicit(className, d);
    forall s | s in Names(d) ensures s in Names(r) {
      var j :| 0 <= j < |d| && d[j].0 == s;
      assert r[j].0 == s;
    }
  }
}
