/** Recording of the inheritance kinds a decorated class declares for its bases:
    `_inheritance_info[base.__name__] = kind` for every listed base. */
module InheritanceInfo {
  import opened Wrappers
  import opened Vocabulary

  /** A class's `_inheritance_info` dictionary: base name -> inheritance kind. */
  type Info = map<string, InheritanceKind>

  /** The `_inheritance_info` dictionaries held in each class's own `__dict__`. */
  type InfoStore = map<Cls, Info>

  /** The first class of a method-resolution order that owns a dictionary: the class
      where attribute lookup finds `_inheritance_info`. */
  function FirstHolder(store: InfoStore, chain: seq<Cls>): (h: Option<Cls>)
    ensures h.Some? ==> h.value in store && h.value in chain
    ensures h.None? ==> forall i :: 0 <= i < |chain| ==> chain[i] !in store
    ensures |chain| > 0 && chain[0] in store ==> h == Some(chain[0])
  {
    if |chain| == 0 then None
    else if chain[0] in store then Some(chain[0])
    else FirstHolder(store, chain[1..])
  }

  /** Attribute lookup depends only on which classes own a dictionary. */
  lemma {:induction false} FirstHolderSameOwners(s1: InfoStore, s2: InfoStore, chain: seq<Cls>)
    requires forall i :: 0 <= i < |chain| ==> (chain[i] in s1 <==> chain[i] in s2)
    ensures FirstHolder(s1, chain) == FirstHolder(s2, chain)
  {
    if |chain| > 0 {
      FirstHolderSameOwners(s1, s2, chain[1..]);
    }
  }

  /** The dictionary `getattr(cls, '_inheritance_info')` reaches for a class with the
      given ancestors (its MRO after itself), or an empty one when there is none. */
  function Visible(store: InfoStore, derived: Cls, ancestors: seq<Cls>): Info {
    var h := FirstHolder(store, [derived] + ancestors);
    if h.Some? then store[h.value] else map[]
  }

  /** `info[name] = kind` for each base name in turn. */
  function WithBases(info: Info, names: seq<string>, kind: InheritanceKind): (r: Info)
    ensures forall n :: n in names ==> n in r && r[n] == kind
    ensures forall n :: n !in names ==> (n in r <==> n in info)
    ensures forall n :: n !in names && n in info ==> r[n] == info[n]
    decreases |names|
  {
    if |names| == 0 then info else WithBases(info[names[0] := kind], names[1..], kind)
  }

  /** The class whose dictionary the code as written updates: the first owner of one
      in method-resolution order, or the decorated class itself when there is none. */
  function Holder(store: InfoStore, derived: Cls, ancestors: seq<Cls>): (w: Cls)
    ensures derived in store ==> w == derived
    ensures w != derived ==> derived !in store && w in store && w in ancestors
    ensures w == derived <==> derived in store || FirstHolder(store, [derived] + ancestors).None?
  {
    var h := FirstHolder(store, [derived] + ancestors);
    if h.Some? then h.value else derived
  }

  /** The recording as written: when the class has no dictionary of its own but a base
      has one, `hasattr` finds the base's and the entries are written into it. Exactly
      one dictionary changes, the holder's: it maps every base name to the kind and
      keeps what the decorated class saw before. */
  function RecordAsWritten(store: InfoStore, derived: Cls, ancestors: seq<Cls>,
                           names: seq<string>, kind: InheritanceKind): (r: InfoStore)
    ensures Holder(store, derived, ancestors) in r
    ensures forall c :: c != Holder(store, derived, ancestors) ==> (c in r <==> c in store)
    ensures forall c :: c != Holder(store, derived, ancestors) && c in store ==> r[c] == store[c]
    ensures var info := r[Holder(store, derived, ancestors)];
            && (forall n :: n in names ==> n in info && info[n] == kind)
            && (forall n :: n !in names ==> (n in info <==> n in Visible(store, derived, ancestors)))
            && (forall n :: n !in names && n in info ==> info[n] == Visible(store, derived, ancestors)[n])
  {
    var h := FirstHolder(store, [derived] + ancestors);
    if h.None? then store[derived := WithBases(map[], names, kind)]
    else store[h.value := WithBases(store[h.value], names, kind)]
  }

  /** The recording corrected: the class gets a dictionary of its own, starting from
      what it saw before (so its own view is the same as written), and no other
      class's dictionary changes. */
  function Record(store: InfoStore, derived: Cls, ancestors: seq<Cls>,
                  names: seq<string>, kind: InheritanceKind): (r: InfoStore)
    ensures derived in r
    ensures forall c :: c != derived ==> (c in r <==> c in store)
    ensures forall c :: c != derived && c in store ==> r[c] == store[c]
    ensures forall n :: n in names ==> n in r[derived] && r[derived][n] == kind
    ensures forall n :: n !in names ==>
              (n in r[derived] <==> n in Visible(store, derived, ancestors))
  {
    store[derived := WithBases(Visible(store, derived, ancestors), names, kind)]
  }

  /** After recording, the decorated class sees every listed base with the kind, and
      every other entry it saw before, unchanged. */
  lemma RecordVisibleFromDerived(store: InfoStore, derived: Cls, ancestors: seq<Cls>,
                                 names: seq<string>, kind: InheritanceKind)
    ensures var after := Visible(Record(store, derived, ancestors, names, kind), derived, ancestors);
            var before := Visible(store, derived, ancestors);
            && (forall n :: n in names ==> n in after && after[n] == kind)
            && (forall n :: n !in names ==> (n in after <==> n in before))
            && (forall n :: n !in names && n in before ==> after[n] == before[n])
  {
  }

  /** The correction changes nothing the decorated class itself sees. */
  lemma {:induction false} RecordSameViewAsWritten(store: InfoStore, derived: Cls, ancestors: seq<Cls>,
                                                   names: seq<string>, kind: InheritanceKind)
    ensures Visible(Record(store, derived, ancestors, names, kind), derived, ancestors)
            == Visible(RecordAsWritten(store, derived, ancestors, names, kind), derived, ancestors)
  {
    var chain := [derived] + ancestors;
    var h := FirstHolder(store, chain);
    var w := RecordAsWritten(store, derived, ancestors, names, kind);
    if h.Some? && h.value != derived {
      assert derived !in store;
      forall i | 0 <= i < |chain| ensures (chain[i] in store <==> chain[i] in w) {
        if chain[i] == derived {
          assert derived !in w;
        }
      }
      FirstHolderSameOwners(store, w, chain);
    }
  }

  /** As written, the decorated class too sees every listed base with the kind, and
      every other entry it saw before. */
  lemma RecordAsWrittenVisibleFromDerived(store: InfoStore, derived: Cls, ancestors: seq<Cls>,
                                          names: seq<string>, kind: InheritanceKind)
    ensures var after := Visible(RecordAsWritten(store, derived, ancestors, names, kind), derived, ancestors);
            var before := Visible(store, derived, ancestors);
            && (forall n :: n in names ==> n in after && after[n] == kind)
            && (forall n :: n !in names ==> (n in after <==> n in before))
            && (forall n :: n !in names && n in before ==> after[n] == before[n])
  {
    RecordSameViewAsWritten(store, derived, ancestors, names, kind);
    RecordVisibleFromDerived(store, derived, ancestors, names, kind);
  }

  /** Concretely: with `B(A)` recorded first, decorating `C(B)` as written writes C's
      base entry into B's dictionary, while the correction leaves B's dictionary as it
      was. */
  lemma AsWrittenWritesIntoBase()
    ensures var a := Cls(0, "A");
            var b := Cls(1, "B");
            var c := Cls(2, "C");
            var store := map[b := map["A" := PrivateInheritance]];
            && RecordAsWritten(store, c, [b, a], ["B"], PublicInheritance)[b]
               == map["A" := PrivateInheritance, "B" := PublicInheritance]
            && Record(store, c, [b, a], ["B"], PublicInheritance)[b] == store[b]
  {
    var a := Cls(0, "A");
    var b := Cls(1, "B");
    var c := Cls(2, "C");
    var store := map[b := map["A" := PrivateInheritance]];
    assert FirstHolder(store, [c] + [b, a]) == Some(b) by {
      assert ([c] + [b, a])[1..] == [b, a];
    }
    var m := WithBases(map["A" := PrivateInheritance], ["B"], PublicInheritance);
    assert m.Keys == {"A", "B"};
    assert m == map["A" := PrivateInheritance, "B" := PublicInheritance];
  }
}
