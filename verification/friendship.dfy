/** The class-friend registry: which classes each target class has declared as
    friends. Both sides are keyed by the classes' display names. */
module Friendship {
  import opened Wrappers
  import opened Vocabulary

  /** Target class name -> names of its friend classes. */
  type Registry = map<string, set<string>>

  const Empty: Registry := map[]

  /** Every recorded target has at least one friend: entries are created only by a
      registration, which adds a friend at once. */
  ghost predicate Valid(r: Registry) {
    forall t :: t in r ==> r[t] != {}
  }

  /** `is_friend`: false when either class is missing, otherwise a name lookup. */
  function IsFriend(r: Registry, target: Option<Cls>, caller: Option<Cls>): (b: bool)
    ensures target.None? || caller.None? ==> !b
  {
    && target.Some? && caller.Some?
    && target.value.name in r
    && caller.value.name in r[target.value.name]
  }

  /** `register_friend`: adds the friend's name to the target's set, creating the set
      on first use; no other target's entry is touched. */
  function RegisterFriend(r: Registry, target: Cls, friend: Cls): (r': Registry)
    ensures IsFriend(r', Some(target), Some(friend))
    ensures target.name in r ==> r[target.name] <= r'[target.name]
    ensures r'[target.name] <= (if target.name in r then r[target.name] else {}) + {friend.name}
    ensures forall t :: t != target.name ==> (t in r' <==> t in r)
    ensures forall t :: t != target.name && t in r ==> r'[t] == r[t]
  {
    var current := if target.name in r then r[target.name] else {};
    r[target.name := current + {friend.name}]
  }

  /** Every recorded (target, friend) pair. */
  function FriendPairs(r: Registry): set<(string, string)> {
    set t, f | t in r && f in r[t] :: (t, f)
  }

  /** `get_friends_count`: the sum of the sizes of all friend sets. */
  ghost function FriendsCount(r: Registry): nat
    decreases |r|
  {
    if |r| == 0 then 0
    else
      var t := SomeTarget(r);
      assert (r - {t}).Keys == r.Keys - {t};
      |r[t]| + FriendsCount(r - {t})
  }

  /** Some recorded target; the order the sum visits targets in does not matter. */
  ghost function SomeTarget(r: Registry): (t: string)
    requires |r| > 0
    ensures t in r
  {
    var t :| t in r; t
  }

  /** The pairs with a given target. */
  function Row(t: string, friends: set<string>): set<(string, string)> {
    set f | f in friends :: (t, f)
  }

  lemma {:induction false} RowSize(t: string, friends: set<string>)
    ensures |Row(t, friends)| == |friends|
    decreases |friends|
  {
    if friends != {} {
      var f :| f in friends;
      RowSize(t, friends - {f});
      assert Row(t, friends) == Row(t, friends - {f}) + {(t, f)};
    }
  }

  /** Since targets are distinct keys, the sum of the set sizes is the number of
      recorded (target, friend) pairs. */
  lemma {:induction false} FriendsCountIsPairCount(r: Registry)
    ensures FriendsCount(r) == |FriendPairs(r)|
    decreases |r|
  {
    if |r| > 0 {
      var t := SomeTarget(r);
      var rest := r - {t};
      assert rest.Keys == r.Keys - {t};
      assert FriendsCount(r) == |r[t]| + FriendsCount(rest);
      FriendsCountIsPairCount(rest);
      PairsSplit(r, t);
      RowSize(t, r[t]);
    }
  }

  /** The pairs of a registry are those of its other targets plus one target's row. */
  lemma PairsSplit(r: Registry, t: string)
    requires t in r
    ensures FriendPairs(r) == FriendPairs(r - {t}) + Row(t, r[t])
    ensures FriendPairs(r - {t}) !! Row(t, r[t])
  {
    var rest := r - {t};
    forall q | q in FriendPairs(r) ensures q in FriendPairs(rest) + Row(t, r[t]) {
      var (t', f) := q;
      assert t' in r && f in r[t'];
      if t' != t {
        assert t' in rest && f in rest[t'];
      }
    }
    forall q | q in FriendPairs(rest) + Row(t, r[t]) ensures q in FriendPairs(r) {
      var (t', f) := q;
      if q in FriendPairs(rest) {
        assert t' in rest && f in rest[t'];
      }
    }
    forall q | q in FriendPairs(rest) ensures q !in Row(t, r[t]) {
      var (t', f) := q;
      assert t' in rest;
    }
  }

  /** `get_relationships_count`: the number of targets that have friends. */
  function RelationshipsCount(r: Registry): nat {
    |r|
  }

  /** `clear`: forget every relationship. */
  function Clear(r: Registry): (r': Registry)
    ensures RelationshipsCount(r') == 0 && FriendsCount(r') == 0
    ensures forall t, c :: !IsFriend(r', t, c)
  {
    map[]
  }

  /** The empty registry is valid, and registration keeps it valid. */
  lemma RegisterPreservesValid(r: Registry, target: Cls, friend: Cls)
    requires Valid(r)
    ensures Valid(RegisterFriend(r, target, friend))
  {
  }

  /** Registering a pair that is already recorded changes nothing, so registering the
      same pair twice is the same as registering it once. */
  lemma RegisterIdempotent(r: Registry, target: Cls, friend: Cls)
    ensures IsFriend(r, Some(target), Some(friend)) ==> RegisterFriend(r, target, friend) == r
    ensures RegisterFriend(RegisterFriend(r, target, friend), target, friend)
            == RegisterFriend(r, target, friend)
  {
    var r1 := RegisterFriend(r, target, friend);
    assert r1[target.name] + {friend.name} == r1[target.name];
    if IsFriend(r, Some(target), Some(friend)) {
      assert r[target.name] + {friend.name} == r[target.name];
    }
  }

  /** A registration changes answers only for its own target name. */
  lemma RegisterFrame(r: Registry, target: Cls, friend: Cls, other: Cls, caller: Option<Cls>)
    requires other.name != target.name
    ensures IsFriend(RegisterFriend(r, target, friend), Some(other), caller)
            == IsFriend(r, Some(other), caller)
  {
  }

  /** Registration adds exactly one (target, friend) pair and no other. */
  lemma RegisterPairs(r: Registry, target: Cls, friend: Cls)
    ensures FriendPairs(RegisterFriend(r, target, friend))
            == FriendPairs(r) + {(target.name, friend.name)}
  {
    var r' := RegisterFriend(r, target, friend);
    var p := (target.name, friend.name);
    forall q | q in FriendPairs(r')
      ensures q in FriendPairs(r) + {p}
    {
      var (t, f) := q;
      assert t in r' && f in r'[t];
      if q != p {
        assert t in r && f in r[t];
      }
    }
    forall q | q in FriendPairs(r) + {p}
      ensures q in FriendPairs(r')
    {
      var (t, f) := q;
      if q != p {
        assert t in r && f in r[t];
        assert t in r' && f in r'[t];
      }
    }
  }

  /** The friends count grows by one exactly when the pair is new. */
  lemma RegisterFriendsCount(r: Registry, target: Cls, friend: Cls)
    ensures FriendsCount(RegisterFriend(r, target, friend))
            == FriendsCount(r) + (if IsFriend(r, Some(target), Some(friend)) then 0 else 1)
  {
    var p := (target.name, friend.name);
    RegisterPairs(r, target, friend);
    FriendsCountIsPairCount(r);
    FriendsCountIsPairCount(RegisterFriend(r, target, friend));
    if IsFriend(r, Some(target), Some(friend)) {
      assert p in FriendPairs(r);
      assert FriendPairs(r) + {p} == FriendPairs(r);
    } else {
      assert p !in FriendPairs(r);
    }
  }

  /** The relationships count grows by one exactly when the target is new. */
  lemma RegisterRelationshipsCount(r: Registry, target: Cls, friend: Cls)
    ensures RelationshipsCount(RegisterFriend(r, target, friend))
            == RelationshipsCount(r) + (if target.name in r then 0 else 1)
  {
    var current := if target.name in r then r[target.name] else {};
    assert RegisterFriend(r, target, friend) == r[target.name := current + {friend.name}];
  }

  /** With every target holding a non-empty set, there are at least as many friend
      pairs as targets. */
  lemma {:induction false} FriendsCountAtLeastTargets(r: Registry)
    requires Valid(r)
    ensures FriendsCount(r) >= RelationshipsCount(r)
    decreases |r|
  {
    FriendsCountIsPairCount(r);
    if |r| > 0 {
      var k :| k in r;
      var rest := r - {k};
      assert rest.Keys == r.Keys - {k};
      assert |rest| == |r| - 1;
      FriendsCountAtLeastTargets(rest);
      FriendsCountIsPairCount(rest);
      var f :| f in r[k];
      assert (k, f) in FriendPairs(r);
      assert (k, f) !in FriendPairs(rest);
      assert FriendPairs(rest) + {(k, f)} <= FriendPairs(r);
      SubsetSize(FriendPairs(rest) + {(k, f)}, FriendPairs(r));
    }
  }

  lemma SubsetSize<T>(a: set<T>, b: set<T>)
    requires a <= b
    ensures |a| <= |b|
  {
    assert b == a + (b - a);
  }

  /** Keys are display names: two classes sharing a `__name__` get the same answers,
      as target and as caller, whatever their identities. */
  lemma SameNameSameAnswer(r: Registry, a: Cls, b: Cls, c: Cls)
    requires a.name == b.name
    ensures IsFriend(r, Some(a), Some(c)) == IsFriend(r, Some(b), Some(c))
    ensures IsFriend(r, Some(c), Some(a)) == IsFriend(r, Some(c), Some(b))
  {
  }

  /** Concretely: befriending one class named "Helper" also befriends an unrelated
      class of the same name. */
  lemma NameSharingGrantsFriendship()
    ensures var target := Cls(0, "Target");
            var helper := Cls(1, "Helper");
            var impostor := Cls(2, "Helper");
            helper != impostor
            && IsFriend(RegisterFriend(Empty, target, helper), Some(target), Some(impostor))
  {
  }
}
