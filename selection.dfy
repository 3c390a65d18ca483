/** The category selection of the collection-point screen: the list of
    selected category ids that a tap on a category chip toggles. The list
    is never updated in place; every tap computes a new list from the old
    one, so this module is made of functions on `seq<int>` and lemmas. */
module Selection {

  /** No id occurs twice. */
  predicate NoDuplicates(s: seq<int>) {
    forall i, j :: 0 <= i < j < |s| ==> s[i] != s[j]
  }

  /** `a` is obtained from `b` by deleting elements, keeping the order of
      the elements that remain. */
  predicate IsSubsequence(a: seq<int>, b: seq<int>)
    decreases |b|
  {
    a == [] ||
    (b != [] && ((a[0] == b[0] && IsSubsequence(a[1..], b[1..])) || IsSubsequence(a, b[1..])))
  }

  /** `findIndex(item => item === id)`: the index of the first occurrence of
      `id`, or -1 when there is none. */
  function FindIndex(s: seq<int>, id: int): (r: int)
    ensures -1 <= r < |s|
    ensures r == -1 <==> id !in s
    ensures r >= 0 ==> s[r] == id && forall j :: 0 <= j < r ==> s[j] != id
  {
    if s == [] then -1
    else if s[0] == id then 0
    else
      var k := FindIndex(s[1..], id);
      if k < 0 then -1 else k + 1
  }

  /** `filter(item => item !== id)`: the list without any occurrence of `id`. */
  function RemoveAll(s: seq<int>, id: int): (r: seq<int>)
    ensures id !in r
    ensures forall x :: x != id ==> (x in r <==> x in s)
    ensures |r| <= |s|
  {
    if s == [] then []
    else (if s[0] == id then [] else [s[0]]) + RemoveAll(s[1..], id)
  }

  /** `handleSelectItem(id)`: an id that is already selected is removed,
      every occurrence of it; any other id is appended at the end. */
  function Toggle(s: seq<int>, id: int): (r: seq<int>)
    ensures id in r <==> id !in s
    ensures forall x :: x != id ==> (x in r <==> x in s)
    ensures r != s
  {
    if FindIndex(s, id) >= 0 then RemoveAll(s, id) else s + [id]
  }

  /** The selection after tapping the chips `ids`, in that order. Each tap
      adds at most one element. */
  function ToggleAll(s: seq<int>, ids: seq<int>): (r: seq<int>)
    ensures |r| <= |s| + |ids|
  {
    if ids == [] then s
    else Toggle(ToggleAll(s, ids[..|ids| - 1]), ids[|ids| - 1])
  }

  // ---------------------------------------------------------------------
  // RemoveAll against an independent description: the subsequence of `s`
  // that keeps every element other than `id` and nothing else.

  lemma {:induction false} RemoveAllIsSubsequence(s: seq<int>, id: int)
    ensures IsSubsequence(RemoveAll(s, id), s)
  {
    if s != [] {
      RemoveAllIsSubsequence(s[1..], id);
      var r := RemoveAll(s, id);
      if s[0] == id {
        assert r == RemoveAll(s[1..], id);
      } else {
        assert r[0] == s[0] && r[1..] == RemoveAll(s[1..], id);
      }
    }
  }

  lemma {:induction false} RemoveAllMultiset(s: seq<int>, id: int)
    ensures multiset(RemoveAll(s, id)) == multiset(s)[id := 0]
  {
    if s != [] {
      RemoveAllMultiset(s[1..], id);
      assert s == [s[0]] + s[1..];
    }
  }

  lemma {:induction false} SubsequenceMultiset(a: seq<int>, b: seq<int>)
    requires IsSubsequence(a, b)
    ensures multiset(a) <= multiset(b)
    decreases |b|
  {
    if a != [] {
      assert b == [b[0]] + b[1..];
      if a[0] == b[0] && IsSubsequence(a[1..], b[1..]) {
        SubsequenceMultiset(a[1..], b[1..]);
        assert a == [a[0]] + a[1..];
      } else {
        SubsequenceMultiset(a, b[1..]);
      }
    }
  }

  /** The description determines the result: a subsequence of `s` holding
      exactly the elements of `s` other than `id` is `RemoveAll(s, id)`. */
  lemma {:induction false} RemoveAllUnique(s: seq<int>, id: int, t: seq<int>)
    requires IsSubsequence(t, s)
    requires multiset(t) == multiset(s)[id := 0]
    ensures t == RemoveAll(s, id)
    decreases |s|
  {
    if s == [] {
      assert t == [];
    } else {
      var x := s[0];
      assert s == [x] + s[1..];
      if x == id {
        assert multiset(s)[id := 0] == multiset(s[1..])[id := 0];
        if t != [] {
          assert t[0] in multiset(t);
          assert t[0] != id;
          assert IsSubsequence(t, s[1..]);
        }
        RemoveAllUnique(s[1..], id, t);
      } else {
        assert multiset(t)[x] == multiset(s)[x] > 0;
        assert t != [];
        assert t == [t[0]] + t[1..];
        if t[0] == x && IsSubsequence(t[1..], s[1..]) {
          MultisetTails(s, id, t);
          RemoveAllUnique(s[1..], id, t[1..]);
        } else {
          SubsequenceMultiset(t, s[1..]);
          assert false;
        }
      }
    }
  }

  lemma MultisetTails(s: seq<int>, id: int, t: seq<int>)
    requires s != [] && t != [] && t[0] == s[0] != id
    requires multiset(t) == multiset(s)[id := 0]
    ensures multiset(t[1..]) == multiset(s[1..])[id := 0]
  {
    var x := s[0];
    assert t == [x] + t[1..] && s == [x] + s[1..];
    assert multiset(t) == multiset{x} + multiset(t[1..]);
    assert multiset(s) == multiset{x} + multiset(s[1..]);
    forall y ensures multiset(t[1..])[y] == multiset(s[1..])[id := 0][y] {
      if y == id {
        assert multiset(t[1..])[y] <= multiset(t)[y] == 0;
      } else {
        assert multiset(t)[y] == multiset(s)[y];
      }
    }
  }

  lemma {:induction false} RemoveAllAbsent(s: seq<int>, id: int)
    requires id !in s
    ensures RemoveAll(s, id) == s
  {
    if s != [] {
      RemoveAllAbsent(s[1..], id);
    }
  }

  lemma {:induction false} RemoveAllConcat(a: seq<int>, b: seq<int>, id: int)
    ensures RemoveAll(a + b, id) == RemoveAll(a, id) + RemoveAll(b, id)
  {
    if a == [] {
      assert a + b == b;
    } else {
      var head := if a[0] == id then [] else [a[0]];
      assert (a + b)[0] == a[0] && (a + b)[1..] == a[1..] + b;
      assert RemoveAll(a + b, id) == head + RemoveAll(a[1..] + b, id);
      RemoveAllConcat(a[1..], b, id);
      assert head + (RemoveAll(a[1..], id) + RemoveAll(b, id))
          == (head + RemoveAll(a[1..], id)) + RemoveAll(b, id);
    }
  }

  lemma NoDuplicatesTail(s: seq<int>)
    requires NoDuplicates(s) && s != []
    ensures NoDuplicates(s[1..]) && s[0] !in s[1..]
  {
  }

  /** In a duplicate-free list every id occurs at most once. */
  lemma {:induction false} NoDuplicatesOnce(s: seq<int>, x: int)
    requires NoDuplicates(s)
    ensures multiset(s)[x] == if x in s then 1 else 0
  {
    if s != [] {
      NoDuplicatesTail(s);
      NoDuplicatesOnce(s[1..], x);
      assert s == [s[0]] + s[1..];
      assert multiset(s) == multiset{s[0]} + multiset(s[1..]);
    }
  }

  /** Removing an id from a duplicate-free list keeps it duplicate-free and
      shortens it by one exactly when the id was there. */
  lemma {:induction false} RemoveAllNoDuplicates(s: seq<int>, id: int)
    requires NoDuplicates(s)
    ensures NoDuplicates(RemoveAll(s, id))
    ensures |RemoveAll(s, id)| == if id in s then |s| - 1 else |s|
  {
    if s != [] {
      NoDuplicatesTail(s);
      RemoveAllNoDuplicates(s[1..], id);
      var rest := RemoveAll(s[1..], id);
      if s[0] == id {
        RemoveAllAbsent(s[1..], id);
      } else {
        var r := [s[0]] + rest;
        assert s[0] !in rest;
        forall i, j | 0 <= i < j < |r| ensures r[i] != r[j] {
          if i > 0 {
            assert r[i] == rest[i - 1] && r[j] == rest[j - 1];
          } else {
            assert r[j] == rest[j - 1];
          }
        }
        assert id in s <==> id in s[1..];
      }
    }
  }

  // ---------------------------------------------------------------------
  // Toggle.

  /** After erasing `id` from both lists, the new selection and the old one
      are equal: every other id keeps its occurrences and its relative order. */
  lemma ToggleOthersUnchanged(s: seq<int>, id: int)
    ensures RemoveAll(Toggle(s, id), id) == RemoveAll(s, id)
  {
    if id in s {
      RemoveAllAbsent(RemoveAll(s, id), id);
    } else {
      RemoveAllConcat(s, [id], id);
      assert RemoveAll([id], id) == [];
    }
  }

  /** An absent id is appended: the old list, then the id. */
  lemma ToggleAbsentAppends(s: seq<int>, id: int)
    requires id !in s
    ensures Toggle(s, id) == s + [id]
    ensures |Toggle(s, id)| == |s| + 1 && Toggle(s, id)[|s|] == id
  {
  }

  /** A present id is removed, with every occurrence, and the rest is the
      subsequence of the old list made of all the other elements. */
  lemma TogglePresentRemoves(s: seq<int>, id: int)
    requires id in s
    ensures id !in Toggle(s, id)
    ensures IsSubsequence(Toggle(s, id), s)
    ensures multiset(Toggle(s, id)) == multiset(s)[id := 0]
  {
    RemoveAllIsSubsequence(s, id);
    RemoveAllMultiset(s, id);
  }

  /** Toggling keeps a duplicate-free selection duplicate-free and changes
      its length by exactly one. */
  lemma ToggleNoDuplicates(s: seq<int>, id: int)
    requires NoDuplicates(s)
    ensures NoDuplicates(Toggle(s, id))
    ensures |Toggle(s, id)| == if id in s then |s| - 1 else |s| + 1
  {
    if id in s {
      RemoveAllNoDuplicates(s, id);
    } else {
      var r := s + [id];
      forall i, j | 0 <= i < j < |r| ensures r[i] != r[j] {
        if j == |s| {
          assert r[i] == s[i];
        } else {
          assert r[i] == s[i] && r[j] == s[j];
        }
      }
    }
  }

  /** Tapping an unselected chip twice restores the list exactly. */
  lemma ToggleTwiceAbsent(s: seq<int>, id: int)
    requires id !in s
    ensures Toggle(Toggle(s, id), id) == s
  {
    RemoveAllConcat(s, [id], id);
    RemoveAllAbsent(s, id);
    assert RemoveAll([id], id) == [];
  }

  /** Tapping a selected chip twice restores the same ids, but `id` now sits
      at the end; on a duplicate-free list the multiset is restored too. */
  lemma ToggleTwicePresent(s: seq<int>, id: int)
    requires id in s
    ensures Toggle(Toggle(s, id), id) == RemoveAll(s, id) + [id]
    ensures forall x :: x in Toggle(Toggle(s, id), id) <==> x in s
    ensures NoDuplicates(s) ==> multiset(Toggle(Toggle(s, id), id)) == multiset(s)
  {
    var once := RemoveAll(s, id);
    assert Toggle(s, id) == once;
    assert Toggle(once, id) == once + [id];
    if NoDuplicates(s) {
      RemoveAllMultiset(s, id);
      NoDuplicatesOnce(s, id);
      assert multiset(once + [id]) == multiset(s)[id := 0] + multiset{id};
    }
  }

  /** Membership of an id after a run of taps is its parity: it is selected
      exactly when it was selected and was tapped an even number of times,
      or was not selected and was tapped an odd number of times. */
  lemma {:induction false} ToggleAllParity(s: seq<int>, ids: seq<int>, id: int)
    ensures id in ToggleAll(s, ids) <==> (id in s) != (multiset(ids)[id] % 2 == 1)
  {
    if ids != [] {
      var n := |ids|;
      var before, last := ids[..n - 1], ids[n - 1];
      ToggleAllParity(s, before, id);
      assert ids == before + [last];
      CountSnoc(before, last, id);
      var prev := ToggleAll(s, before);
      assert ToggleAll(s, ids) == Toggle(prev, last);
      assert id in Toggle(prev, last) <==> (if last == id then id !in prev else id in prev);
    }
  }

  lemma CountSnoc(a: seq<int>, x: int, id: int)
    ensures multiset(a + [x])[id] == multiset(a)[id] + (if x == id then 1 else 0)
  {
    assert multiset(a + [x]) == multiset(a) + multiset{x};
  }

  /** A selection built from the empty list by taps never holds a duplicate. */
  lemma {:induction false} ToggleAllNoDuplicates(ids: seq<int>)
    ensures NoDuplicates(ToggleAll([], ids))
  {
    if ids != [] {
      ToggleAllNoDuplicates(ids[..|ids| - 1]);
      ToggleNoDuplicates(ToggleAll([], ids[..|ids| - 1]), ids[|ids| - 1]);
    }
  }
}
