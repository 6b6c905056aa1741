/**
 * The toggle-in-list rule behind the dashboard's two checkbox groups
 * (`handleCheckboxChange` for fields and `handleBiradsCheckboxChange` for
 * BIRADS categories): a value already in the list is removed, every
 * occurrence of it; an absent value is appended at the end.
 */
module Selection {

  /** `list.filter(x => x !== v)`: every entry but `v`, in order. */
  function Without(list: seq<string>, v: string): (r: seq<string>)
    ensures v !in r
    ensures forall x :: x != v ==> (x in r <==> x in list)
    ensures |r| <= |list|
  {
    if list == [] then []
    else if list[0] == v then Without(list[1..], v)
    else [list[0]] + Without(list[1..], v)
  }

  /** The list updater of both checkbox handlers. */
  function Toggle(list: seq<string>, v: string): (r: seq<string>)
    ensures v in r <==> v !in list
    ensures forall x :: x != v ==> (x in r <==> x in list)
  {
    if v in list then Without(list, v) else list + [v]
  }

  predicate NoDuplicates(list: seq<string>) {
    forall i, j :: 0 <= i < j < |list| ==> list[i] != list[j]
  }

  /** `s` is `t` with some entries dropped and the rest kept in their order. */
  predicate IsSubsequence(s: seq<string>, t: seq<string>)
    decreases |t|
  {
    s == [] || (t != [] && (if s[0] == t[0] then IsSubsequence(s[1..], t[1..]) else IsSubsequence(s, t[1..])))
  }

  /**
   * Without keeps exactly the entries other than `v`, in their original
   * order: it is a subsequence, and as long as the list less its `v`s.
   */
  lemma {:induction false} WithoutKeepsOrder(list: seq<string>, v: string)
    ensures IsSubsequence(Without(list, v), list)
    ensures |Without(list, v)| == |list| - multiset(list)[v]
  {
    if list != [] {
      WithoutKeepsOrder(list[1..], v);
      assert list == [list[0]] + list[1..];
      assert multiset(list) == multiset{list[0]} + multiset(list[1..]);
      var r := Without(list[1..], v);
      if list[0] != v {
        assert ([list[0]] + r)[1..] == r;
      }
    }
  }

  /** Toggling a present value removes all its occurrences and keeps the rest in order. */
  lemma TogglePresent(list: seq<string>, v: string)
    requires v in list
    ensures v !in Toggle(list, v)
    ensures forall x :: x != v ==> (x in Toggle(list, v) <==> x in list)
    ensures IsSubsequence(Toggle(list, v), list)
    ensures |Toggle(list, v)| == |list| - multiset(list)[v]
  {
    WithoutKeepsOrder(list, v);
  }

  /** Toggling an absent value appends it and leaves the existing entries as they were. */
  lemma ToggleAbsent(list: seq<string>, v: string)
    requires v !in list
    ensures Toggle(list, v)[..|list|] == list
    ensures |Toggle(list, v)| == |list| + 1 && Toggle(list, v)[|list|] == v
  {
  }

  /** Toggling an absent value twice gives back the original list. */
  lemma ToggleTwiceAbsent(list: seq<string>, v: string)
    requires v !in list
    ensures Toggle(Toggle(list, v), v) == list
  {
    WithoutAppend(list, v);
  }

  lemma {:induction false} WithoutAppend(list: seq<string>, v: string)
    requires v !in list
    ensures Without(list + [v], v) == list
  {
    if list == [] {
      assert [] + [v] == [v];
    } else {
      assert (list + [v])[1..] == list[1..] + [v];
      WithoutAppend(list[1..], v);
      assert list == [list[0]] + list[1..];
    }
  }

  lemma {:induction false} WithoutNoDuplicates(list: seq<string>, v: string)
    requires NoDuplicates(list)
    ensures NoDuplicates(Without(list, v))
  {
    if list != [] {
      WithoutNoDuplicates(list[1..], v);
      var r := Without(list[1..], v);
      if list[0] != v {
        assert list[0] !in list[1..];
        assert list[0] !in r;
        assert forall j :: 0 < j < |[list[0]] + r| ==> ([list[0]] + r)[j] == r[j - 1];
      }
    }
  }

  /**
   * A list that only toggles ever build holds no value twice: toggling
   * keeps a duplicate-free list duplicate-free.
   */
  lemma ToggleKeepsNoDuplicates(list: seq<string>, v: string)
    requires NoDuplicates(list)
    ensures NoDuplicates(Toggle(list, v))
  {
    if v in list {
      WithoutNoDuplicates(list, v);
    }
  }

  lemma {:induction false} NoDuplicatesOnce(list: seq<string>, v: string)
    requires NoDuplicates(list) && v in list
    ensures multiset(list)[v] == 1
  {
    var rest := list[1..];
    assert list == [list[0]] + rest;
    assert multiset(list) == multiset{list[0]} + multiset(rest);
    forall j | 0 <= j < |rest|
      ensures rest[j] == list[j + 1]
    {
    }
    if list[0] == v {
      assert v !in rest;
    } else {
      NoDuplicatesOnce(rest, v);
    }
  }

  /**
   * On a duplicate-free list a toggle changes the length by exactly one:
   * one entry fewer for a present value, one more for an absent one.
   */
  lemma ToggleLength(list: seq<string>, v: string)
    requires NoDuplicates(list)
    ensures v in list ==> |Toggle(list, v)| == |list| - 1
    ensures v !in list ==> |Toggle(list, v)| == |list| + 1
  {
    if v in list {
      NoDuplicatesOnce(list, v);
      WithoutKeepsOrder(list, v);
    }
  }
}
