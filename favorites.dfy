/** The three ways the pages toggle a timezone in the favourites list:
    remove the first occurrence or append (common.js), the same followed by a
    sort (js/common.js), and remove every occurrence or append (options.js,
    popup.js). */
module Favorites {
  import opened Sequences
  import opened Text

  /** `indexOf`, then `splice(index, 1)` when found and `push` otherwise. */
  function ToggleFirst(favorites: seq<string>, tz: string): (r: seq<string>)
    ensures tz !in favorites ==> r == favorites + [tz]
    ensures multiset(r) == if tz in favorites then multiset(favorites) - multiset{tz}
                           else multiset(favorites) + multiset{tz}
  {
    var index := IndexOf(favorites, tz);
    if index >= 0 then
      RemoveAtMultiset(favorites, index);
      RemoveAt(favorites, index)
    else favorites + [tz]
  }

  /** A favourite is removed at its first occurrence only. */
  lemma {:induction false} ToggleFirstRemovesFirst(favorites: seq<string>, tz: string)
    requires tz in favorites
    ensures 0 <= IndexOf(favorites, tz) < |favorites|
    ensures var i := IndexOf(favorites, tz);
      favorites[i] == tz && tz !in favorites[..i]
      && ToggleFirst(favorites, tz) == favorites[..i] + favorites[i + 1..]
  {
  }

  /** Removing a favourite keeps the others in their order. */
  lemma {:induction false} ToggleFirstKeepsOrder(favorites: seq<string>, tz: string)
    ensures SubsequenceOf(favorites, ToggleFirst(favorites, tz)) || SubsequenceOf(ToggleFirst(favorites, tz), favorites)
  {
    var index := IndexOf(favorites, tz);
    if index >= 0 {
      RemoveAtSubsequence(favorites, index);
    } else {
      AppendSubsequence(favorites, tz);
    }
  }

  lemma {:induction false} AppendSubsequence(s: seq<string>, x: string)
    ensures SubsequenceOf(s, s + [x])
  {
    if s != [] {
      AppendSubsequence(s[1..], x);
      assert (s + [x])[1..] == s[1..] + [x];
    }
  }

  /** On a list without repeats the toggle flips membership of `tz` and keeps
      the list free of repeats. */
  lemma {:induction false} ToggleFirstFlips(favorites: seq<string>, tz: string)
    requires NoDups(favorites)
    ensures NoDups(ToggleFirst(favorites, tz))
    ensures tz in ToggleFirst(favorites, tz) <==> tz !in favorites
    ensures forall x :: x != tz ==> (x in ToggleFirst(favorites, tz) <==> x in favorites)
  {
    var r := ToggleFirst(favorites, tz);
    if tz in favorites {
      var index := IndexOf(favorites, tz);
      RemoveAtSubsequence(favorites, index);
      SubsequenceNoDups(r, favorites);
      NoDupsCount(favorites, tz);
      assert tz !in multiset(r);
    } else {
      forall i, j | 0 <= i < j < |r| ensures r[i] != r[j] {
        if j == |favorites| {
          assert r[i] == favorites[i];
        }
      }
    }
    forall x | x != tz ensures x in r <==> x in favorites {
      assert x in r <==> x in multiset(r);
    }
  }

  /** Toggling a non-favourite twice gives the list back. */
  lemma {:induction false} ToggleFirstTwice(favorites: seq<string>, tz: string)
    requires tz !in favorites
    ensures ToggleFirst(ToggleFirst(favorites, tz), tz) == favorites
  {
    var r := favorites + [tz];
    assert ToggleFirst(favorites, tz) == r;
    assert IndexOf(r, tz) == |favorites| by {
      assert forall k :: 0 <= k < |favorites| ==> r[k] == favorites[k];
    }
    assert r[..|favorites|] == favorites;
  }

  /** The toggle of js/common.js: `ToggleFirst`, then `sort()`. */
  function ToggleSorted(favorites: seq<string>, tz: string): (r: seq<string>)
    ensures SortedBy(r, CodeUnitOrder)
    ensures multiset(r) == if tz in favorites then multiset(favorites) - multiset{tz}
                           else multiset(favorites) + multiset{tz}
  {
    CodeUnitOrderIsTotalPreorder();
    SortBy(ToggleFirst(favorites, tz), CodeUnitOrder)
  }

  /** On a sorted list, toggling a non-favourite twice gives
      the list back: the sorted toggle is undone by the next one. */
  lemma {:induction false} ToggleSortedTwice(favorites: seq<string>, tz: string)
    requires SortedBy(favorites, CodeUnitOrder) && tz !in favorites
    ensures ToggleSorted(ToggleSorted(favorites, tz), tz) == favorites
  {
    var once := ToggleSorted(favorites, tz);
    assert multiset(once) == multiset(favorites) + multiset{tz};
    assert tz in once by {
      assert tz in multiset(once);
    }
    var twice := ToggleSorted(once, tz);
    assert multiset(twice) == multiset(once) - multiset{tz};
    assert multiset(twice) == multiset(favorites);
    SortedUnique(twice, favorites);
  }

  /** Two lists sorted in character order with the same elements are equal. */
  lemma {:induction false} SortedUnique(a: seq<string>, b: seq<string>)
    requires SortedBy(a, CodeUnitOrder) && SortedBy(b, CodeUnitOrder)
    requires multiset(a) == multiset(b)
    ensures a == b
  {
    if a != [] {
      assert a[0] in multiset(b);
      assert b != [] && b[0] in multiset(a);
      var i :| 0 <= i < |b| && b[i] == a[0];
      var j :| 0 <= j < |a| && a[j] == b[0];
      assert Leq(b[0], a[0]) by {
        if i > 0 { assert CodeUnitOrder(b[0], b[i]); }
        else { LeqReflexive(b[0]); }
      }
      assert Leq(a[0], b[0]) by {
        if j > 0 { assert CodeUnitOrder(a[0], a[j]); }
        else { LeqReflexive(a[0]); }
      }
      LeqAntisymmetric(a[0], b[0]);
      assert a == [a[0]] + a[1..];
      assert b == [b[0]] + b[1..];
      assert multiset(a) == multiset{a[0]} + multiset(a[1..]);
      assert multiset(b) == multiset{a[0]} + multiset(b[1..]);
      assert multiset(a[1..]) == multiset(a) - multiset{a[0]};
      assert multiset(b[1..]) == multiset(b) - multiset{a[0]};
      SortedTail(a);
      SortedTail(b);
      SortedUnique(a[1..], b[1..]);
    } else {
      assert |b| == |multiset(b)|;
    }
  }

  lemma {:induction false} SortedTail(s: seq<string>)
    requires SortedBy(s, CodeUnitOrder) && s != []
    ensures SortedBy(s[1..], CodeUnitOrder)
  {
    forall i, j | 0 <= i < j < |s[1..]| ensures CodeUnitOrder(s[1..][i], s[1..][j]) {
      assert s[1..][i] == s[i + 1] && s[1..][j] == s[j + 1];
    }
  }

  lemma {:induction false} LeqReflexive(a: string)
    ensures Leq(a, a)
  {
    if |a| != 0 {
      LeqReflexive(a[1..]);
    }
  }

  lemma {:induction false} LeqAntisymmetric(a: string, b: string)
    requires Leq(a, b) && Leq(b, a)
    ensures a == b
  {
    if |a| != 0 && |b| != 0 {
      LeqAntisymmetric(a[1..], b[1..]);
      assert a == [a[0]] + a[1..];
      assert b == [b[0]] + b[1..];
    }
  }

  /** The toggle of options.js and popup.js: `filter(fav => fav !== tz)` when
      present, `push` otherwise. */
  function ToggleAll(favorites: seq<string>, tz: string): (r: seq<string>)
    ensures tz in r <==> tz !in favorites
    ensures forall x :: x != tz ==> multiset(r)[x] == multiset(favorites)[x]
    ensures tz in favorites ==> SubsequenceOf(r, favorites)
    ensures tz !in favorites ==> r == favorites + [tz]
  {
    if tz in favorites then
      var r := RemoveAll(favorites, tz);
      RemoveAllMultiset(favorites, tz);
      assert tz !in multiset(r);
      RemoveAllSubsequence(favorites, tz);
      r
    else favorites + [tz]
  }

  /** Toggling a non-favourite twice gives the list back. */
  lemma {:induction false} ToggleAllTwice(favorites: seq<string>, tz: string)
    requires tz !in favorites
    ensures ToggleAll(ToggleAll(favorites, tz), tz) == favorites
  {
    RemoveAllAbsent(favorites, tz);
    RemoveAllAppended(favorites, tz);
  }

  /** On a list without repeats the two older toggles agree. */
  lemma {:induction false} ToggleAllAgreesOnDistinct(favorites: seq<string>, tz: string)
    requires NoDups(favorites)
    ensures ToggleAll(favorites, tz) == ToggleFirst(favorites, tz)
  {
    if tz in favorites {
      var i := IndexOf(favorites, tz);
      assert tz !in favorites[i + 1..] by {
        assert forall k :: i < k < |favorites| ==> favorites[k] != favorites[i];
      }
      assert favorites == favorites[..i] + [tz] + favorites[i + 1..];
      RemoveAllSingle(favorites[..i], tz, favorites[i + 1..]);
    }
  }

  /** Removing every occurrence of an element that occurs once. */
  lemma {:induction false} RemoveAllSingle(pre: seq<string>, x: string, post: seq<string>)
    requires x !in pre && x !in post
    ensures RemoveAll(pre + [x] + post, x) == pre + post
  {
    var head := pre + [x];
    RemoveAllConcat(head, post, x);
    RemoveAllConcat(pre, [x], x);
    assert RemoveAll([x], x) == [] by {
      assert [x][1..] == [];
    }
    RemoveAllAbsent(pre, x);
    RemoveAllAbsent(post, x);
    assert RemoveAll(head, x) == pre;
  }

}
