/** The filter-or-append toggle that two screens apply to a list held in
    component state: the completed habit ids of a day (src/screens/Habit.tsx)
    and the chosen weekdays of a new habit (src/screens/New.tsx). */
module ToggleList {

  /** The list has no repeated element. */
  predicate NoDup<T(==)>(s: seq<T>) {
    forall i, j :: 0 <= i < j < |s| ==> s[i] != s[j]
  }

  /** The set of elements of a list. */
  function Elements<T(==)>(s: seq<T>): set<T> {
    set x | x in s
  }

  /** `s.filter(e => e !== x)`: every occurrence of `x` is dropped, and every
      other element keeps its multiplicity. */
  function Remove<T(==)>(s: seq<T>, x: T): (r: seq<T>)
    ensures multiset(r) == multiset(s)[x := 0]
    ensures x !in r
    ensures forall y | y in r :: y in s && y != x
    ensures forall y | y in s && y != x :: y in r
  {
    if s == [] then []
    else
      assert s == [s[0]] + s[1..];
      if s[0] == x then Remove(s[1..], x) else [s[0]] + Remove(s[1..], x)
  }

  /** `s.includes(x) ? s.filter(e => e !== x) : [...s, x]`. */
  function Toggle<T(==)>(s: seq<T>, x: T): (r: seq<T>)
    ensures x in r <==> x !in s
    ensures forall y | y in r && y != x :: y in s
    ensures forall y | y in s && y != x :: y in r
  {
    if x in s then Remove(s, x) else s + [x]
  }

  /** Filtering distributes over concatenation: the elements that survive keep
      their relative order. */
  lemma {:induction false} RemoveConcat<T>(a: seq<T>, b: seq<T>, x: T)
    ensures Remove(a + b, x) == Remove(a, x) + Remove(b, x)
  {
    if a == [] {
      assert a + b == b;
    } else {
      assert (a + b)[1..] == a[1..] + b;
      RemoveConcat(a[1..], b, x);
    }
  }

  /** Filtering out an element that is not there returns the list itself. */
  lemma {:induction false} RemoveAbsent<T>(s: seq<T>, x: T)
    requires x !in s
    ensures Remove(s, x) == s
  {
    if s != [] {
      RemoveAbsent(s[1..], x);
    }
  }

  lemma NoDupCons<T>(h: T, t: seq<T>)
    ensures NoDup([h] + t) <==> h !in t && NoDup(t)
  {
    var s := [h] + t;
    if h !in t && NoDup(t) {
      forall i, j | 0 <= i < j < |s| ensures s[i] != s[j] {
        if i > 0 { assert s[i] == t[i - 1] && s[j] == t[j - 1]; }
        else { assert s[j] == t[j - 1]; }
      }
    }
    if NoDup(s) {
      forall i, j | 0 <= i < j < |t| ensures t[i] != t[j] {
        assert t[i] == s[i + 1] && t[j] == s[j + 1];
      }
      forall k | 0 <= k < |t| ensures t[k] != h {
        assert t[k] == s[k + 1] && h == s[0];
        assert s[0] != s[k + 1];
      }
    }
  }

  /** Filtering keeps a duplicate-free list duplicate-free. */
  lemma {:induction false} RemoveKeepsNoDup<T>(s: seq<T>, x: T)
    requires NoDup(s)
    ensures NoDup(Remove(s, x))
  {
    if s != [] {
      assert s == [s[0]] + s[1..];
      NoDupCons(s[0], s[1..]);
      RemoveKeepsNoDup(s[1..], x);
      if s[0] != x {
        NoDupCons(s[0], Remove(s[1..], x));
      }
    }
  }

  /** Toggling keeps a duplicate-free list duplicate-free. */
  lemma ToggleKeepsNoDup<T>(s: seq<T>, x: T)
    requires NoDup(s)
    ensures NoDup(Toggle(s, x))
  {
    if x in s {
      RemoveKeepsNoDup(s, x);
    } else {
      var r := s + [x];
      forall i, j | 0 <= i < j < |r| ensures r[i] != r[j] {
        if j == |s| { assert r[i] == s[i]; }
      }
    }
  }

  /** Toggling an absent element appends it; toggling it again gives back
      exactly the original list. */
  lemma ToggleTwiceAbsent<T>(s: seq<T>, x: T)
    requires x !in s
    ensures Toggle(s, x) == s + [x]
    ensures Toggle(Toggle(s, x), x) == s
  {
    RemoveConcat(s, [x], x);
    RemoveAbsent(s, x);
    assert Remove([x], x) == [];
  }

  /** Toggling a present element twice drops all of its occurrences and puts
      one back at the end: the set of elements is the same, and for a
      duplicate-free list so is the multiset. */
  lemma ToggleTwicePresent<T>(s: seq<T>, x: T)
    requires x in s
    ensures Toggle(Toggle(s, x), x) == Remove(s, x) + [x]
    ensures Elements(Toggle(Toggle(s, x), x)) == Elements(s)
    ensures NoDup(s) ==> multiset(Toggle(Toggle(s, x), x)) == multiset(s)
  {
    var r := Remove(s, x);
    assert Toggle(r, x) == r + [x];
    if NoDup(s) {
      var k :| 0 <= k < |s| && s[k] == x;
      OnlyOccurrence(s, k);
    }
  }

  /** In a duplicate-free list the element at `k` occurs exactly once. */
  lemma OnlyOccurrence<T>(s: seq<T>, k: nat)
    requires NoDup(s) && k < |s|
    ensures multiset(s)[s[k]] == 1
  {
    var x := s[k];
    assert s == s[..k] + [x] + s[k + 1..];
    forall i | 0 <= i < k ensures s[..k][i] != x {
      assert s[..k][i] == s[i];
    }
    var tail := s[k + 1..];
    forall i | 0 <= i < |tail| ensures tail[i] != x {
      assert tail[i] == s[k + 1 + i];
    }
    assert multiset(s[..k])[x] == 0;
    assert multiset(tail)[x] == 0;
  }

  /** A list never has more distinct elements than it has entries, and a
      duplicate-free list has exactly as many. */
  lemma {:induction false} ElementsCard<T>(s: seq<T>)
    ensures |Elements(s)| <= |s|
    ensures NoDup(s) ==> |Elements(s)| == |s|
  {
    if s != [] {
      var t := s[1..];
      assert s == [s[0]] + t;
      ElementsCard(t);
      assert Elements(s) == {s[0]} + Elements(t);
      NoDupCons(s[0], t);
    }
  }

  /** A subset is no larger than its superset. */
  lemma {:induction false} SubsetCard<T>(a: set<T>, b: set<T>)
    requires a <= b
    ensures |a| <= |b|
  {
    if a != {} {
      var x :| x in a;
      SubsetCard(a - {x}, b - {x});
    }
  }
}
