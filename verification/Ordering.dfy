/** Ordering of strings and a stable sort, as the standard library of the source provides them. */
module Ordering {

  /** Lexicographic order by code point. */
  predicate Less(a: string, b: string) {
    b != "" && (a == "" || a[0] < b[0] || (a[0] == b[0] && Less(a[1..], b[1..])))
  }

  /** A proper prefix comes first; otherwise the first difference decides. */
  lemma {:induction false} LessExactly(a: string, b: string)
    ensures Less(a, b) <==>
            a < b || exists k :: 0 <= k < |a| && k < |b| && a[..k] == b[..k] && a[k] < b[k]
  {
    if a != "" && b != "" {
      LessExactly(a[1..], b[1..]);
      var x, y := a[1..], b[1..];
      if a[0] == b[0] {
        assert x < y <==> a < b by {
          assert a == [a[0]] + x && b == [b[0]] + y;
        }
        if k :| 0 <= k < |x| && k < |y| && x[..k] == y[..k] && x[k] < y[k] {
          assert a[..k + 1] == [a[0]] + x[..k] && b[..k + 1] == [b[0]] + y[..k];
        }
        if k :| 0 <= k < |a| && k < |b| && a[..k] == b[..k] && a[k] < b[k] {
          assert k > 0;
          assert x[..k - 1] == a[..k][1..] && y[..k - 1] == b[..k][1..];
        }
      } else {
        if a[0] < b[0] {
          assert a[..0] == b[..0];
        }
        forall k | 0 < k < |a| && k < |b| ensures a[..k] != b[..k] {
          assert a[..k][0] == a[0] && b[..k][0] == b[0];
        }
      }
    }
  }

  lemma {:induction false} LessTotal(a: string, b: string)
    ensures a == b || Less(a, b) || Less(b, a)
    ensures !(Less(a, b) && Less(b, a)) && !Less(a, a)
  {
    if a != "" && b != "" {
      LessTotal(a[1..], b[1..]);
      LessTotal(a[1..], a[1..]);
      if a[0] == b[0] && a[1..] == b[1..] {
        assert a == [a[0]] + a[1..] && b == [b[0]] + b[1..];
      }
    } else if a != "" {
      LessTotal(a[1..], a[1..]);
    }
  }

  lemma {:induction false} LessTransitive(a: string, b: string, c: string)
    requires Less(a, b) && Less(b, c)
    ensures Less(a, c)
  {
    if a != "" && a[0] == b[0] && b[0] == c[0] {
      LessTransitive(a[1..], b[1..], c[1..]);
    }
  }

  // ---- stable sort ----

  function Insert<T>(x: T, xs: seq<T>, before: (T, T) -> bool): seq<T> {
    if xs == [] || !before(xs[0], x) then [x] + xs
    else [xs[0]] + Insert(x, xs[1..], before)
  }

  function Sorted<T>(xs: seq<T>, before: (T, T) -> bool): seq<T> {
    if xs == [] then [] else Insert(xs[0], Sorted(xs[1..], before), before)
  }

  lemma {:induction false} InsertKeeps<T>(x: T, xs: seq<T>, before: (T, T) -> bool)
    ensures multiset(Insert(x, xs, before)) == multiset{x} + multiset(xs)
  {
    if xs != [] && before(xs[0], x) {
      InsertKeeps(x, xs[1..], before);
      assert xs == [xs[0]] + xs[1..];
    }
  }

  lemma {:induction false} SortedKeeps<T>(xs: seq<T>, before: (T, T) -> bool)
    ensures multiset(Sorted(xs, before)) == multiset(xs)
  {
    if xs != [] {
      SortedKeeps(xs[1..], before);
      InsertKeeps(xs[0], Sorted(xs[1..], before), before);
      assert xs == [xs[0]] + xs[1..];
    }
  }

  /** A sorted run that nothing of the rest goes before stays in front. */
  lemma {:induction false} SortedPrefix<T>(a: seq<T>, b: seq<T>, before: (T, T) -> bool)
    requires forall i, j :: 0 <= i < j < |a| ==> !before(a[j], a[i])
    requires forall i, j :: 0 <= i < |a| && 0 <= j < |b| ==> !before(b[j], a[i])
    ensures Sorted(a + b, before) == a + Sorted(b, before)
  {
    if a == [] {
      assert a + b == b;
    } else {
      hide Insert;
      var rest := a[1..];
      assert (a + b)[1..] == rest + b && (a + b)[0] == a[0];
      SortedPrefix(rest, b, before);
      assert rest + Sorted(b, before) == [] || !before((rest + Sorted(b, before))[0], a[0]) by {
        if rest != [] {
          assert (rest + Sorted(b, before))[0] == a[1];
        } else if Sorted(b, before) != [] {
          SortedMembers(b, before);
          var j :| 0 <= j < |b| && b[j] == Sorted(b, before)[0];
        }
      }
      InsertFirst(a[0], rest + Sorted(b, before), before);
      assert [a[0]] + (rest + Sorted(b, before)) == a + Sorted(b, before);
    }
  }

  lemma InsertFirst<T>(x: T, xs: seq<T>, before: (T, T) -> bool)
    requires xs == [] || !before(xs[0], x)
    ensures Insert(x, xs, before) == [x] + xs
  {
  }

  lemma SortedMembers<T>(xs: seq<T>, before: (T, T) -> bool)
    ensures forall k :: 0 <= k < |Sorted(xs, before)| ==> Sorted(xs, before)[k] in xs
  {
    SortedKeeps(xs, before);
    forall k | 0 <= k < |Sorted(xs, before)| ensures Sorted(xs, before)[k] in xs {
      assert Sorted(xs, before)[k] in multiset(Sorted(xs, before));
      assert Sorted(xs, before)[k] in multiset(xs);
    }
  }

  lemma SortedAlready<T>(a: seq<T>, before: (T, T) -> bool)
    requires forall i, j :: 0 <= i < j < |a| ==> !before(a[j], a[i])
    ensures Sorted(a, before) == a
  {
    SortedPrefix(a, [], before);
    assert a + [] == a;
  }

  lemma {:induction false} InsertLast<T>(x: T, xs: seq<T>, before: (T, T) -> bool)
    requires forall j :: 0 <= j < |xs| ==> before(xs[j], x)
    ensures Insert(x, xs, before) == xs + [x]
  {
    if xs != [] {
      InsertLast(x, xs[1..], before);
      assert [xs[0]] + (xs[1..] + [x]) == xs + [x];
    }
  }
}
