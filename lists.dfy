/**
 * The list update shared by the filter and favourites hooks:
 * `prev.includes(x) ? prev.filter((y) => y !== x) : [...prev, x]`.
 */
module Lists {

  /** No element occurs twice. */
  predicate NoDup<T(==)>(xs: seq<T>) {
    forall i, j :: 0 <= i < j < |xs| ==> xs[i] != xs[j]
  }

  /** `xs.filter((y) => y !== x)`. */
  function Remove<T(==)>(xs: seq<T>, x: T): (r: seq<T>)
    ensures x !in r
    ensures forall y :: y in r ==> y in xs && y != x
    ensures forall y :: y in xs && y != x ==> y in r
    ensures |r| <= |xs|
    decreases |xs|
  {
    if xs == [] then []
    else (if xs[0] == x then [] else [xs[0]]) + Remove(xs[1..], x)
  }

  /** Removing an element that is absent gives the list back unchanged. */
  lemma {:induction false} RemoveAbsent<T>(xs: seq<T>, x: T)
    requires x !in xs
    ensures Remove(xs, x) == xs
    decreases |xs|
  {
    if xs != [] {
      RemoveAbsent(xs[1..], x);
      assert [xs[0]] + xs[1..] == xs;
    }
  }

  /** `filter` distributes over concatenation. */
  lemma {:induction false} RemoveAppend<T>(xs: seq<T>, ys: seq<T>, x: T)
    ensures Remove(xs + ys, x) == Remove(xs, x) + Remove(ys, x)
    decreases |xs|
  {
    if xs == [] {
      assert xs + ys == ys;
    } else {
      assert (xs + ys)[1..] == xs[1..] + ys;
      RemoveAppend(xs[1..], ys, x);
    }
  }

  /** `filter` keeps distinct elements distinct. */
  lemma {:induction false} RemoveKeepsNoDup<T>(xs: seq<T>, x: T)
    requires NoDup(xs)
    ensures NoDup(Remove(xs, x))
    decreases |xs|
  {
    if xs != [] {
      assert NoDup(xs[1..]) by {
        forall i, j | 0 <= i < j < |xs[1..]| ensures xs[1..][i] != xs[1..][j] {
          assert xs[1..][i] == xs[i + 1] && xs[1..][j] == xs[j + 1];
        }
      }
      RemoveKeepsNoDup(xs[1..], x);
      var rest := Remove(xs[1..], x);
      if xs[0] != x {
        assert xs[0] !in xs[1..] by {
          forall k | 0 <= k < |xs[1..]| ensures xs[1..][k] != xs[0] {
            assert xs[1..][k] == xs[k + 1];
          }
        }
        var r := [xs[0]] + rest;
        forall i, j | 0 <= i < j < |r| ensures r[i] != r[j] {
          if i == 0 {
            assert r[j] == rest[j - 1] && r[j] in rest;
          } else {
            assert r[i] == rest[i - 1] && r[j] == rest[j - 1];
          }
        }
      }
    }
  }

  /** The updater itself: drop `x` if it is present, append it otherwise. */
  function Toggle<T(==)>(xs: seq<T>, x: T): seq<T> {
    if x in xs then Remove(xs, x) else xs + [x]
  }

  /** A toggle flips the membership of `x` and of nothing else. */
  lemma ToggleFlips<T>(xs: seq<T>, x: T)
    ensures x in Toggle(xs, x) <==> x !in xs
    ensures forall y :: y != x ==> (y in Toggle(xs, x) <==> y in xs)
  {
  }

  /** The other elements keep their relative order: apart from `x`, the list is the same. */
  lemma ToggleKeepsOthers<T>(xs: seq<T>, x: T)
    ensures Remove(Toggle(xs, x), x) == Remove(xs, x)
  {
    if x in xs {
      RemoveAbsent(Remove(xs, x), x);
    } else {
      RemoveAppend(xs, [x], x);
      assert Remove([x], x) == [];
    }
  }

  /** Adding an absent element and toggling it again restores the original list exactly. */
  lemma ToggleTwiceRestores<T>(xs: seq<T>, x: T)
    requires x !in xs
    ensures Toggle(Toggle(xs, x), x) == xs
  {
    RemoveAppend(xs, [x], x);
    RemoveAbsent(xs, x);
    assert Remove([x], x) == [];
  }

  /** Toggling keeps a duplicate-free list duplicate-free. */
  lemma ToggleKeepsNoDup<T>(xs: seq<T>, x: T)
    requires NoDup(xs)
    ensures NoDup(Toggle(xs, x))
  {
    if x in xs {
      RemoveKeepsNoDup(xs, x);
    } else {
      var r := xs + [x];
      forall i, j | 0 <= i < j < |r| ensures r[i] != r[j] {
        if j == |xs| {
          assert r[i] == xs[i];
        } else {
          assert r[i] == xs[i] && r[j] == xs[j];
        }
      }
    }
  }
}
