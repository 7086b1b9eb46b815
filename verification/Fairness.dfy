/**
 * How the lists that tasks of equal priority share are walked when tasks join and
 * leave them.
 */
module Fairness {
  import opened Rings
  import opened Schedule

  lemma {:induction false} RemovedFromFirst<T>(a: seq<T>, b: seq<T>, x: T)
    requires x in a
    ensures Removed(a + b, x) == Removed(a, x) + b
    decreases |a|
  {
    assert (a + b)[1..] == a[1..] + b;
    if a[0] != x {
      RemovedFromFirst(a[1..], b, x);
    }
  }

  lemma {:induction false} RemovedFromSecond<T>(a: seq<T>, b: seq<T>, x: T)
    requires x !in a
    ensures Removed(a + b, x) == a + Removed(b, x)
    decreases |a|
  {
    if a == [] {
      assert a + b == b;
    } else {
      assert (a + b)[1..] == a[1..] + b;
      RemovedFromSecond(a[1..], b, x);
    }
  }

  lemma RemovedInside<T>(s: seq<T>, lo: nat, hi: nat, k: nat)
    requires Distinct(s) && lo <= k < hi <= |s|
    ensures Removed(s[lo..hi], s[k]) == s[lo..k] + s[k + 1..hi]
  {
    var part := s[lo..hi];
    RemovedAt(part, k - lo);
    assert part[..k - lo] == s[lo..k] && part[k - lo + 1..] == s[k + 1..hi];
  }

  /** A removal does not disturb the walk: the others are returned in the order they would have been. */
  lemma RemoveKeepsWalk<T>(r: Ring<T>, k: nat)
    requires r.Valid() && k < |r.items| && |r.items| > 1
    ensures r.RemoveAt(k).Walk(|r.items| - 1) == Removed(r.Walk(|r.items|), r.items[k])
  {
    RoundRobin(r);
    RoundRobin(r.RemoveAt(k));
    RotationWithout(r.items, r.index, k);
    if k >= r.index {
      RemovedAhead(r, k);
    } else {
      RemovedBehind(r, k);
    }
  }

  /** A rotated list without one of its items. */
  lemma RotationWithout<T>(s: seq<T>, i: nat, k: nat)
    requires Distinct(s) && i <= |s| && k < |s|
    ensures Removed(s[i..] + s[..i], s[k]) ==
            if k >= i then s[i..k] + s[k + 1..|s|] + s[..i] else s[i..] + (s[0..k] + s[k + 1..i])
  {
    if k >= i {
      assert s[i..|s|] == s[i..] && s[i..][k - i] == s[k];
      RemovedFromFirst(s[i..], s[..i], s[k]);
      RemovedInside(s, i, |s|, k);
    } else {
      assert s[0..i] == s[..i] && s[k] !in s[i..];
      RemovedFromSecond(s[i..], s[..i], s[k]);
      RemovedInside(s, 0, i, k);
    }
  }

  lemma RemovedAhead<T>(r: Ring<T>, k: nat)
    requires r.index <= k < |r.items|
    ensures var s, i := r.RemoveAt(k), r.index;
            s.index == i && s.items[i..] == r.items[i..k] + r.items[k + 1..|r.items|] && s.items[..i] == r.items[..i]
  {
  }

  lemma RemovedBehind<T>(r: Ring<T>, k: nat)
    requires k < r.index <= |r.items|
    ensures var s, i := r.RemoveAt(k), r.index;
            && s.index == i - 1 && s.items[i - 1..] == r.items[i..]
            && s.items[..i - 1] == r.items[0..k] + r.items[k + 1..i]
  {
  }

  /**
   * A task made ready runs after all that were ready at its priority, except that the
   * one that ran last there comes round after it.
   */
  lemma ReadiedComesLast(w: World, t: Task)
    requires ReadyLists(w) && t in w.priority && !IsReady(w, t)
    ensures var r, s := w.ready[w.priority[t]], AddReady(w, t).ready[w.priority[t]];
            && |s.items| == |r.items| + 1
            && s.Walk(|s.items|) ==
                 if r.index == 0 then r.items + [t]
                 else r.items[r.index..] + r.items[..r.index - 1] + [t, r.items[r.index - 1]]
  {
    InsertEndIsLast(w.ready[w.priority[t]], t);
  }
}
