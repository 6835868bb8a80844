/** A user's favorites list, used as an insertion-ordered set of tool ids. */
module Favorites {
  import opened UserStore

  /** No tool id occurs twice. */
  predicate NoDuplicates(l: seq<ToolId>)
  {
    forall i, j :: 0 <= i < j < |l| ==> l[i] != l[j]
  }

  /** `includes` then `push`: append `t` unless it is already there. */
  function Add(l: seq<ToolId>, t: ToolId): (r: seq<ToolId>)
    ensures forall x :: x in r <==> x in l || x == t
    ensures |l| <= |r| <= |l| + 1
    ensures r[..|l|] == l
    ensures t in l ==> r == l
    ensures t !in l ==> r == l + [t]
  {
    if t in l then l else l + [t]
  }

  /** `filter(id => id !== t)`: drop every occurrence of `t`, keep the rest in order. */
  function Remove(l: seq<ToolId>, t: ToolId): (r: seq<ToolId>)
    ensures t !in r
    ensures forall x :: x != t ==> (x in r <==> x in l)
    ensures |r| <= |l|
  {
    if |l| == 0 then []
    else
      assert l == [l[0]] + l[1..];
      (if l[0] == t then [] else [l[0]]) + Remove(l[1..], t)
  }

  /** Adding an id already added changes nothing. */
  lemma AddIdempotent(l: seq<ToolId>, t: ToolId)
    ensures Add(Add(l, t), t) == Add(l, t)
  {
  }

  /** Add never introduces a duplicate. */
  lemma AddKeepsNoDuplicates(l: seq<ToolId>, t: ToolId)
    requires NoDuplicates(l)
    ensures NoDuplicates(Add(l, t))
  {
  }

  /** Removal distributes over concatenation: it works element by element and
      never reorders, which pins it down as an order-preserving filter. */
  lemma {:induction false} RemoveAppend(a: seq<ToolId>, b: seq<ToolId>, t: ToolId)
    ensures Remove(a + b, t) == Remove(a, t) + Remove(b, t)
  {
    if |a| == 0 {
      assert a + b == b;
    } else {
      assert (a + b)[1..] == a[1..] + b;
      RemoveAppend(a[1..], b, t);
    }
  }

  /** Removal sets the count of `t` to zero and keeps every other count. */
  lemma {:induction false} RemoveCounts(l: seq<ToolId>, t: ToolId)
    ensures multiset(Remove(l, t)) == multiset(l)[t := 0]
  {
    if |l| > 0 {
      RemoveCounts(l[1..], t);
      assert l == [l[0]] + l[1..];
      assert multiset(l) == multiset([l[0]]) + multiset(l[1..]);
    }
  }

  /** Removal of a single element. */
  lemma RemoveSingleton(x: ToolId, t: ToolId)
    ensures Remove([x], t) == if x == t then [] else [x]
  {
    assert [x][1..] == [];
  }

  /** Removing an id that is not in the list is a no-op. */
  lemma {:induction false} RemoveAbsent(l: seq<ToolId>, t: ToolId)
    requires t !in l
    ensures Remove(l, t) == l
  {
    if |l| > 0 {
      RemoveAbsent(l[1..], t);
      calc {
        Remove(l, t);
        [l[0]] + Remove(l[1..], t);
        [l[0]] + l[1..];
        l;
      }
    }
  }

  /** Removing twice is removing once. */
  lemma RemoveIdempotent(l: seq<ToolId>, t: ToolId)
    ensures Remove(Remove(l, t), t) == Remove(l, t)
  {
    RemoveAbsent(Remove(l, t), t);
  }

  /** Removing a freshly added id restores the list. */
  lemma RemoveUndoesAdd(l: seq<ToolId>, t: ToolId)
    requires t !in l
    ensures Remove(Add(l, t), t) == l
  {
    RemoveAppend(l, [t], t);
    RemoveSingleton(t, t);
    RemoveAbsent(l, t);
  }

  /** Removal keeps a duplicate-free list duplicate-free. */
  lemma {:induction false} RemoveKeepsNoDuplicates(l: seq<ToolId>, t: ToolId)
    requires NoDuplicates(l)
    ensures NoDuplicates(Remove(l, t))
  {
    if |l| > 0 {
      assert NoDuplicates(l[1..]) by {
        forall i, j | 0 <= i < j < |l[1..]| ensures l[1..][i] != l[1..][j] {
          assert l[1..][i] == l[i + 1] && l[1..][j] == l[j + 1];
        }
      }
      RemoveKeepsNoDuplicates(l[1..], t);
      assert l[0] !in l[1..] by {
        forall k | 0 <= k < |l[1..]| ensures l[1..][k] != l[0] {
          assert l[1..][k] == l[k + 1];
        }
      }
      var rest := Remove(l[1..], t);
      assert l[0] !in rest;
    }
  }
}
