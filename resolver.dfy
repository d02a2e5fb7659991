/** The dependency resolver: from one requested alert, an order-preserving
    depth-first walk over references that emits each entity after everything
    it references, skips entities already emitted, and fails on a cycle or on
    a reference to an entity the store does not define. */
module Resolver {
  import opened Config

  datatype Error =
    | Cycle(path: seq<Key>)                        // from the entity's first occurrence back to itself
    | Undefined(referrer: Option<Key>, missing: Key) // referrer is None when the root itself is missing

  datatype Result<+T> = Ok(value: T) | Err(error: Error)

  /** The keys on a sequence, as a set. */
  function Elems(s: seq<Key>): set<Key>
  {
    set x | x in s
  }

  /** Position of the first occurrence of k in s. */
  function IndexOf(s: seq<Key>, k: Key): (i: nat)
    requires k in s
    ensures i < |s| && s[i] == k
    ensures forall j :: 0 <= j < i ==> s[j] != k
  {
    if s[0] == k then 0 else 1 + IndexOf(s[1..], k)
  }

  /** A path of at least two steps that ends where it starts. */
  predicate ClosedLoop(p: seq<Key>)
  {
    |p| >= 2 && p[0] == p[|p| - 1]
  }

  /** Visits k, referenced by `from`. `path` is the open recursion path (the
      entities in progress) and `done` the entities emitted so far, in order.
      A success extends `done`. */
  function Visit(st: Store, k: Key, from: Option<Key>, path: seq<Key>, done: seq<Key>): Result<seq<Key>>
    decreases st.Keys - Elems(path), 0, 0
  {
    if k in done then Ok(done)
    else if k in path then Err(Cycle(path[IndexOf(path, k)..] + [k]))
    else if k !in st then Err(Undefined(from, k))
    else
      assert Elems(path + [k]) == Elems(path) + {k};
      match VisitRefs(st, k, st[k].refs, path + [k], done)
      case Err(e) => Err(e)
      case Ok(out) => Ok(out + [k])
  }

  /** Visits the references `refs` of `owner` in declaration order. */
  function VisitRefs(st: Store, owner: Key, refs: seq<Key>, path: seq<Key>, done: seq<Key>): Result<seq<Key>>
    decreases st.Keys - Elems(path), 1, |refs|
  {
    if refs == [] then Ok(done)
    else match Visit(st, refs[0], Some(owner), path, done)
      case Err(e) => Err(e)
      case Ok(mid) => VisitRefs(st, owner, refs[1..], path, mid)
  }

  /** No key occurs twice. */
  ghost predicate NoDup(s: seq<Key>)
  {
    forall i, j :: 0 <= i < j < |s| ==> s[i] != s[j]
  }

  /** Every entity of s is defined, and every entity it references occurs
      earlier in s. */
  ghost predicate DepsFirst(st: Store, s: seq<Key>)
  {
    forall i :: 0 <= i < |s| ==> s[i] in st && forall r :: r in st[s[i]].refs ==> r in s[..i]
  }

  /** A set of keys that contains every reference of each defined entity in it.
      An entity is reachable from a root exactly when it lies in every such set
      that holds the root. */
  ghost predicate RefClosed(st: Store, c: set<Key>)
  {
    forall k :: k in c && k in st ==> forall r :: r in st[k].refs ==> r in c
  }

  /** Each step of p follows a reference of a defined entity. */
  ghost predicate IsRefPath(st: Store, p: seq<Key>)
  {
    forall i :: 0 <= i < |p| - 1 ==> p[i] in st && p[i + 1] in st[p[i]].refs
  }

  /** A reference path that comes back to where it started. */
  ghost predicate IsCycle(st: Store, p: seq<Key>)
  {
    ClosedLoop(p) && IsRefPath(st, p)
  }

  /** The resolution of one alert, computed with fresh visiting state. */
  function Resolve(st: Store, root: Key): (r: Result<seq<Key>>)
    ensures r.Ok? ==> |r.value| > 0 && r.value[|r.value| - 1] == root
    ensures r.Ok? ==> forall k :: k in r.value ==> k in st
  {
    VisitOk(st, root, None, [], []);
    Visit(st, root, None, [], [])
  }

  // ---------------------------------------------------------------------
  // Success: the emitted sequence grows, stays duplicate-free and keeps
  // every dependency before its dependents.

  lemma {:induction false} VisitOk(st: Store, k: Key, from: Option<Key>, path: seq<Key>, done: seq<Key>)
    requires NoDup(done) && DepsFirst(st, done)
    ensures Visit(st, k, from, path, done).Ok? ==>
      var out := Visit(st, k, from, path, done).value;
      && done <= out && NoDup(out) && DepsFirst(st, out) && k in out
      && (forall x :: x in out[|done|..] ==> x !in path)
    decreases st.Keys - Elems(path), 0, 0
  {
    if k !in done && k !in path && k in st {
      assert Elems(path + [k]) == Elems(path) + {k};
      VisitRefsOk(st, k, st[k].refs, path + [k], done);
      var res := VisitRefs(st, k, st[k].refs, path + [k], done);
      if res.Ok? {
        var out := res.value;
        var out' := out + [k];
        forall i | 0 <= i < |out'|
          ensures out'[i] in st && forall r :: r in st[out'[i]].refs ==> r in out'[..i]
        {
          if i < |out| {
            assert out'[..i] == out[..i];
          } else {
            assert out'[..i] == out;
          }
        }
        assert out'[|done|..] == out[|done|..] + [k];
      }
    }
  }

  lemma {:induction false} VisitRefsOk(st: Store, owner: Key, refs: seq<Key>, path: seq<Key>, done: seq<Key>)
    requires NoDup(done) && DepsFirst(st, done)
    ensures VisitRefs(st, owner, refs, path, done).Ok? ==>
      var out := VisitRefs(st, owner, refs, path, done).value;
      && done <= out && NoDup(out) && DepsFirst(st, out)
      && (forall r :: r in refs ==> r in out)
      && (forall x :: x in out[|done|..] ==> x !in path)
    decreases st.Keys - Elems(path), 1, |refs|
  {
    if refs != [] {
      VisitOk(st, refs[0], Some(owner), path, done);
      var first := Visit(st, refs[0], Some(owner), path, done);
      if first.Ok? {
        var mid := first.value;
        VisitRefsOk(st, owner, refs[1..], path, mid);
        var res := VisitRefs(st, owner, refs[1..], path, mid);
        if res.Ok? {
          var out := res.value;
          assert out[..|mid|] == mid;
          assert out[|done|..] == mid[|done|..] + out[|mid|..];
          forall r | r in refs ensures r in out {
            if r != refs[0] {
              assert r in refs[1..];
            }
          }
        }
      }
    }
  }

  /** Dependencies first, transitively: in a successful resolution every
      reference of an entity comes before it, no entity repeats, and the
      requested alert is last. */
  lemma ResolveOrdered(st: Store, root: Key)
    requires Resolve(st, root).Ok?
    ensures NoDup(Resolve(st, root).value)
    ensures DepsFirst(st, Resolve(st, root).value)
  {
    VisitOk(st, root, None, [], []);
  }

  // ---------------------------------------------------------------------
  // Scope: nothing outside a reference-closed set holding the root is ever
  // touched, whether the resolution succeeds or fails.

  lemma {:induction false} VisitWithin(st: Store, k: Key, from: Option<Key>, path: seq<Key>, done: seq<Key>, c: set<Key>)
    requires RefClosed(st, c) && k in c
    requires from.Some? ==> from.value in c
    requires forall x :: x in path ==> x in c
    requires forall x :: x in done ==> x in c
    ensures match Visit(st, k, from, path, done)
      case Ok(out) => forall x :: x in out ==> x in c
      case Err(Cycle(p)) => forall x :: x in p ==> x in c
      case Err(Undefined(r, m)) => m in c && (r.Some? ==> r.value in c)
    decreases st.Keys - Elems(path), 0, 0
  {
    if k !in done && k in path {
      var p := path[IndexOf(path, k)..] + [k];
      forall x | x in p ensures x in c {
        if x != k {
          assert x in path;
        }
      }
    } else if k !in done && k in st {
      assert Elems(path + [k]) == Elems(path) + {k};
      VisitRefsWithin(st, k, st[k].refs, path + [k], done, c);
    }
  }

  lemma {:induction false} VisitRefsWithin(st: Store, owner: Key, refs: seq<Key>, path: seq<Key>, done: seq<Key>, c: set<Key>)
    requires RefClosed(st, c) && owner in c
    requires forall r :: r in refs ==> r in c
    requires forall x :: x in path ==> x in c
    requires forall x :: x in done ==> x in c
    ensures match VisitRefs(st, owner, refs, path, done)
      case Ok(out) => forall x :: x in out ==> x in c
      case Err(Cycle(p)) => forall x :: x in p ==> x in c
      case Err(Undefined(r, m)) => m in c && (r.Some? ==> r.value in c)
    decreases st.Keys - Elems(path), 1, |refs|
  {
    if refs != [] {
      VisitWithin(st, refs[0], Some(owner), path, done, c);
      var first := Visit(st, refs[0], Some(owner), path, done);
      if first.Ok? {
        VisitRefsWithin(st, owner, refs[1..], path, first.value, c);
      }
    }
  }

  /** Scope isolation: resolving an alert never includes (nor blames) an
      entity unreachable from it, however many other entities share the store. */
  lemma ResolveWithin(st: Store, root: Key, c: set<Key>)
    requires RefClosed(st, c) && root in c
    ensures match Resolve(st, root)
      case Ok(out) => forall x :: x in out ==> x in c
      case Err(Cycle(p)) => forall x :: x in p ==> x in c
      case Err(Undefined(r, m)) => m in c && (r.Some? ==> r.value in c)
  {
    VisitWithin(st, root, None, [], [], c);
  }

  /** Completeness of a resolution: the entities it emits are themselves
      closed under references, so every entity reachable from the root is in it. */
  lemma {:induction false} ResolveClosed(st: Store, root: Key)
    requires Resolve(st, root).Ok?
    ensures root in Resolve(st, root).value
    ensures RefClosed(st, Elems(Resolve(st, root).value))
  {
    var out := Resolve(st, root).value;
    ResolveOrdered(st, root);
    forall k | k in Elems(out) && k in st
      ensures forall r :: r in st[k].refs ==> r in Elems(out)
    {
      var i :| 0 <= i < |out| && out[i] == k;
      forall r | r in st[k].refs ensures r in Elems(out) {
        assert r in out[..i];
      }
    }
  }

  // ---------------------------------------------------------------------
  // Failures are genuine: a reported cycle is a cycle of references and a
  // reported undefined reference is a reference to a key the store lacks.

  lemma {:induction false} VisitErrors(st: Store, k: Key, from: Option<Key>, path: seq<Key>, done: seq<Key>)
    requires IsRefPath(st, path)
    requires path == [] ==> from == None
    requires path != [] ==> from == Some(path[|path| - 1]) && path[|path| - 1] in st && k in st[path[|path| - 1]].refs
    ensures match Visit(st, k, from, path, done)
      case Ok(_) => true
      case Err(Cycle(p)) => IsCycle(st, p)
      case Err(Undefined(None, m)) => path == [] && m == k && m !in st
      case Err(Undefined(Some(o), m)) => o in st && m in st[o].refs && m !in st
    decreases st.Keys - Elems(path), 0, 0
  {
    if k !in done && k in path {
      var i := IndexOf(path, k);
      var p := path[i..] + [k];
      forall j | 0 <= j < |p| - 1 ensures p[j] in st && p[j + 1] in st[p[j]].refs {
        if j < |p| - 2 {
          assert p[j] == path[i + j] && p[j + 1] == path[i + j + 1];
        }
      }
    } else if k !in done && k in st {
      assert Elems(path + [k]) == Elems(path) + {k};
      var path' := path + [k];
      assert IsRefPath(st, path') by {
        forall j | 0 <= j < |path'| - 1 ensures path'[j] in st && path'[j + 1] in st[path'[j]].refs {
          if j < |path| - 1 {
            assert path'[j] == path[j] && path'[j + 1] == path[j + 1];
          }
        }
      }
      VisitRefsErrors(st, k, st[k].refs, path', done);
    }
  }

  lemma {:induction false} VisitRefsErrors(st: Store, owner: Key, refs: seq<Key>, path: seq<Key>, done: seq<Key>)
    requires IsRefPath(st, path)
    requires path != [] && path[|path| - 1] == owner && owner in st
    requires forall r :: r in refs ==> r in st[owner].refs
    ensures match VisitRefs(st, owner, refs, path, done)
      case Ok(_) => true
      case Err(Cycle(p)) => IsCycle(st, p)
      case Err(Undefined(None, m)) => false
      case Err(Undefined(Some(o), m)) => o in st && m in st[o].refs && m !in st
    decreases st.Keys - Elems(path), 1, |refs|
  {
    if refs != [] {
      VisitErrors(st, refs[0], Some(owner), path, done);
      var first := Visit(st, refs[0], Some(owner), path, done);
      if first.Ok? {
        VisitRefsErrors(st, owner, refs[1..], path, first.value);
      }
    }
  }

  /** A failed resolution names a real defect: a cycle of references, an
      entity referring to a key the store does not define, or a root that is
      not defined at all. */
  lemma ResolveErrors(st: Store, root: Key)
    ensures match Resolve(st, root)
      case Ok(_) => true
      case Err(Cycle(p)) => IsCycle(st, p)
      case Err(Undefined(None, m)) => m == root && m !in st
      case Err(Undefined(Some(o), m)) => o in st && m in st[o].refs && m !in st
  {
    VisitErrors(st, root, None, [], []);
  }

  /** In a dependencies-first sequence, following a reference path from an
      element of the sequence moves strictly towards its front. */
  lemma {:induction false} RefPathDescends(st: Store, s: seq<Key>, p: seq<Key>)
    requires NoDup(s) && DepsFirst(st, s)
    requires IsRefPath(st, p) && |p| >= 2 && p[0] in s
    ensures p[|p| - 1] in s && IndexOf(s, p[|p| - 1]) < IndexOf(s, p[0])
    decreases |p|
  {
    var i := IndexOf(s, p[0]);
    assert p[1] in s[..i];
    var j :| 0 <= j < i && s[j] == p[1];
    assert IndexOf(s, p[1]) == j by {
      var j' := IndexOf(s, p[1]);
      assert s[j'] == s[j];
    }
    if |p| > 2 {
      var q := p[1..];
      assert IsRefPath(st, q) by {
        forall t | 0 <= t < |q| - 1 ensures q[t] in st && q[t + 1] in st[q[t]].refs {
          assert q[t] == p[t + 1] && q[t + 1] == p[t + 2];
        }
      }
      RefPathDescends(st, s, q);
    }
  }

  /** A successful resolution rules out every cycle through the entities it
      emits, hence every cycle reachable from the root. */
  lemma ResolvedAcyclic(st: Store, root: Key, p: seq<Key>)
    requires Resolve(st, root).Ok?
    requires IsRefPath(st, p) && |p| >= 2 && p[0] in Resolve(st, root).value
    ensures p[0] != p[|p| - 1]
  {
    ResolveOrdered(st, root);
    RefPathDescends(st, Resolve(st, root).value, p);
  }

  // ---------------------------------------------------------------------
  // When resolution cannot fail.

  /** Every reference of the store names an entity of the store. */
  ghost predicate RefsDefined(st: Store)
  {
    forall k, r :: k in st && r in st[k].refs ==> r in st
  }

  /** rank gives every defined entity of c a rank above those of all its
      references. */
  ghost predicate RankedWithin(st: Store, rank: map<Key, nat>, c: set<Key>)
  {
    forall k :: k in c && k in st ==> k in rank && forall r :: r in st[k].refs ==> r in rank && rank[r] < rank[k]
  }

  /** rank gives every entity a rank above those of all its references. */
  ghost predicate Ranked(st: Store, rank: map<Key, nat>)
  {
    RankedWithin(st, rank, st.Keys)
  }

  /** Along a reference path through entities ranked within c the rank
      strictly falls. */
  lemma {:induction false} RankedPathDescends(st: Store, rank: map<Key, nat>, c: set<Key>, p: seq<Key>)
    requires RankedWithin(st, rank, c) && IsRefPath(st, p) && |p| >= 2
    requires forall x :: x in p ==> x in c
    ensures p[0] in rank && p[|p| - 1] in rank && rank[p[|p| - 1]] < rank[p[0]]
    decreases |p|
  {
    assert p[0] in c && p[1] in c;
    if |p| > 2 {
      assert IsRefPath(st, p[1..]) by {
        forall i | 0 <= i < |p| - 2 ensures p[1..][i] in st && p[1..][i + 1] in st[p[1..][i]].refs {
          assert p[1..][i] == p[i + 1] && p[1..][i + 1] == p[i + 2];
        }
      }
      RankedPathDescends(st, rank, c, p[1..]);
    }
  }

  /** Only what the root reaches matters: when some reference-closed set
      holding the root is defined and ranked, the root resolves, whatever
      broken entities lie outside that set. */
  lemma ResolveSucceedsWithin(st: Store, rank: map<Key, nat>, root: Key, c: set<Key>)
    requires RefClosed(st, c) && root in c
    requires forall k :: k in c ==> k in st
    requires RankedWithin(st, rank, c)
    ensures Resolve(st, root).Ok?
  {
    ResolveErrors(st, root);
    ResolveWithin(st, root, c);
    if Resolve(st, root).Err? && Resolve(st, root).error.Cycle? {
      RankedPathDescends(st, rank, c, Resolve(st, root).error.path);
    }
  }

  /** A store whose references are all defined and which can be ranked
      resolves every one of its entities. */
  lemma ResolveSucceeds(st: Store, rank: map<Key, nat>, root: Key)
    requires root in st && RefsDefined(st) && Ranked(st, rank)
    ensures Resolve(st, root).Ok?
  {
    ResolveSucceedsWithin(st, rank, root, st.Keys);
  }

  // ---------------------------------------------------------------------
  // The two failures, on the smallest stores that show them.

  /** a depends on b and b on a: resolving a reports the cycle from a's
      first occurrence back to a. */
  lemma CycleReported()
    ensures var a, b := Key(Alert, "a"), Key(Alert, "b");
      Resolve(map[a := Entity("", [b]), b := Entity("", [a])], a) == Err(Cycle([a, b, a]))
  {
    var a, b := Key(Alert, "a"), Key(Alert, "b");
    var st := map[a := Entity("", [b]), b := Entity("", [a])];
    var e := Err(Cycle([a, b, a]));
    assert Visit(st, a, Some(b), [a, b], []) == e by {
      assert IndexOf([a, b], a) == 0;
      assert [a, b][0..] + [a] == [a, b, a];
    }
    assert VisitRefs(st, b, [a], [a, b], []) == e;
    assert Visit(st, b, Some(a), [a], []) == e by {
      assert [a] + [b] == [a, b];
    }
    assert VisitRefs(st, a, [b], [a], []) == e;
    assert Visit(st, a, None, [], []) == e by {
      assert [] + [a] == [a];
    }
  }

  /** c depends on x, which the store does not define: resolving c blames
      c for the missing x. */
  lemma UndefinedReported()
    ensures var c, x := Key(Alert, "c"), Key(Alert, "x");
      Resolve(map[c := Entity("", [x])], c) == Err(Undefined(Some(c), x))
  {
    var c, x := Key(Alert, "c"), Key(Alert, "x");
    var st := map[c := Entity("", [x])];
    var e := Err(Undefined(Some(c), x));
    assert Visit(st, x, Some(c), [c], []) == e;
    assert VisitRefs(st, c, [x], [c], []) == e;
    assert Visit(st, c, None, [], []) == e by {
      assert [] + [c] == [c];
    }
  }
}
