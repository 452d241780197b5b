/** Enumeration of every transitive subclass of a class, depth first, each
    class once. A class hierarchy is given by each class's direct
    subclasses, in the order the runtime lists them. */
module Subclasses {

  type Class = string

  /** Direct subclasses per class; a class that is not a key has none. */
  type Hierarchy = map<Class, seq<Class>>

  function Children(h: Hierarchy, c: Class): seq<Class> {
    if c in h then h[c] else []
  }

  /** Every class that occurs in the hierarchy as a subclass or a key. */
  function Classes(h: Hierarchy): set<Class> {
    h.Keys + (set p, c | p in h && c in h[p] :: c)
  }

  /** A chain of classes, each a direct subclass of the one before. */
  ghost predicate Chain(h: Hierarchy, p: seq<Class>) {
    forall i :: 0 <= i < |p| - 1 ==> p[i + 1] in Children(h, p[i])
  }

  /** `b` is a transitive subclass of `a`: a chain of at least one step
      leads from `a` down to `b`. */
  ghost predicate Descendant(h: Hierarchy, a: Class, b: Class) {
    exists p :: |p| >= 2 && Chain(h, p) && p[0] == a && p[|p| - 1] == b
  }

  predicate Distinct(s: seq<Class>) {
    forall i, j :: 0 <= i < j < |s| ==> s[i] != s[j]
  }

  /** The generator's state after a walk: the classes yielded, in order, and
      the classes seen so far. */
  datatype Walk = Walk(out: seq<Class>, seen: set<Class>)

  lemma StrictSubsetSmaller<T>(a: set<T>, b: set<T>)
    requires a < b
    ensures |a| < |b|
  {
    assert b == a + (b - a);
  }

  /** The direct subclasses of any class belong to the hierarchy. */
  lemma ChildrenInClasses(h: Hierarchy, c: Class)
    ensures forall x :: x in Children(h, c) ==> x in Classes(h)
  {
    forall x | x in Children(h, c) ensures x in Classes(h) {
      assert c in h;
    }
  }

  /** Marking one more class of the hierarchy shrinks the unseen part. */
  lemma UnseenShrinks(h: Hierarchy, seen: set<Class>, sub: Class, later: set<Class>)
    requires sub in Classes(h) && sub !in seen
    requires seen + {sub} <= later
    ensures |Classes(h) - later| < |Classes(h) - seen|
  {
    assert Classes(h) - later < Classes(h) - seen by {
      assert sub in Classes(h) - seen;
    }
    StrictSubsetSmaller(Classes(h) - later, Classes(h) - seen);
  }

  /** Yielding a fresh class, then the classes marked below it, then classes
      that were not yet marked, yields no class twice. */
  lemma DistinctJoin(sub: Class, a: seq<Class>, b: seq<Class>, marked: set<Class>)
    requires Distinct(a) && Distinct(b)
    requires sub !in a
    requires sub in marked && forall x :: x in a ==> x in marked
    requires forall x :: x in b ==> x !in marked
    ensures Distinct([sub] + a + b)
  {
    var out := [sub] + a + b;
    forall i, j | 0 <= i < j < |out| ensures out[i] != out[j] {
      if i == 0 && j <= |a| {
        assert out[j] == a[j - 1];
      } else if i == 0 {
        assert out[j] == b[j - 1 - |a|] && b[j - 1 - |a|] in b;
      } else if i <= |a| && j > |a| {
        assert out[i] == a[i - 1] && a[i - 1] in a;
        assert out[j] == b[j - 1 - |a|] && b[j - 1 - |a|] in b;
      } else if i > |a| {
        assert out[i] == b[i - 1 - |a|];
        assert out[j] == b[j - 1 - |a|];
      } else {
        assert out[i] == a[i - 1];
        assert out[j] == a[j - 1];
      }
    }
  }

  /** The recursive generator, for a list `subs` of direct subclasses and the
      set `seen` shared by the whole enumeration: each class not yet seen is
      marked, yielded, and followed by its own subclasses. */
  function Visit(h: Hierarchy, subs: seq<Class>, seen: set<Class>): (w: Walk)
    requires forall x :: x in subs ==> x in Classes(h)
    ensures forall x :: x in w.seen <==> x in seen || x in w.out
    ensures forall x :: x in w.out ==> x !in seen
    ensures Distinct(w.out)
    decreases |Classes(h) - seen|, |subs|
  {
    if |subs| == 0 then Walk([], seen)
    else
      var sub := subs[0];
      if sub in seen then Visit(h, subs[1..], seen)
      else
        UnseenShrinks(h, seen, sub, seen + {sub});
        ChildrenInClasses(h, sub);
        var inner := Visit(h, Children(h, sub), seen + {sub});
        UnseenShrinks(h, seen, sub, inner.seen);
        var rest := Visit(h, subs[1..], inner.seen);
        DistinctJoin(sub, inner.out, rest.out, inner.seen);
        Walk([sub] + inner.out + rest.out, rest.seen)
  }

  /** Every child of a seen class that is not on the recursion stack has
      been seen too. */
  ghost predicate Closed(h: Hierarchy, seen: set<Class>, stack: set<Class>) {
    forall x, y :: x in seen && x !in stack && y in Children(h, x) ==> y in seen
  }

  /** The walk marks every class of `subs`, and keeps the seen set closed
      under direct subclasses for every class no longer on the stack. */
  lemma {:induction false} VisitComplete(h: Hierarchy, subs: seq<Class>, seen: set<Class>, stack: set<Class>)
    requires forall x :: x in subs ==> x in Classes(h)
    requires Closed(h, seen, stack)
    ensures forall x :: x in subs ==> x in Visit(h, subs, seen).seen
    ensures Closed(h, Visit(h, subs, seen).seen, stack)
    decreases |Classes(h) - seen|, |subs|
  {
    if |subs| > 0 {
      var sub := subs[0];
      if sub in seen {
        VisitComplete(h, subs[1..], seen, stack);
      } else {
        UnseenShrinks(h, seen, sub, seen + {sub});
        ChildrenInClasses(h, sub);
        VisitComplete(h, Children(h, sub), seen + {sub}, stack + {sub});
        var inner := Visit(h, Children(h, sub), seen + {sub});
        PopStack(h, inner.seen, stack, sub);
        UnseenShrinks(h, seen, sub, inner.seen);
        VisitComplete(h, subs[1..], inner.seen, stack);
      }
    }
  }

  /** Once all of a class's subclasses are marked, it can leave the stack. */
  lemma PopStack(h: Hierarchy, seen: set<Class>, stack: set<Class>, sub: Class)
    requires Closed(h, seen, stack + {sub})
    requires forall x :: x in Children(h, sub) ==> x in seen
    ensures Closed(h, seen, stack)
  {
    forall x, i | x in seen && x !in stack && 0 <= i < |Children(h, x)|
      ensures Children(h, x)[i] in seen
    {
      if x == sub {
        assert Children(h, x)[i] in Children(h, sub);
      }
    }
  }

  /** A chain prefixed with a class it descends from is still a chain. */
  lemma ChainCons(h: Hierarchy, a: Class, p: seq<Class>)
    requires Chain(h, p) && |p| >= 1 && p[0] in Children(h, a)
    ensures Chain(h, [a] + p)
  {
    var q := [a] + p;
    forall i | 0 <= i < |q| - 1 ensures q[i + 1] in Children(h, q[i]) {
      if i > 0 {
        assert q[i] == p[i - 1] && q[i + 1] == p[i];
      }
    }
  }

  /** A class descends from the parent of any class it is or descends from. */
  lemma DescendantViaChild(h: Hierarchy, a: Class, c: Class, x: Class)
    requires c in Children(h, a)
    requires c == x || Descendant(h, c, x)
    ensures Descendant(h, a, x)
  {
    if c == x {
      var p := [a, x];
      assert Chain(h, p);
      assert p[0] == a && p[|p| - 1] == x;
    } else {
      var p :| |p| >= 2 && Chain(h, p) && p[0] == c && p[|p| - 1] == x;
      ChainCons(h, a, p);
      var q := [a] + p;
      assert q[0] == a && q[|q| - 1] == x;
    }
  }

  /** `x` is one of `subs` or descends from one of them. */
  ghost predicate Below(h: Hierarchy, subs: seq<Class>, x: Class) {
    exists j :: 0 <= j < |subs| && (subs[j] == x || Descendant(h, subs[j], x))
  }

  lemma BelowTail(h: Hierarchy, subs: seq<Class>, x: Class)
    requires |subs| > 0 && Below(h, subs[1..], x)
    ensures Below(h, subs, x)
  {
    var j :| 0 <= j < |subs[1..]| && (subs[1..][j] == x || Descendant(h, subs[1..][j], x));
    assert subs[j + 1] == subs[1..][j];
  }

  /** Everything the walk yields is one of `subs` or descends from one. */
  lemma {:induction false} VisitSound(h: Hierarchy, subs: seq<Class>, seen: set<Class>, x: Class)
    requires forall y :: y in subs ==> y in Classes(h)
    requires x in Visit(h, subs, seen).out
    ensures Below(h, subs, x)
    decreases |Classes(h) - seen|, |subs|
  {
    var sub := subs[0];
    if sub in seen {
      VisitSound(h, subs[1..], seen, x);
      BelowTail(h, subs, x);
    } else {
      UnseenShrinks(h, seen, sub, seen + {sub});
      ChildrenInClasses(h, sub);
      var inner := Visit(h, Children(h, sub), seen + {sub});
      UnseenShrinks(h, seen, sub, inner.seen);
      var rest := Visit(h, subs[1..], inner.seen);
      assert Visit(h, subs, seen).out == [sub] + inner.out + rest.out;
      if x == sub {
        assert subs[0] == x;
      } else if x in inner.out {
        VisitSound(h, Children(h, sub), seen + {sub}, x);
        var kids := Children(h, sub);
        var j :| 0 <= j < |kids| && (kids[j] == x || Descendant(h, kids[j], x));
        DescendantViaChild(h, sub, kids[j], x);
        assert subs[0] == sub;
      } else {
        VisitSound(h, subs[1..], inner.seen, x);
        BelowTail(h, subs, x);
      }
    }
  }

  /** A chain that enters a closed set stays in it. */
  lemma {:induction false} ChainStaysInClosed(h: Hierarchy, s: set<Class>, p: seq<Class>, k: nat)
    requires Closed(h, s, {}) && Chain(h, p)
    requires 1 <= k < |p| && p[1] in s
    ensures p[k] in s
  {
    if k > 1 {
      ChainStaysInClosed(h, s, p, k - 1);
      assert p[k] in Children(h, p[k - 1]);
    }
  }

  /** What the walk from the direct subclasses of `a` yields descends
      from `a`. */
  lemma RootVisitSound(h: Hierarchy, a: Class, x: Class)
    requires x in Visit(h, Children(h, a), {}).out
    ensures Descendant(h, a, x)
  {
    ChildrenInClasses(h, a);
    VisitSound(h, Children(h, a), {}, x);
    var kids := Children(h, a);
    var j :| 0 <= j < |kids| && (kids[j] == x || Descendant(h, kids[j], x));
    DescendantViaChild(h, a, kids[j], x);
  }

  /** Every descendant of `a` is yielded by the walk from its direct
      subclasses. */
  lemma RootVisitComplete(h: Hierarchy, a: Class, x: Class)
    requires Descendant(h, a, x)
    ensures x in Visit(h, Children(h, a), {}).out
  {
    ChildrenInClasses(h, a);
    var w := Visit(h, Children(h, a), {});
    VisitComplete(h, Children(h, a), {}, {});
    var p: seq<Class> :| |p| >= 2 && Chain(h, p) && p[0] == a && p[|p| - 1] == x;
    assert p[1] in Children(h, a);
    ChainStaysInClosed(h, w.seen, p, |p| - 1);
  }

  /** `itersubclasses(a)`: every transitive subclass of `a`, each exactly
      once, in depth-first pre-order. */
  function IterSubclasses(h: Hierarchy, a: Class): (r: seq<Class>)
    ensures Distinct(r)
    ensures forall x :: x in r <==> Descendant(h, a, x)
  {
    ChildrenInClasses(h, a);
    var w := Visit(h, Children(h, a), {});
    forall x ensures x in w.out <==> Descendant(h, a, x) {
      if x in w.out {
        RootVisitSound(h, a, x);
      }
      if Descendant(h, a, x) {
        RootVisitComplete(h, a, x);
      }
    }
    w.out
  }

  /** A class is among its own subclasses only if the hierarchy has a cycle
      through it, which a Python class hierarchy never has. */
  lemma ExcludesItself(h: Hierarchy, a: Class)
    ensures a in IterSubclasses(h, a) <==> Descendant(h, a, a)
  {
  }

  /** The test hierarchy: B and C subclass A, D subclasses C. */
  function TestTree(): Hierarchy {
    map["A" := ["B", "C"], "C" := ["D"]]
  }

  lemma TestTreeChildren()
    ensures Children(TestTree(), "A") == ["B", "C"] && Children(TestTree(), "C") == ["D"]
    ensures Children(TestTree(), "B") == [] && Children(TestTree(), "D") == []
    ensures forall x :: x in ["B", "C", "D"] ==> x in Classes(TestTree())
  {
    ChildrenInClasses(TestTree(), "A");
    ChildrenInClasses(TestTree(), "C");
  }

  /** The walk below C, once B is marked. */
  lemma TestTreeBelowC()
    ensures Visit(TestTree(), ["C"], {"B"}) == Walk(["C", "D"], {"B", "C", "D"})
  {
    var h := TestTree();
    TestTreeChildren();
    var wD := Visit(h, ["D"], {"B", "C"});
    assert Visit(h, [], {"B", "C", "D"}) == Walk([], {"B", "C", "D"});
    assert Visit(h, [], {"B", "C"}) == Walk([], {"B", "C"});
    assert wD == Walk(["D"], {"B", "C", "D"});
    assert {"B"} + {"C"} == {"B", "C"} && ["C"][1..] == [];
    assert Visit(h, ["C"], {"B"}) == Visit(h, [], wD.seen).(out := ["C"] + wD.out + []);
  }

  lemma TreeExample()
    ensures IterSubclasses(TestTree(), "A") == ["B", "C", "D"]
  {
    var h := TestTree();
    TestTreeChildren();
    TestTreeBelowC();
    assert Visit(h, [], {"B"}) == Walk([], {"B"});
    assert {} + {"B"} == {"B"} && ["B", "C"][1..] == ["C"] && ["B"][1..] == [];
    assert Visit(h, ["B"], {}) == Walk(["B"], {"B"});
    assert Visit(h, ["B", "C"], {}) == Walk(["B", "C", "D"], {"B", "C", "D"});
  }
}
