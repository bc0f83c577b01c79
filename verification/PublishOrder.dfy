/**
 The order crates are published in: a depth-first visit that lists each crate
 after everything it depends on, or stops at a cycle.
 */
module PublishOrder {
  import opened Basics

  type Crate = string

  /** Each crate's dependencies in the order they are visited. */
  type Crates = map<Crate, seq<Crate>>

  /** Only crates of the workspace are listed, and none as its own dependency. */
  ghost predicate Closed(crates: Crates) {
    forall c, i :: c in crates && 0 <= i < |crates[c]| ==> crates[c][i] in crates && crates[c][i] != c
  }

  predicate Needs(crates: Crates, a: Crate, b: Crate) {
    a in crates && b in crates[a]
  }

  /** A chain of crates, each needing the next. */
  predicate Chain(crates: Crates, p: seq<Crate>) {
    forall i :: 0 <= i < |p| - 1 ==> Needs(crates, p[i], p[i + 1])
  }

  ghost predicate HasCycle(crates: Crates) {
    exists p :: IsCycle(crates, p)
  }

  predicate IsCycle(crates: Crates, p: seq<Crate>) {
    |p| >= 2 && p[0] == p[|p| - 1] && Chain(crates, p)
  }

  // ----- Orders -----

  predicate NoRepeats(order: seq<Crate>) {
    forall i, j :: 0 <= i < j < |order| ==> order[i] != order[j]
  }

  /** Everything a crate of the list needs comes before it. */
  ghost predicate NeedsComeFirst(crates: Crates, order: seq<Crate>) {
    forall i, d :: 0 <= i < |order| && Needs(crates, order[i], d) ==> d in order[..i]
  }

  /** Each crate once, after all it needs. */
  ghost predicate IsPublishOrder(crates: Crates, order: seq<Crate>) {
    (forall c :: c in order <==> c in crates) && NoRepeats(order) && NeedsComeFirst(crates, order)
  }

  lemma AppendCrate(crates: Crates, order: seq<Crate>, c: Crate)
    requires NoRepeats(order) && NeedsComeFirst(crates, order) && c !in order && forall d :: Needs(crates, c, d) ==>
             d in order
    ensures NoRepeats(order + [c]) && NeedsComeFirst(crates, order + [c])
  {
    var more := order + [c];
    forall i, d | 0 <= i < |more| && Needs(crates, more[i], d)
      ensures d in more[..i]
    {
      if i < |order| {
        assert more[..i] == order[..i];
      } else {
        assert more[..i] == order;
      }
    }
  }

  /** Where a crate stands in an order. */
  function At(order: seq<Crate>, c: Crate): (i: nat)
    requires c in order
    ensures i < |order| && order[i] == c
  {
    if order[|order| - 1] == c then |order| - 1 else At(order[..|order| - 1], c)
  }

  /** The closing check of the script cannot fail: every dependency stands before its dependent. */
  lemma DependenciesStandBefore(crates: Crates, order: seq<Crate>, c: Crate, d: Crate)
    requires IsPublishOrder(crates, order) && Needs(crates, c, d)
    ensures c in order && d in order && At(order, d) < At(order, c)
  {
    var i := At(order, c);
    var j :| 0 <= j < i && order[j] == d;
    assert At(order, d) == j;
  }

  lemma {:induction false} ChainGoesBack(crates: Crates, order: seq<Crate>, p: seq<Crate>, k: nat)
    requires IsPublishOrder(crates, order) && Chain(crates, p) && 0 < k < |p|
    ensures p[0] in order && p[k] in order && At(order, p[k]) < At(order, p[0])
    decreases k
  {
    hide IsPublishOrder;
    assert Needs(crates, p[k - 1], p[k]);
    DependenciesStandBefore(crates, order, p[k - 1], p[k]);
    if k > 1 {
      ChainGoesBack(crates, order, p, k - 1);
    }
  }

  /** With a cycle there is no order at all. */
  lemma OrderMeansNoCycle(crates: Crates, order: seq<Crate>)
    requires IsPublishOrder(crates, order)
    ensures !HasCycle(crates)
  {
    forall p
      ensures !IsCycle(crates, p)
    {
      if |p| >= 2 && Chain(crates, p) {
        ChainGoesBack(crates, order, p, |p| - 1);
      }
    }
  }

  // ----- The visit -----

  class Publisher {
    const crates: Crates
    var order: seq<Crate>
    var seen: set<Crate>
    var visiting: set<Crate>

    constructor (crates: Crates)
      ensures this.crates == crates && order == [] && seen == {} && visiting == {}
    {
      this.crates := crates;
      order, seen, visiting := [], {}, {};
    }

    /** What has been listed is in order, and what is being visited is not listed yet. */
    ghost predicate Valid()
      reads this
    {
      && Closed(crates) && NoRepeats(order) && NeedsComeFirst(crates, order)
      && (forall c :: c in order <==> c in seen)
      && seen <= crates.Keys && visiting <= crates.Keys && seen !! visiting
    }

    /** The crates being visited, outermost first, form a chain that ends at whoever needs `name`. */
    ghost predicate Stacked(stack: seq<Crate>, name: Crate)
      reads this
    {
      (forall c :: c in stack <==> c in visiting) && Chain(crates, stack + [name])
    }

    /** List a crate and all it needs; false when a cycle is found. */
    method Visit(name: Crate, ghost stack: seq<Crate>) returns (ok: bool)
      requires Valid() && name in crates && Stacked(stack, name)
      modifies this
      ensures !ok ==> HasCycle(crates)
      ensures ok ==> Valid() && visiting == old(visiting) && old(seen) <= seen && name in seen
      ensures ok ==> old(order) <= order
      decreases crates.Keys - visiting
    {
      if name in seen {
        return true;
      }
      if name in visiting {
        StackHoldsCycle(crates, stack, name);
        return false;
      }
      visiting := visiting + {name};
      ghost var inner := visiting;
      var deps := crates[name];
      for i := 0 to |deps|
        invariant Valid() && visiting == inner && old(seen) <= seen && old(order) <= order && name !in seen
        invariant forall j :: 0 <= j < i ==> deps[j] in seen
      {
        ChainGrows(crates, stack, name, deps[i]);
        ok := Visit(deps[i], stack + [name]);
        if !ok {
          return false;
        }
      }
      visiting := visiting - {name};
      seen := seen + {name};
      AppendCrate(crates, order, name);
      order := order + [name];
      return true;
    }

    /** Visit every crate. */
    method Publish(names: seq<Crate>) returns (r: Option<seq<Crate>>)
      requires Valid() && order == [] && visiting == {} && forall c :: c in names <==> c in crates
      modifies this
      ensures r.None? <==> HasCycle(crates)
      ensures r.Some? ==> IsPublishOrder(crates, r.value)
    {
      for i := 0 to |names|
        invariant Valid() && visiting == {} && forall j :: 0 <= j < i ==> names[j] in seen
      {
        var ok := Visit(names[i], []);
        if !ok {
          return None;
        }
      }
      assert forall c :: c in crates ==> c in names;
      OrderMeansNoCycle(crates, order);
      r := Some(order);
    }
  }

  lemma ChainGrows(crates: Crates, stack: seq<Crate>, name: Crate, dep: Crate)
    requires Chain(crates, stack + [name]) && Needs(crates, name, dep)
    ensures Chain(crates, stack + [name] + [dep])
  {
    var p := stack + [name];
    forall i | 0 <= i < |p + [dep]| - 1
      ensures Needs(crates, (p + [dep])[i], (p + [dep])[i + 1])
    {
      assert i < |p| - 1 ==> Needs(crates, p[i], p[i + 1]);
    }
  }

  /** A crate that is needed while it is being visited closes a cycle. */
  lemma StackHoldsCycle(crates: Crates, stack: seq<Crate>, name: Crate)
    requires Chain(crates, stack + [name]) && name in stack
    ensures HasCycle(crates)
  {
    var k :| 0 <= k < |stack| && stack[k] == name;
    var p := (stack + [name])[k..];
    forall i | 0 <= i < |p| - 1
      ensures Needs(crates, p[i], p[i + 1])
    {
      assert p[i] == (stack + [name])[k + i] && p[i + 1] == (stack + [name])[k + i + 1];
    }
    assert IsCycle(crates, p);
  }
}
