/** The category hierarchy: a trigger walks the ancestors of every new parent
    link, and deleting a category clears the links to it. */
module CategoryTree {
  import opened Common

  type Id = int
  type Tree = map<Id, Option<Id>>

  /** `SELECT parent_id ... WHERE id = x`: NULL also when there is no such row. */
  function ParentOf(t: Tree, x: Id): Option<Id> {
    if x in t then t[x] else None
  }

  /** The k-th ancestor of x, if the chain is that long. */
  function Up(t: Tree, x: Id, k: nat): Option<Id> {
    if k == 0 then Some(x)
    else
      var y := Up(t, x, k - 1);
      if y == None then None else ParentOf(t, y.value)
  }

  /** No category is its own proper ancestor. */
  ghost predicate Acyclic(t: Tree) {
    forall x, k: nat :: k >= 1 ==> Up(t, x, k) != Some(x)
  }

  /** The foreign key: every parent is a row. */
  ghost predicate Closed(t: Tree) {
    forall x :: x in t && t[x].Some? ==> t[x].value in t
  }

  /** id is p or one of p's ancestors. */
  ghost predicate Reaches(t: Tree, p: Id, id: Id) {
    exists k: nat :: Up(t, p, k) == Some(id)
  }

  // ── Paths ──────────────────────────────────────────────────────────────────

  lemma {:induction false} UpAdd(t: Tree, x: Id, j: nat, y: Id, k: nat)
    requires Up(t, x, j) == Some(y)
    ensures Up(t, x, j + k) == Up(t, y, k)
  {
    if k > 0 {
      UpAdd(t, x, j, y, k - 1);
    }
  }

  /** The first time a path meets id. */
  lemma {:induction false} FirstHit(t: Tree, x: Id, id: Id, k: nat) returns (m: nat)
    requires Up(t, x, k) == Some(id)
    ensures m <= k && Up(t, x, m) == Some(id)
    ensures forall j :: 0 <= j < m ==> Up(t, x, j) != Some(id)
  {
    m := 0;
    while Up(t, x, m) != Some(id)
      invariant m <= k && forall j :: 0 <= j < m ==> Up(t, x, j) != Some(id)
      decreases k - m
    {
      m := m + 1;
    }
  }

  /** Trees that differ only at id agree on a path until it leaves id. */
  lemma {:induction false} AgreeUntil(t: Tree, t': Tree, id: Id, x: Id, k: nat)
    requires forall y :: y != id ==> ParentOf(t, y) == ParentOf(t', y)
    requires forall j :: 0 <= j < k ==> Up(t, x, j) != Some(id)
    ensures Up(t, x, k) == Up(t', x, k)
  {
    if k > 0 {
      AgreeUntil(t, t', id, x, k - 1);
    }
  }

  /** Fewer links, fewer ancestors. */
  lemma {:induction false} FewerLinks(t: Tree, t': Tree, x: Id, k: nat)
    requires forall y :: ParentOf(t', y).Some? ==> ParentOf(t', y) == ParentOf(t, y)
    ensures Up(t', x, k).Some? ==> Up(t', x, k) == Up(t, x, k)
  {
    if k > 0 {
      FewerLinks(t, t', x, k - 1);
    }
  }

  lemma FewerLinksAcyclic(t: Tree, t': Tree)
    requires Acyclic(t) && forall y :: ParentOf(t', y).Some? ==> ParentOf(t', y) == ParentOf(t, y)
    ensures Acyclic(t')
  {
    forall x, k: nat | k >= 1
      ensures Up(t', x, k) != Some(x)
    {
      FewerLinks(t, t', x, k);
    }
  }

  // ── Linking ────────────────────────────────────────────────────────────────

  /** Giving id the parent p keeps the tree acyclic exactly when id is not p and
      not an ancestor of p. */
  lemma LinkAcyclicIff(t: Tree, id: Id, p: Id)
    requires Acyclic(t)
    ensures Acyclic(t[id := Some(p)]) <==> !Reaches(t, p, id)
  {
    var t' := t[id := Some(p)];
    if Reaches(t, p, id) {
      var k: nat :| Up(t, p, k) == Some(id);
      var m := FirstHit(t, p, id, k);
      AgreeUntil(t, t', id, p, m);
      OneUp(t', id, p);
      UpAdd(t', id, 1, p, m);
      assert Up(t', id, 1 + m) == Some(id);
    } else {
      forall x, k: nat | k >= 1
        ensures Up(t', x, k) != Some(x)
      {
        if Up(t', x, k) == Some(x) {
          NoNewCycle(t, id, p, x, k);
        }
      }
    }
  }

  lemma OneUp(t: Tree, x: Id, p: Id)
    requires ParentOf(t, x) == Some(p)
    ensures Up(t, x, 1) == Some(p)
  {
    assert Up(t, x, 0) == Some(x);
  }

  /** A cycle in the linked tree passes through the new link. */
  lemma NoNewCycle(t: Tree, id: Id, p: Id, x: Id, k: nat)
    requires Acyclic(t) && k >= 1 && Up(t[id := Some(p)], x, k) == Some(x)
    ensures Reaches(t, p, id)
  {
    var t' := t[id := Some(p)];
    if j :| 0 <= j < k && Up(t', x, j) == Some(id) {
      UpAdd(t', x, j, id, k - j);
      UpAdd(t', id, k - j, x, j);
      OneUp(t', id, p);
      UpAdd(t', id, 1, p, k - 1);
      var m := FirstHit(t', p, id, k - 1);
      AgreeUntil(t', t, id, p, m);
    } else {
      AgreeUntil(t', t, id, x, k);
    }
  }

  // ── The trigger function ───────────────────────────────────────────────────

  /** The ancestor walk: it terminates on every acyclic tree, and raises exactly
      when linking id under the given parent would close a cycle. */
  method CheckCategoryCycle(t: Tree, id: Id, parent: Option<Id>) returns (ok: bool)
    requires Acyclic(t)
    ensures parent.Some? ==> (ok <==> !Reaches(t, parent.value, id))
    ensures parent.Some? ==> (ok <==> Acyclic(t[id := parent]))
    ensures parent == None ==> ok
  {
    if parent == None {
      return true;
    }
    LinkAcyclicIff(t, id, parent.value);
    ok := Walk(t, id, parent.value);
  }

  method Walk(t: Tree, id: Id, p: Id) returns (ok: bool)
    requires Acyclic(t)
    ensures ok <==> !Reaches(t, p, id)
  {
    var current := Some(p);
    ghost var n: nat := 0;
    while current != None
      invariant current == Up(t, p, n)
      invariant Avoids(t, p, id, n)
      decreases Left(t, p, n)
    {
      if current.value == id {
        return false;
      }
      StepShrinks(t, p, n);
      current := ParentOf(t, current.value);
      n := n + 1;
    }
    ChainEnds(t, p, id, n);
    return true;
  }

  /** The first n steps of the walk from p do not meet id. */
  ghost predicate Avoids(t: Tree, p: Id, id: Id, n: nat) {
    forall j :: 0 <= j < n ==> Up(t, p, j) != Some(id)
  }

  /** How many rows the walk can still find. */
  ghost function Left(t: Tree, p: Id, n: nat): nat {
    if Up(t, p, n) == None then 0 else 1 + |t.Keys - Visited(t, p, n)|
  }

  /** The nodes met in the first n steps of the walk from p. */
  ghost function Visited(t: Tree, p: Id, n: nat): set<Id> {
    set j | 0 <= j < n && Up(t, p, j).Some? :: Up(t, p, j).value
  }

  /** On an acyclic tree each step of the walk that finds a row finds a new one. */
  lemma StepShrinks(t: Tree, p: Id, n: nat)
    requires Acyclic(t) && Up(t, p, n).Some?
    ensures Left(t, p, n + 1) < Left(t, p, n)
    ensures Up(t, p, n + 1) == ParentOf(t, Up(t, p, n).value)
  {
    var y := Up(t, p, n).value;
    forall j | 0 <= j < n && Up(t, p, j) == Some(y)
      ensures false
    {
      UpAdd(t, p, j, y, n - j);
    }
    assert y !in Visited(t, p, n) && y in Visited(t, p, n + 1);
    if Up(t, p, n + 1).Some? {
      assert y in t;
      assert t.Keys - Visited(t, p, n + 1) == t.Keys - Visited(t, p, n) - {y};
    }
  }

  /** A chain that ends without meeting id never meets it. */
  lemma {:induction false} ChainEnds(t: Tree, p: Id, id: Id, n: nat)
    requires Up(t, p, n) == None && Avoids(t, p, id, n)
    ensures !Reaches(t, p, id)
  {
    forall k: nat
      ensures Up(t, p, k) != Some(id)
    {
      if k >= n {
        StaysNone(t, p, n, k);
      }
    }
  }

  lemma {:induction false} StaysNone(t: Tree, p: Id, n: nat, k: nat)
    requires Up(t, p, n) == None && n <= k
    ensures Up(t, p, k) == None
  {
    if k > n {
      StaysNone(t, p, n, k - 1);
    }
  }

  // ── Runs ───────────────────────────────────────────────────────────────────

  datatype Op = Insert(id: Id, parent: Option<Id>) | SetParent(id: Id, parent: Option<Id>) | Delete(id: Id)

  /** ON DELETE SET NULL. */
  function Cleared(t: Tree, id: Id): Tree {
    map x | x in t && x != id :: if t[x] == Some(id) then None else t[x]
  }

  /** The row op is about exists or not as it must, and its parent is a row. */
  predicate Legal(t: Tree, op: Op) {
    match op
    case Insert(id, parent) => id !in t && (parent.Some? ==> parent.value in t || parent.value == id)
    case SetParent(id, parent) => id in t && (parent.Some? ==> parent.value in t)
    case Delete(id) => true
  }

  ghost function Apply(t: Tree, op: Op): Tree {
    if !Legal(t, op) then t
    else if op.Delete? then Cleared(t, op.id)
    else if op.parent.Some? && Reaches(t, op.parent.value, op.id) then t
    else t[op.id := op.parent]
  }

  ghost function ApplyAll(t: Tree, ops: seq<Op>): Tree {
    if ops == [] then t else Apply(ApplyAll(t, ops[..|ops| - 1]), ops[|ops| - 1])
  }

  /** A legal link is accepted exactly when the hierarchy it asks for is acyclic. */
  lemma AcceptedIffAcyclic(t: Tree, op: Op)
    requires Acyclic(t) && Legal(t, op) && !op.Delete?
    ensures Apply(t, op) == (if Acyclic(t[op.id := op.parent]) then t[op.id := op.parent] else t)
  {
    if op.parent.Some? {
      LinkAcyclicIff(t, op.id, op.parent.value);
    } else {
      FewerLinksAcyclic(t, t[op.id := None]);
    }
  }

  /** A delete removes its row and the links to it, and no other row or link. */
  lemma DeleteClears(t: Tree, id: Id, x: Id)
    ensures var t' := Apply(t, Delete(id));
      && (x in t' <==> x in t && x != id)
      && (x in t' ==> t'[x] == if t[x] == Some(id) then None else t[x])
  {
  }

  /** An insert or parent change takes effect exactly when its row is new or, for
      a change, there, its parent if any is a row, and it closes no cycle. */
  lemma LinkTakesEffectIff(t: Tree, op: Op, x: Id)
    requires Acyclic(t) && Closed(t) && !op.Delete?
    ensures var t' := Apply(t, op);
      if && (if op.Insert? then op.id !in t else op.id in t)
         && (op.parent.Some? ==> op.parent.value in t && !Reaches(t, op.parent.value, op.id))
      then (x in t' <==> x in t || x == op.id) && (x in t' ==> t'[x] == if x == op.id then op.parent else t[x])
      else t' == t
  {
    if op.parent == Some(op.id) {
      assert Up(t, op.id, 0) == Some(op.id);
      assert Reaches(t, op.id, op.id);
    }
  }

  lemma StepKeepsAcyclic(t: Tree, op: Op)
    requires Acyclic(t) && Closed(t)
    ensures Acyclic(Apply(t, op)) && Closed(Apply(t, op))
  {
    if op.Delete? {
      FewerLinksAcyclic(t, Cleared(t, op.id));
    } else if Legal(t, op) {
      AcceptedIffAcyclic(t, op);
    }
  }

  /** Every reachable table is acyclic and referentially closed. */
  lemma {:induction false} EveryTreeAcyclic(t: Tree, ops: seq<Op>)
    requires Acyclic(t) && Closed(t)
    ensures Acyclic(ApplyAll(t, ops)) && Closed(ApplyAll(t, ops))
  {
    if ops != [] {
      var n := |ops| - 1;
      EveryTreeAcyclic(t, ops[..n]);
      StepKeepsAcyclic(ApplyAll(t, ops[..n]), ops[n]);
    }
  }

  class Categories {
    var parents: Tree

    constructor ()
      ensures parents == map[] && Acyclic(parents) && Closed(parents)
    {
      parents := map[];
      new;
      forall x, k: nat | k >= 1
        ensures Up(parents, x, k) != Some(x)
      {
        EmptyTree(x, k);
      }
    }

    method Execute(op: Op) returns (ok: bool)
      requires Acyclic(parents) && Closed(parents)
      modifies this
      ensures parents == Apply(old(parents), op)
      ensures Acyclic(parents) && Closed(parents)
      ensures ok <==>
        && Legal(old(parents), op)
        && (!op.Delete? && op.parent.Some? ==> !Reaches(old(parents), op.parent.value, op.id))
      ensures ok && !op.Delete? ==> parents == old(parents)[op.id := op.parent]
      ensures !ok ==> parents == old(parents)
    {
      StepKeepsAcyclic(parents, op);
      ok := Legal(parents, op);
      if ok {
        if op.Delete? {
          parents := Cleared(parents, op.id);
        } else {
          ok := CheckCategoryCycle(parents, op.id, op.parent);
          if ok {
            parents := parents[op.id := op.parent];
          }
        }
      }
    }
  }

  lemma EmptyTree(x: Id, k: nat)
    requires k >= 1
    ensures Up(map[], x, k) == None
  {
    OneStepNone(map[], x);
    StaysNone(map[], x, 1, k);
  }

  lemma OneStepNone(t: Tree, x: Id)
    requires ParentOf(t, x) == None
    ensures Up(t, x, 1) == None
  {
    assert Up(t, x, 0) == Some(x);
  }
}
