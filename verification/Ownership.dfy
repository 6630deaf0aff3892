/** Which scope owns which register. */
module Ownership {
  import opened Prelude
  import opened Registers
  import opened Emit

  predicate Owns(p: Pool, k: nat, n: nat)
    requires k < |p.scopes|
  {
    n in p.scopes[k].regs
  }

  function Needed(pending: seq<Deferred>): set<nat> { set d | d in pending :: d.reg }

  /**
   * A register is busy exactly when some open scope owns it, and it is owned twice only while a
   * pending verdict needs it.
   */
  ghost predicate Accounted(p: Pool, pending: seq<Deferred>) {
    && p.Valid()
    && (forall n :: 0 <= n < NUM_REGS ==> (p.busy[n] <==> exists k :: 0 <= k < |p.scopes| && Owns(p, k, n)))
    && (forall j, k, n :: 0 <= j < k < |p.scopes| && Owns(p, j, n) && Owns(p, k, n) ==> n in Needed(pending))
  }

  /** `p'` differs from `p` in its innermost scope only, which has not lost anything. */
  ghost predicate Extends(p: Pool, p': Pool) {
    && p.scopes != [] && |p'.scopes| == |p.scopes|
    && p'.scopes[..|p.scopes| - 1] == p.scopes[..|p.scopes| - 1]
    && forall n :: n in Top(p).regs ==> n in Top(p').regs
  }

  lemma ExtendsTrans(p: Pool, q: Pool, r: Pool)
    requires Extends(p, q) && Extends(q, r)
    ensures Extends(p, r)
  {
  }

  /** What was busy stays busy. */
  lemma ExtendsBusy(p: Pool, q: Pool, pending: seq<Deferred>, pending': seq<Deferred>, n: nat)
    requires Accounted(p, pending) && Accounted(q, pending') && Extends(p, q)
    requires n < NUM_REGS && p.busy[n]
    ensures q.busy[n]
  {
    var k :| 0 <= k < |p.scopes| && Owns(p, k, n);
    if k < |p.scopes| - 1 {
      assert q.scopes[k] == q.scopes[..|p.scopes| - 1][k] == p.scopes[..|p.scopes| - 1][k];
    } else {
      assert n in Top(p).regs;
    }
    assert Owns(q, k, n);
  }

  lemma Unowned(p: Pool, pending: seq<Deferred>, n: nat)
    requires Accounted(p, pending) && n < NUM_REGS && !p.busy[n]
    ensures forall k :: 0 <= k < |p.scopes| ==> !Owns(p, k, n)
  {
  }

  lemma OwnedOnce(p: Pool, pending: seq<Deferred>, j: nat, k: nat, n: nat)
    requires Accounted(p, pending) && j < k < |p.scopes| && Owns(p, j, n) && n !in Needed(pending)
    ensures !Owns(p, k, n)
  {
  }

  lemma EnterAccounted(p: Pool, pending: seq<Deferred>)
    requires Accounted(p, pending)
    ensures Accounted(Enter(p), pending)
  {
    var q := Enter(p);
    assert forall k :: 0 <= k < |p.scopes| ==> q.scopes[k] == p.scopes[k];
    forall n | 0 <= n < NUM_REGS ensures q.busy[n] <==> exists k :: 0 <= k < |q.scopes| && Owns(q, k, n) {
      if p.busy[n] {
        var k :| 0 <= k < |p.scopes| && Owns(p, k, n);
        assert Owns(q, k, n);
      }
      if k :| 0 <= k < |q.scopes| && Owns(q, k, n) {
        assert k < |p.scopes| && Owns(p, k, n);
      }
    }
    forall j, k, n | 0 <= j < k < |q.scopes| && Owns(q, j, n) && Owns(q, k, n) ensures n in Needed(pending) {
      assert Owns(p, j, n) && Owns(p, k, n);
    }
  }

  /** Adding a free register to the innermost scope. */
  lemma TakenAccounted(p: Pool, pending: seq<Deferred>, p': Pool, n: nat)
    requires Accounted(p, pending) && p'.Valid() && n < NUM_REGS && !p.busy[n]
    requires p'.busy == p.busy[n := true] && |p'.scopes| == |p.scopes|
    requires p'.scopes[..|p.scopes| - 1] == p.scopes[..|p.scopes| - 1] && Top(p').regs == Top(p).regs + [n]
    ensures Accounted(p', pending) && Extends(p, p')
  {
    var top := |p.scopes| - 1;
    forall k | 0 <= k < top ensures p'.scopes[k] == p.scopes[k] {
      assert p'.scopes[k] == p'.scopes[..top][k] == p.scopes[..top][k];
    }
    assert forall k, r :: 0 <= k <= top ==> (Owns(p', k, r) <==> Owns(p, k, r) || (k == top && r == n));
    forall r | 0 <= r < NUM_REGS ensures p'.busy[r] <==> exists k :: 0 <= k < |p'.scopes| && Owns(p', k, r) {
      if r == n {
        assert Owns(p', top, n);
      } else {
        if p.busy[r] {
          var k :| 0 <= k < |p.scopes| && Owns(p, k, r);
          assert Owns(p', k, r);
        }
      }
    }
    Unowned(p, pending, n);
    forall j, k, r | 0 <= j < k < |p'.scopes| && Owns(p', j, r) && Owns(p', k, r) ensures r in Needed(pending) {
      assert r != n;
      assert Owns(p, j, r) && Owns(p, k, r);
    }
  }

  lemma AllocAccounted(p: Pool, pending: seq<Deferred>)
    requires Accounted(p, pending) && Alloc(p).Some?
    ensures Accounted(Alloc(p).value.pool, pending) && Extends(p, Alloc(p).value.pool)
  {
    hide Accounted, Extends, LowestFree;
    AccountedValid(p, pending);
    var t := Alloc(p).value;
    TakenAccounted(p, pending, t.pool, t.reg);
  }

  lemma AccountedValid(p: Pool, pending: seq<Deferred>)
    requires Accounted(p, pending)
    ensures p.Valid()
  {
  }

  lemma BindAccounted(p: Pool, pending: seq<Deferred>, name: string)
    requires Accounted(p, pending) && BindName(p, name).Some?
    ensures Accounted(BindName(p, name).value.pool, pending) && Extends(p, BindName(p, name).value.pool)
  {
    hide Accounted, Extends, LowestFree;
    AccountedValid(p, pending);
    var t := BindName(p, name).value;
    TakenAccounted(p, pending, t.pool, t.reg);
  }

  lemma {:induction false} WithoutLast(regs: seq<nat>, n: nat)
    requires n !in regs
    ensures Without(regs + [n], n) == regs
    decreases |regs|
  {
    if regs != [] {
      assert (regs + [n])[1..] == regs[1..] + [n];
      WithoutLast(regs[1..], n);
    }
  }

  lemma FreeUnowned(p: Pool, pending: seq<Deferred>, n: nat)
    requires Accounted(p, pending) && n < NUM_REGS && !p.busy[n]
    ensures n !in Top(p).regs
  {
    if n in Top(p).regs {
      assert Owns(p, |p.scopes| - 1, n);
    }
  }

  /** Freeing the register just allocated undoes the allocation. */
  lemma AllocFree(p: Pool, pending: seq<Deferred>)
    requires Accounted(p, pending) && Alloc(p).Some?
    ensures Free(Alloc(p).value.pool, Alloc(p).value.reg) == p
  {
    hide LowestFree, Accounted;
    AccountedValid(p, pending);
    var t := Alloc(p).value;
    FreeUnowned(p, pending, t.reg);
    WithoutLast(Top(p).regs, t.reg);
    var q := Free(t.pool, t.reg);
    assert q.busy == p.busy;
    assert q.scopes == p.scopes;
  }

  // ----- closing scopes -----

  /** A frame's scope is closed when no verdict is pending any more. */
  lemma FrameExit(p: Pool, p2: Pool, pending: seq<Deferred>)
    requires Accounted(p, []) && Accounted(p2, pending) && Extends(Enter(p), p2)
    requires forall d :: d in pending ==> 1 <= d.reg < NUM_REGS && !p.busy[d.reg]
    ensures Exit(p2).busy == p.busy && Exit(p2).scopes == p.scopes
  {
    hide Forget, Released;
    var q, top := Exit(p2), |p.scopes|;
    assert p2.scopes[..top] == Enter(p).scopes[..top] == p.scopes;
    forall n | 0 <= n < NUM_REGS ensures q.busy[n] == p.busy[n] {
      LowerOwners(p, p2, n);
      if p.busy[n] {
        var k :| 0 <= k < top && Owns(p, k, n);
        assert n !in Needed(pending);
        OwnedOnce(p2, pending, k, top, n);
      } else if p2.busy[n] {
        var k :| 0 <= k < |p2.scopes| && Owns(p2, k, n);
        assert k < top ==> Owns(p, k, n);
      }
    }
    assert q.busy == p.busy;
  }

  lemma LowerOwners(p: Pool, p2: Pool, n: nat)
    requires Extends(Enter(p), p2)
    ensures |p2.scopes| == |p.scopes| + 1
    ensures forall k :: 0 <= k < |p.scopes| ==> (Owns(p2, k, n) <==> Owns(p, k, n))
  {
    var top := |p.scopes|;
    forall k | 0 <= k < top ensures p2.scopes[k] == p.scopes[k] {
      assert p2.scopes[k] == p2.scopes[..top][k] == Enter(p).scopes[..top][k];
    }
  }

  lemma ReserveScopes(p: Pool, reg: nat)
    requires p.Valid() && 1 <= reg < NUM_REGS
    ensures var q := Reserve(p, reg);
            && q.Valid() && |q.scopes| == |p.scopes|
            && q.scopes[..|p.scopes| - 1] == p.scopes[..|p.scopes| - 1]
            && (forall n :: n in Top(q).regs <==> n in Top(p).regs || n == reg)
            && (forall n :: 0 <= n < NUM_REGS ==> (q.busy[n] <==> p.busy[n] || n == reg))
  {
  }

  /** `ReserveAll` gives the pending registers, and nothing else, to the innermost scope. */
  lemma {:induction false} ReserveAllScopes(p: Pool, deferred: seq<Deferred>)
    requires p.Valid() && forall d :: d in deferred ==> 1 <= d.reg < NUM_REGS
    ensures var q := ReserveAll(p, deferred);
            && |q.scopes| == |p.scopes|
            && q.scopes[..|p.scopes| - 1] == p.scopes[..|p.scopes| - 1]
            && (forall n :: n in Top(q).regs <==> n in Top(p).regs || n in Needed(deferred))
            && (forall n :: 0 <= n < NUM_REGS ==> (q.busy[n] <==> p.busy[n] || n in Needed(deferred)))
    decreases |deferred|
  {
    hide Reserve, Top;
    if deferred != [] {
      var d := deferred[0];
      ReserveScopes(p, d.reg);
      ReserveAllScopes(Reserve(p, d.reg), deferred[1..]);
      assert Needed(deferred) == {d.reg} + Needed(deferred[1..]);
    }
  }

  /** What closing an expansion does to the pool. */
  lemma ExpansionExit(p: Pool, p2: Pool, before: seq<Deferred>, pending: seq<Deferred>)
    requires Accounted(p, before) && Accounted(p2, pending) && Extends(Enter(p), p2)
    requires forall d :: d in pending ==> 1 <= d.reg < NUM_REGS
    requires forall d :: d in before ==> d in pending
    requires forall d :: d in pending && d !in before ==> !p.busy[d.reg]
    requires forall d :: d in before ==> p.busy[d.reg]
    ensures var q := ReserveAll(Exit(p2), pending);
            && q.Valid() && |q.scopes| == |p.scopes|
            && q.scopes[..|p.scopes| - 1] == p.scopes[..|p.scopes| - 1]
            && (forall n :: n in Top(q).regs <==> n in Top(p).regs || n in Needed(pending))
            && (forall n :: 0 <= n < NUM_REGS ==> (q.busy[n] <==> p.busy[n] || n in Needed(pending)))
  {
    hide Forget, Released, ReserveAll;
    var x, top := Exit(p2), |p.scopes|;
    assert x.scopes == p.scopes by {
      assert p2.scopes[..top] == Enter(p).scopes[..top] == p.scopes;
    }
    ReserveAllScopes(x, pending);
    forall n | 0 <= n < NUM_REGS && n !in Needed(pending) ensures x.busy[n] == p.busy[n] {
      LowerOwners(p, p2, n);
      if p.busy[n] {
        var k :| 0 <= k < top && Owns(p, k, n);
        OwnedOnce(p2, pending, k, top, n);
      } else if p2.busy[n] {
        var k :| 0 <= k < |p2.scopes| && Owns(p2, k, n);
        assert k < top ==> Owns(p, k, n);
      }
    }
    forall n | 0 <= n < NUM_REGS && p.busy[n] && n !in Needed(pending) ensures x.busy[n] {
    }
  }

  /** A pool whose innermost scope gained the pending registers is accounted for. */
  lemma ReservedAccounted(p: Pool, before: seq<Deferred>, q: Pool, pending: seq<Deferred>)
    requires Accounted(p, before) && q.Valid() && |q.scopes| == |p.scopes|
    requires q.scopes[..|p.scopes| - 1] == p.scopes[..|p.scopes| - 1]
    requires forall n :: n in Top(q).regs <==> n in Top(p).regs || n in Needed(pending)
    requires forall n :: 0 <= n < NUM_REGS ==> (q.busy[n] <==> p.busy[n] || n in Needed(pending))
    requires forall d :: d in before ==> d in pending
    ensures Accounted(q, pending) && Extends(p, q)
  {
    var top := |p.scopes| - 1;
    forall k | 0 <= k < top ensures q.scopes[k] == p.scopes[k] {
      assert q.scopes[k] == q.scopes[..top][k] == p.scopes[..top][k];
    }
    assert forall k, n :: 0 <= k < top ==> (Owns(q, k, n) <==> Owns(p, k, n));
    assert forall n :: Owns(q, top, n) <==> Owns(p, top, n) || n in Needed(pending);
    forall n | 0 <= n < NUM_REGS ensures q.busy[n] <==> exists k :: 0 <= k < |q.scopes| && Owns(q, k, n) {
      if n in Needed(pending) {
        assert Owns(q, top, n);
      } else if p.busy[n] {
        var k :| 0 <= k < |p.scopes| && Owns(p, k, n);
        assert Owns(q, k, n);
      }
    }
    assert Needed(before) <= Needed(pending);
    forall j, k, n | 0 <= j < k < |q.scopes| && Owns(q, j, n) && Owns(q, k, n) ensures n in Needed(pending) {
      assert Owns(p, j, n);
      assert Owns(p, k, n) || n in Needed(pending);
    }
  }

  // ----- names and their registers -----

  predicate Lists(p: Pool, k: nat, name: string)
    requires k < |p.scopes| && name in p.bindings
  {
    name in p.scopes[k].names && p.bindings[name] in p.scopes[k].regs
  }

  /** Every name belongs to an open scope, and so does its register. */
  ghost predicate Named(p: Pool) {
    forall name :: name in p.bindings ==> exists k :: 0 <= k < |p.scopes| && Lists(p, k, name)
  }

  /** So the register of a name is busy. */
  lemma NamedBusy(p: Pool, pending: seq<Deferred>, name: string)
    requires Accounted(p, pending) && Named(p) && name in p.bindings
    ensures p.bindings[name] < NUM_REGS && p.busy[p.bindings[name]]
  {
    var k :| 0 <= k < |p.scopes| && Lists(p, k, name);
    assert Owns(p, k, p.bindings[name]);
  }

  /** More in the innermost scope, and the same bindings. */
  lemma NamedGrows(p: Pool, q: Pool)
    requires Named(p) && p.scopes != [] && |q.scopes| == |p.scopes| && q.bindings == p.bindings
    requires q.scopes[..|p.scopes| - 1] == p.scopes[..|p.scopes| - 1] && Top(q).names == Top(p).names
    requires forall n :: n in Top(p).regs ==> n in Top(q).regs
    ensures Named(q)
  {
    forall name | name in q.bindings ensures exists k :: 0 <= k < |q.scopes| && Lists(q, k, name) {
      var k :| 0 <= k < |p.scopes| && Lists(p, k, name);
      if k < |p.scopes| - 1 {
        assert q.scopes[k] == q.scopes[..|p.scopes| - 1][k] == p.scopes[..|p.scopes| - 1][k];
      }
      assert Lists(q, k, name);
    }
  }

  lemma AllocNamed(p: Pool)
    requires p.Valid() && Named(p) && Alloc(p).Some?
    ensures Named(Alloc(p).value.pool)
  {
    hide LowestFree, Named;
    NamedGrows(p, Alloc(p).value.pool);
  }

  lemma BindNamed(p: Pool, name: string)
    requires p.Valid() && Named(p) && BindName(p, name).Some?
    ensures Named(BindName(p, name).value.pool)
  {
    hide LowestFree;
    var q := BindName(p, name).value.pool;
    var top := |p.scopes| - 1;
    forall n | n in q.bindings ensures exists k :: 0 <= k < |q.scopes| && Lists(q, k, n) {
      if n == name {
        assert Lists(q, top, n);
      } else {
        var k :| 0 <= k < |p.scopes| && Lists(p, k, n);
        assert Lists(q, k, n);
      }
    }
  }

  lemma EnterNamed(p: Pool)
    requires Named(p)
    ensures Named(Enter(p))
  {
    var q := Enter(p);
    forall n | n in q.bindings ensures exists k :: 0 <= k < |q.scopes| && Lists(q, k, n) {
      var k :| 0 <= k < |p.scopes| && Lists(p, k, n);
      assert Lists(q, k, n);
    }
  }

  lemma {:induction false} ForgetOnly(bindings: map<string, nat>, names: seq<string>)
    ensures forall name :: name in Forget(bindings, names) <==> name in bindings && name !in names
    ensures forall name :: name in Forget(bindings, names) ==> Forget(bindings, names)[name] == bindings[name]
    decreases |names|
  {
    if names != [] {
      ForgetOnly(bindings - {names[0]}, names[1..]);
    }
  }

  lemma ExitNamed(p: Pool)
    requires p.Valid() && Named(p)
    ensures Named(Exit(p))
  {
    hide Forget, Released;
    if |p.scopes| > 1 {
      var q := Exit(p);
      ForgetOnly(p.bindings, Top(p).names);
      forall n | n in q.bindings ensures exists k :: 0 <= k < |q.scopes| && Lists(q, k, n) {
        var k :| 0 <= k < |p.scopes| && Lists(p, k, n);
        assert k < |p.scopes| - 1;
        assert Lists(q, k, n);
      }
    }
  }

  lemma {:induction false} ReserveAllNamed(p: Pool, deferred: seq<Deferred>)
    requires p.Valid() && Named(p) && forall d :: d in deferred ==> 1 <= d.reg < NUM_REGS
    ensures Named(ReserveAll(p, deferred))
    decreases |deferred|
  {
    hide Named;
    if deferred != [] {
      NamedGrows(p, Reserve(p, deferred[0].reg));
      ReserveAllNamed(Reserve(p, deferred[0].reg), deferred[1..]);
    }
  }
}
