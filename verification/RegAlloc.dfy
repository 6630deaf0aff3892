/** The scoped register pool, as a value and as the object the compiler updates. */
module Registers {
  import opened Prelude

  const NUM_REGS := 16

  datatype Scope = Scope(regs: seq<nat>, names: seq<string>)

  /** `busy[n]` says that xn is in use; the last scope is the innermost. */
  datatype Pool = Pool(busy: seq<bool>, scopes: seq<Scope>, bindings: map<string, nat>) {
    predicate Valid() {
      && |busy| == NUM_REGS
      && scopes != []
      && (forall k, r :: 0 <= k < |scopes| && r in scopes[k].regs ==> r < NUM_REGS)
    }
  }

  const EMPTY_POOL := Pool([false, false, false, false, false, false, false, false,
                            false, false, false, false, false, false, false, false], [Scope([], [])], map[])

  /** The lowest free register from `n` on, or 16. */
  function LowestFree(busy: seq<bool>, n: nat): (r: nat)
    requires n <= |busy|
    ensures n <= r <= |busy|
    ensures r < |busy| ==> !busy[r]
    ensures forall k :: n <= k < r ==> busy[k]
    decreases |busy| - n
  {
    if n == |busy| || !busy[n] then n else LowestFree(busy, n + 1)
  }

  function Without(regs: seq<nat>, reg: nat): (r: seq<nat>)
    ensures forall x :: x in r <==> x in regs && x != reg
    decreases |regs|
  {
    if regs == [] then []
    else if regs[0] == reg then Without(regs[1..], reg)
    else [regs[0]] + Without(regs[1..], reg)
  }

  function Top(p: Pool): Scope
    requires p.scopes != []
  {
    p.scopes[|p.scopes| - 1]
  }

  function WithTop(p: Pool, s: Scope): Pool
    requires p.scopes != []
  {
    p.(scopes := p.scopes[|p.scopes| - 1 := s])
  }

  function Enter(p: Pool): (r: Pool)
    ensures p.Valid() ==> r.Valid()
  {
    p.(scopes := p.scopes + [Scope([], [])])
  }

  /** `busy` with the given registers released. */
  function Released(busy: seq<bool>, regs: seq<nat>): (r: seq<bool>)
    ensures |r| == |busy|
    ensures forall n :: 0 <= n < |busy| ==> r[n] == (busy[n] && n !in regs)
    decreases |regs|
  {
    if regs == [] then busy
    else
      var reg := regs[0];
      var b := if reg < |busy| then busy[reg := false] else busy;
      Released(b, regs[1..])
  }

  function Forget(bindings: map<string, nat>, names: seq<string>): map<string, nat>
    decreases |names|
  {
    if names == [] then bindings else Forget(bindings - {names[0]}, names[1..])
  }

  /** Closes the innermost scope; the root scope stays open. */
  function Exit(p: Pool): (r: Pool)
    requires p.scopes != []
    ensures p.Valid() ==> r.Valid()
  {
    if |p.scopes| == 1 then p else
    Pool(Released(p.busy, Top(p).regs), p.scopes[..|p.scopes| - 1], Forget(p.bindings, Top(p).names))
  }

  /** A pool together with the register just taken from it. */
  datatype Lease = Lease(pool: Pool, reg: nat)

  function Alloc(p: Pool): (r: Option<Lease>)
    requires p.Valid()
    ensures r.Some? ==> r.value.pool.Valid() && 1 <= r.value.reg < NUM_REGS && !p.busy[r.value.reg]
    ensures r.Some? ==> r.value.pool.busy == p.busy[r.value.reg := true]
    ensures r.None? ==> forall n :: 1 <= n < NUM_REGS ==> p.busy[n]
  {
    var n := LowestFree(p.busy, 1);
    if n == NUM_REGS then None else
    Some(Lease(WithTop(p.(busy := p.busy[n := true]), Top(p).(regs := Top(p).regs + [n])), n))
  }

  function BindName(p: Pool, name: string): (r: Option<Lease>)
    requires p.Valid()
    ensures r.Some? <==> Alloc(p).Some?
    ensures r.Some? ==> r.value.pool.Valid() && r.value.reg == Alloc(p).value.reg
    ensures r.Some? ==> r.value.pool.busy == p.busy[r.value.reg := true]
  {
    match Alloc(p)
    case None => None
    case Some(t) =>
      var q := t.pool.(bindings := t.pool.bindings[name := t.reg]);
      Some(Lease(WithTop(q, Top(q).(names := Top(q).names + [name])), t.reg))
  }

  function Free(p: Pool, reg: nat): (r: Pool)
    requires p.scopes != []
    ensures p.Valid() ==> r.Valid()
  {
    WithTop(p.(busy := if reg < |p.busy| then p.busy[reg := false] else p.busy),
            Top(p).(regs := Without(Top(p).regs, reg)))
  }

  /** A register for `name`, or a scratch register. */
  function Lend(p: Pool, name: Option<string>): (r: Option<Lease>)
    requires p.Valid()
    ensures r.Some? ==> r.value.pool.Valid() && 1 <= r.value.reg < NUM_REGS && !p.busy[r.value.reg]
    ensures r.Some? ==> r.value.pool.busy == p.busy[r.value.reg := true]
  {
    match name
    case None => Alloc(p)
    case Some(n) => BindName(p, n)
  }

  /** Takes `reg` again, for the innermost scope. */
  function Reserve(p: Pool, reg: nat): (r: Pool)
    requires p.scopes != []
    ensures p.Valid() && reg < NUM_REGS ==> r.Valid()
  {
    WithTop(p.(busy := if reg < |p.busy| then p.busy[reg := true] else p.busy),
            if reg in Top(p).regs then Top(p) else Top(p).(regs := Top(p).regs + [reg]))
  }

  // ----- the allocator object -----

  class RegAlloc {
    var busy: array<bool>
    var scopes: seq<Scope>
    var bindings: map<string, nat>

    ghost predicate Valid()
      reads this, busy
    {
      Contents().Valid()
    }

    ghost function Contents(): Pool
      reads this, busy
    {
      Pool(busy[..], scopes, bindings)
    }

    constructor ()
      ensures fresh(busy) && Valid() && Contents() == EMPTY_POOL
    {
      busy := new bool[16](_ => false);
      scopes := [Scope([], [])];
      bindings := map[];
    }

    method EnterScope()
      requires Valid()
      modifies this
      ensures busy == old(busy) && Valid() && Contents() == Enter(old(Contents()))
    {
      scopes := scopes + [Scope([], [])];
    }

    method ReleaseAll(regs: seq<nat>)
      requires forall r :: r in regs ==> r < busy.Length
      modifies busy
      ensures busy[..] == Released(old(busy[..]), regs)
    {
      assert regs[0..] == regs;
      for i := 0 to |regs|
        invariant Released(busy[..], regs[i..]) == Released(old(busy[..]), regs)
      {
        ghost var before := busy[..];
        assert regs[i] in regs;
        busy[regs[i]] := false;
        assert busy[..] == before[regs[i] := false];
        assert regs[i..][0] == regs[i] && regs[i..][1..] == regs[i + 1..];
      }
    }

    method ForgetAll(names: seq<string>)
      modifies this`bindings
      ensures bindings == Forget(old(bindings), names)
    {
      assert names[0..] == names;
      for i := 0 to |names|
        invariant Forget(bindings, names[i..]) == Forget(old(bindings), names)
      {
        assert names[i..][0] == names[i] && names[i..][1..] == names[i + 1..];
        bindings := bindings - {names[i]};
      }
    }

    method ExitScope()
      requires Valid()
      modifies this, busy
      ensures busy == old(busy) && Valid() && Contents() == Exit(old(Contents()))
    {
      hide Released, Forget;
      if |scopes| == 1 { return; }
      var scope := scopes[|scopes| - 1];
      assert forall r :: r in scope.regs ==> r < NUM_REGS;
      scopes := scopes[..|scopes| - 1];
      ReleaseAll(scope.regs);
      ForgetAll(scope.names);
    }

    /** The lowest free register, owned by the innermost scope; `None` when all fifteen are taken. */
    method Take() returns (reg: Option<nat>)
      requires Valid()
      modifies this, busy
      ensures busy == old(busy) && Valid()
      ensures match Alloc(old(Contents()))
              case None => reg == None && Contents() == old(Contents())
              case Some(t) => reg == Some(t.reg) && Contents() == t.pool
    {
      for n := 1 to NUM_REGS
        invariant busy[..] == old(busy[..]) && scopes == old(scopes) && bindings == old(bindings) && busy == old(busy)
        invariant LowestFree(busy[..], n) == LowestFree(busy[..], 1)
      {
        if !busy[n] {
          busy[n] := true;
          var top := scopes[|scopes| - 1];
          scopes := scopes[|scopes| - 1 := top.(regs := top.regs + [n])];
          return Some(n);
        }
      }
      return None;
    }

    method BindTo(name: string) returns (reg: Option<nat>)
      requires Valid()
      modifies this, busy
      ensures busy == old(busy) && Valid()
      ensures match BindName(old(Contents()), name)
              case None => reg == None && Contents() == old(Contents())
              case Some(t) => reg == Some(t.reg) && Contents() == t.pool
    {
      reg := Take();
      if reg.Some? {
        bindings := bindings[name := reg.value];
        var top := scopes[|scopes| - 1];
        scopes := scopes[|scopes| - 1 := top.(names := top.names + [name])];
      }
    }

    method Release(reg: nat)
      requires Valid()
      modifies this, busy
      ensures busy == old(busy) && Valid() && Contents() == Free(old(Contents()), reg)
    {
      if reg < busy.Length {
        busy[reg] := false;
      }
      var top := scopes[|scopes| - 1];
      scopes := scopes[|scopes| - 1 := top.(regs := Without(top.regs, reg))];
    }

    /** A register beyond the sixteen is recorded too, though there is nothing to take. */
    method Retake(reg: nat)
      requires Valid()
      modifies this, busy
      ensures busy == old(busy) && Contents() == Reserve(old(Contents()), reg)
      ensures Valid() <==> reg < NUM_REGS
    {
      if reg < busy.Length {
        busy[reg] := true;
      }
      var top := scopes[|scopes| - 1];
      if reg !in top.regs {
        scopes := scopes[|scopes| - 1 := top.(regs := top.regs + [reg])];
      }
      assert reg in scopes[|scopes| - 1].regs;
    }
  }
}
