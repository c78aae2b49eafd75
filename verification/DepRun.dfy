/**
  Arbitrary runs of the state manipulators, with arbitrarily nested action groups and
  transactions: what the solver, the problem resolver or a frontend may do to a cache.
*/
module DepRun {
  import opened Wrappers
  import opened DepGraph
  import opened DepBytes
  import opened DepSpec
  import opened DepMarks
  import opened DepCandidate
  import opened AutoremoveWalk
  import opened AutoremoveReasons
  import opened Autoremove
  import opened DependencyCache

  datatype Behavior = Commit | Restore | Auto

  /** A snapshot of the cache to go back to, until the transaction is over. */
  class Transaction {
    const c: DepCache
    const behavior: Behavior
    var d: Option<Snapshot>

    ghost predicate Usable()
      reads this, c`groupLevel, c`marked, c`garbage
    {
      d.Some? ==> c.Restorable(d.value)
    }

    constructor (c: DepCache, behavior: Behavior)
      requires c.Ready()
      ensures this.c == c && this.behavior == behavior && d.Some? && Usable() && StateOf(d.value) == c.State()
    {
      this.c, this.behavior := c, behavior;
      var snap := c.TakeSnapshot();
      d := Some(snap);
    }

    /** Goes back without ending the transaction. */
    method TemporaryRollback()
      requires d.Some? && Usable() && c.Ready()
      modifies c.pkgState, c.depState, c.marked, c.garbage, c`tally, c`sizes, c`swept
      ensures c.Ready() && c.State() == StateOf(d.value)
    {
      hide *;
      IsRestorable();
      c.RestorableShape(d.value);
      c.Rollback(d.value);
      StateOfMeans(d.value);
    }

    method CommitNow()
      modifies this
      ensures d.None?
    {
      d := None;
    }

    /** Goes back, unless the transaction is over already, and ends it. */
    method RollbackNow()
      requires Usable() && c.Ready()
      modifies this, c.pkgState, c.depState, c.marked, c.garbage, c`tally, c`sizes, c`swept
      ensures c.Ready() && d.None?
      ensures if old(d).Some? then c.State() == StateOf(old(d).value) else c.State() == old(c.State())
    {
      hide *;
      if d.None? { return; }
      TemporaryRollback();
      d := None;
    }

    /** The end of the transaction's scope. */
    method End()
      requires Usable() && c.Ready()
      modifies this, c.pkgState, c.depState, c.marked, c.garbage, c`tally, c`sizes, c`swept
      ensures c.Ready() && d.None?
      ensures old(d).Some? && behavior == Restore ==> c.State() == StateOf(old(d).value)
      ensures old(d).Some? && behavior == Auto ==> c.tally.broken <= StateOf(old(d).value).tally.broken
      ensures old(d).Some? && behavior == Auto ==>
        var back := StateOf(old(d).value);
        c.State() == if old(c.tally.broken) > back.tally.broken then back else old(c.State())
      ensures old(d).None? || behavior == Commit ==> c.State() == old(c.State())
    {
      hide *;
      if d.None? { return; }
      StateOfMeans(d.value);
      if behavior == Restore || (behavior == Auto && c.tally.broken > d.value.tally.broken) {
        RollbackNow();
      } else {
        CommitNow();
      }
      c.StateParts();
    }

    lemma IsRestorable()
      requires d.Some? && Usable()
      ensures c.Restorable(d.value)
    {
    }
  }

  ghost function StateOf(snap: Snapshot): CacheState {
    CacheState(snap.ps, snap.ds, snap.tally, snap.sizes)
  }

  lemma StateOfMeans(snap: Snapshot)
    ensures StateOf(snap) == CacheState(snap.ps, snap.ds, snap.tally, snap.sizes)
    ensures StateOf(snap).tally == snap.tally
  {
  }

  datatype Op =
    | Keep(p: nat, soft: bool, fromUser: bool, depth: nat)
    | Delete(p: nat, purge: bool, depth: nat, fromUser: bool)
    | Install(p: nat, depth: nat, fromUser: bool)
    | ChangeState(p: nat, autoInst: bool, fromUser: bool)
    | DiscardInstall(p: nat)
    | ReInstall(p: nat, to: bool)
    | Candidate(v: nat)
    | SetAuto(p: nat, auto: bool)
    | Protect(p: nat)
    | Unprotect(p: nat)
    | Group(ops: seq<Op>)
    | InTransaction(behavior: Behavior, ops: seq<Op>)
    /** What may be done to the n-th open transaction, counted from the innermost one. */
    | BackTemporarily(n: nat)
    | BackNow(n: nat)
    | EndNow(n: nat)

  predicate InRange(g: Graph, op: Op) {
    match op
    case Candidate(v) => v < |g.vers|
    case Group(ops) => forall i :: 0 <= i < |ops| ==> InRange(g, ops[i])
    case InTransaction(_, ops) => forall i :: 0 <= i < |ops| ==> InRange(g, ops[i])
    case BackTemporarily(_) => true
    case BackNow(_) => true
    case EndNow(_) => true
    case _ => op.p < |g.pkgs|
  }

  predicate IsSingle(op: Op) {
    !op.Group? && !op.InTransaction? && !op.BackTemporarily? && !op.BackNow? && !op.EndNow?
  }

  /** The operation may end the n-th open transaction. */
  predicate MayEnd(op: Op, n: nat) {
    match op
    case BackNow(m) => m == n
    case EndNow(m) => m == n
    case Group(ops) => exists i :: 0 <= i < |ops| && MayEnd(ops[i], n)
    case InTransaction(_, ops) => exists i :: 0 <= i < |ops| && MayEnd(ops[i], n + 1)
    case _ => false
  }

  predicate MayEndAny(ops: seq<Op>, n: nat) {
    exists i :: 0 <= i < |ops| && MayEnd(ops[i], n)
  }

  /** A single operation; one whose demands on its caller are not met right now is not called. */
  method Single(c: DepCache, op: Op)
    requires c.Ready() && IsSingle(op) && InRange(c.g, op)
    modifies c.pkgState, c.depState, c.marked, c.garbage, c`tally, c`sizes, c`groupLevel, c`swept
    ensures c.Ready() && c.groupLevel == old(c.groupLevel)
  {
    hide *;
    InRangeMeans(c.g, op);
    c.ReadyFacts();
    match op
    case Keep(p, soft, fromUser, depth) => var _ := c.MarkKeep(p, soft, fromUser, depth);
    case Delete(p, purge, depth, fromUser) => var _ := c.MarkDelete(p, purge, depth, fromUser);
    case Install(p, depth, fromUser) => var _ := c.MarkInstall(p, depth, fromUser);
    case ReInstall(p, to) => c.SetReInstall(p, to);
    case SetAuto(p, auto) => c.MarkAuto(p, auto);
    case Candidate(v) =>
      CandidateStays(c, v);
      if PlainlyFits(c.g, c.pkgState[ParentOf(c.g, v)], v) { c.SetCandidateVersion(v); }
    case ChangeState(p, autoInst, fromUser) =>
      if c.groupLevel > 0 && c.pkgState[p].candidateVer.Some? {
        var _ := c.MarkInstallStateChange(p, autoInst, fromUser);
      }
    case DiscardInstall(p) => if c.groupLevel > 0 { var _ := c.MarkInstallDiscardInstall(p); }
    case Protect(p) => if c.groupLevel > 0 { c.MarkProtected(p); }
    case Unprotect(p) => if c.groupLevel > 0 { c.UnmarkProtected(p); }
  }

  lemma CandidateStays(c: DepCache, v: nat)
    requires c.Ready() && v < |c.g.vers|
    ensures c.pkgState.Length == |c.g.pkgs| && ParentOf(c.g, v) == c.g.vers[v].parentPkg < |c.g.pkgs|
    ensures var inst := c.pkgState[ParentOf(c.g, v)].installVer; inst.Some? ==> inst.value < |c.g.vers|
    ensures PlainlyFits(c.g, c.pkgState[ParentOf(c.g, v)], v) ==> CandidateFits(c.g, c.pkgState[..], v)
  {
    c.ModeFacts(ParentOf(c.g, v));
    PlainlyFitting(c.g, c.pkgState[..], v);
  }

  /** The bound InRange puts on the argument of a single operation. */
  lemma InRangeMeans(g: Graph, op: Op)
    requires IsSingle(op) && InRange(g, op)
    ensures !op.Group? && !op.InTransaction? && !op.BackTemporarily? && !op.BackNow? && !op.EndNow?
    ensures op.Candidate? ==> op.v < |g.vers|
    ensures !op.Candidate? ==> op.p < |g.pkgs|
  {
  }

  /** The open transactions belong to the cache and are different ones. */
  ghost predicate Usable(c: DepCache, open: seq<Transaction>)
    reads open, c`groupLevel, c`marked, c`garbage
  {
    && (forall n :: 0 <= n < |open| ==> open[n].c == c && open[n].Usable())
    && (forall m, n :: 0 <= m < n < |open| ==> open[m] != open[n])
  }

  /** One operation, or a whole action group or transaction with everything that happens inside. */
  method Step(c: DepCache, op: Op, open: seq<Transaction>)
    requires c.Ready() && InRange(c.g, op) && Usable(c, open)
    modifies c.pkgState, c.depState, c.marked, c.garbage, c`tally, c`sizes, c`groupLevel, c`swept, open
    ensures c.Ready() && c.groupLevel == old(c.groupLevel) && Usable(c, open)
    ensures forall n :: 0 <= n < |open| ==> open[n].d == old(open[n].d) || (open[n].d.None? && MayEnd(op, n))
    ensures op.InTransaction? && op.behavior == Restore && !MayEndAny(op.ops, 0) ==> c.State() == old(c.State())
    ensures op.InTransaction? && op.behavior == Auto && !MayEndAny(op.ops, 0) ==> c.tally.broken <= old(c.tally.broken)
    ensures op.BackTemporarily? && op.n < |open| && open[op.n].d.Some? ==> c.State() == StateOf(open[op.n].d.value)
    ensures op.BackNow? && op.n < |open| && old(open[op.n].d).Some? ==> c.State() == StateOf(old(open[op.n].d).value)
    decreases op
  {
    hide *;
    OpParts(c.g, op);
    UsableParts(c, open);
    if op.Group? {
      c.IncreaseActionGroupLevel();
      MakeUsable(c, open);
      Steps(c, op.ops, open);
      c.ReadyFacts();
      c.Release(false);
    } else if op.InTransaction? {
      c.StateParts();
      var t := new Transaction(c, op.behavior);
      OneMoreOpen(c, t, open);
      Steps(c, op.ops, [t] + open);
      UsableParts(c, [t] + open);
      assert ([t] + open)[0] == t && forall n: nat :: n < |open| ==> ([t] + open)[n + 1] == open[n];
      t.End();
    } else if op.BackTemporarily? {
      if op.n < |open| && open[op.n].d.Some? { open[op.n].TemporaryRollback(); }
    } else if op.BackNow? {
      if op.n < |open| { open[op.n].RollbackNow(); }
    } else if op.EndNow? {
      if op.n < |open| { open[op.n].CommitNow(); }
    } else {
      Single(c, op);
    }
    MakeUsable(c, open);
  }

  /** What the predicates on operations say, constructor by constructor. */
  lemma OpParts(g: Graph, op: Op)
    requires InRange(g, op)
    ensures op.Group? || op.InTransaction? ==> forall i :: 0 <= i < |op.ops| ==> InRange(g, op.ops[i])
    ensures !op.Group? && !op.InTransaction? && !op.BackTemporarily? && !op.BackNow? && !op.EndNow? ==> IsSingle(op)
    ensures forall n: nat :: op.Group? ==> (MayEnd(op, n) <==> MayEndAny(op.ops, n))
    ensures forall n: nat :: op.InTransaction? ==> (MayEnd(op, n) <==> MayEndAny(op.ops, n + 1))
    ensures op.BackNow? || op.EndNow? ==> MayEnd(op, op.n)
  {
  }

  lemma UsableParts(c: DepCache, open: seq<Transaction>)
    requires Usable(c, open)
    ensures forall n :: 0 <= n < |open| ==> open[n].c == c && open[n].Usable()
    ensures forall n :: 0 <= n < |open| && open[n].d.Some? ==> c.Restorable(open[n].d.value)
    ensures forall m, n :: 0 <= m < n < |open| ==> open[m] != open[n]
  {
  }

  lemma OneMoreOpen(c: DepCache, t: Transaction, open: seq<Transaction>)
    requires Usable(c, open) && t.c == c && t.Usable() && t !in open
    ensures Usable(c, [t] + open)
  {
  }

  lemma MakeUsable(c: DepCache, open: seq<Transaction>)
    requires forall n :: 0 <= n < |open| ==> open[n].c == c && (open[n].d.Some? ==> c.Restorable(open[n].d.value))
    requires forall m, n :: 0 <= m < n < |open| ==> open[m] != open[n]
    ensures Usable(c, open)
  {
  }

  method Steps(c: DepCache, ops: seq<Op>, open: seq<Transaction>)
    requires c.Ready() && (forall i :: 0 <= i < |ops| ==> InRange(c.g, ops[i])) && Usable(c, open)
    modifies c.pkgState, c.depState, c.marked, c.garbage, c`tally, c`sizes, c`groupLevel, c`swept, open
    ensures c.Ready() && c.groupLevel == old(c.groupLevel) && Usable(c, open)
    ensures forall n :: 0 <= n < |open| ==> open[n].d == old(open[n].d) || (open[n].d.None? && MayEndAny(ops, n))
    decreases ops
  {
    hide *;
    for i := 0 to |ops|
      invariant c.Ready() && c.groupLevel == old(c.groupLevel) && Usable(c, open)
      invariant forall n :: 0 <= n < |open| ==> open[n].d == old(open[n].d) || (open[n].d.None? && MayEndAny(ops, n))
    {
      Step(c, ops[i], open);
      MayEndSome(ops, i);
    }
  }

  lemma MayEndSome(ops: seq<Op>, i: nat)
    requires i < |ops|
    ensures forall n: nat :: MayEnd(ops[i], n) ==> MayEndAny(ops, n)
  {
  }

  /** A whole run, outside of any transaction. */
  method Run(c: DepCache, ops: seq<Op>)
    requires c.Ready() && forall i :: 0 <= i < |ops| ==> InRange(c.g, ops[i])
    modifies c.pkgState, c.depState, c.marked, c.garbage, c`tally, c`sizes, c`groupLevel, c`swept
    ensures c.Ready() && c.groupLevel == old(c.groupLevel)
  {
    NoneOpen(c);
    hide *;
    Steps(c, ops, []);
  }

  lemma NoneOpen(c: DepCache)
    ensures Usable(c, [])
  {
  }

  /**
    The self-check finds nothing to warn about after any run, modes and selected versions go together,
    counters and sizes are the sums of what the packages contribute, and outside of action groups the
    marks are those of a fresh mark-and-sweep, however the run nested its groups.
  */
  method CheckedRun(g: Graph, keep: ProviderFilter, candidates: seq<Option<nat>>, auto: set<nat>, ops: seq<Op>)
    returns (c: DepCache, warned: bool)
    requires ValidCandidates(g, candidates) && Filters(keep) && forall i :: 0 <= i < |ops| ==> InRange(g, ops[i])
    ensures c.g == g && c.keep == keep && c.Ready() && !warned
    ensures ValidStates(g, c.pkgState[..]) && c.pkgState.Length == |g.pkgs|
    ensures forall p :: 0 <= p < |g.pkgs| ==> ModeOk(g, p, c.pkgState[p])
    ensures c.tally == Total(StateContribs(g, c.pkgState[..])) && c.sizes == TotalSizes(SizeContribs(g, c.pkgState[..]))
    ensures FreshMarks(g, keep, c.pkgState[..], c.marked[..], c.swept) && Sound(g, c.pkgState[..], c.marked[..])
    ensures !c.swept ==> forall q :: 0 <= q < c.garbage.Length ==> !c.garbage[q]
    ensures c.swept ==> SweptByMarks(g, c.pkgState[..], c.marked[..], c.garbage[..])
    ensures c.swept && KeepsAll(keep) ==> FreshlySwept(g, c.pkgState[..], c.marked[..], c.garbage[..])
    ensures c.marked.Length == c.garbage.Length == |g.pkgs|
    ensures HasReasons(g, keep, c.pkgState[..], c.marked[..])
    ensures c.swept ==>
      KeepsWanted(g, c.pkgState[..], c.marked[..]) && SweepsRest(g, c.pkgState[..], c.marked[..], c.garbage[..])
    ensures c.swept && KeepsAll(keep) ==> KeepsAsked(g, c.pkgState[..], c.marked[..])
  {
    hide *;
    c := new DepCache(g, keep, candidates, auto);
    Run(c, ops);
    c.ReadyFacts();
    c.SplitReady();
    var ok;
    warned, ok := c.CheckConsistency();
    c.MarksAgree();
    c.ReadyTotals();
    ExplainedMeans(g, keep, c.pkgState[..], c.marked[..], c.garbage[..], c.swept);
  }

  lemma ExplainedMeans(g: Graph, keep: ProviderFilter, ps: seq<PkgState>, m: seq<bool>, garbage: seq<bool>, swept: bool)
    requires ValidStates(g, ps) && |ps| == |g.pkgs| == |m| == |garbage| && Explained(g, keep, ps, m, garbage, swept)
    ensures HasReasons(g, keep, ps, m) && (swept ==> KeepsWanted(g, ps, m) && SweepsRest(g, ps, m, garbage))
    ensures swept && KeepsAll(keep) ==> KeepsAsked(g, ps, m)
  {
  }
}
