/**
  The server-merge pdiff chain: patches are downloaded and applied one at a time, each
  applied patch handing over to a new item. Files are represented by their hashes.
*/
module IndexDiffs {
  import opened Wrappers

  /** A patch of the history, with the hash of the file it applies to. */
  datatype Patch = Patch(file: nat, start: nat)

  // ---------- Where a series starts ----------

  /** k is the last entry that applies to a file with the given hash. */
  predicate LastStart(patches: seq<Patch>, local: nat, k: nat) {
    && k < |patches| && patches[k].start == local
    && forall j :: k < j < |patches| ==> patches[j].start != local
  }

  /** The part of the history a file with the given hash still needs. */
  method SelectSuffix(patches: seq<Patch>, local: nat) returns (needed: Option<seq<Patch>>)
    ensures needed.None? <==> forall j :: 0 <= j < |patches| ==> patches[j].start != local
    ensures needed.Some? ==> exists k: nat :: LastStart(patches, local, k) && needed.value == patches[k..]
  {
    var k := |patches|;
    while k > 0
      invariant 0 <= k <= |patches|
      invariant forall j :: k <= j < |patches| ==> patches[j].start != local
    {
      if patches[k - 1].start == local {
        assert LastStart(patches, local, k - 1);
        return Some(patches[k - 1..]);
      }
      k := k - 1;
    }
    return None;
  }

  /** The patches from the first one on that applies to a file with the given hash. */
  function FromFirst(patches: seq<Patch>, local: nat): (rest: seq<Patch>)
    ensures |rest| <= |patches| && (rest != [] ==> rest[0].start == local)
  {
    if patches == [] || patches[0].start == local then patches else FromFirst(patches[1..], local)
  }

  /** Nothing applicable is skipped, and only a prefix is. */
  lemma {:induction false} FromFirstIsSuffix(patches: seq<Patch>, local: nat)
    ensures var k := |patches| - |FromFirst(patches, local)|;
      && 0 <= k && FromFirst(patches, local) == patches[k..]
      && forall j :: 0 <= j < k ==> patches[j].start != local
  {
    if patches != [] && patches[0].start != local {
      FromFirstIsSuffix(patches[1..], local);
      var k := |patches[1..]| - |FromFirst(patches[1..], local)|;
      assert patches[1..][k..] == patches[k + 1..];
      forall j | 0 <= j < k + 1 ensures patches[j].start != local {
        if j > 0 { assert patches[j] == patches[1..][j - 1]; }
      }
    }
  }

  /** After SelectSuffix the first entry applies right away. */
  lemma SelectedStartsHere(patches: seq<Patch>, local: nat, k: nat)
    requires LastStart(patches, local, k)
    ensures FromFirst(patches[k..], local) == patches[k..]
  {
    assert patches[k..][0] == patches[k];
  }

  // ---------- The chain ----------

  datatype ChainState = StateFetchDiff | StateApplyDiff

  class Chain {
    /** The patches left, the hash of the file in place and the hash the release file promises. */
    var available: seq<Patch>
    var local: nat
    const target: nat
    var state: ChainState
    /** The present item has a request outstanding. */
    var pending: bool
    var staged: nat
    var fallbacks: nat
    /** Items created and items that called Finish. */
    var created: nat
    var finished: nat

    ghost predicate Valid()
      reads this
    {
      && created == finished + (if pending then 1 else 0)
      && staged + fallbacks == (if pending then 0 else 1)
      && (pending ==> available != [] && available[0].start == local)
    }

    /** What is left to be answered before the chain has ended. */
    ghost function Work(): nat
      reads this
    {
      if !pending then 0 else if state == StateFetchDiff || available == [] then 2 * |available|
        else 2 * |available| - 1
    }

    /** The chain has been handed the selected part of the history. */
    constructor (patches: seq<Patch>, local: nat, target: nat, unpatched: Unpatched)
      ensures Valid() && this.target == target && this.local == local
      ensures available == (if patches == [] || !unpatched.Readable? || local == target then patches
        else FromFirst(patches, local))
      ensures pending <==> patches != [] && unpatched.Readable? && local != target && available != []
      ensures pending ==> state == StateFetchDiff
      ensures staged == 1 <==> patches == [] || (unpatched.Readable? && local == target)
    {
      this.available, this.local, this.target := patches, local, target;
      state, pending, staged, fallbacks, created, finished := StateFetchDiff, false, 0, 0, 0, 0;
      new;
      CreateItem(unpatched);
    }

    method CreateItem(unpatched: Unpatched)
      requires !pending && staged + fallbacks == 0 && created == finished
      modifies this
      ensures created == old(created) + 1 && local == old(local)
      ensures if pending then finished == old(finished) && staged + fallbacks == 0
              else finished == old(finished) + 1 && staged + fallbacks == 1
      ensures pending <==> old(available) != [] && unpatched.Readable? && local != target && available != []
      ensures pending ==> state == StateFetchDiff && available[0].start == local
      ensures available == if old(available) == [] || !unpatched.Readable? || local == target then old(available)
                           else FromFirst(old(available), local)
      ensures staged == 1 <==> old(available) == [] || (unpatched.Readable? && local == target)
    {
      created := created + 1;
      if available == [] {
        Finish(true);
      } else {
        state := StateFetchDiff;
        QueueNextDiff(unpatched);
      }
    }

    method Finish(allDone: bool)
      modifies `finished, `staged
      ensures finished == old(finished) + 1 && staged == old(staged) + if allDone then 1 else 0
    {
      if allDone { staged := staged + 1; }
      finished := finished + 1;
    }

    /** Falls back to the full index. */
    method Failed()
      modifies `finished, `fallbacks, `staged, `pending
      ensures !pending && finished == old(finished) + 1 && fallbacks == old(fallbacks) + 1 && staged == old(staged)
    {
      pending := false;
      fallbacks := fallbacks + 1;
      Finish(false);
    }

    /** Asks for the first patch that applies to the file in place. */
    method QueueNextDiff(unpatched: Unpatched)
      requires !pending && staged + fallbacks == 0 && available != []
      modifies `finished, `fallbacks, `staged, `pending, `available
      ensures if pending then finished == old(finished) && staged + fallbacks == 0
              else finished == old(finished) + 1 && staged + fallbacks == 1
      ensures pending <==> unpatched.Readable? && local != target && available != []
      ensures pending ==> available[0].start == local
      ensures available == if !unpatched.Readable? || local == target then old(available)
        else FromFirst(old(available), local)
      ensures staged == 1 <==> unpatched.Readable? && local == target
    {
      if unpatched.Missing? {
        Failed();
        return;
      }
      if unpatched.Unusable? {
        Failed();
        return;
      }
      if local == target {
        Finish(true);
        return;
      }
      var rest := available;
      while rest != [] && rest[0].start != local
        invariant FromFirst(rest, local) == FromFirst(available, local)
        decreases |rest|
      {
        rest := rest[1..];
      }
      available := rest;
      if available == [] {
        Failed();
        return;
      }
      pending := true;
    }

    /**
      An answer to the outstanding request: the patch has been downloaded, or the patcher has
      turned the file into one with hash `result`, which nobody has checked.
    */
    method Done(result: nat, unpatched: Unpatched)
      requires Valid() && pending
      modifies this
      ensures Valid() && Work() < old(Work())
      ensures old(state) == StateFetchDiff ==>
        pending && state == StateApplyDiff && local == old(local) && available == old(available)
      ensures old(state) == StateApplyDiff ==> local == result && |available| < |old(available)|
      ensures old(state) == StateApplyDiff ==>
        (pending <==> |old(available)| > 1 && unpatched.Readable? && local != target && available != [])
      ensures old(state) == StateApplyDiff && pending ==> state == StateFetchDiff
      ensures old(state) == StateApplyDiff && |old(available)| > 1 && unpatched.Readable? && result != target ==>
        available == FromFirst(old(available)[1..], result)
      ensures staged == 1 ==> local == target || |old(available)| == 1
      ensures old(state) == StateApplyDiff && (|old(available)| == 1 || (unpatched.Readable? && result == target)) ==>
        staged == 1
      ensures old(state) == StateApplyDiff ==>
        (staged == 1 && local != target <==> |old(available)| == 1 && result != target)
    {
      if state == StateFetchDiff {
        state := StateApplyDiff;
        return;
      }
      pending := false;
      available := available[1..];
      local := result;
      if available != [] {
        HandOver(unpatched);
      } else {
        Finish(true);
      }
    }

    /** A new item takes over, and this one ends without a result of its own. */
    method HandOver(unpatched: Unpatched)
      requires !pending && staged + fallbacks == 0 && created == finished + 1 && available != []
      modifies this
      ensures Valid() && local == old(local)
      ensures pending <==> unpatched.Readable? && local != target && available != []
      ensures pending ==> state == StateFetchDiff
      ensures available == if !unpatched.Readable? || local == target then old(available)
        else FromFirst(old(available), local)
      ensures |available| <= |old(available)|
      ensures staged == 1 <==> unpatched.Readable? && local == target
    {
      finished := finished + 1;
      CreateItem(unpatched);
    }

    method RequestFailed()
      requires Valid() && pending
      modifies this
      ensures Valid() && !pending && fallbacks == 1 && staged == 0 && Work() < old(Work())
      ensures available == old(available) && local == old(local) && state == old(state)
    {
      Failed();
    }
  }

  /** What an item finds when it looks at the file to patch. */
  datatype Unpatched = Missing | Unusable | Readable

  // ---------- Whole runs ----------

  datatype Answer = Success(result: nat, unpatched: Unpatched) | Failure

  /** A patch was applied when `left` were left, and made the file with hash `result`. */
  datatype Applied = Applied(left: nat, result: nat)

  /** The last patch of the list was applied, and did not lead to the target. */
  predicate EndedWrong(applied: seq<Applied>, target: nat) {
    applied != [] && applied[|applied| - 1].left == 1 && applied[|applied| - 1].result != target
  }

  /**
    Whatever the answers are, a chain that has ended has staged a file or fallen back, once. What it
    has staged is the target, unless the last patch of the list led elsewhere.
  */
  method Run(chain: Chain, answers: seq<Answer>) returns (applied: seq<Applied>)
    requires chain.Valid()
    modifies chain
    ensures chain.Valid() && |applied| <= |answers|
    ensures !chain.pending ==> chain.staged + chain.fallbacks == 1 && chain.created == chain.finished
    ensures |answers| >= old(chain.Work()) ==> !chain.pending
    ensures old(chain.pending) && !chain.pending && chain.staged == 1 ==>
      applied != [] && (chain.local != chain.target <==> EndedWrong(applied, chain.target))
  {
    applied := [];
    for k := 0 to |answers|
      invariant chain.Valid() && |applied| <= k
      invariant chain.Work() + k <= old(chain.Work()) || !chain.pending
      invariant old(chain.pending) && !chain.pending && chain.staged == 1 ==>
        applied != [] && (chain.local != chain.target <==> EndedWrong(applied, chain.target))
    {
      if chain.pending {
        match answers[k] {
          case Success(result, unpatched) =>
            if chain.state == StateApplyDiff { applied := applied + [Applied(|chain.available|, result)]; }
            chain.Done(result, unpatched);
          case Failure => chain.RequestFailed();
        }
      }
    }
  }

  /** A patcher that makes something else of the last patch is believed. */
  method WrongFileStaged() returns (chain: Chain)
    ensures chain.Valid() && !chain.pending && chain.staged == 1 && chain.local != chain.target
  {
    chain := new Chain([Patch(0, 1)], 1, 2, Readable);
    chain.Done(1, Readable);
    chain.Done(3, Readable);
  }

  /** An honest history: a patch leads to the file the next one applies to, the last one to the target. */
  function ResultOf(patches: seq<Patch>, target: nat): nat
    requires patches != []
  {
    if |patches| == 1 then target else patches[1].start
  }

  /** With an honest history and an honest patcher the chain arrives at the target. */
  method RunHonestly(patches: seq<Patch>, local: nat, target: nat) returns (chain: Chain)
    requires patches != [] ==> patches[0].start == local
    requires patches == [] ==> local == target
    ensures chain.Valid() && !chain.pending && chain.staged == 1 && chain.fallbacks == 0 && chain.local == target
  {
    chain := new Chain(patches, local, target, Readable);
    while chain.pending
      invariant chain.Valid() && chain.target == target && fresh(chain)
      invariant !chain.pending ==> chain.staged == 1 && chain.local == target
      decreases chain.Work()
    {
      var result := ResultOf(chain.available, target);
      chain.Done(result, Readable);
    }
  }
}
