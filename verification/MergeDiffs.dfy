/**
  The client-merge pdiff protocol: one item per patch, all sharing one vector. The last
  item to finish its download applies all patches; the first to fail falls back to the
  full index.
*/
module MergeDiffs {

  datatype DiffState = StateFetchDiff | StateDoneDiff | StateErrorDiff | StateApplyDiff

  // ---------- What holds between two events ----------

  ghost predicate Has(st: seq<DiffState>, s: DiffState) {
    exists i :: 0 <= i < |st| && st[i] == s
  }

  predicate AllOthersDone(st: seq<DiffState>, i: nat) {
    forall j :: 0 <= j < |st| && j != i ==> st[j] == StateDoneDiff
  }

  predicate AllIn(st: seq<DiffState>) {
    forall j :: 0 <= j < |st| ==> st[j] == StateDoneDiff
  }

  /** Only an item waiting for its patch or for the patcher has a request outstanding. */
  ghost predicate RequestsOk(st: seq<DiffState>, out: seq<bool>, staged: nat) {
    && |out| == |st|
    && (forall i :: 0 <= i < |st| && st[i] == StateFetchDiff ==> out[i])
    && (forall i :: 0 <= i < |st| && st[i] == StateApplyDiff ==> out[i] == (staged == 0))
    && (forall i :: 0 <= i < |st| && out[i] ==> st[i] in {StateFetchDiff, StateApplyDiff})
  }

  /**
    At most one item applies the patches, and only when all others are done. As long as nothing
    failed and nobody applies, a download is missing. The outcomes exclude each other.
  */
  ghost predicate BatchOk(st: seq<DiffState>, out: seq<bool>, staged: nat, fallbacks: nat, aborted: bool) {
    && RequestsOk(st, out, staged)
    && (forall i :: 0 <= i < |st| && st[i] == StateApplyDiff ==> AllOthersDone(st, i))
    && (!Has(st, StateErrorDiff) && !Has(st, StateApplyDiff) ==> Has(st, StateFetchDiff))
    && staged <= 1 && (staged == 1 ==> Has(st, StateApplyDiff))
    && fallbacks + (if aborted then 1 else 0) == if Has(st, StateErrorDiff) then 1 else 0
  }

  /** The state of item i after its request was answered with success. */
  ghost function AfterDone(st: seq<DiffState>, i: nat, unpatchedExists: bool): DiffState
    requires i < |st|
  {
    if Has(st, StateErrorDiff) || !unpatchedExists then StateErrorDiff
    else if st[i] == StateFetchDiff then (if AllOthersDone(st, i) then StateApplyDiff else StateDoneDiff)
    else st[i]
  }

  /** Requests left: a download may be followed by one run of the patcher. */
  function Work(st: seq<DiffState>, out: seq<bool>): nat
    requires |st| == |out|
  {
    if st == [] then 0
    else Work(st[1..], out[1..]) + (if !out[0] then 0 else if st[0] == StateFetchDiff then 2 else 1)
  }

  function Cost(s: DiffState, o: bool): nat { if !o then 0 else if s == StateFetchDiff then 2 else 1 }

  lemma {:induction false} WorkUpdate(st: seq<DiffState>, out: seq<bool>, i: nat, s: DiffState, o: bool)
    requires i < |st| == |out|
    ensures Work(st[i := s], out[i := o]) + Cost(st[i], out[i]) == Work(st, out) + Cost(s, o)
  {
    if i > 0 {
      WorkUpdate(st[1..], out[1..], i - 1, s, o);
      assert st[i := s][1..] == st[1..][i - 1 := s] && out[i := o][1..] == out[1..][i - 1 := o];
    } else {
      assert st[i := s][1..] == st[1..] && out[i := o][1..] == out[1..];
    }
  }

  // ---------- The two events ----------

  /** A successful answer keeps the batch in order and leaves less work. */
  lemma DoneKeeps(st: seq<DiffState>, out: seq<bool>, staged: nat, fallbacks: nat, aborted: bool, i: nat,
                  unpatchedExists: bool)
    requires BatchOk(st, out, staged, fallbacks, aborted) && i < |st| && out[i]
    ensures var s := AfterDone(st, i, unpatchedExists);
      var fetched, lost := st[i] == StateFetchDiff, !Has(st, StateErrorDiff) && !unpatchedExists;
      && BatchOk(st[i := s], out[i := fetched && s == StateApplyDiff],
                 if !fetched && s == StateApplyDiff then 1 else staged, fallbacks, aborted || lost)
      && Work(st[i := s], out[i := fetched && s == StateApplyDiff]) < Work(st, out)
  {
    var s := AfterDone(st, i, unpatchedExists);
    WorkUpdate(st, out, i, s, st[i] == StateFetchDiff && s == StateApplyDiff);
    assert st[i := s][i] == s;
    assert forall j :: 0 <= j < |st| && j != i ==> st[i := s][j] == st[j];
    hide Work;
    if s == StateDoneDiff {
      var j :| 0 <= j < |st| && j != i && st[j] != StateDoneDiff;
      assert st[i := s][j] == st[j] == StateFetchDiff;
    }
  }

  lemma AfterDoneCases(st: seq<DiffState>, i: nat, unpatchedExists: bool)
    requires i < |st|
    ensures var s := AfterDone(st, i, unpatchedExists);
      if Has(st, StateErrorDiff) || !unpatchedExists then s == StateErrorDiff
      else if st[i] != StateFetchDiff then s == st[i]
      else s == if AllIn(st[i := StateDoneDiff]) then StateApplyDiff else StateDoneDiff
  {
    assert forall j :: 0 <= j < |st| && j != i ==> st[i := StateDoneDiff][j] == st[j];
  }

  lemma Asked(st: seq<DiffState>, out: seq<bool>, staged: nat, fallbacks: nat, aborted: bool, i: nat)
    requires BatchOk(st, out, staged, fallbacks, aborted) && i < |st| == |out| && out[i]
    ensures st[i] == StateFetchDiff || (st[i] == StateApplyDiff && staged == 0)
  {
  }

  /** So does a failure; the first one creates the fallback. */
  lemma FailedKeeps(st: seq<DiffState>, out: seq<bool>, staged: nat, fallbacks: nat, aborted: bool, i: nat)
    requires BatchOk(st, out, staged, fallbacks, aborted) && i < |st| && out[i]
    ensures BatchOk(st[i := StateErrorDiff], out[i := false], staged,
                    if Has(st, StateErrorDiff) then fallbacks else fallbacks + 1, aborted)
    ensures Work(st[i := StateErrorDiff], out[i := false]) < Work(st, out)
  {
    WorkUpdate(st, out, i, StateErrorDiff, false);
    assert st[i := StateErrorDiff][i] == StateErrorDiff;
    hide Work;
  }

  /** Once nothing is outstanding, exactly one of the three outcomes has happened. */
  lemma QuietOutcome(st: seq<DiffState>, out: seq<bool>, staged: nat, fallbacks: nat, aborted: bool)
    requires BatchOk(st, out, staged, fallbacks, aborted) && (forall i :: 0 <= i < |out| ==> !out[i])
    ensures (staged, fallbacks, aborted) in {(1, 0, false), (0, 1, false), (0, 0, true)}
  {
    if Has(st, StateApplyDiff) {
      var i :| 0 <= i < |st| && st[i] == StateApplyDiff;
      assert !out[i] && AllOthersDone(st, i);
      assert !Has(st, StateErrorDiff);
    }
  }

  ghost predicate AtMostOneApplies(st: seq<DiffState>) {
    forall i, j :: 0 <= i < |st| && 0 <= j < |st| && st[i] == st[j] == StateApplyDiff ==> i == j
  }

  lemma OneApplies(st: seq<DiffState>, out: seq<bool>, staged: nat, fallbacks: nat, aborted: bool)
    requires BatchOk(st, out, staged, fallbacks, aborted)
    ensures AtMostOneApplies(st)
  {
    forall i, j | 0 <= i < |st| && 0 <= j < |st| && st[i] == st[j] == StateApplyDiff ensures i == j {
      assert AllOthersDone(st, i);
    }
  }

  /** Only one item has ever entered StateApplyDiff, and it did when no other one was being fetched any more. */
  ghost predicate EntriesOk(st: seq<DiffState>, entries: nat) {
    entries <= 1 && (entries == 1 ==> !Has(st, StateFetchDiff))
  }

  function Entered(before: DiffState, after: DiffState): nat {
    if before == StateFetchDiff && after == StateApplyDiff then 1 else 0
  }

  lemma EntersLast(st: seq<DiffState>, i: nat, unpatchedExists: bool)
    requires i < |st|
    ensures AfterDone(st, i, unpatchedExists) != StateFetchDiff
    ensures st[i] == StateFetchDiff && AfterDone(st, i, unpatchedExists) == StateApplyDiff ==> AllOthersDone(st, i)
  {
  }

  /** Item i leaves one state for another; it enters StateApplyDiff last of all. */
  lemma EntriesKept(st: seq<DiffState>, entries: nat, i: nat, next: DiffState)
    requires EntriesOk(st, entries) && i < |st| && next != StateFetchDiff
    requires st[i] == StateFetchDiff && next == StateApplyDiff ==> AllOthersDone(st, i)
    ensures st[i] == StateFetchDiff ==> entries == 0
    ensures EntriesOk(st[i := next], entries + Entered(st[i], next))
  {
    var st' := st[i := next];
    if Has(st', StateFetchDiff) {
      var j :| 0 <= j < |st'| && st'[j] == StateFetchDiff;
      assert j != i && st[j] == StateFetchDiff;
    }
  }

  // ---------- The items ----------

  datatype Event = Done(i: nat, unpatchedExists: bool) | Failed(i: nat)

  class Batch {
    /** The State of each item and whether its request is still with the fetcher. */
    const states: array<DiffState>
    const outstanding: array<bool>
    /** How often the patched file was staged, how many full index items were created. */
    var staged: nat
    var fallbacks: nat
    /** A fatal error was raised because the file to patch has gone. */
    var aborted: bool
    /** How often an item has entered StateApplyDiff. */
    ghost var entries: nat

    ghost predicate Valid()
      reads this, states, outstanding
    {
      BatchOk(states[..], outstanding[..], staged, fallbacks, aborted) && EntriesOk(states[..], entries)
    }

    /** Creating the items queues all downloads. */
    constructor (n: nat)
      requires n > 0
      ensures Valid() && fresh(states) && fresh(outstanding) && states.Length == n
      ensures staged == fallbacks == 0 && !aborted && entries == 0
    {
      staged, fallbacks, aborted, entries := 0, 0, false, 0;
      states, outstanding := new DiffState[n](i => StateFetchDiff), new bool[n](i => true);
      new;
      assert states[..][0] == StateFetchDiff;
    }

    method AnyError() returns (any: bool)
      ensures any <==> Has(states[..], StateErrorDiff)
    {
      for i := 0 to states.Length
        invariant forall j :: 0 <= j < i ==> states[j] != StateErrorDiff
      {
        if states[i] == StateErrorDiff {
          assert states[..][i] == StateErrorDiff;
          return true;
        }
      }
      return false;
    }

    method AllDone() returns (all: bool)
      ensures all <==> AllIn(states[..])
    {
      for i := 0 to states.Length
        invariant forall j :: 0 <= j < i ==> states[j] == StateDoneDiff
      {
        if states[i] != StateDoneDiff {
          assert states[..][i] != StateDoneDiff;
          return false;
        }
      }
      return true;
    }

    /** The fetcher answers the request of item i. */
    method Done(i: nat, unpatchedExists: bool)
      requires Valid() && i < states.Length && i < outstanding.Length && outstanding[i]
      modifies states, outstanding, this
      ensures Valid() && states[..] == old(states[..])[i := AfterDone(old(states[..]), i, unpatchedExists)]
      ensures fallbacks == old(fallbacks)
      ensures staged == if old(states[i]) == StateApplyDiff && states[i] == StateApplyDiff then 1 else old(staged)
      ensures Work(states[..], outstanding[..]) < old(Work(states[..], outstanding[..]))
      ensures entries == old(entries) + Entered(old(states[i]), states[i])
      ensures entries > old(entries) ==> forall j :: 0 <= j < states.Length && j != i ==> states[j] == StateDoneDiff
    {
      ghost var st, out := states[..], outstanding[..];
      DoneKeeps(st, out, staged, fallbacks, aborted, i, unpatchedExists);
      EntersLast(st, i, unpatchedExists);
      EntriesKept(st, entries, i, AfterDone(st, i, unpatchedExists));
      Asked(st, out, staged, fallbacks, aborted, i);
      AfterDoneCases(st, i, unpatchedExists);
      hide Work, BatchOk, EntriesOk, Has, AfterDone, AllIn;
      outstanding[i] := false;
      var failed := AnyError();
      if failed {
        states[i] := StateErrorDiff;
      } else if !unpatchedExists {
        aborted := true;
        states[i] := StateErrorDiff;
      } else if states[i] == StateFetchDiff {
        states[i] := StateDoneDiff;
        assert states[..] == st[i := StateDoneDiff];
        var all := AllDone();
        if all {
          states[i] := StateApplyDiff;
          outstanding[i] := true;
        }
      } else {
        staged := staged + 1;
      }
      entries := entries + Entered(st[i], states[i]);
      assert states[..] == st[i := AfterDone(st, i, unpatchedExists)];
      assert outstanding[..] == out[i := outstanding[i]];
    }

    method Failed(i: nat)
      requires Valid() && i < states.Length && i < outstanding.Length && outstanding[i]
      modifies states, outstanding, this
      ensures Valid() && states[..] == old(states[..])[i := StateErrorDiff]
      ensures staged == old(staged) && aborted == old(aborted) && entries == old(entries)
      ensures fallbacks == old(fallbacks) + if Has(old(states[..]), StateErrorDiff) then 0 else 1
      ensures Work(states[..], outstanding[..]) < old(Work(states[..], outstanding[..]))
    {
      ghost var st, out := states[..], outstanding[..];
      FailedKeeps(st, out, staged, fallbacks, aborted, i);
      EntriesKept(st, entries, i, StateErrorDiff);
      outstanding[i] := false;
      states[i] := StateDoneDiff;
      OwnStateAside(st, i);
      assert states[..] == st[i := StateDoneDiff];
      var failed := AnyError();
      states[i] := StateErrorDiff;
      if !failed {
        fallbacks := fallbacks + 1;
      }
      assert states[..] == st[i := StateErrorDiff] && outstanding[..] == out[i := false];
    }

    /** Answers in any order; the fetcher answers only what was asked. */
    method Run(events: seq<Event>)
      requires Valid()
      modifies states, outstanding, this
      ensures Valid()
      ensures (forall i :: 0 <= i < outstanding.Length ==> !outstanding[i]) ==>
        (staged, fallbacks, aborted) in {(1, 0, false), (0, 1, false), (0, 0, true)}
      ensures AtMostOneApplies(states[..]) && entries <= 1
    {
      for k := 0 to |events|
        invariant Valid()
      {
        var i := events[k].i;
        if i < states.Length && i < outstanding.Length && outstanding[i] {
          match events[k]
          case Done(_, unpatchedExists) => Done(i, unpatchedExists);
          case Failed(_) => Failed(i);
        }
      }
      if forall i :: 0 <= i < outstanding.Length ==> !outstanding[i] {
        QuietOutcome(states[..], outstanding[..], staged, fallbacks, aborted);
      }
      OneApplies(states[..], outstanding[..], staged, fallbacks, aborted);
    }
  }

  /** An item whose request is outstanding has not failed, so its own state does not matter to the search. */
  lemma OwnStateAside(st: seq<DiffState>, i: nat)
    requires i < |st| && st[i] != StateErrorDiff
    ensures Has(st[i := StateDoneDiff], StateErrorDiff) <==> Has(st, StateErrorDiff)
  {
    if j :| 0 <= j < |st| && st[j] == StateErrorDiff {
      assert st[i := StateDoneDiff][j] == StateErrorDiff;
    }
    var st' := st[i := StateDoneDiff];
    if j :| 0 <= j < |st'| && st'[j] == StateErrorDiff {
      assert st[j] == StateErrorDiff;
    }
  }
}
