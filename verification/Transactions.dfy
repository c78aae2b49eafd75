/**
  The download transaction of a repository: files staged by its items are moved into place
  together, the release file last, so that a commit that is interrupted never leaves a new
  release file beside old index files.
*/
module Transactions {
  import opened Wrappers

  /** Paths and contents are numbers; a path that is not there is not in the map. */
  type Files = map<nat, nat>

  datatype FileOp = Remove(path: nat) | Rename(from: nat, to: nat)

  /**
    What an item wants done: a partial file moved to its destination, with all compressed forms of
    the final file removed first; the destination removed; or nothing, because the file is the one
    in place already.
  */
  datatype Staged = Copy(from: nat, forms: seq<nat>) | Removal | Nothing

  datatype ItemStatus = Idle | Fetching | Done | AuthError | Error | NetworkError
  {
    predicate IsError() { AuthError? || Error? || NetworkError? }
  }

  /**
    `allowed` is how many of its file operations the system carries out before one fails; `queued` is
    whether it waits in the fetch queues.
  */
  datatype Item = Item(staged: Staged, dest: nat, status: ItemStatus, queued: bool, allowed: nat)

  datatype State = Started | Aborted | Committed

  // ---------- File operations ----------

  /** Moving a file that is not there fails and changes nothing. */
  function Apply(fs: Files, op: FileOp): Files {
    match op
    case Remove(path) => fs - {path}
    case Rename(from, to) => if from in fs then (fs - {from})[to := fs[from]] else fs
  }

  function ApplyAll(fs: Files, ops: seq<FileOp>): Files {
    if ops == [] then fs else Apply(ApplyAll(fs, ops[..|ops| - 1]), ops[|ops| - 1])
  }

  predicate SameAt(fs: Files, fs': Files, p: nat) {
    (p in fs <==> p in fs') && (p in fs ==> fs[p] == fs'[p])
  }

  function Paths(op: FileOp): set<nat> {
    match op
    case Remove(path) => {path}
    case Rename(from, to) => {from, to}
  }

  /** A path no operation touches stays as it is. */
  lemma {:induction false} OpsElsewhere(fs: Files, ops: seq<FileOp>, p: nat)
    requires forall i :: 0 <= i < |ops| ==> p !in Paths(ops[i])
    ensures SameAt(fs, ApplyAll(fs, ops), p)
  {
    if ops != [] {
      OpsElsewhere(fs, ops[..|ops| - 1], p);
      assert p !in Paths(ops[|ops| - 1]);
    }
  }

  lemma {:induction false} ApplyConcat(fs: Files, a: seq<FileOp>, b: seq<FileOp>)
    ensures ApplyAll(fs, a + b) == ApplyAll(ApplyAll(fs, a), b)
  {
    if b == [] {
      assert a + b == a;
    } else {
      var n := |b| - 1;
      ApplyConcat(fs, a, b[..n]);
      assert (a + b)[..|a + b| - 1] == a + b[..n];
    }
  }

  // ---------- One item ----------

  function Removes(forms: seq<nat>): (r: seq<FileOp>)
    ensures |r| == |forms| && forall i :: 0 <= i < |r| ==> r[i] == Remove(forms[i])
  {
    seq(|forms|, i requires 0 <= i < |forms| => Remove(forms[i]))
  }

  /** The file operations committing an item consists of. */
  function Ops(it: Item): seq<FileOp> {
    match it.staged
    case Copy(from, forms) => if from == it.dest then [] else Removes(forms) + [Rename(from, it.dest)]
    case Removal => [Remove(it.dest)]
    case Nothing => []
  }

  /** Those that are carried out: after a failing one the rest of the item is given up. */
  function Carried(it: Item): seq<FileOp> {
    if it.allowed < |Ops(it)| then Ops(it)[..it.allowed] else Ops(it)
  }

  predicate Unhindered(it: Item) { it.allowed >= |Ops(it)| }

  /** The paths an item reads or writes. */
  function Touched(it: Item): set<nat> {
    match it.staged
    case Copy(from, forms) => {from, it.dest} + set f | f in forms
    case Removal => {it.dest}
    case Nothing => {it.dest}
  }

  lemma OpsTouch(it: Item)
    ensures forall i :: 0 <= i < |Ops(it)| ==> Paths(Ops(it)[i]) <= Touched(it)
    ensures forall i :: 0 <= i < |Carried(it)| ==> Paths(Carried(it)[i]) <= Touched(it)
  {
  }

  /** Whatever part of an item is carried out, other paths stay as they are. */
  lemma PartElsewhere(fs: Files, it: Item, n: nat, p: nat)
    requires n <= |Carried(it)| && p !in Touched(it)
    ensures SameAt(fs, ApplyAll(fs, Carried(it)[..n]), p)
  {
    OpsTouch(it);
    hide Carried;
    OpsElsewhere(fs, Carried(it)[..n], p);
  }

  /** The item has what it staged, or has removed what it wanted removed. */
  predicate InPlace(before: Files, fs: Files, it: Item) {
    match it.staged
    case Copy(from, forms) => from in before && it.dest in fs && fs[it.dest] == before[from]
    case Removal => it.dest !in fs
    case Nothing => true
  }

  /** The staged file is there, and is not among the forms removed to make room for it. */
  predicate StagedWell(fs: Files, it: Item) {
    it.staged.Copy? ==> it.staged.from in fs && it.staged.from !in it.staged.forms
  }

  lemma {:induction false} RemovesKeep(fs: Files, forms: seq<nat>, p: nat)
    ensures p !in forms ==> SameAt(fs, ApplyAll(fs, Removes(forms)), p)
    ensures p in forms ==> p !in ApplyAll(fs, Removes(forms))
  {
    var n := |forms| - 1;
    if forms != [] {
      RemovesKeep(fs, forms[..n], p);
      assert Removes(forms)[..n] == Removes(forms[..n]);
    }
  }

  /** An unhindered item ends up in place. */
  lemma ItemInPlace(fs: Files, it: Item)
    requires StagedWell(fs, it) && Unhindered(it)
    ensures InPlace(fs, ApplyAll(fs, Carried(it)), it)
  {
    if it.staged.Copy? && it.staged.from != it.dest {
      RemovesKeep(fs, it.staged.forms, it.staged.from);
      ApplyConcat(fs, Removes(it.staged.forms), [Rename(it.staged.from, it.dest)]);
      ApplyOne(ApplyAll(fs, Removes(it.staged.forms)), Rename(it.staged.from, it.dest));
    } else if it.staged.Removal? {
      ApplyOne(fs, Remove(it.dest));
    }
  }

  /**
    It is in place although a file operation failed: what was there before is what was staged, and has
    not been removed to make room for it; or what was to be removed was not there.
  */
  predicate KeptAnyway(fs: Files, it: Item) {
    match it.staged
    case Copy(from, forms) =>
      && it.allowed <= |forms|
      && from in fs && it.dest in fs && fs[it.dest] == fs[from]
      && it.dest !in forms[..it.allowed]
    case Removal => it.dest !in fs
    case Nothing => true
  }

  /** Whether an item will be in place, by what the system lets it do and by what is there before. */
  predicate EndsInPlace(fs: Files, it: Item) { Unhindered(it) || KeptAnyway(fs, it) }

  /** No other form of the file is left beside the one moved into place. */
  lemma OldFormsGone(fs: Files, it: Item, f: nat)
    requires it.staged.Copy? && it.staged.from != it.dest && f in it.staged.forms && f != it.dest && Unhindered(it)
    ensures f !in ApplyAll(fs, Carried(it))
  {
    var ops := Removes(it.staged.forms);
    assert Carried(it) == ops + [Rename(it.staged.from, it.dest)];
    assert Carried(it)[..|ops|] == ops;
    RemovesKeep(fs, it.staged.forms, f);
  }

  /** What a hindered item leaves: its old forms may be gone, and with them the file that was in its place. */
  lemma HinderedItem(fs: Files, it: Item)
    requires !Unhindered(it)
    ensures it.staged.Copy? ==> it.allowed <= |it.staged.forms|
    ensures var fs' := ApplyAll(fs, Carried(it));
      if it.staged.Copy? && it.dest in it.staged.forms[..it.allowed] then it.dest !in fs' else SameAt(fs, fs', it.dest)
  {
    if it.staged.Copy? {
      assert Carried(it) == Removes(it.staged.forms[..it.allowed]);
      RemovesKeep(fs, it.staged.forms[..it.allowed], it.dest);
    } else {
      assert Carried(it) == [];
    }
  }

  /** An item ends up in place exactly when no failure met it or nothing was to be changed anyway. */
  lemma ItemExactly(fs: Files, it: Item)
    requires StagedWell(fs, it)
    ensures InPlace(fs, ApplyAll(fs, Carried(it)), it) <==> EndsInPlace(fs, it)
  {
    if Unhindered(it) {
      ItemInPlace(fs, it);
    } else {
      HinderedItem(fs, it);
      hide Carried, ApplyAll;
    }
  }

  lemma ApplyOne(fs: Files, op: FileOp)
    ensures ApplyAll(fs, [op]) == Apply(fs, op)
  {
    assert [op][..0] == [];
    assert ApplyAll(fs, []) == fs;
  }

  /** In the middle of an item its destination holds what it held before, nothing, or what was staged. */
  lemma PartInPlace(fs: Files, it: Item, n: nat)
    requires StagedWell(fs, it) && n <= |Carried(it)|
    ensures var fs' := ApplyAll(fs, Carried(it)[..n]);
      SameAt(fs, fs', it.dest) || it.dest !in fs' || InPlace(fs, fs', it)
  {
    if n == |Ops(it)| {
      assert Carried(it)[..n] == Carried(it);
      ItemInPlace(fs, it);
    } else if it.staged.Copy? {
      assert Carried(it)[..n] == Removes(it.staged.forms[..n]);
      RemovesKeep(fs, it.staged.forms[..n], it.dest);
    } else {
      assert Carried(it)[..n] == [];
    }
  }

  // ---------- All items ----------

  /** The file operations of all items, in order. */
  function AllOps(items: seq<Item>): seq<FileOp> {
    if items == [] then [] else AllOps(items[..|items| - 1]) + Carried(items[|items| - 1])
  }

  function CommitAll(fs: Files, items: seq<Item>): Files { ApplyAll(fs, AllOps(items)) }

  lemma CommitLast(fs: Files, items: seq<Item>)
    requires items != []
    ensures CommitAll(fs, items) == ApplyAll(CommitAll(fs, items[..|items| - 1]), Carried(items[|items| - 1]))
  {
    ApplyConcat(fs, AllOps(items[..|items| - 1]), Carried(items[|items| - 1]));
  }

  /** Nothing that is carried out of the item concerns path p. */
  predicate LeavesAlone(it: Item, p: nat) { p !in Touched(it) || Carried(it) == [] }

  /** A path all items leave alone stays as it is, however much of the commit is done. */
  lemma Untouched(fs: Files, items: seq<Item>, n: nat, p: nat)
    requires n <= |AllOps(items)| && forall i :: 0 <= i < |items| ==> LeavesAlone(items[i], p)
    ensures SameAt(fs, ApplyAll(fs, AllOps(items)[..n]), p)
  {
    hide *;
    OpsOfItems(items, p);
    OpsElsewhere(fs, AllOps(items)[..n], p);
  }

  lemma {:induction false} OpsOfItems(items: seq<Item>, p: nat)
    requires forall i :: 0 <= i < |items| ==> LeavesAlone(items[i], p)
    ensures forall i :: 0 <= i < |AllOps(items)| ==> p !in Paths(AllOps(items)[i])
  {
    if items != [] {
      var n := |items| - 1;
      OpsOfItems(items[..n], p);
      assert LeavesAlone(items[n], p);
      OpsTouch(items[n]);
      hide Carried, Touched, Paths;
    }
  }

  lemma DestTouched(it: Item)
    ensures it.dest in Touched(it) && (it.staged.Copy? ==> it.staged.from in Touched(it))
  {
  }

  lemma InPlaceStays(before: Files, fs: Files, fs': Files, it: Item)
    requires SameAt(fs, fs', it.dest)
    ensures InPlace(before, fs, it) <==> InPlace(before, fs', it)
  {
  }

  /** No two items work on the same path. */
  ghost predicate Independent(items: seq<Item>) {
    forall i, j :: 0 <= i < j < |items| ==> Touched(items[i]) !! Touched(items[j])
  }

  ghost predicate Staging(fs: Files, items: seq<Item>) {
    forall i :: 0 <= i < |items| ==> StagedWell(fs, items[i])
  }

  lemma ApartFrom(items: seq<Item>, i: nat, j: nat)
    requires Independent(items) && i < |items| && j < |items| && i != j
    ensures items[i].dest !in Touched(items[j]) && LeavesAlone(items[j], items[i].dest)
    ensures items[i].staged.Copy? ==>
      items[i].staged.from !in Touched(items[j]) && LeavesAlone(items[j], items[i].staged.from)
  {
    DestTouched(items[i]);
    hide Touched, Carried;
    if i < j { assert Touched(items[i]) !! Touched(items[j]); } else { assert Touched(items[j]) !! Touched(items[i]); }
  }

  lemma FewerItems(fs: Files, items: seq<Item>, n: nat)
    requires Independent(items) && Staging(fs, items) && n <= |items|
    ensures Independent(items[..n]) && Staging(fs, items[..n])
  {
    hide Touched, StagedWell;
  }

  /** What the last item works on is as it was while the others are being done. */
  lemma OthersElsewhere(fs: Files, items: seq<Item>, k: nat)
    requires Independent(items) && Staging(fs, items) && items != [] && k <= |AllOps(items[..|items| - 1])|
    ensures var fs', it := ApplyAll(fs, AllOps(items[..|items| - 1])[..k]), items[|items| - 1];
      && SameAt(fs, fs', it.dest) && StagedWell(fs', it) && (it.staged.Copy? ==> SameAt(fs, fs', it.staged.from))
  {
    var n := |items| - 1;
    var it := items[n];
    assert StagedWell(fs, it);
    hide Touched, Carried, AllOps, ApplyAll, LeavesAlone, Independent, Staging;
    forall j | 0 <= j < n
      ensures LeavesAlone(items[..n][j], it.dest) && (it.staged.Copy? ==> LeavesAlone(items[..n][j], it.staged.from))
    {
      ApartFrom(items, n, j);
    }
    Untouched(fs, items[..n], k, it.dest);
    if it.staged.Copy? { Untouched(fs, items[..n], k, it.staged.from); }
  }

  /** ... and when the others are done. */
  lemma OthersDone(fs: Files, items: seq<Item>)
    requires Independent(items) && Staging(fs, items) && items != []
    ensures var before, it := CommitAll(fs, items[..|items| - 1]), items[|items| - 1];
      && SameAt(fs, before, it.dest) && StagedWell(before, it) &&
        (it.staged.Copy? ==> SameAt(fs, before, it.staged.from))
  {
    var ops := AllOps(items[..|items| - 1]);
    assert ops[..|ops|] == ops;
    OthersElsewhere(fs, items, |ops|);
    hide AllOps, ApplyAll, SameAt, StagedWell;
  }

  /** What an item finds decides what becomes of it, not what others did before. */
  lemma SameForItem(fs: Files, before: Files, fs': Files, it: Item)
    requires SameAt(fs, before, it.dest) && (it.staged.Copy? ==> SameAt(fs, before, it.staged.from))
    ensures InPlace(fs, fs', it) <==> InPlace(before, fs', it)
    ensures EndsInPlace(fs, it) <==> EndsInPlace(before, it)
  {
    hide Unhindered;
  }

  lemma LastExactly(fs: Files, items: seq<Item>)
    requires Independent(items) && Staging(fs, items) && items != []
    ensures InPlace(fs, CommitAll(fs, items), items[|items| - 1]) <==> EndsInPlace(fs, items[|items| - 1])
  {
    hide *;
    var before, it := CommitAll(fs, items[..|items| - 1]), items[|items| - 1];
    CommitLast(fs, items);
    OthersDone(fs, items);
    ItemExactly(before, it);
    SameForItem(fs, before, CommitAll(fs, items), it);
  }

  /** After a commit an item is in place exactly when no failure met it or nothing was to be changed anyway. */
  lemma {:induction false} CommitExactly(fs: Files, items: seq<Item>, i: nat)
    requires Independent(items) && Staging(fs, items) && i < |items|
    ensures InPlace(fs, CommitAll(fs, items), items[i]) <==> EndsInPlace(fs, items[i])
  {
    hide *;
    var n := |items| - 1;
    if i == n {
      LastExactly(fs, items);
    } else {
      FewerItems(fs, items, n);
      CommitExactly(fs, items[..n], i);
      CommitLast(fs, items);
      var before := CommitAll(fs, items[..n]);
      ApartFrom(items, i, n);
      assert Carried(items[n])[..|Carried(items[n])|] == Carried(items[n]);
      PartElsewhere(before, items[n], |Carried(items[n])|, items[i].dest);
      InPlaceStays(fs, before, CommitAll(fs, items), items[i]);
    }
  }

  /** When all items have been committed, each of them that met no failure has what it staged. */
  lemma AllInPlace(fs: Files, items: seq<Item>, i: nat)
    requires Independent(items) && Staging(fs, items) && i < |items| && Unhindered(items[i])
    ensures InPlace(fs, CommitAll(fs, items), items[i])
  {
    CommitExactly(fs, items, i);
    hide CommitAll, KeptAnyway, Independent, Staging;
  }

  // ---------- The transaction ----------

  function Min(a: nat, b: nat): nat { if a < b then a else b }

  /** An item of an aborted transaction: it waits for nothing any more, and is done if it was not started. */
  function Dropped(it: Item): Item {
    it.(status := if it.status == Idle then Done else it.status, queued := it.queued && it.status == Fetching)
  }

  function AllDropped(items: seq<Item>): (r: seq<Item>)
    ensures |r| == |items| && forall i :: 0 <= i < |r| ==> r[i] == Dropped(items[i])
  {
    seq(|items|, i requires 0 <= i < |items| => Dropped(items[i]))
  }

  class Transaction {
    /** The items, and which of them is the release file. */
    var items: seq<Item>
    var release: nat
    var state: State
    var files: Files
    /** Fatal errors raised for ending a transaction twice. */
    var fatal: nat

    constructor (release: Item, files: Files)
      ensures items == [release] && this.release == 0 && state == Started && this.files == files && fatal == 0
    {
      items, this.release, state, this.files, fatal := [release], 0, Started, files, 0;
    }

    method Add(it: Item)
      modifies `items
      ensures items == old(items) + [it]
    {
      items := items + [it];
    }

    method TransactionHasError() returns (any: bool)
      ensures any <==> exists i :: 0 <= i < |items| && items[i].status in {AuthError, Error, NetworkError}
    {
      for i := 0 to |items|
        invariant forall j :: 0 <= j < i ==> !items[j].status.IsError()
      {
        if items[i].status.IsError() { return true; }
      }
      return false;
    }

    /**
      Puts everything into place, the release file last. What becomes of an item that meets a failure is
      not looked at. The process is killed after `steps` file operations.
    */
    method CommitTransaction(steps: nat)
      requires release < |items|
      modifies `state, `items, `files, `fatal
      ensures old(state) != Started ==>
        state == old(state) && items == old(items) && files == old(files) && fatal == old(fatal) + 1
      ensures old(state) == Started ==> state == Committed && items == [] && fatal == old(fatal)
      ensures old(state) == Started ==>
        var ops := AllOps(Order(old(items), release));
        files == ApplyAll(old(files), ops[..Min(steps, |ops|)])
    {
      hide *;
      if state != Started {
        fatal := fatal + 1;
        return;
      }
      state := Committed;
      ghost var fs := files;
      OrderOps(items, release);
      var left := CommitOthers(steps);
      ghost var k := steps - left;
      OpsGrow(fs, AllOps(Others(items, |items|, release)), Carried(items[release]), k);
      if left > 0 {
        var rest := CommitItem(items[release], left);
        left := rest;
      }
      items := [];
      MinMeans(steps, steps - left, |AllOps(Order(old(items), release))|);
    }

    /** The loop over the items, which leaves the release file alone. */
    method CommitOthers(steps: nat) returns (left: nat)
      modifies `files
      ensures left <= steps && steps - left <= |AllOps(Others(items, |items|, release))|
      ensures left > 0 ==> steps - left == |AllOps(Others(items, |items|, release))|
      ensures files == ApplyAll(old(files), AllOps(Others(items, |items|, release))[..steps - left])
    {
      left := steps;
      hide *;
      NoOthers(files, items, release);
      for i := 0 to |items|
        invariant left <= steps && steps - left <= |AllOps(Others(items, i, release))|
        invariant left > 0 ==> steps - left == |AllOps(Others(items, i, release))|
        invariant files == ApplyAll(old(files), AllOps(Others(items, i, release))[..steps - left])
      {
        OthersGrow(items, i, release);
        OpsGrow(old(files), AllOps(Others(items, i, release)), Carried(items[i]), steps - left);
        if i != release && left > 0 {
          var rest := CommitItem(items[i], left);
          left := rest;
        }
      }
    }

    /** One item: its file operations, until one fails or the process is killed. */
    method CommitItem(it: Item, steps: nat) returns (left: nat)
      modifies `files
      ensures left <= steps && steps - left <= |Carried(it)| && (left > 0 ==> steps - left == |Carried(it)|)
      ensures files == ApplyAll(old(files), Carried(it)[..steps - left])
    {
      hide *;
      left := steps;
      ghost var fs := files;
      var ops := Carried(it);
      NoOps(fs, ops);
      for j := 0 to |ops|
        invariant left <= steps && steps - left <= j && (left > 0 ==> steps - left == j)
        invariant files == ApplyAll(fs, ops[..steps - left])
      {
        if left > 0 {
          OneMoreOp(fs, ops, j);
          files := Apply(files, ops[j]);
          left := left - 1;
        }
      }
    }

    /** Gives the transaction up; no file is touched. */
    method AbortTransaction() returns (dropped: seq<Item>)
      modifies `state, `items, `fatal
      ensures old(state) != Started ==>
        state == old(state) && items == old(items) && fatal == old(fatal) + 1 && dropped == []
      ensures old(state) == Started ==>
        state == Aborted && fatal == old(fatal) && items == [] && dropped == AllDropped(old(items))
      ensures forall i :: 0 <= i < |dropped| ==>
        var was := old(items)[i];
        && dropped[i].status == (if was.status == Idle then Done else was.status)
        && (dropped[i].queued <==> was.queued && was.status == Fetching)
        && dropped[i].staged == was.staged && dropped[i].dest == was.dest
    {
      dropped := [];
      if state != Started {
        fatal := fatal + 1;
        return;
      }
      state := Aborted;
      for i := 0 to |items|
        invariant dropped == AllDropped(items)[..i]
      {
        var it := items[i];
        if it.status != Fetching { it := it.(queued := false); }
        if it.status == Idle { it := it.(status := Done, queued := false); }
        dropped := dropped + [it];
      }
      items := [];
    }

    /** The end of a transaction without errors. */
    method Finished(steps: nat)
      requires release < |items|
      modifies `state, `items, `files, `fatal
      ensures fatal == old(fatal)
      ensures state == if old(state) == Started &&
        (forall i :: 0 <= i < |old(items)| ==> old(items)[i].status !in {AuthError, Error, NetworkError}) then Committed
                       else old(state)
      ensures state == old(state) ==> files == old(files) && items == old(items)
      ensures state != old(state) ==>
        var ops := AllOps(Order(old(items), release));
        items == [] && files == ApplyAll(old(files), ops[..Min(steps, |ops|)])
    {
      var any := TransactionHasError();
      if state == Started && !any { CommitTransaction(steps); }
    }
  }

  lemma MinMeans(steps: nat, k: nat, n: nat)
    requires k <= steps && k <= n && (k == steps || k == n)
    ensures Min(steps, n) == k
  {
  }

  lemma NoOps(fs: Files, ops: seq<FileOp>)
    ensures ApplyAll(fs, ops[..0]) == fs
  {
  }

  lemma OneMoreOp(fs: Files, ops: seq<FileOp>, j: nat)
    requires j < |ops|
    ensures ApplyAll(fs, ops[..j + 1]) == Apply(ApplyAll(fs, ops[..j]), ops[j])
  {
    assert ops[..j + 1][..j] == ops[..j];
  }

  /** The first k operations when b comes behind a. */
  lemma OpsGrow(fs: Files, a: seq<FileOp>, b: seq<FileOp>, k: nat)
    requires k <= |a|
    ensures ApplyAll(fs, (a + b)[..k]) == ApplyAll(fs, a[..k])
    ensures forall m :: 0 <= m <= |b| ==> ApplyAll(fs, (a + b)[..|a| + m]) == ApplyAll(ApplyAll(fs, a), b[..m])
    ensures a[..|a|] == a
  {
    assert (a + b)[..k] == a[..k];
    forall m | 0 <= m <= |b| ensures ApplyAll(fs, (a + b)[..|a| + m]) == ApplyAll(ApplyAll(fs, a), b[..m]) {
      assert (a + b)[..|a| + m] == a + b[..m];
      ApplyConcat(fs, a, b[..m]);
    }
  }

  /** The items before i but for the release file, in order. */
  function Others(items: seq<Item>, n: nat, release: nat): (r: seq<Item>)
    requires n <= |items|
    ensures |r| <= n
  {
    if n == 0 then [] else Others(items, n - 1, release) + (if n - 1 == release then [] else [items[n - 1]])
  }

  lemma NoOthers(fs: Files, items: seq<Item>, release: nat)
    ensures Others(items, 0, release) == [] && |AllOps(Others(items, 0, release))| == 0
    ensures ApplyAll(fs, AllOps(Others(items, 0, release))[..0]) == fs
  {
    var none: seq<Item> := [];
    assert Others(items, 0, release) == none && AllOps(none) == [];
    NoOps(fs, []);
  }

  lemma OthersGrow(items: seq<Item>, i: nat, release: nat)
    requires i < |items|
    ensures AllOps(Others(items, i + 1, release)) ==
      if i == release then AllOps(Others(items, i, release)) else AllOps(Others(items, i, release)) + Carried(items[i])
  {
    if i != release {
      var next := Others(items, i + 1, release);
      assert next[..|next| - 1] == Others(items, i, release) && next[|next| - 1] == items[i];
    } else {
      assert Others(items, i + 1, release) == Others(items, i, release);
    }
  }

  /** All items, the release file last. */
  function Order(items: seq<Item>, release: nat): (r: seq<Item>)
    requires release < |items|
    ensures |r| == |items|
  {
    OthersLength(items, |items|, release);
    Others(items, |items|, release) + [items[release]]
  }

  lemma OrderOps(items: seq<Item>, release: nat)
    requires release < |items|
    ensures AllOps(Order(items, release)) == AllOps(Others(items, |items|, release)) + Carried(items[release])
    ensures Order(items, release)[..|items| - 1] == Others(items, |items|, release)
    ensures Order(items, release)[|items| - 1] == items[release]
  {
    OthersLength(items, |items|, release);
    var order := Order(items, release);
    assert order[..|order| - 1] == Others(items, |items|, release);
  }

  lemma {:induction false} OthersLength(items: seq<Item>, n: nat, release: nat)
    requires n <= |items|
    ensures |Others(items, n, release)| == if release < n then n - 1 else n
  {
    if n > 0 { OthersLength(items, n - 1, release); }
  }

  /** Order lists every item once: the others keep their places, but for the gap the release file leaves. */
  lemma {:induction false} OthersAt(items: seq<Item>, n: nat, release: nat, k: nat)
    requires n <= |items| && k < |Others(items, n, release)|
    ensures k + (if k < release then 0 else 1) < n
    ensures Others(items, n, release)[k] == items[k + if k < release then 0 else 1]
  {
    OthersLength(items, n - 1, release);
    if k < |Others(items, n - 1, release)| { OthersAt(items, n - 1, release, k); }
  }

  lemma OrderIndependent(items: seq<Item>, release: nat, fs: Files)
    requires release < |items| && Independent(items) && Staging(fs, items)
    ensures Independent(Order(items, release)) && Staging(fs, Order(items, release))
  {
    var order := Order(items, release);
    OthersLength(items, |items|, release);
    forall i | 0 <= i < |order| ensures order[i] == items[Place(i, |items|, release)] {
      if i < |order| - 1 { OthersAt(items, |items|, release, i); }
    }
    hide Touched;
    forall i, j | 0 <= i < j < |order| ensures Touched(order[i]) !! Touched(order[j]) {
      var a, b := Place(i, |items|, release), Place(j, |items|, release);
      assert a != b;
      if a < b {
        assert Touched(items[a]) !! Touched(items[b]);
      } else {
        assert Touched(items[b]) !! Touched(items[a]);
      }
    }
  }

  /** Where the i-th item of the order stands in the list of items. */
  function Place(i: nat, n: nat, release: nat): nat
    requires i < n && release < n
  {
    if i == n - 1 then release else if i < release then i else i + 1
  }

  /** The commit of all items but the release file is over: those are in place that can be. */
  ghost predicate OthersSettled(before: Files, fs: Files, items: seq<Item>, release: nat) {
    forall i :: 0 <= i < |items| && i != release ==> (InPlace(before, fs, items[i]) <==> EndsInPlace(before, items[i]))
  }

  /**
    A commit may be interrupted between any two file operations. Unless all other items are settled,
    what the release file's path holds is what it held before; and it never holds anything but that,
    nothing, or the staged file.
  */
  lemma InterruptedCommit(fs: Files, items: seq<Item>, release: nat, steps: nat)
    requires release < |items| && Independent(items) && Staging(fs, items)
    requires steps <= |AllOps(Order(items, release))|
    ensures var fs' := ApplyAll(fs, AllOps(Order(items, release))[..steps]);
      && (SameAt(fs, fs', items[release].dest) || OthersSettled(fs, fs', items, release))
      && (SameAt(fs, fs', items[release].dest) || items[release].dest !in fs' || InPlace(fs, fs', items[release]))
  {
    hide *;
    var order := Order(items, release);
    var a, b := AllOps(Others(items, |items|, release)), Carried(items[release]);
    OrderOps(items, release);
    OrderIndependent(items, release, fs);
    if steps <= |a| {
      OpsGrow(fs, a, b, steps);
      OthersElsewhere(fs, order, steps);
    } else {
      OpsGrow(fs, a, b, |a|);
      EndOfCommit(fs, items, release, steps - |a|);
      assert |a| + (steps - |a|) == steps;
    }
  }

  /** What is left of the interrupted commit when only the release file was missing. */
  lemma EndOfCommit(fs: Files, items: seq<Item>, release: nat, n: nat)
    requires release < |items| && Independent(items) && Staging(fs, items) && n <= |Carried(items[release])|
    ensures var fs' := ApplyAll(ApplyAll(fs, AllOps(Others(items, |items|, release))), Carried(items[release])[..n]);
      && OthersSettled(fs, fs', items, release)
      && (SameAt(fs, fs', items[release].dest) || items[release].dest !in fs' || InPlace(fs, fs', items[release]))
  {
    hide *;
    CommitIs(fs, Others(items, |items|, release));
    AllOthersStay(fs, items, release, n);
    OrderOps(items, release);
    OrderIndependent(items, release, fs);
    OthersDone(fs, Order(items, release));
    ReleasePart(fs, CommitAll(fs, Others(items, |items|, release)), items[release], n);
  }

  lemma CommitIs(fs: Files, items: seq<Item>)
    ensures CommitAll(fs, items) == ApplyAll(fs, AllOps(items))
  {
  }

  lemma ReleasePart(fs: Files, before: Files, it: Item, n: nat)
    requires StagedWell(before, it) && n <= |Carried(it)|
    requires SameAt(fs, before, it.dest) && (it.staged.Copy? ==> SameAt(fs, before, it.staged.from))
    ensures var fs' := ApplyAll(before, Carried(it)[..n]);
      SameAt(fs, fs', it.dest) || it.dest !in fs' || InPlace(fs, fs', it)
  {
    hide Carried, ApplyAll, EndsInPlace;
    PartInPlace(before, it, n);
    SameForItem(fs, before, ApplyAll(before, Carried(it)[..n]), it);
    hide InPlace, StagedWell;
  }

  lemma AllOthersStay(fs: Files, items: seq<Item>, release: nat, n: nat)
    requires release < |items| && Independent(items) && Staging(fs, items) && n <= |Carried(items[release])|
    ensures var fs' := ApplyAll(CommitAll(fs, Others(items, |items|, release)), Carried(items[release])[..n]);
      OthersSettled(fs, fs', items, release)
  {
    hide Touched, Carried, AllOps, ApplyAll, Independent, Staging, CommitAll, EndsInPlace, InPlace, Others;
    var fs' := ApplyAll(CommitAll(fs, Others(items, |items|, release)), Carried(items[release])[..n]);
    forall i | 0 <= i < |items| && i != release ensures InPlace(fs, fs', items[i]) <==> EndsInPlace(fs, items[i]) {
      OthersStay(fs, items, release, n, i);
    }
  }

  lemma OthersStay(fs: Files, items: seq<Item>, release: nat, n: nat, i: nat)
    requires release < |items| && Independent(items) && Staging(fs, items) && n <= |Carried(items[release])|
    requires i < |items| && i != release
    ensures var fs' := ApplyAll(CommitAll(fs, Others(items, |items|, release)), Carried(items[release])[..n]);
      InPlace(fs, fs', items[i]) <==> EndsInPlace(fs, items[i])
  {
    hide *;
    var others := Others(items, |items|, release);
    var j := if i < release then i else i - 1;
    OrderOps(items, release);
    OrderIndependent(items, release, fs);
    OthersLength(items, |items|, release);
    OthersAt(items, |items|, release, j);
    FewerItems(fs, Order(items, release), |items| - 1);
    CommitExactly(fs, others, j);
    ApartFrom(items, i, release);
    var before := CommitAll(fs, others);
    PartElsewhere(before, items[release], n, items[i].dest);
    InPlaceStays(fs, before, ApplyAll(before, Carried(items[release])[..n]), items[i]);
  }

  /** Every item but the release file will be in place, as far as can be told before the commit. */
  ghost predicate OthersEndInPlace(fs: Files, items: seq<Item>, release: nat) {
    forall i :: 0 <= i < |items| && i != release ==> EndsInPlace(fs, items[i])
  }

  /** Every item but the release file is in place. */
  ghost predicate AllOthersInPlace(before: Files, fs: Files, items: seq<Item>, release: nat) {
    forall i :: 0 <= i < |items| && i != release ==> InPlace(before, fs, items[i])
  }

  /** If the release file is in place, so is everything it vouches for. */
  ghost predicate ReleaseHonest(before: Files, fs: Files, items: seq<Item>, release: nat)
    requires release < |items|
  {
    InPlace(before, fs, items[release]) ==> AllOthersInPlace(before, fs, items, release)
  }

  /**
    When the release file may be trusted: it is in place iff its own operations were carried out or it
    was there anyway, and it stands beside nothing but files in place iff the same holds of all others.
  */
  lemma ReleaseVouches(fs: Files, items: seq<Item>, release: nat)
    requires release < |items| && Independent(items) && Staging(fs, items)
    ensures var fs' := CommitAll(fs, Order(items, release));
      && (InPlace(fs, fs', items[release]) <==> EndsInPlace(fs, items[release]))
      && (AllOthersInPlace(fs, fs', items, release) <==> OthersEndInPlace(fs, items, release))
    ensures ReleaseHonest(fs, CommitAll(fs, Order(items, release)), items, release) <==>
      (EndsInPlace(fs, items[release]) ==> OthersEndInPlace(fs, items, release))
  {
    hide CommitAll, Order, EndsInPlace, InPlace, Independent, Staging;
    forall i | 0 <= i < |items|
      ensures InPlace(fs, CommitAll(fs, Order(items, release)), items[i]) <==> EndsInPlace(fs, items[i])
    {
      ReleaseOrderExactly(fs, items, release, i);
    }
  }

  lemma ReleaseOrderExactly(fs: Files, items: seq<Item>, release: nat, i: nat)
    requires release < |items| && Independent(items) && Staging(fs, items) && i < |items|
    ensures InPlace(fs, CommitAll(fs, Order(items, release)), items[i]) <==> EndsInPlace(fs, items[i])
  {
    hide *;
    var order := Order(items, release);
    OrderOps(items, release);
    OrderIndependent(items, release, fs);
    var j: nat := |items| - 1;
    if i != release { j := FindInOrder(items, release, i); }
    CommitExactly(fs, order, j);
  }

  /** A failure is not looked at: the release file goes into place although another item does not. */
  lemma FailureIgnored(fs: Files, items: seq<Item>, release: nat, i: nat)
    requires release < |items| && Independent(items) && Staging(fs, items) && Unhindered(items[release])
    requires i < |items| && i != release && !EndsInPlace(fs, items[i])
    ensures InPlace(fs, CommitAll(fs, Order(items, release)), items[release])
    ensures !InPlace(fs, CommitAll(fs, Order(items, release)), items[i])
  {
    ReleaseOrderExactly(fs, items, release, release);
    ReleaseOrderExactly(fs, items, release, i);
    hide CommitAll, Order, InPlace, KeptAnyway, Independent, Staging;
  }

  /** For example, when the old index file has been removed and the new one cannot be moved. */
  lemma IndexFileLost(fs: Files, items: seq<Item>)
    requires items == [Item(Copy(10, []), 1, Done, false, 1), Item(Copy(20, [2]), 2, Done, false, 1)]
    requires fs == map[10 := 100, 20 := 200, 2 := 199]
    ensures InPlace(fs, CommitAll(fs, Order(items, 0)), items[0])
    ensures !InPlace(fs, CommitAll(fs, Order(items, 0)), items[1])
  {
    var it := items[1];
    assert it.staged.forms[..1] == [2];
    assert Touched(items[0]) == {10, 1} && Touched(it) == {20, 2};
    assert !EndsInPlace(fs, it) && Unhindered(items[0]);
    assert Independent(items) && Staging(fs, items);
    hide *;
    FailureIgnored(fs, items, 0, 1);
  }

  lemma FindInOrder(items: seq<Item>, release: nat, i: nat) returns (j: nat)
    requires release < |items| && i < |items| && i != release
    ensures j < |Order(items, release)| - 1 && Order(items, release)[j] == items[i]
  {
    hide *;
    OrderOps(items, release);
    OthersLength(items, |items|, release);
    j := if i < release then i else i - 1;
    OthersAt(items, |items|, release, j);
    assert Order(items, release)[..|items| - 1][j] == Order(items, release)[j];
  }
}
