/**
  The fetch queues and their accounting. An entry is one URI with everybody who waits for
  it; the first of them is its primary owner. Owners are numbers, queues are lists.
*/
module FetchQueue {
  import opened Wrappers

  datatype Status = Idle | Fetching | Finished | Failed

  datatype Entry = Entry(uri: nat, owners: seq<nat>)

  /** What decides where an owner's entry goes: when it may be fetched, how urgent it is. */
  datatype Key = Key(fetchAfter: nat, priority: nat)
  {
    predicate AtLeast(o: Key) {
      fetchAfter > o.fetchAfter || (fetchAfter == o.fetchAfter && priority >= o.priority)
    }

    function Join(o: Key): Key {
      Key(if fetchAfter >= o.fetchAfter then fetchAfter else o.fetchAfter, if priority >= o.priority then priority
        else o.priority)
    }
  }

  datatype Queue = Queue(items: seq<Entry>, pipeDepth: int, maxPipeDepth: nat, hasWorker: bool)

  // ---------- Who is in a queue ----------

  function One(b: bool): nat { if b then 1 else 0 }

  predicate LedBy(e: Entry, o: nat) {
    e.owners != [] && e.owners[0] == o
  }

  /** In how many entries o waits. */
  function Waits(items: seq<Entry>, o: nat): nat {
    if items == [] then 0 else One(o in items[0].owners) + Waits(items[1..], o)
  }

  /** How many entries o is the primary owner of. */
  function Leads(items: seq<Entry>, o: nat): nat {
    if items == [] then 0 else One(LedBy(items[0], o)) + Leads(items[1..], o)
  }

  predicate IsBusy(e: Entry, status: seq<Status>) {
    e.owners != [] && e.owners[0] < |status| && status[e.owners[0]] == Fetching
  }

  /** How many entries are being fetched. */
  function Busy(items: seq<Entry>, status: seq<Status>): nat {
    if items == [] then 0 else Busy(items[1..], status) + One(IsBusy(items[0], status))
  }

  /** Somebody waits for the entry, and everybody who does is known. */
  predicate EntryOk(e: Entry, n: nat) {
    e.owners != [] && forall k :: 0 <= k < |e.owners| ==> e.owners[k] < n
  }

  ghost predicate QueueOk(q: Queue, status: seq<Status>) {
    && (forall i :: 0 <= i < |q.items| ==> EntryOk(q.items[i], |status|))
    && q.pipeDepth == Busy(q.items, status)
    && q.pipeDepth <= q.maxPipeDepth
    && (q.pipeDepth > 0 ==> q.hasWorker)
  }

  lemma {:induction false} Concat(a: seq<Entry>, b: seq<Entry>, o: nat, status: seq<Status>)
    ensures Waits(a + b, o) == Waits(a, o) + Waits(b, o)
    ensures Leads(a + b, o) == Leads(a, o) + Leads(b, o)
    ensures Busy(a + b, status) == Busy(a, status) + Busy(b, status)
  {
    if a == [] {
      assert a + b == b;
    } else {
      Concat(a[1..], b, o, status);
      assert (a + b)[1..] == a[1..] + b;
    }
  }

  /** An entry in the middle of a queue. */
  lemma Around(a: seq<Entry>, e: Entry, b: seq<Entry>, o: nat, status: seq<Status>)
    ensures Waits(a + [e] + b, o) == Waits(a, o) + One(o in e.owners) + Waits(b, o)
    ensures Leads(a + [e] + b, o) == Leads(a, o) + One(LedBy(e, o)) + Leads(b, o)
    ensures Busy(a + [e] + b, status) == Busy(a, status) + One(IsBusy(e, status)) + Busy(b, status)
  {
    Concat(a + [e], b, o, status);
    Concat(a, [e], o, status);
  }

  lemma SplitAt(items: seq<Entry>, i: nat)
    requires i < |items|
    ensures items == items[..i] + [items[i]] + items[i + 1..]
  {
  }

  lemma {:induction false} WaitsIn(items: seq<Entry>, i: nat, o: nat)
    requires i < |items| && o in items[i].owners
    ensures Waits(items, o) > 0
  {
    if i > 0 {
      WaitsIn(items[1..], i - 1, o);
    }
  }

  lemma {:induction false} LeadsIn(items: seq<Entry>, i: nat, o: nat)
    requires i < |items| && LedBy(items[i], o)
    ensures Leads(items, o) > 0
  {
    if i > 0 {
      LeadsIn(items[1..], i - 1, o);
    }
  }

  lemma {:induction false} LeadersWait(items: seq<Entry>, o: nat)
    ensures Leads(items, o) <= Waits(items, o)
  {
    if items != [] {
      LeadersWait(items[1..], o);
    }
  }

  /** Owner o begins or ceases to be served. */
  predicate Served(status: seq<Status>, status': seq<Status>, o: nat)
    requires |status| == |status'| && o < |status|
  {
    (status[o] == Fetching) != (status'[o] == Fetching)
  }

  /** The only statuses that matter to a queue are whether primary owners are being served. */
  lemma {:induction false} BusySame(items: seq<Entry>, status: seq<Status>, status': seq<Status>)
    requires |status| == |status'|
    requires forall o :: 0 <= o < |status| && status'[o] != status[o] ==>
      Leads(items, o) == 0 || !Served(status, status', o)
    ensures Busy(items, status') == Busy(items, status)
  {
    if items != [] {
      BusySame(items[1..], status, status');
    }
  }

  lemma OthersUnaffected(q: Queue, status: seq<Status>, status': seq<Status>)
    requires QueueOk(q, status) && |status| == |status'|
    requires forall o :: 0 <= o < |status| && status'[o] != status[o] ==>
      Leads(q.items, o) == 0 || !Served(status, status', o)
    ensures QueueOk(q, status')
  {
    BusySame(q.items, status, status');
  }

  // ---------- Starting and finishing one entry ----------

  function SetAll(status: seq<Status>, owners: seq<nat>, s: Status): (r: seq<Status>)
    ensures |r| == |status|
    ensures forall o :: 0 <= o < |status| ==> r[o] == if o in owners then s else status[o]
  {
    seq(|status|, o requires 0 <= o < |status| => if o in owners then s else status[o])
  }

  /** The statuses when one entry waits no longer. */
  function Settled(status: seq<Status>, owners: seq<nat>): (r: seq<Status>)
    ensures |r| == |status|
    ensures forall o :: 0 <= o < |status| ==> r[o] == if o in owners && status[o] == Fetching then Finished
      else status[o]
  {
    seq(|status|, o requires 0 <= o < |status| => if o in owners && status[o] == Fetching then Finished else status[o])
  }

  /** Owners sent elsewhere are idle again, whoever else was being served is done; nobody else is touched. */
  function AfterAnswer(status: seq<Status>, owners: seq<nat>, redirected: bool): (r: seq<Status>)
    ensures |r| == |status|
    ensures forall o :: 0 <= o < |status| && o !in owners ==> r[o] == status[o]
    ensures forall o :: 0 <= o < |status| && o in owners && redirected ==> r[o] == Idle
    ensures forall o :: 0 <= o < |status| && o in owners && !redirected ==>
      r[o] == if status[o] == Fetching then Finished else status[o]
  {
    if redirected then SetAll(status, owners, Idle) else Settled(status, owners)
  }

  /** Who leads an entry waits in no other. */
  ghost predicate LeadersApart(items: seq<Entry>) {
    forall o :: Leads(items, o) > 0 ==> Waits(items, o) == 1
  }

  lemma LedNowhereElse(a: seq<Entry>, e: Entry, b: seq<Entry>, o: nat)
    requires LeadersApart(a + [e] + b) && o in e.owners
    ensures Leads(a, o) == 0 && Leads(b, o) == 0
  {
    Around(a, e, b, o, []);
    LeadersWait(a, o);
    LeadersWait(b, o);
  }

  /** Changing the status of one entry's owners changes that entry only. */
  lemma EntryChanged(items: seq<Entry>, status: seq<Status>, status': seq<Status>, i: nat)
    requires LeadersApart(items) && i < |items| && |status| == |status'|
    requires forall o :: 0 <= o < |status| && o !in items[i].owners ==> status'[o] == status[o]
    ensures Busy(items, status') == Busy(items, status) - One(IsBusy(items[i], status)) + One(IsBusy(items[i], status'))
  {
    var a, e, b := items[..i], items[i], items[i + 1..];
    SplitAt(items, i);
    Around(a, e, b, 0, status);
    Around(a, e, b, 0, status');
    forall o | 0 <= o < |status| && status'[o] != status[o] ensures Leads(a, o) == 0 && Leads(b, o) == 0 {
      LedNowhereElse(a, e, b, o);
    }
    BusySame(a, status, status');
    BusySame(b, status, status');
  }

  // ---------- When the accounts of a queue are right ----------

  predicate HasLeader(e: Entry, n: nat) {
    e.owners != [] && e.owners[0] < n
  }

  predicate HaveLeaders(items: seq<Entry>, n: nat) {
    forall j :: 0 <= j < |items| ==> HasLeader(items[j], n)
  }

  /** All entries whose primary owner is among the given ones are being fetched, or all of them are not. */
  predicate AllBusy(items: seq<Entry>, owners: seq<nat>, status: seq<Status>, busy: bool) {
    forall j :: 0 <= j < |items| && items[j].owners != [] && items[j].owners[0] in owners ==>
      IsBusy(items[j], status) == busy
  }

  /** Starting an entry makes one more entry busy iff its owners lead no other entry that is not busy yet. */
  lemma StartCountsOne(a: seq<Entry>, e: Entry, b: seq<Entry>, status: seq<Status>)
    requires HaveLeaders(a, |status|) && HaveLeaders(b, |status|) && HasLeader(e, |status|) && !IsBusy(e, status)
    ensures Busy(a + [e] + b, SetAll(status, e.owners, Fetching)) == Busy(a + [e] + b, status) + 1
       <==> AllBusy(a, e.owners, status, true) && AllBusy(b, e.owners, status, true)
  {
    var status' := SetAll(status, e.owners, Fetching);
    Around(a, e, b, 0, status);
    Around(a, e, b, 0, status');
    StartGrows(a, status, e.owners);
    StartGrows(b, status, e.owners);
    assert IsBusy(e, status');
    hide Busy, AllBusy;
  }

  lemma {:induction false} StartGrows(items: seq<Entry>, status: seq<Status>, owners: seq<nat>)
    requires HaveLeaders(items, |status|)
    ensures Busy(items, SetAll(status, owners, Fetching)) >= Busy(items, status)
    ensures Busy(items, SetAll(status, owners, Fetching)) == Busy(items, status) <==>
      AllBusy(items, owners, status, true)
  {
    if items != [] {
      StartGrows(items[1..], status, owners);
      assert HasLeader(items[0], |status|);
      assert forall j :: 0 < j < |items| ==> items[j] == items[1..][j - 1];
    }
  }

  /** The owners of an entry wait no longer. */
  ghost predicate Stopped(status: seq<Status>, status': seq<Status>, owners: seq<nat>) {
    && |status'| == |status|
    && forall o :: 0 <= o < |status| ==> if o in owners then status'[o] != Fetching else status'[o] == status[o]
  }

  /** Finishing an entry makes one entry less busy iff its owners lead no other entry that is busy. */
  lemma FinishCountsOne(a: seq<Entry>, e: Entry, b: seq<Entry>, status: seq<Status>, status': seq<Status>)
    requires HaveLeaders(a, |status|) && HaveLeaders(b, |status|) && HasLeader(e, |status|) && IsBusy(e, status)
    requires Stopped(status, status', e.owners)
    ensures Busy(a + [e] + b, status') + 1 == Busy(a + [e] + b, status)
       <==> AllBusy(a, e.owners, status, false) && AllBusy(b, e.owners, status, false)
  {
    Around(a, e, b, 0, status);
    Around(a, e, b, 0, status');
    FinishShrinks(a, status, status', e.owners);
    FinishShrinks(b, status, status', e.owners);
    assert !IsBusy(e, status');
    hide Busy, AllBusy;
  }

  lemma {:induction false} FinishShrinks(items: seq<Entry>, status: seq<Status>, status': seq<Status>, owners: seq<nat>)
    requires HaveLeaders(items, |status|) && Stopped(status, status', owners)
    ensures Busy(items, status') <= Busy(items, status)
    ensures Busy(items, status') == Busy(items, status) <==> AllBusy(items, owners, status, false)
  {
    if items != [] {
      FinishShrinks(items[1..], status, status', owners);
      assert HasLeader(items[0], |status|);
      assert forall j :: 0 < j < |items| ==> items[j] == items[1..][j - 1];
    }
  }

  /** Starting or finishing entry i changes the number of busy entries by one. */
  ghost predicate CountsOne(items: seq<Entry>, i: nat, status: seq<Status>) {
    i < |items| ==>
      if IsBusy(items[i], status) then Busy(items, SetAll(status, items[i].owners, Idle)) + 1 == Busy(items, status)
      else Busy(items, SetAll(status, items[i].owners, Fetching)) == Busy(items, status) + 1
  }

  /**
    The exact condition for counting busy entries one by one: whatever the statuses and whichever the
    entry, every start and every end counts one if and only if who leads an entry waits in no other.
    The list may be that of one queue or of all queues behind each other.
  */
  lemma CountingNeedsLeadersApart(items: seq<Entry>, n: nat)
    requires HaveLeaders(items, n)
    ensures LeadersApart(items) <==> forall i: nat, status: seq<Status> :: |status| == n ==> CountsOne(items, i, status)
  {
    if LeadersApart(items) {
      forall i: nat, status: seq<Status> | |status| == n ensures CountsOne(items, i, status) {
        if i < |items| { ApartCountsOne(items, i, status); }
      }
    } else {
      var o :| Leads(items, o) > 0 && Waits(items, o) != 1;
      var i, j := LeaderElsewhere(items, o);
      var status := seq(n, x => Idle);
      SharedLeaderMiscounts(items, i, j, status);
    }
  }

  lemma ApartCountsOne(items: seq<Entry>, i: nat, status: seq<Status>)
    requires HaveLeaders(items, |status|) && LeadersApart(items) && i < |items|
    ensures CountsOne(items, i, status)
  {
    assert HasLeader(items[i], |status|);
    EntryChanged(items, status, SetAll(status, items[i].owners, Idle), i);
    EntryChanged(items, status, SetAll(status, items[i].owners, Fetching), i);
    assert items[i].owners[0] in items[i].owners;
    hide Busy, LeadersApart, HaveLeaders;
  }

  /** Somebody who leads an entry and does not wait in exactly one waits in another. */
  lemma {:induction false} LeaderElsewhere(items: seq<Entry>, o: nat) returns (i: nat, j: nat)
    requires Leads(items, o) > 0 && Waits(items, o) != 1
    ensures i < |items| && j < |items| && i != j && o in items[i].owners && LedBy(items[j], o)
  {
    LeadersWait(items[1..], o);
    if LedBy(items[0], o) {
      i := FirstWait(items[1..], o);
      i, j := i + 1, 0;
    } else if o in items[0].owners {
      j := FirstLed(items[1..], o);
      i, j := 0, j + 1;
    } else {
      i, j := LeaderElsewhere(items[1..], o);
      i, j := i + 1, j + 1;
    }
  }

  lemma {:induction false} FirstWait(items: seq<Entry>, o: nat) returns (i: nat)
    requires Waits(items, o) > 0
    ensures i < |items| && o in items[i].owners
  {
    if o in items[0].owners { i := 0; } else { i := FirstWait(items[1..], o); i := i + 1; }
  }

  lemma {:induction false} FirstLed(items: seq<Entry>, o: nat) returns (i: nat)
    requires Leads(items, o) > 0
    ensures i < |items| && LedBy(items[i], o)
  {
    if LedBy(items[0], o) { i := 0; } else { i := FirstLed(items[1..], o); i := i + 1; }
  }

  /** With nothing under way, starting entry i takes entry j, led by one of its owners, for started, too. */
  lemma SharedLeaderMiscounts(items: seq<Entry>, i: nat, j: nat, status: seq<Status>)
    requires HaveLeaders(items, |status|) && forall o :: 0 <= o < |status| ==> status[o] == Idle
    requires i < |items| && j < |items| && i != j && items[j].owners != [] && items[j].owners[0] in items[i].owners
    ensures !CountsOne(items, i, status)
  {
    var a, e, b := items[..i], items[i], items[i + 1..];
    SplitAt(items, i);
    assert HasLeader(e, |status|) && !IsBusy(e, status) && !IsBusy(items[j], status);
    assert HaveLeaders(a, |status|) && HaveLeaders(b, |status|);
    StartCountsOne(a, e, b, status);
    if j < i { assert a[j] == items[j]; } else { assert b[j - i - 1] == items[j]; }
  }

  lemma TwoEntries(e: Entry, f: Entry, o: nat)
    ensures Leads([e, f], o) == One(LedBy(e, o)) + One(LedBy(f, o))
    ensures Waits([e, f], o) == One(o in e.owners) + One(o in f.owners)
  {
    assert [e, f] == [] + [e] + [f] && [f] == [] + [f] + [];
    Around([], e, [f], o, []);
    Around([], f, [], o, []);
  }

  /** Being the primary owner of one entry only is not enough: the second entry is taken for started, too. */
  lemma SharedOwnerMiscounts(status: seq<Status>, items: seq<Entry>)
    requires status == [Idle, Idle] && items == [Entry(0, [0, 1]), Entry(1, [1])]
    ensures Leads(items, 0) == Leads(items, 1) == 1 && Waits(items, 1) == 2
    ensures !LeadersApart(items) && !CountsOne(items, 0, status)
  {
    var e, f := items[0], items[1];
    assert items == [e, f] && e.owners == [0, 1] && f.owners == [1];
    assert e.owners[0] == 0 && e.owners[1] == 1 && f.owners[0] == 1;
    TwoEntries(e, f, 0);
    TwoEntries(e, f, 1);
    hide Leads, Waits, Busy, CountsOne;
    assert HasLeader(e, 2) && HasLeader(f, 2) && forall j :: 0 <= j < 2 ==> items[j] == if j == 0 then e else f;
    SharedLeaderMiscounts(items, 0, 1, status);
  }

  // ---------- The order of a queue ----------

  function KeyOf(keys: seq<Key>, owners: seq<nat>): Key {
    if owners == [] then Key(0, 0)
    else KeyOf(keys, owners[..|owners| - 1]).Join(if owners[|owners| - 1] < |keys| then keys[owners[|owners| - 1]]
      else Key(0, 0))
  }

  function OwnerKey(keys: seq<Key>, o: nat): Key { if o < |keys| then keys[o] else Key(0, 0) }

  /** An entry may be fetched when the last of its owners may, and is as urgent as the most urgent one. */
  lemma {:induction false} KeyInTerms(keys: seq<Key>, owners: seq<nat>)
    requires owners != []
    ensures var key := KeyOf(keys, owners);
      && (forall o :: o in owners ==>
            OwnerKey(keys, o).fetchAfter <= key.fetchAfter && OwnerKey(keys, o).priority <= key.priority)
      && (exists o :: o in owners && OwnerKey(keys, o).fetchAfter == key.fetchAfter)
      && (exists o :: o in owners && OwnerKey(keys, o).priority == key.priority)
  {
    var n := |owners| - 1;
    assert owners == owners[..n] + [owners[n]] && owners[n] in owners;
    assert KeyOf(keys, owners) == KeyOf(keys, owners[..n]).Join(OwnerKey(keys, owners[n]));
    if n > 0 { KeyInTerms(keys, owners[..n]); } else { assert KeyOf(keys, owners[..n]) == Key(0, 0); }
  }

  ghost predicate Sorted(keys: seq<Key>, items: seq<Entry>) {
    forall i, j :: 0 <= i < j < |items| ==> KeyOf(keys, items[i].owners).AtLeast(KeyOf(keys, items[j].owners))
  }

  /** Behind the last entry whose key is at least the new one, or in front. */
  predicate InsertPoint(keys: seq<Key>, items: seq<Entry>, key: Key, k: nat) {
    && k <= |items| && (k > 0 ==> KeyOf(keys, items[k - 1].owners).AtLeast(key))
    && forall j :: k <= j < |items| ==> !KeyOf(keys, items[j].owners).AtLeast(key)
  }

  /** A new entry keeps the order and goes behind all equals. */
  lemma InsertSorted(keys: seq<Key>, items: seq<Entry>, e: Entry, k: nat)
    requires Sorted(keys, items) && InsertPoint(keys, items, KeyOf(keys, e.owners), k)
    ensures Sorted(keys, items[..k] + [e] + items[k..])
    ensures forall j :: 0 <= j < |items| ==> (j < k <==> KeyOf(keys, items[j].owners).AtLeast(KeyOf(keys, e.owners)))
  {
    hide KeyOf;
    forall j | 0 <= j < k ensures KeyOf(keys, items[j].owners).AtLeast(KeyOf(keys, e.owners)) {
      if j < k - 1 { assert KeyOf(keys, items[j].owners).AtLeast(KeyOf(keys, items[k - 1].owners)); }
    }
  }

  lemma JoinAtLeast(keys: seq<Key>, owners: seq<nat>, o: nat)
    ensures KeyOf(keys, owners + [o]).AtLeast(KeyOf(keys, owners)) || KeyOf(keys, owners + [o]) == KeyOf(keys, owners)
  {
    assert (owners + [o])[..|owners|] == owners;
  }

  /** Combining requests keeps the order if and only if the raised key does not pass the entry in front. */
  lemma MergeSorted(keys: seq<Key>, items: seq<Entry>, i: nat, o: nat)
    requires Sorted(keys, items) && i < |items|
    ensures var e := items[i].(owners := items[i].owners + [o]);
      Sorted(keys, items[i := e]) <==> (i > 0 ==> KeyOf(keys, items[i - 1].owners).AtLeast(KeyOf(keys, e.owners)))
  {
    var e := items[i].(owners := items[i].owners + [o]);
    JoinAtLeast(keys, items[i].owners, o);
    if i > 0 && !KeyOf(keys, items[i - 1].owners).AtLeast(KeyOf(keys, e.owners)) {
      assert items[i := e][i - 1] == items[i - 1] && items[i := e][i] == e;
    } else {
      hide KeyOf;
      MergeKeeps(keys, items, i, e);
    }
  }

  lemma MergeKeeps(keys: seq<Key>, items: seq<Entry>, i: nat, e: Entry)
    requires Sorted(keys, items) && i < |items|
    requires KeyOf(keys, e.owners).AtLeast(KeyOf(keys, items[i].owners)) ||
      KeyOf(keys, e.owners) == KeyOf(keys, items[i].owners)
    requires i > 0 ==> KeyOf(keys, items[i - 1].owners).AtLeast(KeyOf(keys, e.owners))
    ensures Sorted(keys, items[i := e])
  {
    hide KeyOf;
    var items' := items[i := e];
    forall a, b | 0 <= a < b < |items| ensures KeyOf(keys, items'[a].owners).AtLeast(KeyOf(keys, items'[b].owners)) {
      assert KeyOf(keys, items[a].owners).AtLeast(KeyOf(keys, items[b].owners));
      if b == i && a < i - 1 { assert KeyOf(keys, items[a].owners).AtLeast(KeyOf(keys, items[i - 1].owners)); }
    }
  }

  // ---------- All queues ----------

  function WaitsAll(queues: seq<Queue>, o: nat): nat {
    if queues == [] then 0 else Waits(queues[0].items, o) + WaitsAll(queues[1..], o)
  }

  function LeadsAll(queues: seq<Queue>, o: nat): nat {
    if queues == [] then 0 else Leads(queues[0].items, o) + LeadsAll(queues[1..], o)
  }

  function Total(queues: seq<Queue>): nat {
    if queues == [] then 0 else |queues[0].items| + Total(queues[1..])
  }

  lemma {:induction false} SumsUpdate(queues: seq<Queue>, k: nat, q: Queue, o: nat)
    requires k < |queues|
    ensures WaitsAll(queues[k := q], o) + Waits(queues[k].items, o) == WaitsAll(queues, o) + Waits(q.items, o)
    ensures LeadsAll(queues[k := q], o) + Leads(queues[k].items, o) == LeadsAll(queues, o) + Leads(q.items, o)
    ensures Total(queues[k := q]) + |queues[k].items| == Total(queues) + |q.items|
    ensures Waits(queues[k].items, o) <= WaitsAll(queues, o) && LeadsAll(queues, o) <= WaitsAll(queues, o)
  {
    LeadersWait(queues[0].items, o);
    if k > 0 {
      SumsUpdate(queues[1..], k - 1, q, o);
      assert queues[k := q][1..] == queues[1..][k - 1 := q];
    } else {
      assert queues[k := q][1..] == queues[1..];
      LeadersWaitAll(queues[1..], o);
    }
  }

  lemma {:induction false} LeadersWaitAll(queues: seq<Queue>, o: nat)
    ensures LeadsAll(queues, o) <= WaitsAll(queues, o)
  {
    if queues != [] {
      LeadersWait(queues[0].items, o);
      LeadersWaitAll(queues[1..], o);
    }
  }

  /** Waiting in one queue and leading in another adds up. */
  lemma {:induction false} WaitsAndLeads(queues: seq<Queue>, k: nat, j: nat, o: nat)
    requires k < |queues| && j < |queues| && j != k
    ensures Waits(queues[k].items, o) + Leads(queues[j].items, o) <= WaitsAll(queues, o)
    ensures Leads(queues[j].items, o) <= LeadsAll(queues, o)
  {
    LeadersWait(queues[j].items, o);
    if k == 0 {
      SumsUpdate(queues[1..], j - 1, queues[j], o);
      LeadsSome(queues, j, o);
    } else if j == 0 {
      SumsUpdate(queues[1..], k - 1, queues[k], o);
    } else {
      WaitsAndLeads(queues[1..], k - 1, j - 1, o);
    }
  }

  lemma {:induction false} LeadsSome(queues: seq<Queue>, k: nat, o: nat)
    requires k < |queues|
    ensures Leads(queues[k].items, o) <= LeadsAll(queues, o)
  {
    if k > 0 {
      LeadsSome(queues[1..], k - 1, o);
    }
  }

  /** Who leads an entry waits in no other, whatever the queue. */
  ghost predicate AllApart(queues: seq<Queue>) {
    forall o :: LeadsAll(queues, o) > 0 ==> WaitsAll(queues, o) == 1
  }

  /** Pipe depths, statuses and counters agree, and who leads an entry waits in no other. */
  ghost predicate BooksOk(queues: seq<Queue>, status: seq<Status>, counter: seq<nat>) {
    && |counter| == |status|
    && (forall k :: 0 <= k < |queues| ==> QueueOk(queues[k], status))
    && AllApart(queues)
    && (forall o :: 0 <= o < |counter| ==> counter[o] == LeadsAll(queues, o))
  }

  /** Who waits in one queue leads in no other. */
  lemma ApartElsewhere(queues: seq<Queue>, k: nat, j: nat, o: nat)
    requires AllApart(queues) && k < |queues| && j < |queues| && j != k && Waits(queues[k].items, o) > 0
    ensures Leads(queues[j].items, o) == 0
  {
    WaitsAndLeads(queues, k, j, o);
  }

  /** In queue q that is to replace queue k owner o leads no more than before, or has begun to wait. */
  predicate LeadsNoMore(queues: seq<Queue>, k: nat, q: Queue, o: nat)
    requires k < |queues|
  {
    || Leads(q.items, o) <= Leads(queues[k].items, o)
    || (LeadsAll(queues, o) == WaitsAll(queues, o) == 0 && Waits(q.items, o) == 1)
  }

  /** One queue was replaced, and statuses were changed of those waiting in it, or of nobody who leads. */
  lemma OneQueueChanged(queues: seq<Queue>, status: seq<Status>, counter: seq<nat>, k: nat, q: Queue,
                        status': seq<Status>, counter': seq<nat>)
    requires BooksOk(queues, status, counter) && k < |queues| && QueueOk(q, status')
    requires |status'| == |status| && |counter'| == |counter|
    requires forall o :: Waits(q.items, o) <= Waits(queues[k].items, o) || LeadsAll(queues, o) == 0
    requires forall o :: LeadsNoMore(queues, k, q, o)
    requires forall o :: 0 <= o < |status| && status'[o] != status[o] ==>
      Waits(queues[k].items, o) > 0 || LeadsAll(queues, o) == 0
    requires forall o :: 0 <= o < |counter| ==>
      counter'[o] + Leads(queues[k].items, o) == counter[o] + Leads(q.items, o)
    ensures BooksOk(queues[k := q], status', counter')
  {
    hide *;
    BooksParts(queues, status, counter);
    OthersStillOk(queues, status, k, status');
    StillApart(queues, k, q);
    CountersStillOk(queues, counter, k, q, counter');
    MakeBooks(queues, k, q, status', counter');
  }

  lemma BooksParts(queues: seq<Queue>, status: seq<Status>, counter: seq<nat>)
    requires BooksOk(queues, status, counter)
    ensures |counter| == |status| && AllApart(queues)
    ensures forall j :: 0 <= j < |queues| ==> QueueOk(queues[j], status)
    ensures forall o :: 0 <= o < |counter| ==> counter[o] == LeadsAll(queues, o)
  {
    hide AllApart, QueueOk;
  }

  lemma MakeBooks(queues: seq<Queue>, k: nat, q: Queue, status: seq<Status>, counter: seq<nat>)
    requires k < |queues| && |counter| == |status| && AllApart(queues[k := q]) && QueueOk(q, status)
    requires forall j :: 0 <= j < |queues| && j != k ==> QueueOk(queues[j], status)
    requires forall o :: 0 <= o < |counter| ==> counter[o] == LeadsAll(queues[k := q], o)
    ensures BooksOk(queues[k := q], status, counter)
  {
    hide AllApart, QueueOk, LeadsAll;
  }

  lemma CountersStillOk(queues: seq<Queue>, counter: seq<nat>, k: nat, q: Queue, counter': seq<nat>)
    requires k < |queues| && |counter'| == |counter|
    requires forall o :: 0 <= o < |counter| ==> counter[o] == LeadsAll(queues, o)
    requires forall o :: 0 <= o < |counter| ==>
      counter'[o] + Leads(queues[k].items, o) == counter[o] + Leads(q.items, o)
    ensures forall o :: 0 <= o < |counter'| ==> counter'[o] == LeadsAll(queues[k := q], o)
  {
    hide *;
    forall o: nat | o < |counter| ensures counter'[o] == LeadsAll(queues[k := q], o) { SumsUpdate(queues, k, q, o); }
  }

  lemma OthersStillOk(queues: seq<Queue>, status: seq<Status>, k: nat, status': seq<Status>)
    requires AllApart(queues) && k < |queues| && forall j :: 0 <= j < |queues| ==> QueueOk(queues[j], status)
    requires |status'| == |status|
    requires forall o :: 0 <= o < |status| && status'[o] != status[o] ==>
      Waits(queues[k].items, o) > 0 || LeadsAll(queues, o) == 0
    ensures forall j :: 0 <= j < |queues| && j != k ==> QueueOk(queues[j], status')
  {
    hide QueueOk, AllApart, Leads, Waits;
    forall j | 0 <= j < |queues| && j != k ensures QueueOk(queues[j], status') {
      forall o | 0 <= o < |status| && status'[o] != status[o] ensures Leads(queues[j].items, o) == 0 {
        if Waits(queues[k].items, o) > 0 { ApartElsewhere(queues, k, j, o); } else { LeadsSome(queues, j, o); }
      }
      OthersUnaffected(queues[j], status, status');
    }
  }

  lemma StillApart(queues: seq<Queue>, k: nat, q: Queue)
    requires AllApart(queues) && k < |queues|
    requires forall o :: Waits(q.items, o) <= Waits(queues[k].items, o) || LeadsAll(queues, o) == 0
    requires forall o :: LeadsNoMore(queues, k, q, o)
    ensures AllApart(queues[k := q])
  {
    var queues' := queues[k := q];
    forall o: nat | LeadsAll(queues', o) > 0 ensures WaitsAll(queues', o) == 1 {
      SumsUpdate(queues, k, q, o);
      LeadersWaitAll(queues', o);
      assert LeadsNoMore(queues, k, q, o);
    }
  }

  // ---------- The operations on one queue ----------

  /** A is not a transaction item, or all transaction items waiting for the entry have the same meta key. */
  predicate MetaKeysMatch(meta: seq<Option<nat>>, owner: nat, owners: seq<nat>) {
    owner < |meta| && (meta[owner].Some? ==>
      forall k :: 0 <= k < |owners| && owners[k] < |meta| && meta[owners[k]].Some? ==> meta[owners[k]] == meta[owner])
  }

  predicate Combines(meta: seq<Option<nat>>, e: Entry, uri: nat, owner: nat) {
    e.uri == uri && MetaKeysMatch(meta, owner, e.owners)
  }

  /** Transaction items waiting for the same entry have the same meta key. */
  ghost predicate EntryAgrees(meta: seq<Option<nat>>, e: Entry) {
    forall a, b :: a in e.owners && b in e.owners && a < |meta| && b < |meta| && meta[a].Some? && meta[b].Some? ==>
      meta[a] == meta[b]
  }

  ghost predicate KeysAgree(meta: seq<Option<nat>>, queues: seq<Queue>) {
    forall k, i :: 0 <= k < |queues| && 0 <= i < |queues[k].items| ==> EntryAgrees(meta, queues[k].items[i])
  }

  /** Requests for a URI are combined exactly if the transaction items among the owners still agree then. */
  lemma CombinesExactly(meta: seq<Option<nat>>, e: Entry, uri: nat, owner: nat)
    requires EntryAgrees(meta, e) && owner < |meta|
    ensures Combines(meta, e, uri, owner) <==>
      e.uri == uri && EntryAgrees(meta, e.(owners := e.owners + [owner]))
  {
    var e' := e.(owners := e.owners + [owner]);
    assert owner in e'.owners && forall o :: o in e.owners ==> o in e'.owners;
    if e.uri == uri && EntryAgrees(meta, e') {
      forall k | 0 <= k < |e.owners| && e.owners[k] < |meta| && meta[e.owners[k]].Some? && meta[owner].Some?
        ensures meta[e.owners[k]] == meta[owner]
      {
        assert e.owners[k] in e'.owners;
      }
    }
    if Combines(meta, e, uri, owner) {
      forall a, b | a in e'.owners && b in e'.owners && a < |meta| && b < |meta| && meta[a].Some? && meta[b].Some?
        ensures meta[a] == meta[b]
      {
        assert (a == owner || a in e.owners) && (b == owner || b in e.owners);
      }
    }
  }

  lemma NewEntryAgrees(meta: seq<Option<nat>>, uri: nat, owner: nat)
    ensures EntryAgrees(meta, Entry(uri, [owner]))
  {
  }

  /** The queues are as before but for one, whose entries agree. */
  lemma StillAgree(meta: seq<Option<nat>>, queues: seq<Queue>, queues': seq<Queue>, k: nat)
    requires KeysAgree(meta, queues) && |queues| == |queues'| && k < |queues|
    requires forall j :: 0 <= j < |queues| && j != k ==> queues'[j].items == queues[j].items
    requires forall i :: 0 <= i < |queues'[k].items| ==> EntryAgrees(meta, queues'[k].items[i])
    ensures KeysAgree(meta, queues')
  {
    hide EntryAgrees;
  }

  /** Leaving entries out of queues does no harm. */
  lemma FewerAgree(meta: seq<Option<nat>>, queues: seq<Queue>, queues': seq<Queue>)
    requires KeysAgree(meta, queues) && |queues| == |queues'|
    requires forall j, e :: 0 <= j < |queues| && e in queues'[j].items ==> e in queues[j].items
    ensures KeysAgree(meta, queues')
  {
    hide EntryAgrees;
    forall k, i | 0 <= k < |queues'| && 0 <= i < |queues'[k].items| ensures EntryAgrees(meta, queues'[k].items[i]) {
      assert queues'[k].items[i] in queues[k].items;
      var j :| 0 <= j < |queues[k].items| && queues[k].items[j] == queues'[k].items[i];
    }
  }

  /** A request keeps the keys of every entry in agreement. */
  lemma RequestAgrees(meta: seq<Option<nat>>, keys: seq<Key>, queues: seq<Queue>, queues': seq<Queue>, k: nat, uri: nat,
                      owner: nat, created: bool)
    requires KeysAgree(meta, queues) && |queues| == |queues'| && k < |queues|
    requires forall j :: 0 <= j < |queues| && j != k ==> queues'[j] == queues[j]
    requires created ==> exists place: nat ::
      IsInserted(keys, queues[k].items, queues'[k].items, Entry(uri, [owner]), place)
    requires !created ==> exists i: nat :: IsCombined(meta, queues[k].items, queues'[k].items, uri, owner, i)
    ensures KeysAgree(meta, queues')
  {
    var items, items' := queues[k].items, queues'[k].items;
    assert forall i :: 0 <= i < |items| ==> EntryAgrees(meta, items[i]);
    if created {
      var place: nat :| IsInserted(keys, items, items', Entry(uri, [owner]), place);
      NewEntryAgrees(meta, uri, owner);
      hide EntryAgrees;
    } else {
      var i: nat :| IsCombined(meta, items, items', uri, owner, i);
      CombinesExactly(meta, items[i], uri, owner);
      assert items'[i] == items[i].(owners := items[i].owners + [owner]);
      hide EntryAgrees;
    }
    StillAgree(meta, queues, queues', k);
  }

  /** The scan of Enqueue: the entry to combine the request with, or the place for a new one. */
  method FindPlace(meta: seq<Option<nat>>, keys: seq<Key>, items: seq<Entry>, uri: nat, owner: nat)
    returns (same: Option<nat>, place: nat)
    ensures same.Some? ==> same.value < |items| && Combines(meta, items[same.value], uri, owner)
    ensures same.Some? ==> forall j :: 0 <= j < same.value ==> !Combines(meta, items[j], uri, owner)
    ensures same.None? ==> forall j :: 0 <= j < |items| ==> !Combines(meta, items[j], uri, owner)
    ensures same.None? ==> InsertPoint(keys, items, KeyOf(keys, [owner]), place)
  {
    var key := KeyOf(keys, [owner]);
    place := 0;
    for i := 0 to |items|
      invariant forall j :: 0 <= j < i ==> !Combines(meta, items[j], uri, owner)
      invariant place <= i && (place > 0 ==> KeyOf(keys, items[place - 1].owners).AtLeast(key))
      invariant forall j :: place <= j < i ==> !KeyOf(keys, items[j].owners).AtLeast(key)
    {
      if Combines(meta, items[i], uri, owner) { return Some(i), 0; }
      if KeyOf(keys, items[i].owners).AtLeast(key) { place := i + 1; }
    }
    return None, place;
  }

  /** Taking one more owner into an entry. */
  lemma Combined(q: Queue, status: seq<Status>, i: nat, owner: nat, o: nat, e: Entry)
    requires QueueOk(q, status) && i < |q.items| && owner < |status|
    requires e == q.items[i].(owners := q.items[i].owners + [owner])
    ensures QueueOk(q.(items := q.items[i := e]), status)
    ensures Waits(q.items[i := e], o) == Waits(q.items, o) + One(o == owner && owner !in q.items[i].owners)
    ensures Leads(q.items[i := e], o) == Leads(q.items, o)
  {
    var a, b := q.items[..i], q.items[i + 1..];
    SplitAt(q.items, i);
    assert q.items[i := e] == a + [e] + b;
    Around(a, q.items[i], b, o, status);
    Around(a, e, b, o, status);
    assert EntryOk(q.items[i], |status|);
  }

  /** Putting a new, idle entry somewhere. */
  lemma Inserted(q: Queue, status: seq<Status>, place: nat, owner: nat, o: nat, e: Entry)
    requires QueueOk(q, status) && place <= |q.items| && owner < |status| && status[owner] != Fetching
    requires e.owners == [owner]
    ensures QueueOk(q.(items := q.items[..place] + [e] + q.items[place..]), status)
    ensures Waits(q.items[..place] + [e] + q.items[place..], o) == Waits(q.items, o) + One(o == owner)
    ensures Leads(q.items[..place] + [e] + q.items[place..], o) == Leads(q.items, o) + One(o == owner)
  {
    var a, b := q.items[..place], q.items[place..];
    assert q.items == a + b;
    Concat(a, b, o, status);
    Around(a, e, b, o, status);
  }

  /** Taking an entry out that is not being fetched. */
  lemma Removed(q: Queue, status: seq<Status>, i: nat, o: nat)
    requires QueueOk(q, status) && i < |q.items| && !IsBusy(q.items[i], status)
    ensures QueueOk(q.(items := q.items[..i] + q.items[i + 1..]), status)
    ensures Waits(q.items[..i] + q.items[i + 1..], o) <= Waits(q.items, o)
    ensures Leads(q.items[..i] + q.items[i + 1..], o) + One(LedBy(q.items[i], o)) == Leads(q.items, o)
  {
    var a, b := q.items[..i], q.items[i + 1..];
    SplitAt(q.items, i);
    Around(a, q.items[i], b, o, status);
    Concat(a, b, o, status);
  }

  // ---------- Filling the pipe ----------

  predicate IsIdle(e: Entry, status: seq<Status>) {
    e.owners != [] && e.owners[0] < |status| && status[e.owners[0]] == Idle
  }

  /** The highest priority among the first n entries being fetched. */
  function Active(items: seq<Entry>, status: seq<Status>, keys: seq<Key>, n: nat): nat
    requires n <= |items|
  {
    if n == 0 then 0
    else
      var a := Active(items, status, keys, n - 1);
      if IsBusy(items[n - 1], status) && KeyOf(keys, items[n - 1].owners).priority > a
        then KeyOf(keys, items[n - 1].owners).priority else a
  }

  lemma {:induction false} ActiveSame(items: seq<Entry>, status: seq<Status>, status': seq<Status>, keys: seq<Key>,
                                      n: nat)
    requires n <= |items| && forall j :: 0 <= j < n ==> (IsBusy(items[j], status) <==> IsBusy(items[j], status'))
    ensures Active(items, status, keys, n) == Active(items, status', keys, n)
  {
    if n > 0 {
      ActiveSame(items, status, status', keys, n - 1);
    }
  }

  /** Entry f is the first idle one, and it has to wait: something more urgent is under way, or it is too early. */
  ghost predicate MustWait(items: seq<Entry>, status: seq<Status>, keys: seq<Key>, now: nat, f: nat) {
    && f < |items| && IsIdle(items[f], status) && (forall j :: 0 <= j < f ==> !IsIdle(items[j], status))
    && (KeyOf(keys, items[f].owners).priority < Active(items, status, keys, f) ||
      KeyOf(keys, items[f].owners).fetchAfter > now)
  }

  /** Nothing more can be started. */
  ghost predicate Full(q: Queue, status: seq<Status>, keys: seq<Key>, now: nat) {
    || !q.hasWorker || q.pipeDepth >= q.maxPipeDepth
    || (forall j :: 0 <= j < |q.items| ==> !IsIdle(q.items[j], status))
    || exists f :: MustWait(q.items, status, keys, now, f)
  }

  /** Delayed entries are sorted to the front, and there they hold up everything behind them. */
  lemma DelayBlocksQueue(q: Queue, status: seq<Status>, keys: seq<Key>, now: nat, j: nat)
    requires Sorted(keys, q.items) && j < |q.items| && KeyOf(keys, q.items[j].owners).fetchAfter > now
    ensures KeyOf(keys, q.items[0].owners).fetchAfter > now
    ensures IsIdle(q.items[0], status) ==> Full(q, status, keys, now)
  {
    if j > 0 { assert KeyOf(keys, q.items[0].owners).AtLeast(KeyOf(keys, q.items[j].owners)); }
    if IsIdle(q.items[0], status) { assert MustWait(q.items, status, keys, now, 0); }
  }

  /** An entry that was idle and is being fetched now. */
  predicate IsStarted(e: Entry, before: seq<Status>, after: seq<Status>) {
    IsIdle(e, before) && IsBusy(e, after)
  }

  /** Whatever was started was not too early, and at least as urgent as all that is under way in front of it. */
  ghost predicate StartedInTurn(items: seq<Entry>, before: seq<Status>, after: seq<Status>, keys: seq<Key>, now: nat) {
    forall j :: 0 <= j < |items| && IsStarted(items[j], before, after) ==>
      && KeyOf(keys, items[j].owners).fetchAfter <= now
      && forall h :: 0 <= h < j && IsBusy(items[h], after) ==>
           KeyOf(keys, items[h].owners).priority <= KeyOf(keys, items[j].owners).priority
  }

  /** Those waiting for what was started are served now, and nobody else's status has changed. */
  ghost predicate OnlyStarted(items: seq<Entry>, before: seq<Status>, after: seq<Status>) {
    && |before| == |after|
    && forall o :: 0 <= o < |after| ==>
         after[o] == if exists j :: 0 <= j < |items| && IsStarted(items[j], before, after) && o in items[j].owners
           then Fetching else before[o]
  }

  /** Owner o waits for an entry whose primary owner was idle. */
  predicate WasIdle(e: Entry, before: seq<Status>, o: nat) {
    o in e.owners && e.owners[0] < |before| && before[e.owners[0]] == Idle
  }

  predicate PrimaryIs(e: Entry, status: seq<Status>, s: Status) {
    e.owners != [] && e.owners[0] < |status| && status[e.owners[0]] == s
  }

  /** An entry whose primary owner is idle is one that has to wait, or sits behind one. */
  ghost predicate NothingDue(q: Queue, status: seq<Status>, keys: seq<Key>, now: nat) {
    q.hasWorker && q.pipeDepth < q.maxPipeDepth ==>
      forall j :: 0 <= j < |q.items| && PrimaryIs(q.items[j], status, Idle) ==>
        exists h: nat :: h <= j && MustWait(q.items, status, keys, now, h)
  }

  lemma FullInTerms(q: Queue, status: seq<Status>, keys: seq<Key>, now: nat)
    requires Full(q, status, keys, now)
    ensures NothingDue(q, status, keys, now)
  {
    if q.hasWorker && q.pipeDepth < q.maxPipeDepth {
      forall j | 0 <= j < |q.items| && PrimaryIs(q.items[j], status, Idle)
        ensures exists h: nat :: h <= j && MustWait(q.items, status, keys, now, h)
      {
        assert IsIdle(q.items[j], status);
        var f: nat :| MustWait(q.items, status, keys, now, f);
        assert f <= j;
      }
    }
  }

  lemma StartedWasIdle(items: seq<Entry>, before: seq<Status>, after: seq<Status>)
    requires OnlyStarted(items, before, after)
    ensures forall o :: 0 <= o < |after| && after[o] == Fetching && before[o] != Fetching ==>
      exists i :: 0 <= i < |items| && WasIdle(items[i], before, o)
  {
    forall o | 0 <= o < |after| && after[o] == Fetching && before[o] != Fetching
      ensures exists i :: 0 <= i < |items| && WasIdle(items[i], before, o)
    {
      var j :| 0 <= j < |items| && IsStarted(items[j], before, after) && o in items[j].owners;
      assert WasIdle(items[j], before, o);
    }
  }

  lemma NothingStarted(items: seq<Entry>, status: seq<Status>, keys: seq<Key>, now: nat)
    ensures StartedInTurn(items, status, status, keys, now) && OnlyStarted(items, status, status)
  {
  }

  /** Active is an upper bound. */
  lemma {:induction false} ActiveBounds(items: seq<Entry>, status: seq<Status>, keys: seq<Key>, n: nat)
    requires n <= |items|
    ensures forall h :: 0 <= h < n && IsBusy(items[h], status) ==>
      KeyOf(keys, items[h].owners).priority <= Active(items, status, keys, n)
  {
    if n > 0 { ActiveBounds(items, status, keys, n - 1); }
  }

  /** Starting the next idle entry that is due. */
  lemma OneMoreStarted(q: Queue, before: seq<Status>, status: seq<Status>, keys: seq<Key>, now: nat, i: nat)
    requires QueueOk(q, status) && LeadersApart(q.items) && i < |q.items| && IsIdle(q.items[i], status)
    requires StartedInTurn(q.items, before, status, keys, now) && OnlyStarted(q.items, before, status)
    requires KeyOf(keys, q.items[i].owners).priority >= Active(q.items, status, keys, i)
    requires KeyOf(keys, q.items[i].owners).fetchAfter <= now && forall j :: 0 <= j < i ==> !IsIdle(q.items[j], status)
    requires forall j :: i <= j < |q.items| ==> !IsStarted(q.items[j], before, status)
    ensures var after := SetAll(status, q.items[i].owners, Fetching);
      && StartedInTurn(q.items, before, after, keys, now) && OnlyStarted(q.items, before, after)
      && forall j :: i < j < |q.items| ==> !IsStarted(q.items[j], before, after)
  {
    var items, after := q.items, SetAll(status, q.items[i].owners, Fetching);
    OthersAsBefore(q, status, i);
    ActiveBounds(items, status, keys, i);
    assert EntryOk(items[i], |status|);
    hide KeyOf, LeadersApart, QueueOk, Active;
    assert IsStarted(items[i], before, after);
    forall j | 0 <= j < |items| && j != i
      ensures IsStarted(items[j], before, after) <==> IsStarted(items[j], before, status)
    {
    }
    forall o | 0 <= o < |after|
      ensures after[o] == if exists j :: 0 <= j < |items| && IsStarted(items[j], before, after) && o in items[j].owners
        then Fetching else before[o]
    {
    }
  }

  /** Starting entry i makes no other one start or stop. */
  lemma OthersAsBefore(q: Queue, status: seq<Status>, i: nat)
    requires QueueOk(q, status) && LeadersApart(q.items) && i < |q.items|
    ensures var status' := SetAll(status, q.items[i].owners, Fetching);
      && forall j :: 0 <= j < |q.items| && j != i ==>
           (IsBusy(q.items[j], status) <==> IsBusy(q.items[j], status')) &&
           (IsIdle(q.items[j], status) <==> IsIdle(q.items[j], status'))
  {
    var items := q.items;
    SplitAt(items, i);
    var a, b := items[..i], items[i + 1..];
    forall j | 0 <= j < |items| && j != i ensures items[j].owners != [] && items[j].owners[0] !in items[i].owners {
      assert EntryOk(items[j], |status|);
      var o := items[j].owners[0];
      if o in items[i].owners {
        LedNowhereElse(a, items[i], b, o);
        if j < i { LeadsIn(a, j, o); } else { LeadsIn(b, j - i - 1, o); }
      }
    }
    hide LeadersApart, QueueOk;
  }

  /** What starting entry i leaves of the others. */
  lemma Started(q: Queue, status: seq<Status>, i: nat)
    requires QueueOk(q, status) && LeadersApart(q.items) && i < |q.items| && IsIdle(q.items[i], status)
    requires q.pipeDepth < q.maxPipeDepth && q.hasWorker
    ensures var status' := SetAll(status, q.items[i].owners, Fetching);
      && QueueOk(q.(pipeDepth := q.pipeDepth + 1), status')
      && IsBusy(q.items[i], status')
      && (forall j :: 0 <= j < i ==> (IsBusy(q.items[j], status) <==> IsBusy(q.items[j], status')))
      && (forall j :: 0 <= j < i ==> (IsIdle(q.items[j], status) <==> IsIdle(q.items[j], status')))
      && (forall o :: 0 <= o < |status| && status'[o] != status[o] ==> Waits(q.items, o) > 0)
  {
    var items, status' := q.items, SetAll(status, q.items[i].owners, Fetching);
    assert EntryOk(items[i], |status|);
    EntryChanged(items, status, status', i);
    forall o | 0 <= o < |status| && status'[o] != status[o] ensures Waits(items, o) > 0 { WaitsIn(items, i, o); }
    forall j | 0 <= j < i ensures items[j].owners != [] && items[j].owners[0] !in items[i].owners {
      assert EntryOk(items[j], |status|);
      if items[j].owners[0] in items[i].owners {
        SplitAt(items, i);
        LedNowhereElse(items[..i], items[i], items[i + 1..], items[j].owners[0]);
        LeadsIn(items[..i], j, items[j].owners[0]);
      }
    }
  }

  /** A new entry sits where Enqueue has to put it, behind all equals. */
  predicate IsInserted(keys: seq<Key>, items: seq<Entry>, items': seq<Entry>, e: Entry, place: nat) {
    InsertPoint(keys, items, KeyOf(keys, e.owners), place) && items' == items[..place] + [e] + items[place..]
  }

  /** The owner joined the first entry the request can be combined with. */
  predicate IsCombined(meta: seq<Option<nat>>, items: seq<Entry>, items': seq<Entry>, uri: nat, owner: nat, i: nat) {
    && i < |items| && Combines(meta, items[i], uri, owner) &&
      (forall j :: 0 <= j < i ==> !Combines(meta, items[j], uri, owner))
    && items' == items[i := Entry(uri, items[i].owners + [owner])]
  }

  /** There is an entry a request can be combined with. */
  predicate CanJoin(meta: seq<Option<nat>>, items: seq<Entry>, uri: nat, owner: nat) {
    exists i :: 0 <= i < |items| && Combines(meta, items[i], uri, owner)
  }

  /** Entry i is the first one the request can be combined with. */
  predicate JoinsAt(meta: seq<Option<nat>>, items: seq<Entry>, uri: nat, owner: nat, i: nat) {
    && i < |items| && Combines(meta, items[i], uri, owner)
    && forall j :: 0 <= j < i ==> !Combines(meta, items[j], uri, owner)
  }

  /** Joining entry e does no harm: the owner leads nothing, or just this entry, which is not being fetched. */
  predicate MayJoin(queues: seq<Queue>, status: seq<Status>, e: Entry, owner: nat) {
    LeadsAll(queues, owner) == 0 || (LedBy(e, owner) && owner < |status| && status[owner] != Fetching)
  }

  /** What Enqueue may be asked: joining must do no harm, and a new entry is for somebody who waits nowhere. */
  predicate MayEnqueue(meta: seq<Option<nat>>, queues: seq<Queue>, status: seq<Status>, k: nat, uri: nat, owner: nat)
    requires k < |queues|
  {
    if CanJoin(meta, queues[k].items, uri, owner) then
      forall i :: 0 <= i < |queues[k].items| && JoinsAt(meta, queues[k].items, uri, owner, i) ==>
        MayJoin(queues, status, queues[k].items[i], owner)
    else WaitsAll(queues, owner) == 0
  }

  /** Entry e sits behind exactly those that are at least as urgent, its equals among them. */
  ghost predicate BehindEquals(keys: seq<Key>, items: seq<Entry>, e: Entry, place: nat) {
    forall j :: 0 <= j < |items| ==> (j < place <==> KeyOf(keys, items[j].owners).AtLeast(KeyOf(keys, e.owners)))
  }

  /** The key of entry i does not pass the one in front of it. */
  ghost predicate NotRaisedPast(keys: seq<Key>, items: seq<Entry>, i: nat) {
    0 < i < |items| ==> KeyOf(keys, items[i - 1].owners).AtLeast(KeyOf(keys, items[i].owners))
  }

  lemma MayEnqueueMeans(meta: seq<Option<nat>>, queues: seq<Queue>, status: seq<Status>, k: nat, uri: nat, owner: nat)
    requires k < |queues|
    ensures CanJoin(meta, queues[k].items, uri, owner) <==>
      exists i :: 0 <= i < |queues[k].items| && Combines(meta, queues[k].items[i], uri, owner)
    ensures !CanJoin(meta, queues[k].items, uri, owner) ==>
      (MayEnqueue(meta, queues, status, k, uri, owner) <==> WaitsAll(queues, owner) == 0)
  {
  }

  lemma MayJoinFirst(meta: seq<Option<nat>>, queues: seq<Queue>, status: seq<Status>, k: nat, uri: nat, owner: nat,
                     i: nat)
    requires k < |queues| && i < |queues[k].items| && Combines(meta, queues[k].items[i], uri, owner)
    requires forall j :: 0 <= j < i ==> !Combines(meta, queues[k].items[j], uri, owner)
    ensures MayEnqueue(meta, queues, status, k, uri, owner) <==> MayJoin(queues, status, queues[k].items[i], owner)
  {
    assert JoinsAt(meta, queues[k].items, uri, owner, i);
    hide MayJoin;
  }

  lemma JoinsHere(meta: seq<Option<nat>>, items: seq<Entry>, uri: nat, owner: nat, i: nat)
    requires i < |items| && Combines(meta, items[i], uri, owner)
    requires forall j :: 0 <= j < i ==> !Combines(meta, items[j], uri, owner)
    ensures forall st, st' :: JoinedIn(st, st', items[i], owner) ==> JoinedFirst(meta, items, uri, owner, st, st')
  {
    assert JoinsAt(meta, items, uri, owner, i);
    hide JoinedIn, JoinsAt;
  }

  // ---------- When a request may be queued ----------

  /** The queue when an owner has joined entry i. */
  function Joined(q: Queue, i: nat, owner: nat): Queue
    requires i < |q.items|
  {
    q.(items := q.items[i := q.items[i].(owners := q.items[i].owners + [owner])])
  }

  /** The owner is idle at first, and then like the primary owner of the entry. */
  function JoinedStatus(status: seq<Status>, e: Entry, owner: nat): (r: seq<Status>)
    requires owner < |status| && HasLeader(e, |status|)
    ensures |r| == |status|
  {
    var idle := status[owner := Idle];
    idle[owner := idle[e.owners[0]]]
  }

  /** The owner fares like the primary owner of the entry, and nobody else fares differently. */
  predicate JoinedIn(status: seq<Status>, status': seq<Status>, e: Entry, owner: nat) {
    && |status'| == |status| && e.owners != [] && e.owners[0] < |status| && owner < |status|
    && (forall o :: 0 <= o < |status| && o != owner ==> status'[o] == status[o])
    && status'[owner] == if e.owners[0] == owner then Idle else status[e.owners[0]]
  }

  /** That entry is the first one the request can be combined with. */
  ghost predicate JoinedFirst(meta: seq<Option<nat>>, items: seq<Entry>, uri: nat, owner: nat, status: seq<Status>,
                              status': seq<Status>)
  {
    exists i :: 0 <= i < |items| && JoinsAt(meta, items, uri, owner, i) && JoinedIn(status, status', items[i], owner)
  }

  /** The queue with a new entry at the given place. */
  function Placed(q: Queue, place: nat, uri: nat, owner: nat): Queue
    requires place <= |q.items|
  {
    q.(items := q.items[..place] + [Entry(uri, [owner])] + q.items[place..])
  }

  lemma JoinedMeans(q: Queue, i: nat, owner: nat)
    requires i < |q.items|
    ensures Joined(q, i, owner).items == q.items[i := q.items[i].(owners := q.items[i].owners + [owner])]
  {
  }

  lemma PlacedMeans(q: Queue, place: nat, uri: nat, owner: nat)
    requires place <= |q.items|
    ensures Placed(q, place, uri, owner).items == q.items[..place] + [Entry(uri, [owner])] + q.items[place..]
  {
  }

  /** Combining requests leaves the books in order if and only if joining the entry does no harm. */
  lemma JoinExactly(queues: seq<Queue>, status: seq<Status>, counter: seq<nat>, k: nat, i: nat, owner: nat)
    requires BooksOk(queues, status, counter) && k < |queues| && i < |queues[k].items| && owner < |status|
    ensures HasLeader(queues[k].items[i], |status|)
    ensures BooksOk(queues[k := Joined(queues[k], i, owner)], JoinedStatus(status, queues[k].items[i], owner), counter)
       <==> MayJoin(queues, status, queues[k].items[i], owner)
  {
    EntryFacts(queues, status, counter, k, i);
    if MayJoin(queues, status, queues[k].items[i], owner) {
      JoinKeepsBooks(queues, status, counter, k, i, owner);
    } else {
      JoinHarms(queues, status, counter, k, i, owner);
    }
  }

  lemma JoinKeepsBooks(queues: seq<Queue>, status: seq<Status>, counter: seq<nat>, k: nat, i: nat, owner: nat)
    requires BooksOk(queues, status, counter) && k < |queues| && i < |queues[k].items| && owner < |status|
    requires HasLeader(queues[k].items[i], |status|) && MayJoin(queues, status, queues[k].items[i], owner)
    ensures BooksOk(queues[k := Joined(queues[k], i, owner)], JoinedStatus(status, queues[k].items[i], owner), counter)
  {
    var q, e := queues[k], queues[k].items[i];
    var q', st := Joined(q, i, owner), JoinedStatus(status, e, owner);
    BooksParts(queues, status, counter);
    JoinedQueueOk(queues, status, k, i, owner);
    if LedBy(e, owner) { WaitsIn(q.items, i, owner); }
    hide *;
    forall o: nat
      ensures Waits(q'.items, o) <= Waits(q.items, o) || LeadsAll(queues, o) == 0
      ensures LeadsNoMore(queues, k, q', o) && Leads(q'.items, o) == Leads(q.items, o)
    {
      JoinedCounts(queues, status, k, i, owner, o);
    }
    JoinedStatusOnly(status, e, owner);
    JoinedWaits(queues, status, k, i, owner);
    OneQueueChanged(queues, status, counter, k, q', st, counter);
  }

  lemma JoinedStatusOnly(status: seq<Status>, e: Entry, owner: nat)
    requires owner < |status| && HasLeader(e, |status|)
    ensures forall o :: 0 <= o < |status| && o != owner ==> JoinedStatus(status, e, owner)[o] == status[o]
  {
  }

  lemma JoinedWaits(queues: seq<Queue>, status: seq<Status>, k: nat, i: nat, owner: nat)
    requires k < |queues| && i < |queues[k].items| && MayJoin(queues, status, queues[k].items[i], owner)
    ensures Waits(queues[k].items, owner) > 0 || LeadsAll(queues, owner) == 0
  {
    if LedBy(queues[k].items[i], owner) { WaitsIn(queues[k].items, i, owner); }
  }

  lemma JoinedCounts(queues: seq<Queue>, status: seq<Status>, k: nat, i: nat, owner: nat, o: nat)
    requires k < |queues| && QueueOk(queues[k], status) && i < |queues[k].items| && owner < |status|
    requires MayJoin(queues, status, queues[k].items[i], owner)
    ensures var q, q' := queues[k], Joined(queues[k], i, owner);
      && (Waits(q'.items, o) <= Waits(q.items, o) || LeadsAll(queues, o) == 0)
      && LeadsNoMore(queues, k, q', o) && Leads(q'.items, o) == Leads(q.items, o)
  {
    Combined(queues[k], status, i, owner, o, Joined(queues[k], i, owner).items[i]);
    hide Waits, Leads, LeadsAll, WaitsAll, QueueOk;
  }

  lemma JoinedQueueOk(queues: seq<Queue>, status: seq<Status>, k: nat, i: nat, owner: nat)
    requires k < |queues| && QueueOk(queues[k], status) && i < |queues[k].items| && owner < |status|
    requires HasLeader(queues[k].items[i], |status|) && MayJoin(queues, status, queues[k].items[i], owner)
    ensures QueueOk(Joined(queues[k], i, owner), JoinedStatus(status, queues[k].items[i], owner))
  {
    var q, e := queues[k], queues[k].items[i];
    var st := JoinedStatus(status, e, owner);
    LeadsSome(queues, k, owner);
    hide QueueOk, Leads;
    OthersUnaffected(q, status, st);
    Combined(q, st, i, owner, 0, Joined(q, i, owner).items[i]);
  }

  lemma JoinHarms(queues: seq<Queue>, status: seq<Status>, counter: seq<nat>, k: nat, i: nat, owner: nat)
    requires BooksOk(queues, status, counter) && k < |queues| && i < |queues[k].items| && owner < |status|
    requires HasLeader(queues[k].items[i], |status|) && !MayJoin(queues, status, queues[k].items[i], owner)
    ensures !BooksOk(queues[k := Joined(queues[k], i, owner)], JoinedStatus(status, queues[k].items[i], owner), counter)
  {
    var q, e := queues[k], queues[k].items[i];
    var q', st := Joined(q, i, owner), JoinedStatus(status, e, owner);
    var queues' := queues[k := q'];
    BooksParts(queues, status, counter);
    if BooksOk(queues', st, counter) {
      BooksParts(queues', st, counter);
      assert QueueOk(queues'[k], st);
      Combined(q, status, i, owner, owner, q'.items[i]);
      SumsUpdate(queues, k, q', owner);
      hide QueueOk, Leads, Waits;
      assert WaitsAll(queues, owner) == WaitsAll(queues', owner) == 1 && owner in e.owners;
      OnlyEntryIsLed(queues, k, i, owner);
      JoinedStops(q, status, i, owner);
    }
  }

  /** Somebody who leads an entry and waits in one only leads that one. */
  lemma OnlyEntryIsLed(queues: seq<Queue>, k: nat, i: nat, o: nat)
    requires k < |queues| && i < |queues[k].items| && o in queues[k].items[i].owners
    requires LeadsAll(queues, o) > 0 && WaitsAll(queues, o) == 1
    ensures LedBy(queues[k].items[i], o)
    ensures Leads(queues[k].items[..i], o) == Leads(queues[k].items[i + 1..], o) == 0
  {
    var q := queues[k];
    var none := q.(items := []);
    SumsUpdate(queues, k, none, o);
    LeadersWaitAll(queues[k := none], o);
    SplitAt(q.items, i);
    Around(q.items[..i], q.items[i], q.items[i + 1..], o, []);
    LeadersWait(q.items[..i], o);
    LeadersWait(q.items[i + 1..], o);
    assert Waits([], o) == Leads([], o) == 0;
  }

  /** When the primary owner of an entry being fetched becomes idle, the pipe seems to be fuller than it is. */
  lemma JoinedStops(q: Queue, status: seq<Status>, i: nat, owner: nat)
    requires QueueOk(q, status) && i < |q.items| && owner < |status| && LedBy(q.items[i], owner)
    requires status[owner] == Fetching
    requires Leads(q.items[..i], owner) == Leads(q.items[i + 1..], owner) == 0
    ensures HasLeader(q.items[i], |status|)
    ensures !QueueOk(Joined(q, i, owner), JoinedStatus(status, q.items[i], owner))
  {
    var a, e, b := q.items[..i], q.items[i], q.items[i + 1..];
    var q', st := Joined(q, i, owner), JoinedStatus(status, e, owner);
    SplitAt(q.items, i);
    assert q'.items == a + [q'.items[i]] + b;
    Around(a, e, b, owner, status);
    Around(a, q'.items[i], b, owner, st);
    BusySame(a, status, st);
    BusySame(b, status, st);
    assert IsBusy(e, status) && !IsBusy(q'.items[i], st);
    hide Busy, Leads, Waits;
  }

  /** A new entry leaves the books in order if and only if its owner did not wait for anything. */
  lemma PlaceExactly(queues: seq<Queue>, status: seq<Status>, counter: seq<nat>, k: nat, place: nat, uri: nat,
                     owner: nat)
    requires BooksOk(queues, status, counter) && k < |queues| && place <= |queues[k].items| && owner < |status|
    ensures owner < |counter|
    ensures BooksOk(queues[k := Placed(queues[k], place, uri, owner)], status[owner := Idle],
                    counter[owner := counter[owner] + 1])
       <==> WaitsAll(queues, owner) == 0
    ensures WaitsAll(queues, owner) > 0 ==> !AllApart(queues[k := Placed(queues[k], place, uri, owner)])
  {
    if WaitsAll(queues, owner) == 0 {
      PlaceKeepsBooks(queues, status, counter, k, place, uri, owner);
    } else {
      var q' := Placed(queues[k], place, uri, owner);
      PlacedCounts(queues[k], place, uri, owner, owner);
      SumsUpdate(queues, k, q', owner);
      assert !AllApart(queues[k := q']);
    }
  }

  lemma PlacedCounts(q: Queue, place: nat, uri: nat, owner: nat, o: nat)
    requires place <= |q.items|
    ensures Waits(Placed(q, place, uri, owner).items, o) == Waits(q.items, o) + One(o == owner)
    ensures Leads(Placed(q, place, uri, owner).items, o) == Leads(q.items, o) + One(o == owner)
  {
    var a, b := q.items[..place], q.items[place..];
    assert q.items == a + b;
    Concat(a, b, o, []);
    Around(a, Entry(uri, [owner]), b, o, []);
  }

  lemma PlaceKeepsBooks(queues: seq<Queue>, status: seq<Status>, counter: seq<nat>, k: nat, place: nat, uri: nat,
                        owner: nat)
    requires BooksOk(queues, status, counter) && k < |queues| && place <= |queues[k].items| && owner < |status|
    requires WaitsAll(queues, owner) == 0
    ensures owner < |counter|
    ensures BooksOk(queues[k := Placed(queues[k], place, uri, owner)], status[owner := Idle],
                    counter[owner := counter[owner] + 1])
  {
    var q' := Placed(queues[k], place, uri, owner);
    var st, counter' := status[owner := Idle], counter[owner := counter[owner] + 1];
    hide *;
    BooksParts(queues, status, counter);
    LeadersWaitAll(queues, owner);
    StatusOfFollower(queues, status, counter, k, owner, st);
    PlacedQueueOk(queues[k], st, place, uri, owner);
    forall o: nat
      ensures Waits(q'.items, o) <= Waits(queues[k].items, o) || LeadsAll(queues, o) == 0
      ensures LeadsNoMore(queues, k, q', o)
      ensures Leads(q'.items, o) == Leads(queues[k].items, o) + if o == owner then 1 else 0
    {
      PlacedAdds(queues, k, place, uri, owner, o);
    }
    OneQueueChanged(queues, status, counter, k, q', st, counter');
  }

  lemma PlacedAdds(queues: seq<Queue>, k: nat, place: nat, uri: nat, owner: nat, o: nat)
    requires k < |queues| && place <= |queues[k].items| && WaitsAll(queues, owner) == LeadsAll(queues, owner) == 0
    ensures var q, q' := queues[k], Placed(queues[k], place, uri, owner);
      && (Waits(q'.items, o) <= Waits(q.items, o) || LeadsAll(queues, o) == 0)
      && LeadsNoMore(queues, k, q', o) && Leads(q'.items, o) == Leads(q.items, o) + if o == owner then 1 else 0
  {
    PlacedCounts(queues[k], place, uri, owner, o);
    SumsUpdate(queues, k, queues[k], owner);
    hide Waits, Leads, LeadsAll, WaitsAll;
  }

  lemma FirstEntryOk(q: Queue, status: seq<Status>, place: nat, uri: nat, owner: nat)
    requires QueueOk(q, status) && q.items == [] && place == 0 && owner < |status|
    ensures QueueOk(Placed(q, place, uri, owner), status[owner := Idle])
  {
    PlacedQueueOk(q, status[owner := Idle], place, uri, owner);
  }

  lemma OneEntryApart(items: seq<Entry>, uri: nat, owner: nat)
    requires items == [Entry(uri, [owner])]
    ensures LeadersApart(items)
  {
    assert items[1..] == [];
  }

  lemma {:induction false} SameItemsApart(queues: seq<Queue>, queues': seq<Queue>)
    requires |queues| == |queues'| && forall k :: 0 <= k < |queues| ==> queues[k].items == queues'[k].items
    ensures AllApart(queues) <==> AllApart(queues')
  {
    forall o: nat
      ensures LeadsAll(queues, o) == LeadsAll(queues', o) && WaitsAll(queues, o) == WaitsAll(queues', o)
    {
      SameItemsSums(queues, queues', o);
    }
  }

  lemma {:induction false} SameItemsSums(queues: seq<Queue>, queues': seq<Queue>, o: nat)
    requires |queues| == |queues'| && forall k :: 0 <= k < |queues| ==> queues[k].items == queues'[k].items
    ensures LeadsAll(queues, o) == LeadsAll(queues', o) && WaitsAll(queues, o) == WaitsAll(queues', o)
  {
    if queues != [] { SameItemsSums(queues[1..], queues'[1..], o); }
  }

  lemma PlacedQueueOk(q: Queue, status: seq<Status>, place: nat, uri: nat, owner: nat)
    requires QueueOk(q, status) && place <= |q.items| && owner < |status| && status[owner] != Fetching
    ensures QueueOk(Placed(q, place, uri, owner), status)
  {
    Inserted(q, status, place, owner, 0, Entry(uri, [owner]));
  }

  /** What Enqueue leaves when it has made a new entry, and when it has combined requests. */
  lemma InsertedInOrder(keys: seq<Key>, items: seq<Entry>, items': seq<Entry>, e: Entry, place: nat)
    requires InsertPoint(keys, items, KeyOf(keys, e.owners), place) && items' == items[..place] + [e] + items[place..]
    ensures IsInserted(keys, items, items', e, place)
    ensures Sorted(keys, items) ==> Sorted(keys, items') && BehindEquals(keys, items, e, place)
  {
    if Sorted(keys, items) { InsertSorted(keys, items, e, place); }
  }

  lemma CombinedInOrder(meta: seq<Option<nat>>, keys: seq<Key>, items: seq<Entry>, items': seq<Entry>,
                        uri: nat, owner: nat, i: nat)
    requires i < |items| && Combines(meta, items[i], uri, owner)
    requires forall j :: 0 <= j < i ==> !Combines(meta, items[j], uri, owner)
    requires items' == items[i := items[i].(owners := items[i].owners + [owner])]
    ensures IsCombined(meta, items, items', uri, owner, i)
    ensures Sorted(keys, items) ==> (Sorted(keys, items') <==> NotRaisedPast(keys, items', i))
  {
    if Sorted(keys, items) { MergeSorted(keys, items, i, owner); }
  }

  // ---------- Taking entries out ----------

  function Without(items: seq<Entry>, o: nat): seq<Entry> {
    if items == [] then [] else (if LedBy(items[0], o) then [] else [items[0]]) + Without(items[1..], o)
  }

  lemma Assoc(x: seq<Entry>, y: seq<Entry>, z: seq<Entry>)
    ensures x + (y + z) == (x + y) + z
  {
  }

  lemma WithoutFirst(items: seq<Entry>, o: nat)
    requires items != []
    ensures Without(items, o) == Without([items[0]], o) + Without(items[1..], o)
  {
    assert [items[0]][1..] == [];
    assert Without([items[0]], o) == if LedBy(items[0], o) then [] else [items[0]];
  }

  lemma {:induction false} WithoutConcat(a: seq<Entry>, b: seq<Entry>, o: nat)
    ensures Without(a + b, o) == Without(a, o) + Without(b, o)
  {
    if a == [] {
      assert a + b == b;
    } else {
      hide *;
      WithoutConcat(a[1..], b, o);
      assert (a + b)[1..] == a[1..] + b;
      WithoutFirst(a + b, o);
      WithoutFirst(a, o);
      Assoc(Without([a[0]], o), Without(a[1..], o), Without(b, o));
    }
  }

  lemma {:induction false} WithoutNone(items: seq<Entry>, o: nat)
    ensures Leads(items, o) == 0 <==> Without(items, o) == items
    ensures |Without(items, o)| + Leads(items, o) == |items|
  {
    if items != [] {
      WithoutNone(items[1..], o);
    }
  }

  /** An entry led by o does not matter to what is left without o. */
  lemma WithoutSkips(items: seq<Entry>, i: nat, o: nat)
    requires i < |items| && LedBy(items[i], o)
    ensures Without(items[..i] + items[i + 1..], o) == Without(items, o)
  {
    SplitAt(items, i);
    WithoutConcat(items[..i] + [items[i]], items[i + 1..], o);
    WithoutConcat(items[..i], [items[i]], o);
    WithoutConcat(items[..i], items[i + 1..], o);
    assert Without([items[i]], o) == [];
  }

  lemma NothingLeftOut(items: seq<Entry>, o: nat)
    ensures Without(items[..0], o) == items[..0]
  {
  }

  lemma WithoutNext(items: seq<Entry>, i: nat, o: nat)
    requires i < |items| && !LedBy(items[i], o) && Without(items[..i], o) == items[..i]
    ensures Without(items[..i + 1], o) == items[..i + 1]
  {
    assert items[..i + 1] == items[..i] + [items[i]];
    WithoutConcat(items[..i], [items[i]], o);
    assert Without([items[i]], o) == [items[i]];
  }

  // ---------- Failing what cannot be fetched ----------

  /** The entries nobody in s leads. */
  function WithoutAll(items: seq<Entry>, s: set<nat>): seq<Entry> {
    if items == [] then []
    else (if items[0].owners != [] && items[0].owners[0] in s then [] else [items[0]]) + WithoutAll(items[1..], s)
  }

  /** The entries whose primary owner can be served. */
  function GoodEntries(items: seq<Entry>, bad: nat -> bool): seq<Entry> {
    if items == [] then []
    else (if items[0].owners != [] && bad(items[0].owners[0]) then [] else [items[0]]) + GoodEntries(items[1..], bad)
  }

  lemma {:induction false} WithoutOneMore(items: seq<Entry>, s: set<nat>, o: nat)
    ensures WithoutAll(items, s + {o}) == Without(WithoutAll(items, s), o)
  {
    if items != [] {
      WithoutOneMore(items[1..], s, o);
      var head := if items[0].owners != [] && items[0].owners[0] in s then [] else [items[0]];
      WithoutConcat(head, WithoutAll(items[1..], s), o);
      assert [items[0]][1..] == [];
      assert Without([items[0]], o) == if LedBy(items[0], o) then [] else [items[0]];
    }
  }

  /** The failed owners are the bad ones among the first i entries' owners and the first m of the next. */
  ghost predicate FailedAmong(items: seq<Entry>, i: nat, m: nat, bad: nat -> bool, failed: set<nat>) {
    && i <= |items| && (m > 0 ==> i < |items| && m <= |items[i].owners|)
    && (forall o :: o in failed ==> bad(o) && WaitsFor(items, o))
    && (forall j :: 0 <= j < i ==> RowFailed(items[j], |items[j].owners|, bad, failed))
    && (m > 0 ==> RowFailed(items[i], m, bad, failed))
  }

  ghost predicate WaitsFor(items: seq<Entry>, o: nat) {
    exists j :: 0 <= j < |items| && o in items[j].owners
  }

  /** Whoever of those waiting cannot be served has failed, and nobody else is touched. */
  ghost predicate BadFailed(items: seq<Entry>, bad: nat -> bool, status: seq<Status>, status': seq<Status>) {
    && |status'| == |status|
    && forall o :: 0 <= o < |status| ==> status'[o] == if bad(o) && WaitsFor(items, o) then Failed else status[o]
  }

  /** Those recorded as failed have, and nobody else is touched. */
  predicate FailedSoFar(failed: set<nat>, status: seq<Status>, status': seq<Status>) {
    |status'| == |status| && forall o :: 0 <= o < |status| ==> status'[o] == if o in failed then Failed else status[o]
  }

  lemma OneMoreFailed(failed: set<nat>, status: seq<Status>, status': seq<Status>, o: nat)
    requires FailedSoFar(failed, status, status') && o < |status|
    ensures FailedSoFar(failed + {o}, status, status'[o := Failed])
  {
  }

  lemma NoneFailed(status: seq<Status>)
    ensures FailedSoFar({}, status, status)
  {
  }

  lemma AllFailed(items: seq<Entry>, bad: nat -> bool, failed: set<nat>, status: seq<Status>, status': seq<Status>)
    requires FailedAmong(items, |items|, 0, bad, failed) && FailedSoFar(failed, status, status')
    ensures BadFailed(items, bad, status, status')
  {
    forall o: nat | o < |status| ensures o in failed <==> bad(o) && WaitsFor(items, o) {
      if bad(o) && WaitsFor(items, o) {
        var j :| 0 <= j < |items| && o in items[j].owners;
        assert RowFailed(items[j], |items[j].owners|, bad, failed);
      }
    }
  }

  ghost predicate RowFailed(e: Entry, m: nat, bad: nat -> bool, failed: set<nat>)
    requires m <= |e.owners|
  {
    forall x :: 0 <= x < m && bad(e.owners[x]) ==> e.owners[x] in failed
  }

  lemma {:induction false} NobodyFailed(items: seq<Entry>)
    ensures WithoutAll(items, {}) == items
    ensures forall bad: nat -> bool :: FailedAmong(items, 0, 0, bad, {})
  {
    if items != [] {
      NobodyFailed(items[1..]);
    }
  }

  lemma FailedNext(items: seq<Entry>, i: nat, m: nat, bad: nat -> bool, failed: set<nat>)
    requires FailedAmong(items, i, m, bad, failed) && i < |items| && m < |items[i].owners|
    ensures !bad(items[i].owners[m]) ==> FailedAmong(items, i, m + 1, bad, failed)
    ensures bad(items[i].owners[m]) ==> FailedAmong(items, i, m + 1, bad, failed + {items[i].owners[m]})
  {
    assert items[i].owners[m] in items[i].owners && WaitsFor(items, items[i].owners[m]);
  }

  lemma FailedRow(items: seq<Entry>, i: nat, bad: nat -> bool, failed: set<nat>)
    requires i < |items| && FailedAmong(items, i, |items[i].owners|, bad, failed)
    ensures FailedAmong(items, i + 1, 0, bad, failed)
  {
  }

  lemma OnlyGoodLeft(items: seq<Entry>, bad: nat -> bool, failed: set<nat>)
    requires FailedAmong(items, |items|, 0, bad, failed)
    ensures WithoutAll(items, failed) == GoodEntries(items, bad)
  {
    forall j | 0 <= j < |items| && items[j].owners != []
      ensures items[j].owners[0] in failed <==> bad(items[j].owners[0])
    {
      assert RowFailed(items[j], |items[j].owners|, bad, failed);
    }
    SameEntriesLeft(items, bad, failed);
  }

  lemma {:induction false} SameEntriesLeft(items: seq<Entry>, bad: nat -> bool, failed: set<nat>)
    requires forall j :: 0 <= j < |items| && items[j].owners != [] ==>
      (items[j].owners[0] in failed <==> bad(items[j].owners[0]))
    ensures WithoutAll(items, failed) == GoodEntries(items, bad)
  {
    if items != [] {
      assert forall j :: 0 <= j < |items[1..]| ==> items[1..][j] == items[j + 1];
      SameEntriesLeft(items[1..], bad, failed);
    }
  }

  /** Nothing led by o is in another queue than k. */
  ghost predicate LeadsOnlyIn(queues: seq<Queue>, k: nat, o: nat) {
    forall j :: 0 <= j < |queues| && j != k ==> Leads(queues[j].items, o) == 0
  }

  /** Whoever waits in queue k leads nothing elsewhere. */
  lemma EntriesLeadHere(queues: seq<Queue>, status: seq<Status>, counter: seq<nat>, k: nat)
    requires BooksOk(queues, status, counter) && k < |queues|
    ensures forall i, m :: 0 <= i < |queues[k].items| && 0 <= m < |queues[k].items[i].owners| ==>
      queues[k].items[i].owners[m] < |status| && LeadsOnlyIn(queues, k, queues[k].items[i].owners[m])
  {
    var l := queues[k].items;
    forall i, m | 0 <= i < |l| && 0 <= m < |l[i].owners|
      ensures l[i].owners[m] < |status| && LeadsOnlyIn(queues, k, l[i].owners[m])
    {
      assert QueueOk(queues[k], status) && EntryOk(l[i], |status|);
      WaitsIn(l, i, l[i].owners[m]);
      forall j | 0 <= j < |queues| && j != k ensures Leads(queues[j].items, l[i].owners[m]) == 0 {
        ApartElsewhere(queues, k, j, l[i].owners[m]);
      }
    }
  }

  lemma StillLeadsOnlyHere(queues: seq<Queue>, status: seq<Status>, k: nat, i: nat, m: nat, failed: set<nat>)
    requires k < |queues| && i < |queues[k].items| && m < |queues[k].items[i].owners|
    requires LeadsOnlyIn(queues, k, queues[k].items[i].owners[m])
    ensures LeadsOnlyIn(queues[k := queues[k].(items := WithoutAll(queues[k].items, failed))], k,
      queues[k].items[i].owners[m])
  {
  }

  /** A status other than Fetching for somebody who leads nothing that is being fetched. */
  lemma StillAccounted(queues: seq<Queue>, status: seq<Status>, counter: seq<nat>, k: nat, o: nat, status': seq<Status>)
    requires BooksOk(queues, status, counter) && k < |queues| && o < |status| && queues[k].pipeDepth == 0
    requires LeadsOnlyIn(queues, k, o) && status' == status[o := Failed]
    ensures BooksOk(queues, status', counter)
  {
    forall j | 0 <= j < |queues| ensures QueueOk(queues[j], status') {
      assert QueueOk(queues[j], status);
      if j == k { NotMoreBusy(queues[k].items, status, o); } else { OthersUnaffected(queues[j], status, status'); }
    }
    hide QueueOk;
  }

  lemma {:induction false} NotMoreBusy(items: seq<Entry>, status: seq<Status>, o: nat)
    requires o < |status|
    ensures Busy(items, status[o := Failed]) <= Busy(items, status)
  {
    if items != [] {
      NotMoreBusy(items[1..], status, o);
    }
  }

  lemma OnlyThereWithout(queues: seq<Queue>, k: nat, o: nat)
    requires LeadsOnlyIn(queues, k, o)
    ensures forall j :: 0 <= j < |queues| && j != k ==> Without(queues[j].items, o) == queues[j].items
  {
    forall j | 0 <= j < |queues| && j != k ensures Without(queues[j].items, o) == queues[j].items {
      WithoutNone(queues[j].items, o);
    }
  }

  /** What is known of an entry in the books. */
  lemma EntryFacts(queues: seq<Queue>, status: seq<Status>, counter: seq<nat>, k: nat, i: nat)
    requires BooksOk(queues, status, counter) && k < |queues| && i < |queues[k].items|
    ensures var e := queues[k].items[i];
      && e.owners != [] && e.owners[0] < |status| && EntryOk(e, |status|)
      && (IsBusy(e, status) <==> status[e.owners[0]] == Fetching)
      && forall o :: LedBy(e, o) <==> e.owners[0] == o
  {
    assert QueueOk(queues[k], status) && EntryOk(queues[k].items[i], |status|);
  }

  lemma {:induction false} NobodyLeads(queues: seq<Queue>, o: nat)
    requires forall k :: 0 <= k < |queues| ==> Leads(queues[k].items, o) == 0
    ensures LeadsAll(queues, o) == 0
  {
    if queues != [] {
      NobodyLeads(queues[1..], o);
    }
  }

  // ---------- Filling the pipe, step by step ----------

  /** Everything up to entry i has been looked at; what was started so far was started in turn. */
  ghost predicate Filling(q: Queue, st0: seq<Status>, st: seq<Status>, keys: seq<Key>, now: nat, i: nat) {
    && QueueOk(q, st) && LeadersApart(q.items) && q.hasWorker && |st| == |st0| && i <= |q.items|
    && (forall j :: 0 <= j < i ==> !IsIdle(q.items[j], st))
    && (forall o :: 0 <= o < |st0| && st[o] != st0[o] ==> Waits(q.items, o) > 0)
    && StartedInTurn(q.items, st0, st, keys, now) && OnlyStarted(q.items, st0, st)
    && (forall j :: i <= j < |q.items| && IsStarted(q.items[j], st0, st) ==> j == i && !IsIdle(q.items[j], st))
  }

  lemma FillStarts(q: Queue, st: seq<Status>, keys: seq<Key>, now: nat)
    requires QueueOk(q, st) && LeadersApart(q.items) && q.hasWorker
    ensures Filling(q, st, st, keys, now, 0) && Active(q.items, st, keys, 0) == 0
  {
    NothingStarted(q.items, st, keys, now);
    hide QueueOk, LeadersApart, StartedInTurn, OnlyStarted;
  }

  lemma FillMeans(q: Queue, st0: seq<Status>, st: seq<Status>, keys: seq<Key>, now: nat, i: nat)
    requires Filling(q, st0, st, keys, now, i)
    ensures i <= |q.items| && forall j :: 0 <= j < i ==> !IsIdle(q.items[j], st)
  {
  }

  lemma FillEnds(q: Queue, st0: seq<Status>, st: seq<Status>, keys: seq<Key>, now: nat, i: nat)
    requires Filling(q, st0, st, keys, now, i)
    ensures |st| == |st0| && QueueOk(q, st) && forall o :: 0 <= o < |st0| && st[o] != st0[o] ==> Waits(q.items, o) > 0
    ensures StartedInTurn(q.items, st0, st, keys, now) && OnlyStarted(q.items, st0, st)
  {
    hide QueueOk, LeadersApart, StartedInTurn, OnlyStarted;
  }

  lemma NothingIdle(q: Queue, st: seq<Status>, keys: seq<Key>, now: nat)
    requires forall j :: 0 <= j < |q.items| ==> !IsIdle(q.items[j], st)
    ensures Full(q, st, keys, now)
  {
  }

  lemma FirstMustWait(q: Queue, st: seq<Status>, keys: seq<Key>, now: nat, i: nat)
    requires i < |q.items| && IsIdle(q.items[i], st) && forall j :: 0 <= j < i ==> !IsIdle(q.items[j], st)
    requires KeyOf(keys, q.items[i].owners).priority < Active(q.items, st, keys, i) ||
      KeyOf(keys, q.items[i].owners).fetchAfter > now
    ensures Full(q, st, keys, now)
  {
    assert MustWait(q.items, st, keys, now, i);
  }

  lemma PipeFull(q: Queue, st: seq<Status>, keys: seq<Key>, now: nat)
    requires q.pipeDepth >= q.maxPipeDepth
    ensures Full(q, st, keys, now)
  {
  }

  /** Entry i, the first idle one from i0 on, is started. */
  lemma FillStep(q: Queue, st0: seq<Status>, st: seq<Status>, keys: seq<Key>, now: nat, i0: nat, i: nat)
    requires Filling(q, st0, st, keys, now, i0) && i0 <= i < |q.items| && IsIdle(q.items[i], st)
    requires q.pipeDepth < q.maxPipeDepth && forall j :: 0 <= j < i ==> !IsIdle(q.items[j], st)
    requires KeyOf(keys, q.items[i].owners).priority >= Active(q.items, st, keys, i)
    requires KeyOf(keys, q.items[i].owners).fetchAfter <= now
    ensures var after := SetAll(st, q.items[i].owners, Fetching);
      && Filling(q.(pipeDepth := q.pipeDepth + 1), st0, after, keys, now, i)
      && Active(q.items, after, keys, i) == Active(q.items, st, keys, i)
  {
    var after := SetAll(st, q.items[i].owners, Fetching);
    hide QueueOk, LeadersApart, StartedInTurn, OnlyStarted, KeyOf, Active;
    Started(q, st, i);
    OneMoreStarted(q, st0, st, keys, now, i);
    ActiveSame(q.items, st, after, keys, i);
    assert !IsIdle(q.items[i], after);
  }

  class Fetcher {
    var queues: seq<Queue>
    /** Status, QueueCounter, and what the place in a queue depends on, of each owner. */
    var status: seq<Status>
    var counter: seq<nat>
    var keys: seq<Key>
    const meta: seq<Option<nat>>
    var toFetch: nat

    /** The accounts are right, whichever operations have been called. */
    ghost predicate Valid()
      reads this
    {
      && |keys| == |status|
      && BooksOk(queues, status, counter)
      && toFetch == Total(queues)
    }

    constructor (keys: seq<Key>, meta: seq<Option<nat>>)
      ensures Valid() && queues == [] && this.keys == keys && this.meta == meta
    {
      this.keys, this.meta := keys, meta;
      queues, toFetch := [], 0;
      status := seq(|keys|, o => Idle);
      counter := seq(|keys|, o => 0);
    }

    /** A new queue goes in front of the others. */
    method AddQueue(maxPipeDepth: nat)
      requires Valid()
      modifies `queues
      ensures Valid() && queues == [Queue([], 0, maxPipeDepth, false)] + old(queues)
    {
      var q := Queue([], 0, maxPipeDepth, false);
      queues := [q] + queues;
      assert queues[1..] == old(queues);
      assert forall o: nat :: WaitsAll(queues, o) == WaitsAll(queues[1..], o);
      assert forall o: nat :: LeadsAll(queues, o) == LeadsAll(queues[1..], o);
    }

    /** Keeps the pipe of queue k full. `accepts` tells whether the worker takes a request. */
    method Cycle(k: nat, now: nat, accepts: nat -> bool) returns (ok: bool)
      requires Valid() && k < |queues|
      modifies `queues, `status
      ensures Valid() && |queues| == |old(queues)|
      ensures forall j :: 0 <= j < |queues| && j != k ==> queues[j] == old(queues)[j]
      ensures queues[k] == old(queues)[k].(pipeDepth := queues[k].pipeDepth)
      ensures queues[k].pipeDepth >= old(queues)[k].pipeDepth
      ensures ok ==> Full(queues[k], status, keys, now)
      ensures StartedInTurn(queues[k].items, old(status), status, keys, now)
      ensures OnlyStarted(queues[k].items, old(status), status)
      ensures !queues[k].hasWorker ==> ok && status == old(status) && queues == old(queues)
      ensures ok ==> NothingDue(queues[k], status, keys, now)
      ensures forall o :: 0 <= o < |status| && status[o] == Fetching && old(status)[o] != Fetching ==>
        exists i :: 0 <= i < |queues[k].items| && WasIdle(queues[k].items[i], old(status), o)
    {
      OneQueueApart(queues, status, counter, k);
      hide *;
      ok := CycleAlone(k, now, accepts);
      if ok { FullInTerms(queues[k], status, keys, now); }
      StartedWasIdle(queues[k].items, old(status), status);
    }

    /** The same when only this queue is known to be in order. */
    method CycleAlone(k: nat, now: nat, accepts: nat -> bool) returns (ok: bool)
      requires |keys| == |status| && k < |queues| && QueueOk(queues[k], status) && LeadersApart(queues[k].items)
      modifies `queues, `status
      ensures |queues| == |old(queues)| && |status| == |old(status)|
      ensures old(Valid()) ==> Valid()
      ensures forall j :: 0 <= j < |queues| && j != k ==> queues[j] == old(queues)[j]
      ensures queues[k] == old(queues)[k].(pipeDepth := queues[k].pipeDepth)
      ensures queues[k].pipeDepth >= old(queues)[k].pipeDepth
      ensures ok ==> Full(queues[k], status, keys, now)
      ensures StartedInTurn(queues[k].items, old(status), status, keys, now)
      ensures OnlyStarted(queues[k].items, old(status), status)
      ensures !queues[k].hasWorker ==> ok && status == old(status) && queues == old(queues)
    {
      NothingStarted(queues[k].items, status, keys, now);
      hide StartedInTurn, OnlyStarted;
      var q, st := queues[k], status;
      if q.items == [] || !q.hasWorker { return true; }
      if q.pipeDepth < 0 { assert false; }
      q, st, ok := FillPipe(q, st, now, accepts);
      if Valid() {
        OneQueueChanged(queues, status, counter, k, q, st, counter);
        SumsUpdate(queues, k, q, 0);
      }
      queues, status := queues[k := q], st;
    }

    /** The loop of Cycle. */
    method FillPipe(q0: Queue, st0: seq<Status>, now: nat, accepts: nat -> bool)
      returns (q: Queue, st: seq<Status>, ok: bool)
      requires QueueOk(q0, st0) && LeadersApart(q0.items) && q0.hasWorker
      ensures q == q0.(pipeDepth := q.pipeDepth) && q.pipeDepth >= q0.pipeDepth && |st| == |st0| && QueueOk(q, st)
      ensures forall o :: 0 <= o < |st0| && st[o] != st0[o] ==> Waits(q0.items, o) > 0
      ensures ok ==> Full(q, st, keys, now)
      ensures StartedInTurn(q.items, st0, st, keys, now) && OnlyStarted(q.items, st0, st)
    {
      hide *;
      q, st := q0, st0;
      var i, active := 0, 0;
      FillStarts(q0, st0, keys, now);
      while q.pipeDepth < q.maxPipeDepth
        invariant q == q0.(pipeDepth := q.pipeDepth) && q.pipeDepth >= q0.pipeDepth && i <= |q.items|
        invariant Filling(q, st0, st, keys, now, i) && active == Active(q.items, st, keys, i)
        decreases q.maxPipeDepth - q.pipeDepth
      {
        FillMeans(q, st0, st, keys, now, i);
        var i0 := i;
        i, active := NextIdle(q.items, st, i, active);
        if i == |q.items| {
          FillEnds(q, st0, st, keys, now, i0);
          NothingIdle(q, st, keys, now);
          return q, st, true;
        }
        var key := KeyOf(keys, q.items[i].owners);
        if key.priority < active || key.fetchAfter > now {
          FillEnds(q, st0, st, keys, now, i0);
          FirstMustWait(q, st, keys, now, i);
          return q, st, true;
        }
        FillStep(q, st0, st, keys, now, i0, i);
        st := SetAll(st, q.items[i].owners, Fetching);
        q := q.(pipeDepth := q.pipeDepth + 1);
        if !accepts(q.items[i].uri) {
          FillEnds(q, st0, st, keys, now, i);
          return q, st, false;
        }
      }
      FillEnds(q, st0, st, keys, now, i);
      PipeFull(q, st, keys, now);
      return q, st, true;
    }

    /** Goes on to the next idle entry, remembering the priority of what is under way. */
    method NextIdle(items: seq<Entry>, st: seq<Status>, i0: nat, active0: nat) returns (i: nat, active: nat)
      requires i0 <= |items| && active0 == Active(items, st, keys, i0)
      requires forall j :: 0 <= j < i0 ==> !IsIdle(items[j], st)
      ensures i0 <= i <= |items| && active == Active(items, st, keys, i)
      ensures forall j :: 0 <= j < i ==> !IsIdle(items[j], st)
      ensures i < |items| ==> IsIdle(items[i], st)
    {
      i, active := i0, active0;
      while i < |items|
        invariant i0 <= i <= |items| && active == Active(items, st, keys, i)
        invariant forall j :: 0 <= j < i ==> !IsIdle(items[j], st)
      {
        if IsBusy(items[i], st) {
          var p := KeyOf(keys, items[i].owners).priority;
          active := if p > active then p else active;
        }
        if IsIdle(items[i], st) { break; }
        i := i + 1;
      }
    }

    /** Owner o fails before anything was fetched for it; what it leads leaves queue k. */
    method FailItem(k: nat, o: nat)
      requires Valid() && k < |queues| && o < |status| && queues[k].pipeDepth == 0 && LeadsOnlyIn(queues, k, o)
      modifies `queues, `status, `counter, `toFetch
      ensures Valid() && status == old(status)[o := Failed]
      ensures queues == old(queues)[k := old(queues)[k].(items := Without(old(queues)[k].items, o))]
    {
      var st := status[o := Failed];
      StillAccounted(queues, status, counter, k, o, st);
      status := st;
      OnlyThereWithout(queues, k, o);
      Dequeue(o);
      assert queues == old(queues)[k := old(queues)[k].(items := Without(old(queues)[k].items, o))];
    }

    /** The checks of Startup: everybody waiting in queue k for something that cannot be fetched fails. */
    method FailBadItems(k: nat, bad: nat -> bool)
      requires Valid() && k < |queues| && queues[k].pipeDepth == 0
      modifies `queues, `status, `counter, `toFetch
      ensures Valid() && |status| == |old(status)|
      ensures queues == old(queues)[k := old(queues)[k].(items := GoodEntries(old(queues)[k].items, bad))]
      ensures BadFailed(old(queues)[k].items, bad, old(status), status)
    {
      EntriesLeadHere(queues, status, counter, k);
      hide *;
      var l := queues[k].items;
      var failed := {};
      NobodyFailed(l);
      NoneFailed(status);
      assert queues == queues[k := queues[k].(items := l)];
      for i := 0 to |l|
        invariant Valid() && |status| == |old(status)| && FailedAmong(l, i, 0, bad, failed)
        invariant FailedSoFar(failed, old(status), status)
        invariant queues == old(queues)[k := old(queues)[k].(items := WithoutAll(l, failed))]
      {
        for m := 0 to |l[i].owners|
          invariant Valid() && |status| == |old(status)| && FailedAmong(l, i, m, bad, failed)
          invariant FailedSoFar(failed, old(status), status)
          invariant queues == old(queues)[k := old(queues)[k].(items := WithoutAll(l, failed))]
        {
          var o := l[i].owners[m];
          FailedNext(l, i, m, bad, failed);
          if bad(o) {
            StillLeadsOnlyHere(old(queues), status, k, i, m, failed);
            WithoutOneMore(l, failed, o);
            OneMoreFailed(failed, old(status), status, o);
            FailItem(k, o);
            failed := failed + {o};
          }
        }
        FailedRow(l, i, bad, failed);
      }
      OnlyGoodLeft(l, bad, failed);
      AllFailed(l, bad, failed, old(status), status);
    }

    /** Gives queue k its worker, unless it has one already; `bad` tells who cannot be served. */
    method Startup(k: nat, maxPipeDepth: nat, now: nat, accepts: nat -> bool, bad: nat -> bool) returns (ok: bool)
      requires Valid() && k < |queues|
      modifies `queues, `status, `counter, `toFetch
      ensures Valid() && |queues| == |old(queues)| && queues[k].hasWorker
      ensures queues[k].items ==
        if old(queues)[k].hasWorker then old(queues)[k].items else GoodEntries(old(queues)[k].items, bad)
      ensures queues[k].maxPipeDepth == if old(queues)[k].hasWorker then old(queues)[k].maxPipeDepth else maxPipeDepth
      ensures forall j :: 0 <= j < |queues| && j != k ==> queues[j] == old(queues)[j]
      ensures ok ==> Full(queues[k], status, keys, now)
      ensures exists failed ::
        && (if old(queues)[k].hasWorker then failed == old(status)
            else BadFailed(old(queues)[k].items, bad, old(status), failed))
        && OnlyStarted(queues[k].items, failed, status) && StartedInTurn(queues[k].items, failed, status, keys, now)
    {
      hide *;
      if !queues[k].hasWorker {
        NobodyIsServed(k);
        FailBadItems(k, bad);
        GiveWorker(k, maxPipeDepth);
      }
      ghost var failed := status;
      ok := Cycle(k, now, accepts);
      assert OnlyStarted(queues[k].items, failed, status);
    }

    lemma NobodyIsServed(k: nat)
      requires Valid() && k < |queues| && !queues[k].hasWorker
      ensures queues[k].pipeDepth == 0
    {
      OneQueueApart(queues, status, counter, k);
    }

    method GiveWorker(k: nat, maxPipeDepth: nat)
      requires Valid() && k < |queues| && queues[k].pipeDepth == 0
      modifies `queues
      ensures Valid() && queues == old(queues)[k := old(queues)[k].(hasWorker := true, maxPipeDepth := maxPipeDepth)]
    {
      OneQueueApart(queues, status, counter, k);
      var q := queues[k].(hasWorker := true, maxPipeDepth := maxPipeDepth);
      OneQueueChanged(queues, status, counter, k, q, status, counter);
      SumsUpdate(queues, k, q, 0);
      queues := queues[k := q];
    }

    /** A retry is not to be fetched before a certain time. */
    method Delay(owner: nat, key: Key)
      requires Valid() && owner < |status|
      modifies `keys
      ensures Valid() && keys == old(keys)[owner := key]
    {
      keys := keys[owner := key];
    }

    /**
      Queues a request. The books are right afterwards if and only if the owner may join the entry the
      request is combined with, or was not waiting for anything when it gets an entry of its own.
    */
    method Enqueue(k: nat, uri: nat, owner: nat, now: nat, accepts: nat -> bool) returns (created: bool)
      requires Valid() && k < |queues| && owner < |status|
      modifies `queues, `status, `counter, `toFetch
      ensures |queues| == |old(queues)|
      ensures Valid() <==> MayEnqueue(meta, old(queues), old(status), k, uri, owner)
      ensures forall j :: 0 <= j < |queues| && j != k ==> queues[j] == old(queues)[j]
      ensures toFetch == old(toFetch) + if created then 1 else 0
      ensures created <==> !CanJoin(meta, old(queues)[k].items, uri, owner)
      ensures created ==> OnlyStarted(queues[k].items, old(status)[owner := Idle], status)
      ensures created && old(queues)[k].items != [] ==> status == old(status)[owner := Idle]
      ensures !created ==> JoinedFirst(meta, old(queues)[k].items, uri, owner, old(status), status)
      ensures created ==> exists place: nat ::
        && IsInserted(keys, old(queues)[k].items, queues[k].items, Entry(uri, [owner]), place)
        && (Sorted(keys, old(queues)[k].items) ==>
              Sorted(keys, queues[k].items) && BehindEquals(keys, old(queues)[k].items, Entry(uri, [owner]), place))
      ensures !created ==> exists i: nat ::
        && IsCombined(meta, old(queues)[k].items, queues[k].items, uri, owner, i)
        && (Sorted(keys, old(queues)[k].items) ==>
              (Sorted(keys, queues[k].items) <==> NotRaisedPast(keys, queues[k].items, i)))
    {
      hide *;
      var items := queues[k].items;
      MayEnqueueMeans(meta, queues, status, k, uri, owner);
      var same, place := FindPlace(meta, keys, items, uri, owner);
      if same.Some? {
        MayJoinFirst(meta, queues, status, k, uri, owner, same.value);
        JoinedMeans(queues[k], same.value, owner);
        CombineWith(k, same.value, owner);
        CombinedInOrder(meta, keys, items, queues[k].items, uri, owner, same.value);
        JoinsHere(meta, items, uri, owner, same.value);
        return false;
      }
      PlacedMeans(queues[k], place, uri, owner);
      Insert(k, place, uri, owner);
      InsertedInOrder(keys, items, queues[k].items, Entry(uri, [owner]), place);
      NothingStarted(queues[k].items, status, keys, now);
      if |queues[k].items| == 1 {
        StartCycle(k, uri, owner, now, accepts);
      }
      assert IsInserted(keys, items, queues[k].items, Entry(uri, [owner]), place);
      return true;
    }

    /** The new entry is the only one of its queue. */
    method StartCycle(k: nat, uri: nat, owner: nat, now: nat, accepts: nat -> bool)
      requires |keys| == |status| && k < |queues| && QueueOk(queues[k], status)
      requires queues[k].items == [Entry(uri, [owner])]
      requires Valid() || !AllApart(queues)
      modifies `queues, `status
      ensures |queues| == |old(queues)| && (Valid() <==> old(Valid()))
      ensures forall j :: 0 <= j < |queues| && j != k ==> queues[j] == old(queues)[j]
      ensures queues[k].items == old(queues)[k].items && OnlyStarted(queues[k].items, old(status), status)
    {
      OneEntryApart(queues[k].items, uri, owner);
      hide *;
      var _ := CycleAlone(k, now, accepts);
      SameItemsApart(old(queues), queues);
      if Valid() { ValidMeans(); }
    }

    lemma ValidMeans()
      requires Valid()
      ensures AllApart(queues) && BooksOk(queues, status, counter) && toFetch == Total(queues)
    {
    }

    method CombineWith(k: nat, i: nat, owner: nat)
      requires Valid() && k < |queues| && i < |queues[k].items| && owner < |status|
      modifies `queues, `status
      ensures Valid() <==> MayJoin(old(queues), old(status), old(queues)[k].items[i], owner)
      ensures queues == old(queues)[k := Joined(old(queues)[k], i, owner)]
      ensures JoinedIn(old(status), status, old(queues)[k].items[i], owner)
    {
      JoinExactly(queues, status, counter, k, i, owner);
      SumsUpdate(queues, k, Joined(queues[k], i, owner), 0);
      hide BooksOk;
      status := status[owner := Idle];
      status := status[owner := status[queues[k].items[i].owners[0]]];
      queues := queues[k := Joined(queues[k], i, owner)];
    }

    method Insert(k: nat, place: nat, uri: nat, owner: nat)
      requires Valid() && k < |queues| && place <= |queues[k].items| && owner < |status|
      modifies `queues, `status, `counter, `toFetch
      ensures toFetch == old(toFetch) + 1 && |keys| == |status| == |old(status)| && status == old(status)[owner := Idle]
      ensures Valid() <==> WaitsAll(old(queues), owner) == 0
      ensures Valid() || !AllApart(queues)
      ensures queues == old(queues)[k := Placed(old(queues)[k], place, uri, owner)]
      ensures old(queues)[k].items == [] ==> QueueOk(queues[k], status)
    {
      PlaceExactly(queues, status, counter, k, place, uri, owner);
      SumsUpdate(queues, k, Placed(queues[k], place, uri, owner), 0);
      if queues[k].items == [] { FirstEntryOk(queues[k], status, place, uri, owner); }
      hide BooksOk, QueueOk, AllApart;
      status := status[owner := Idle];
      queues := queues[k := Placed(queues[k], place, uri, owner)];
      counter, toFetch := counter[owner := counter[owner] + 1], toFetch + 1;
    }

    /** Removes entry i of queue k, which is not being fetched. */
    method Remove(k: nat, i: nat)
      requires BooksOk(queues, status, counter) && k < |queues| && i < |queues[k].items|
      requires !IsBusy(queues[k].items[i], status)
      modifies `queues, `counter
      ensures BooksOk(queues, status, counter) && Total(queues) + 1 == Total(old(queues))
      ensures old(queues)[k].items[i].owners != []
      ensures LeadsAll(queues, old(queues)[k].items[i].owners[0]) + 1 ==
        LeadsAll(old(queues), old(queues)[k].items[i].owners[0])
      ensures var l := old(queues)[k].items;
        queues == old(queues)[k := old(queues)[k].(items := l[..i] + l[i + 1..])]
    {
      var q := queues[k];
      assert QueueOk(q, status) && EntryOk(q.items[i], |status|);
      var p := q.items[i].owners[0];
      var q' := q.(items := q.items[..i] + q.items[i + 1..]);
      forall o: nat
        ensures QueueOk(q', status) && Waits(q'.items, o) <= Waits(q.items, o)
        ensures Leads(q'.items, o) + One(p == o) == Leads(q.items, o)
        ensures Leads(q.items, o) <= LeadsAll(queues, o)
      {
        Removed(q, status, i, o);
        LeadsSome(queues, k, o);
      }
      SumsUpdate(queues, k, q', p);
      var counter' := counter[p := counter[p] - 1];
      OneQueueChanged(queues, status, counter, k, q', status, counter');
      queues, counter := queues[k := q'], counter';
    }

    /** Removes what owner leads from queue k. */
    method DequeueFrom(k: nat, owner: nat) returns (removed: nat)
      requires BooksOk(queues, status, counter) && k < |queues| && owner < |status| && status[owner] != Fetching
      modifies `queues, `counter
      ensures BooksOk(queues, status, counter)
      ensures queues == old(queues)[k := old(queues)[k].(items := Without(old(queues)[k].items, owner))]
      ensures Total(queues) + removed == Total(old(queues))
      ensures LeadsAll(queues, owner) + removed == LeadsAll(old(queues), owner)
    {
      hide *;
      removed := 0;
      var i := 0;
      NothingLeftOut(queues[k].items, owner);
      while i < |queues[k].items|
        invariant BooksOk(queues, status, counter)
        invariant |queues| == |old(queues)| && queues == old(queues)[k := old(queues)[k].(items := queues[k].items)]
        invariant i <= |queues[k].items| && Without(queues[k].items, owner) == Without(old(queues)[k].items, owner)
        invariant Without(queues[k].items[..i], owner) == queues[k].items[..i]
        invariant Total(queues) + removed == Total(old(queues))
        invariant LeadsAll(queues, owner) + removed == LeadsAll(old(queues), owner)
        decreases |queues[k].items| - i
      {
        ghost var l := queues[k].items;
        EntryFacts(queues, status, counter, k, i);
        if queues[k].items[i].owners[0] == owner {
          WithoutSkips(l, i, owner);
          Remove(k, i);
          removed := removed + 1;
          assert queues[k].items[..i] == l[..i];
        } else {
          WithoutNext(l, i, owner);
          i := i + 1;
        }
      }
      assert queues[k].items[..i] == queues[k].items;
    }

    /** Removes an owner's entry from whichever queue it is in; one being fetched stays. */
    method Dequeue(owner: nat)
      requires Valid() && owner < |status|
      modifies `queues, `counter, `toFetch
      ensures Valid() && |queues| == |old(queues)|
      ensures status[owner] == Fetching ==> queues == old(queues)
      ensures status[owner] != Fetching ==>
        forall k :: 0 <= k < |queues| ==> queues[k] == old(queues)[k].(items := Without(old(queues)[k].items, owner))
      ensures toFetch == old(toFetch) - if status[owner] == Fetching then 0 else LeadsAll(old(queues), owner)
    {
      if status[owner] == Fetching { return; }
      var removed := 0;
      for k := 0 to |queues|
        invariant BooksOk(queues, status, counter) && |queues| == |old(queues)| && toFetch == old(toFetch)
        invariant forall j :: k <= j < |queues| ==> queues[j] == old(queues)[j]
        invariant forall j :: 0 <= j < k ==> queues[j] == old(queues)[j].(items := Without(old(queues)[j].items, owner))
        invariant Total(queues) + removed == Total(old(queues))
        invariant LeadsAll(queues, owner) + removed == LeadsAll(old(queues), owner)
      {
        var n := DequeueFrom(k, owner);
        removed := removed + n;
      }
      NothingLed(old(queues), queues, owner);
      LeadersWaitAll(old(queues), owner);
      if removed > 0 { toFetch := toFetch - 1; }
    }

    /**
      The worker is done with entry i of queue k, or was sent elsewhere with it. The entry leaves the
      queue, and its place in the pipe is filled again.
    */
    method ItemDone(k: nat, i: nat, redirected: bool, now: nat, accepts: nat -> bool) returns (ok: bool)
      requires Valid() && k < |queues| && i < |queues[k].items| && IsBusy(queues[k].items[i], status)
      modifies `queues, `status, `counter, `toFetch
      ensures Valid() && |queues| == |old(queues)| && toFetch == old(toFetch) - 1
      ensures queues[k].items == old(queues)[k].items[..i] + old(queues)[k].items[i + 1..]
      ensures forall j :: 0 <= j < |queues| && j != k ==> queues[j].items == old(queues)[j].items
      ensures ok ==> Full(queues[k], status, keys, now)
      ensures var settled := AfterAnswer(old(status), old(queues)[k].items[i].owners, redirected);
        OnlyStarted(queues[k].items, settled, status) && StartedInTurn(queues[k].items, settled, status, keys, now)
    {
      ghost var before := queues;
      OneQueueApart(queues, status, counter, k);
      assert EntryOk(queues[k].items[i], |status|);
      var p := queues[k].items[i].owners[0];
      OnlyLedHere(before, status, counter, k, i);
      Settle(k, i, redirected);
      assert queues[k].items == before[k].items;
      assert counter[p] == LeadsAll(queues, p);
      SameItemsSameLeads(before, queues, p);
      if counter[p] <= 1 { Dequeue(p); } else { assert false; }
      ok := Cycle(k, now, accepts);
    }

    /** The owners of entry i of queue k wait no longer; the pipe has room for one more. */
    method Settle(k: nat, i: nat, redirected: bool)
      requires Valid() && k < |queues| && i < |queues[k].items| && IsBusy(queues[k].items[i], status)
      modifies `queues, `status
      ensures Valid() && queues == old(queues)[k := old(queues)[k].(pipeDepth := old(queues)[k].pipeDepth - 1)]
      ensures status == AfterAnswer(old(status), queues[k].items[i].owners, redirected)
      ensures |status| == |old(status)| && status[queues[k].items[i].owners[0]] != Fetching
    {
      var q := queues[k];
      OneQueueApart(queues, status, counter, k);
      assert EntryOk(q.items[i], |status|);
      var owners := q.items[i].owners;
      var st := if redirected then SetAll(status, owners, Idle) else Settled(status, owners);
      EntryChanged(q.items, status, st, i);
      var q' := q.(pipeDepth := q.pipeDepth - 1);
      forall o | 0 <= o < |status| && st[o] != status[o] ensures Waits(q.items, o) > 0 { WaitsIn(q.items, i, o); }
      OneQueueChanged(queues, status, counter, k, q', st, counter);
      SumsUpdate(queues, k, q', 0);
      queues, status := queues[k := q'], st;
    }
  }

  datatype Event =
    | Add(maxPipeDepth: nat)
    | Start(k: nat, maxPipeDepth: nat, now: nat, bad: nat -> bool)
    | Request(k: nat, uri: nat, owner: nat, now: nat)
    | Refill(k: nat, now: nat)
    | Answer(k: nat, i: nat, redirected: bool, now: nat)
    | Withdraw(owner: nat)
    | Postpone(owner: nat, key: Key)

  /** Anything may happen in any order, as long as no request is queued that must put the books in disorder. */
  method Run(f: Fetcher, events: seq<Event>, accepts: nat -> bool)
    requires f.Valid()
    modifies f
    ensures f.Valid()
    ensures forall k :: 0 <= k < |f.queues| ==>
      0 <= f.queues[k].pipeDepth == Busy(f.queues[k].items, f.status) <= f.queues[k].maxPipeDepth
    ensures f.toFetch == Total(f.queues)
    ensures old(KeysAgree(f.meta, f.queues)) ==> KeysAgree(f.meta, f.queues)
  {
    hide *;
    for n := 0 to |events|
      invariant f.Valid()
      invariant old(KeysAgree(f.meta, f.queues)) ==> KeysAgree(f.meta, f.queues)
    {
      ghost var before := f.queues;
      match events[n]
      case Add(max) =>
        f.AddQueue(max);
        OneMoreQueueAgrees(f.meta, before, max);
      case Start(k, max, now, bad) =>
        if k < |f.queues| {
          var _ := f.Startup(k, max, now, accepts, bad);
          GoodAreFewer(before[k].items, bad);
          if KeysAgree(f.meta, before) { FewerAgree(f.meta, before, f.queues); }
        }
      case Request(k, uri, owner, now) =>
        if k < |f.queues| && owner < |f.status| && MayEnqueue(f.meta, f.queues, f.status, k, uri, owner) {
          var created := f.Enqueue(k, uri, owner, now, accepts);
          if KeysAgree(f.meta, before) {
            RequestAgrees(f.meta, f.keys, before, f.queues, k, uri, owner, created);
          }
        }
      case Refill(k, now) =>
        if k < |f.queues| {
          var _ := f.Cycle(k, now, accepts);
          if KeysAgree(f.meta, before) { FewerAgree(f.meta, before, f.queues); }
        }
      case Answer(k, i, redirected, now) =>
        if k < |f.queues| && i < |f.queues[k].items| && IsBusy(f.queues[k].items[i], f.status) {
          var _ := f.ItemDone(k, i, redirected, now, accepts);
          if KeysAgree(f.meta, before) { FewerAgree(f.meta, before, f.queues); }
        }
      case Withdraw(owner) =>
        if owner < |f.status| {
          f.Dequeue(owner);
          WithoutAreFewer(before, owner);
          if KeysAgree(f.meta, before) { FewerAgree(f.meta, before, f.queues); }
        }
      case Postpone(owner, key) => if owner < |f.status| { f.Delay(owner, key); }
    }
    f.ValidMeans();
    BooksMean(f.queues, f.status, f.counter);
  }

  lemma OneMoreQueueAgrees(meta: seq<Option<nat>>, queues: seq<Queue>, max: nat)
    ensures KeysAgree(meta, queues) ==> KeysAgree(meta, [Queue([], 0, max, false)] + queues)
  {
    hide EntryAgrees;
  }

  lemma {:induction false} GoodAreFewer(items: seq<Entry>, bad: nat -> bool)
    ensures forall e :: e in GoodEntries(items, bad) <==> e in items && !(e.owners != [] && bad(e.owners[0]))
  {
    if items != [] { GoodAreFewer(items[1..], bad); }
  }

  lemma WithoutAreFewer(queues: seq<Queue>, o: nat)
    ensures forall j, e :: 0 <= j < |queues| && e in Without(queues[j].items, o) ==> e in queues[j].items
  {
    forall j | 0 <= j < |queues| ensures forall e :: e in Without(queues[j].items, o) ==> e in queues[j].items {
      WithoutHolds(queues[j].items, o);
    }
  }

  lemma {:induction false} WithoutHolds(items: seq<Entry>, o: nat)
    ensures forall e :: e in Without(items, o) <==> e in items && !LedBy(e, o)
  {
    if items != [] { WithoutHolds(items[1..], o); }
  }

  lemma BooksMean(queues: seq<Queue>, status: seq<Status>, counter: seq<nat>)
    requires BooksOk(queues, status, counter)
    ensures forall k :: 0 <= k < |queues| ==>
      0 <= queues[k].pipeDepth == Busy(queues[k].items, status) <= queues[k].maxPipeDepth
  {
    forall k | 0 <= k < |queues|
      ensures 0 <= queues[k].pipeDepth == Busy(queues[k].items, status) <= queues[k].maxPipeDepth
    {
      assert QueueOk(queues[k], status);
    }
  }

  lemma NothingLed(before: seq<Queue>, after: seq<Queue>, o: nat)
    requires |before| == |after|
    requires forall k :: 0 <= k < |after| ==> after[k] == before[k].(items := Without(before[k].items, o))
    ensures LeadsAll(after, o) == 0
  {
    forall k | 0 <= k < |after| ensures Leads(after[k].items, o) == 0 {
      WithoutTwice(before[k].items, o);
    }
    NobodyLeads(after, o);
  }

  lemma {:induction false} WithoutTwice(items: seq<Entry>, o: nat)
    ensures Leads(Without(items, o), o) == 0
  {
    if items != [] {
      WithoutTwice(items[1..], o);
      var rest := Without(items[1..], o);
      assert Without(items, o) == if LedBy(items[0], o) then rest else [items[0]] + rest;
      assert ([items[0]] + rest)[1..] == rest;
    }
  }

  lemma {:induction false} SameItemsSameLeads(a: seq<Queue>, b: seq<Queue>, o: nat)
    requires |a| == |b| && forall k :: 0 <= k < |a| ==> a[k].items == b[k].items
    ensures LeadsAll(a, o) == LeadsAll(b, o)
  {
    if a != [] {
      SameItemsSameLeads(a[1..], b[1..], o);
    }
  }

  /** The primary owner of an entry leads nothing else, in this queue or another. */
  lemma OnlyLedHere(queues: seq<Queue>, status: seq<Status>, counter: seq<nat>, k: nat, i: nat)
    requires BooksOk(queues, status, counter) && k < |queues| && i < |queues[k].items|
    requires queues[k].items[i].owners != []
    ensures var p, l := queues[k].items[i].owners[0], queues[k].items;
      && LeadsAll(queues, p) == 1 && Without(l, p) == l[..i] + l[i + 1..]
      && forall j :: 0 <= j < |queues| && j != k ==> Without(queues[j].items, p) == queues[j].items
  {
    var p, l := queues[k].items[i].owners[0], queues[k].items;
    var a, b := l[..i], l[i + 1..];
    SplitAt(l, i);
    Around(a, l[i], b, p, status);
    LeadsSome(queues, k, p);
    SumsUpdate(queues, k, queues[k], p);
    OneQueueApart(queues, status, counter, k);
    LedNowhereElse(a, l[i], b, p);
    WithoutNone(a, p);
    WithoutNone(b, p);
    WithoutConcat(a, b, p);
    WithoutSkips(l, i, p);
    WaitsIn(l, i, p);
    forall j | 0 <= j < |queues| && j != k ensures Without(queues[j].items, p) == queues[j].items {
      ApartElsewhere(queues, k, j, p);
      WithoutNone(queues[j].items, p);
    }
  }

  /** In the books who leads an entry waits in no other of the same queue. */
  lemma OneQueueApart(queues: seq<Queue>, status: seq<Status>, counter: seq<nat>, k: nat)
    requires BooksOk(queues, status, counter) && k < |queues|
    ensures QueueOk(queues[k], status) && LeadersApart(queues[k].items)
  {
    forall o: nat | Leads(queues[k].items, o) > 0 ensures Waits(queues[k].items, o) == 1 {
      SumsUpdate(queues, k, queues[k], o);
      LeadsSome(queues, k, o);
      LeadersWait(queues[k].items, o);
    }
  }

  /** The status of somebody who leads nothing is nobody's business. */
  lemma StatusOfFollower(queues: seq<Queue>, status: seq<Status>, counter: seq<nat>, k: nat, owner: nat,
                         status': seq<Status>)
    requires BooksOk(queues, status, counter) && k < |queues| && owner < |status| && LeadsAll(queues, owner) == 0
    requires |status'| == |status| && forall o :: 0 <= o < |status| && o != owner ==> status'[o] == status[o]
    ensures QueueOk(queues[k], status')
  {
    LeadsSome(queues, k, owner);
    OthersUnaffected(queues[k], status, status');
  }
}
