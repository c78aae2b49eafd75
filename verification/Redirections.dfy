/**
  Redirects, alternative sites and retries of one acquire item, and why they end. A URI is
  a number; what matters of it is its site, whether it names a local method, and whether
  it goes to the store method.
*/
module Redirections {

  datatype Uris = Uris(site: nat -> nat, isLocal: nat -> bool, isStore: nat -> bool)

  /** The empty string. */
  const EMPTY_URI: nat := 0

  predicate IsGood(uris: Uris, past: seq<nat>, badSites: seq<nat>, uri: nat) {
    uri !in past && uris.site(uri) !in badSites
  }

  function Goods(uris: Uris, past: seq<nat>, badSites: seq<nat>, list: seq<nat>): (good: seq<nat>)
    ensures forall u :: u in good <==> u in list && IsGood(uris, past, badSites, u)
  {
    if list == [] then []
    else (if IsGood(uris, past, badSites, list[0]) then [list[0]] else []) + Goods(uris, past, badSites, list[1..])
  }

  function OffSite(uris: Uris, site: nat, list: seq<nat>): (kept: seq<nat>)
    ensures |kept| <= |list|
  {
    if list == [] then []
    else (if uris.site(list[0]) != site then [list[0]] else []) + OffSite(uris, site, list[1..])
  }

  lemma Assoc(x: seq<nat>, y: seq<nat>, z: seq<nat>)
    ensures x + (y + z) == (x + y) + z
  {
  }

  lemma GoodsFirst(uris: Uris, past: seq<nat>, badSites: seq<nat>, list: seq<nat>)
    requires list != []
    ensures Goods(uris, past, badSites, list) ==
      (if IsGood(uris, past, badSites, list[0]) then [list[0]] else []) + Goods(uris, past, badSites, list[1..])
  {
  }

  lemma OffSiteFirst(uris: Uris, site: nat, list: seq<nat>)
    requires list != []
    ensures OffSite(uris, site, list) ==
      (if uris.site(list[0]) != site then [list[0]] else []) + OffSite(uris, site, list[1..])
  {
  }

  lemma {:induction false} OffSiteHolds(uris: Uris, site: nat, list: seq<nat>)
    ensures forall u :: u in OffSite(uris, site, list) <==> u in list && uris.site(u) != site
  {
    if list != [] { OffSiteHolds(uris, site, list[1..]); }
  }

  /** Both filters keep the order. */
  lemma {:induction false} GoodsConcat(uris: Uris, past: seq<nat>, badSites: seq<nat>, a: seq<nat>, b: seq<nat>)
    ensures Goods(uris, past, badSites, a + b) == Goods(uris, past, badSites, a) + Goods(uris, past, badSites, b)
  {
    if a == [] {
      assert a + b == b;
    } else {
      hide *;
      GoodsConcat(uris, past, badSites, a[1..], b);
      var first := if IsGood(uris, past, badSites, a[0]) then [a[0]] else [];
      assert (a + b)[1..] == a[1..] + b && (a + b)[0] == a[0];
      GoodsFirst(uris, past, badSites, a + b);
      GoodsFirst(uris, past, badSites, a);
      Assoc(first, Goods(uris, past, badSites, a[1..]), Goods(uris, past, badSites, b));
    }
  }

  lemma {:induction false} OffSiteConcat(uris: Uris, site: nat, a: seq<nat>, b: seq<nat>)
    ensures OffSite(uris, site, a + b) == OffSite(uris, site, a) + OffSite(uris, site, b)
  {
    if a == [] {
      assert a + b == b;
    } else {
      hide *;
      OffSiteConcat(uris, site, a[1..], b);
      var first := if uris.site(a[0]) != site then [a[0]] else [];
      assert (a + b)[1..] == a[1..] + b && (a + b)[0] == a[0];
      OffSiteFirst(uris, site, a + b);
      OffSiteFirst(uris, site, a);
      Assoc(first, OffSite(uris, site, a[1..]), OffSite(uris, site, b));
    }
  }

  /** Nothing of the site the authentication failed for is tried again; a local method has no site. */
  function Remaining(uris: Uris, uri: nat, alternatives: seq<nat>, authError: bool): seq<nat> {
    if authError && !uris.isLocal(uri) then OffSite(uris, uris.site(uri), alternatives) else alternatives
  }

  /** The item has been there before, and not just now. */
  predicate Circles(uris: Uris, past: seq<nat>, uri: nat) {
    !uris.isStore(uri) && uri in past && past[|past| - 1] != uri
  }

  ghost predicate NoDuplicates(list: seq<nat>) {
    forall i, j :: 0 <= i < j < |list| ==> list[i] != list[j]
  }

  ghost function Elements(list: seq<nat>): set<nat> {
    set u | u in list
  }

  /** How many of the known URIs are not in the history yet. */
  ghost function Unvisited(known: set<nat>, past: seq<nat>): nat {
    |known - Elements(past)|
  }

  /** What an item has left: URIs it has not been sent to, alternatives, retries. */
  datatype Left = Left(unvisited: nat, alternatives: nat, retries: nat)

  /** The lexicographic order on it. */
  ghost predicate Less(a: Left, b: Left) {
    || a.unvisited < b.unvisited
    || (a.unvisited == b.unvisited
        && (a.alternatives < b.alternatives || (a.alternatives == b.alternatives && a.retries < b.retries)))
  }

  lemma VisitingCounts(known: set<nat>, past: seq<nat>, uri: nat)
    requires uri in known && uri !in past
    ensures Unvisited(known, past + [uri]) < Unvisited(known, past)
  {
    assert known - Elements(past + [uri]) == (known - Elements(past)) - {uri};
  }

  /** The history with one more URI, unless it is there already or not remembered. */
  function Remembered(uris: Uris, past: seq<nat>, uri: nat): seq<nat> {
    if uris.isStore(uri) || uri in past then past else past + [uri]
  }

  lemma RememberingCounts(uris: Uris, known: set<nat>, past: seq<nat>, uri: nat)
    requires uri in known && NoDuplicates(past)
    ensures var past' := Remembered(uris, past, uri);
      && NoDuplicates(past') && (uri in past ==> past' == past)
      && (past' == past || Unvisited(known, past') < Unvisited(known, past))
      && (uri !in past && !uris.isStore(uri) ==> Unvisited(known, past') < Unvisited(known, past))
  {
    if uri !in past && !uris.isStore(uri) { VisitingCounts(known, past, uri); }
  }

  /** Fewer URIs left outweigh everything; the same history leaves the rest to decide. */
  lemma LessLeft(known: set<nat>, past: seq<nat>, past': seq<nat>, n: nat, n': nat, r: nat)
    requires past' == past || Unvisited(known, past') < Unvisited(known, past)
    ensures var a, b := Left(Unvisited(known, past'), n', r), Left(Unvisited(known, past), n, r);
      (Unvisited(known, past') < Unvisited(known, past) || n' < n) ==> Less(a, b)
  {
  }

  /** Looking at the same URI again finds no circle and remembers nothing new. */
  lemma SecondLook(uris: Uris, past: seq<nat>, uri: nat)
    requires !Circles(uris, past, uri)
    ensures var past' := Remembered(uris, past, uri);
      !Circles(uris, past', uri) && Remembered(uris, past', uri) == past'
  {
  }

  lemma NotBeenThere(uris: Uris, past: seq<nat>, uri: nat)
    ensures uri !in past || uris.isStore(uri) ==> !Circles(uris, past, uri)
    ensures uris.isStore(uri) ==> Remembered(uris, past, uri) == past
  {
  }

  lemma RemainingIs(uris: Uris, uri: nat, alternatives: seq<nat>, authError: bool)
    ensures Remaining(uris, uri, alternatives, authError) ==
      if authError && !uris.isLocal(uri) then OffSite(uris, uris.site(uri), alternatives) else alternatives
  {
  }

  /** With no URI visited newly, an alternative or a retry less is less. */
  lemma FewerLeft(known: set<nat>, past: seq<nat>, past': seq<nat>, n: nat, n': nat, r: nat, r': nat)
    requires past' == past || Unvisited(known, past') < Unvisited(known, past)
    requires n' < n || (n' == n && r' < r)
    ensures Less(Left(Unvisited(known, past'), n', r'), Left(Unvisited(known, past), n, r))
  {
  }

  class Item {
    const uris: Uris
    var uri: nat
    var alternatives: seq<nat>
    var badSites: seq<nat>
    var past: seq<nat>
    var retries: nat
    var ended: bool
    /** Hashes are required for it, but there is none that could be used. */
    const weak: bool

    constructor (uris: Uris, uri: nat, retries: nat, weak: bool)
      ensures this.uris == uris && this.uri == uri && this.retries == retries && this.weak == weak
      ensures alternatives == badSites == past == [] && !ended
    {
      this.uris, this.uri, this.retries, this.weak := uris, uri, retries, weak;
      alternatives, badSites, past, ended := [], [], [], false;
    }

    /** The history has no duplicates, everything the item may visit is known, and no bad site is among it. */
    ghost predicate Valid(known: set<nat>)
      reads this
    {
      && NoDuplicates(past) && uri in known
      && forall u :: u in alternatives ==> u in known && uris.site(u) !in badSites
    }

    ghost function Measure(known: set<nat>): Left
      reads this
    {
      Left(Unvisited(known, past), |alternatives|, retries)
    }

    method PopAlternativeURI() returns (ok: bool, next: nat)
      modifies `alternatives
      ensures ok <==> old(alternatives) != []
      ensures ok ==> next == old(alternatives)[0] && alternatives == old(alternatives)[1..]
      ensures !ok ==> alternatives == []
    {
      if alternatives == [] { return false, EMPTY_URI; }
      ok, next := true, alternatives[0];
      alternatives := alternatives[1..];
    }

    method PushAlternativeURI(next: nat)
      modifies `alternatives
      ensures alternatives == if IsGood(uris, past, badSites, next) then [next] + old(alternatives)
        else old(alternatives)
    {
      if !IsGood(uris, past, badSites, next) { return; }
      alternatives := [next] + alternatives;
    }

    /** Pushes the alternatives a method offers in front, back to front. */
    method PushAll(list: seq<nat>)
      modifies `alternatives
      ensures alternatives == Goods(uris, past, badSites, list) + old(alternatives)
    {
      for k := |list| downto 0
        invariant alternatives == Goods(uris, past, badSites, list[k..]) + old(alternatives)
      {
        PushAlternativeURI(list[k]);
        assert list[k..][1..] == list[k + 1..];
      }
      assert list[0..] == list;
    }

    /** Nothing of this site is to be tried again; local methods have no site to avoid. */
    method RemoveAlternativeSite(from: nat)
      modifies `alternatives, `badSites
      ensures uris.isLocal(from) ==> alternatives == old(alternatives) && badSites == old(badSites)
      ensures !uris.isLocal(from) ==>
        alternatives == OffSite(uris, uris.site(from), old(alternatives)) &&
          badSites == old(badSites) + [uris.site(from)]
    {
      if uris.isLocal(from) { return; }
      alternatives := OffSite(uris, uris.site(from), alternatives);
      badSites := badSites + [uris.site(from)];
    }

    /** Remembers where the item has been sent. Being sent to the same place again is no loop. */
    method IsRedirectionLoop(next: nat) returns (loop: bool)
      modifies `past
      ensures loop <==> Circles(uris, old(past), next)
      ensures past == Remembered(uris, old(past), next)
    {
      if uris.isStore(next) { return false; }
      if past == [] {
        past := [next];
        return false;
      }
      if past[|past| - 1] == next { return false; }
      if next in past[..|past| - 1] {
        return true;
      }
      past := past + [next];
      return false;
    }

    /**
      Queueing the item again checks its URI once more, and remembers it. An item that goes round in
      circles ends, and so does one that could not be verified.
    */
    method Enqueue(ghost known: set<nat>)
      requires Valid(known) && !ended
      modifies `past, `ended
      ensures Valid(known)
      ensures ended || Measure(known) == old(Measure(known)) || Less(Measure(known), old(Measure(known)))
      ensures ended <==> weak || Circles(uris, old(past), uri)
      ensures past == Remembered(uris, old(past), uri)
      ensures past == old(past) || Unvisited(known, past) < Unvisited(known, old(past))
    {
      RememberingCounts(uris, known, past, uri);
      hide *;
      ghost var before := past;
      ValidMeans(known);
      var loop := IsRedirectionLoop(uri);
      if loop || weak { ended := true; }
      MakeValid(known);
      LessLeft(known, before, past, |alternatives|, |alternatives|, retries);
      MeasureIs(known);
    }

    lemma ValidMeans(known: set<nat>)
      requires Valid(known)
      ensures NoDuplicates(past) && uri in known
      ensures forall u :: u in alternatives ==> u in known && uris.site(u) !in badSites
      ensures Measure(known) == Left(Unvisited(known, past), |alternatives|, retries)
    {
    }

    lemma MakeValid(known: set<nat>)
      requires NoDuplicates(past) && uri in known
      requires forall u :: u in alternatives ==> u in known && uris.site(u) !in badSites
      ensures Valid(known)
    {
    }

    lemma MeasureIs(known: set<nat>)
      ensures Measure(known) == Left(Unvisited(known, past), |alternatives|, retries)
    {
    }

    /**
      The redirect branch for one owner of a request. `simpleRetry` is whether the method sent it
      back to where it is. `carried` is what the loop over the owners goes on with.
    */
    method Redirected(newUri: nat, offered: seq<nat>, simpleRetry: bool, ghost known: set<nat>) returns (carried: nat)
      requires Valid(known) && !ended && newUri in known && EMPTY_URI in known
      requires forall u :: u in offered ==> u in known
      modifies this
      ensures Valid(known) && carried in known
      ensures simpleRetry ==> uri == old(uri)
      ensures !simpleRetry && IsGood(uris, old(past), old(badSites), newUri) && newUri != EMPTY_URI ==> uri == newUri
      ensures !simpleRetry && !weak && IsGood(uris, old(past), old(badSites), newUri) && newUri != EMPTY_URI ==> !ended
      ensures badSites == old(badSites) && (uris.isStore(uri) && !simpleRetry && !ended ==> past == old(past))
      ensures !simpleRetry && !ended ==> uri == carried
      ensures !simpleRetry && !ended && !uris.isStore(uri) ==> Less(Measure(known), old(Measure(known)))
      ensures var all := Goods(uris, old(past), old(badSites), offered) + old(alternatives);
        if simpleRetry || IsGood(uris, old(past), old(badSites), newUri) then carried == newUri && alternatives == all
        else if all == [] then carried == EMPTY_URI && ended && alternatives == []
        else carried == all[0] && alternatives == all[1..]
      ensures simpleRetry ==> (ended <==> weak || Circles(uris, old(past), uri))
      ensures !simpleRetry ==> (ended <==> carried == EMPTY_URI || weak || Circles(uris, old(past), carried))
      ensures retries == old(retries)
    {
      ghost var good := Goods(uris, past, badSites, offered);
      ValidMeans(known);
      hide Valid, Circles, Remembered, Less, Measure, Unvisited, NoDuplicates, Goods;
      ghost var before, n := past, |alternatives|;
      PushAll(offered);
      MakeValid(known);
      carried := newUri;
      if simpleRetry {
        Enqueue(known);
        return;
      }
      carried := ChooseNext(newUri, good, known);
      MakeValid(known);
      NotBeenThere(uris, before, carried);
      SendTo(carried, known);
      if carried != EMPTY_URI {
        RememberingCounts(uris, known, before, carried);
        LessLeft(known, before, past, n, |alternatives|, retries);
      }
      MeasureIs(known);
    }

    /** Goes to the chosen URI, unless there is none or the item goes round in circles. */
    method SendTo(next: nat, ghost known: set<nat>)
      requires Valid(known) && !ended && next in known
      modifies `past, `uri, `ended
      ensures Valid(known)
      ensures next == EMPTY_URI ==> ended && past == old(past) && uri == old(uri)
      ensures next != EMPTY_URI ==>
        && past == Remembered(uris, old(past), next) && (ended <==> weak || Circles(uris, old(past), next))
        && uri == if Circles(uris, old(past), next) then old(uri) else next
      ensures past == old(past) || Unvisited(known, past) < Unvisited(known, old(past))
    {
      if next == EMPTY_URI {
        ended := true;
        return;
      }
      ghost var before := past;
      ValidMeans(known);
      RememberingCounts(uris, known, before, next);
      if !Circles(uris, before, next) { SecondLook(uris, before, next); }
      hide *;
      var loop := IsRedirectionLoop(next);
      if loop {
        ended := true;
        MakeValid(known);
        return;
      }
      uri := next;
      MakeValid(known);
      Enqueue(known);
    }

    /** The URI itself if it is any good, else the first alternative; one just offered is good. */
    method ChooseNext(newUri: nat, ghost good: seq<nat>, ghost known: set<nat>) returns (next: nat)
      requires newUri in known && EMPTY_URI in known && forall u :: u in alternatives ==> u in known
      requires good <= alternatives && forall u :: u in good ==> u !in past
      modifies `alternatives
      ensures next in known && forall u :: u in alternatives ==> u in known
      ensures IsGood(uris, past, badSites, newUri) ==> next == newUri && alternatives == old(alternatives)
      ensures !IsGood(uris, past, badSites, newUri) ==>
        if old(alternatives) == [] then next == EMPTY_URI && alternatives == []
        else next == old(alternatives)[0] && alternatives == old(alternatives)[1..]
      ensures next !in past || next == EMPTY_URI ||
        (good == [] && |alternatives| < |old(alternatives)|)
    {
      next := newUri;
      if !IsGood(uris, past, badSites, newUri) {
        var ok, alternative := PopAlternativeURI();
        next := if ok then alternative else EMPTY_URI;
        assert good != [] && ok ==> alternative == good[0];
      }
    }

    /** A failed request: retry, go to the next alternative, or give up. */
    method HandleFailure(transient: bool, localOnly: bool, authError: bool, ghost known: set<nat>)
      requires Valid(known) && !ended
      modifies this
      ensures Valid(known)
      ensures ended || Less(Measure(known), old(Measure(known)))
      ensures if transient && !localOnly && old(retries) != 0 then
          && uri == old(uri) && retries == old(retries) - 1
          && alternatives == old(alternatives) && badSites == old(badSites)
          && (ended <==> weak || Circles(uris, old(past), uri))
        else
          && retries == old(retries)
          && badSites == old(badSites) + (if authError && !uris.isLocal(old(uri)) then [uris.site(old(uri))] else [])
          && var rest := Remaining(uris, old(uri), old(alternatives), authError);
             if rest == [] then ended && uri == old(uri) && alternatives == []
             else uri == rest[0] && alternatives == rest[1..] && (ended <==> weak || Circles(uris, old(past), uri))
    {
      hide *;
      ValidMeans(known);
      OffSiteHolds(uris, uris.site(uri), alternatives);
      RemainingIs(uris, uri, alternatives, authError);
      ghost var before, n, r := past, |alternatives|, retries;
      if transient && !localOnly && retries != 0 {
        retries := retries - 1;
        MakeValid(known);
        Enqueue(known);
        FewerLeft(known, before, past, n, |alternatives|, r, retries);
        MeasureIs(known);
      } else {
        if authError {
          RemoveAlternativeSite(uri);
        }
        var ok, next := PopAlternativeURI();
        if ok {
          uri := next;
          MakeValid(known);
          Enqueue(known);
          FewerLeft(known, before, past, n, |alternatives|, r, retries);
          MeasureIs(known);
        } else {
          ended := true;
          MakeValid(known);
        }
      }
    }
  }

  // ---------- All owners of a request, and whole runs ----------

  /** What one redirect must have done to an item that had `before` left. */
  ghost predicate Handled(item: Item, known: set<nat>, before: Left, simple: bool)
    reads item
  {
    item.Valid(known) &&
    (!simple && !item.ended && !item.uris.isStore(item.uri) ==> Less(item.Measure(known), before))
  }

  /** Asked to go to one URI, the item goes there if it may, and the next owner is asked to go where it has gone. */
  ghost predicate SentOn(item: Item, past: seq<nat>, badSites: seq<nat>, asked: nat, next: nat, simple: bool)
    reads item
  {
    && (simple || IsGood(item.uris, past, badSites, asked) ==> next == asked)
    && (!simple && !item.ended ==> item.uri == next)
  }

  ghost predicate Waiting(item: Item, known: set<nat>, before: Left)
    reads item
  {
    item.Valid(known) && !item.ended && item.Measure(known) == before
  }

  /** Where one owner is sent to is where the next one is asked to go: `asked` lists these places. */
  method RedirectAll(owners: seq<Item>, newUri: nat, offered: seq<nat>, simple: seq<bool>,
                     ghost known: set<nat>, ghost before: seq<Left>)
    returns (ghost asked: seq<nat>)
    requires |simple| == |before| == |owners| && newUri in known && EMPTY_URI in known
    requires forall u :: u in offered ==> u in known
    requires forall i, j :: 0 <= i < j < |owners| ==> owners[i] != owners[j]
    requires forall i :: 0 <= i < |owners| ==> Waiting(owners[i], known, before[i])
    modifies owners
    ensures forall i :: 0 <= i < |owners| ==> Handled(owners[i], known, before[i], simple[i])
    ensures |asked| == |owners| + 1 && asked[0] == newUri
    ensures forall i :: 0 <= i < |owners| ==>
      SentOn(owners[i], old(owners[i].past), old(owners[i].badSites), asked[i], asked[i + 1], simple[i])
  {
    hide *;
    var next := newUri;
    asked := [newUri];
    for k := 0 to |owners|
      invariant next in known && |asked| == k + 1 && asked[0] == newUri && asked[k] == next
      invariant forall i :: k <= i < |owners| ==>
        owners[i].past == old(owners[i].past) && owners[i].badSites == old(owners[i].badSites)
      invariant forall i :: 0 <= i < k ==>
        SentOn(owners[i], old(owners[i].past), old(owners[i].badSites), asked[i], asked[i + 1], simple[i])
      invariant forall i :: k <= i < |owners| ==> Waiting(owners[i], known, before[i])
      invariant forall i :: 0 <= i < k ==> Handled(owners[i], known, before[i], simple[i])
    {
      next := RedirectOne(owners[k], next, offered, simple[k], known, before[k]);
      asked := asked + [next];
    }
  }

  method RedirectOne(item: Item, newUri: nat, offered: seq<nat>, simple: bool, ghost known: set<nat>,
                     ghost before: Left)
    returns (carried: nat)
    requires newUri in known && EMPTY_URI in known && (forall u :: u in offered ==> u in known)
    requires Waiting(item, known, before)
    modifies item
    ensures carried in known && Handled(item, known, before, simple)
    ensures SentOn(item, old(item.past), old(item.badSites), newUri, carried, simple)
  {
    carried := item.Redirected(newUri, offered, simple, known);
  }

  datatype Answer =
    | Redirect(newUri: nat, offered: seq<nat>)
    | Failure(transient: bool, localOnly: bool, authError: bool)

  ghost predicate Within(answer: Answer, known: set<nat>) {
    answer.Redirect? ==> answer.newUri in known && forall u :: u in answer.offered ==> u in known
  }

  /** However the methods keep redirecting and failing among finitely many URIs, the item ends. */
  method UntilEnded(item: Item, answers: nat -> Answer, known: set<nat>)
    requires item.Valid(known) && EMPTY_URI in known && (forall k :: Within(answers(k), known))
    requires forall u :: u in known ==> !item.uris.isStore(u)
    modifies item
    ensures item.ended && NoDuplicates(item.past)
  {
    var k := 0;
    while !item.ended
      invariant item.Valid(known)
      decreases !item.ended, Unvisited(known, item.past), |item.alternatives|, item.retries
    {
      assert Within(answers(k), known);
      match answers(k) {
        case Redirect(newUri, offered) => var _ := item.Redirected(newUri, offered, false, known);
        case Failure(transient, localOnly, authError) => item.HandleFailure(transient, localOnly, authError, known);
      }
      k := k + 1;
    }
  }

  /** Redirects to the store method are not remembered: a method may send an item there over and over. */
  method StoreForever(item: Item, store: nat, times: nat, known: set<nat>)
    requires item.Valid(known) && !item.ended && !item.weak && store in known && EMPTY_URI in known
    requires item.uris.isStore(store) && store != EMPTY_URI && IsGood(item.uris, item.past, item.badSites, store)
    modifies item
    ensures !item.ended && item.past == old(item.past)
  {
    for k := 0 to times
      invariant item.Valid(known) && !item.ended && item.past == old(item.past) && item.badSites == old(item.badSites)
    {
      var _ := item.Redirected(store, [], false, known);
    }
  }
}
