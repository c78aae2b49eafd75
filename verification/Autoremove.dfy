/**
  The mark-and-sweep that finds automatically installed packages nobody needs:
  a depth-first walk with a second memo table, keyed by dependency target.
*/
module Autoremove {
  import opened Wrappers
  import opened DepGraph
  import opened DepBytes
  import opened DepSpec
  import opened AutoremoveSpec
  import opened AutoremoveWalk
  import opened AutoremoveReasons

  // ---------- What the walk has established so far ----------

  /** Nothing is marked that should not be. */
  ghost predicate Sound(g: Graph, ps: seq<PkgState>, m: seq<bool>)
    requires g.Valid() && |ps| == |g.pkgs| == |m|
  {
    forall q :: 0 <= q < |m| && m[q] ==> ShouldMark(g, ps, q)
  }

  /** Whatever satisfies dependency d is marked, or its target has been dealt with as a whole. */
  ghost predicate DepDone(g: Graph, ps: seq<PkgState>, m: seq<bool>, e: seq<bool>, d: nat)
    requires Tables(g, ps, m, e) && d < |g.deps|
  {
    assert g.ValidDependency(d);
    var t := g.deps[d].target;
    Followed(g, d) ==>
      || e[t]
      || ((forall q :: 0 <= q < |m| && Satisfies(g, ps, d, q) ==> m[q]) && (!Real(g, ps, t) ==> m[t]))
  }

  /** Whatever answers to the name t is marked. */
  ghost predicate NameDone(g: Graph, ps: seq<PkgState>, m: seq<bool>, t: nat)
    requires g.Valid() && |ps| == |g.pkgs| == |m| && t < |m|
  {
    (forall q :: 0 <= q < |m| && Offers(g, ps, t, q) ==> m[q]) && (!Real(g, ps, t) ==> m[t])
  }

  ghost predicate PkgDone(g: Graph, ps: seq<PkgState>, m: seq<bool>, e: seq<bool>, p: nat)
    requires Tables(g, ps, m, e) && p < |m|
  {
    forall d :: Needs(g, ps, p, d) ==> DepDone(g, ps, m, e, d)
  }

  /**
    The invariant of the walk: marked packages are done, except those still on the
    stack, and explored names are done, except those whose providers are being visited.
  */
  ghost predicate Complete(g: Graph, ps: seq<PkgState>, m: seq<bool>, e: seq<bool>, open: set<nat>, pend: set<nat>)
    requires Tables(g, ps, m, e)
  {
    && (forall p :: 0 <= p < |m| && m[p] && Real(g, ps, p) && p !in open ==> PkgDone(g, ps, m, e, p))
    && (forall t :: 0 <= t < |e| && e[t] && t !in pend ==> NameDone(g, ps, m, t))
    && (forall t :: t in pend ==> t < |e| && e[t])
  }

  lemma DepDoneGrown(g: Graph, ps: seq<PkgState>, m: seq<bool>, e: seq<bool>, m': seq<bool>, e': seq<bool>, d: nat)
    requires Tables(g, ps, m, e) && Tables(g, ps, m', e') && Grown(m, m') && Grown(e, e') && d < |g.deps|
    requires DepDone(g, ps, m, e, d)
    ensures DepDone(g, ps, m', e', d)
  {
  }

  // ---------- The walk ----------

  /** Satisfies and Offers, looking at the first n providers only. */
  ghost predicate SatisfiesUpTo(g: Graph, ps: seq<PkgState>, d: nat, q: nat, n: nat)
    requires g.Valid() && |ps| == |g.pkgs| && d < |g.deps|
  {
    assert g.ValidDependency(d) && g.ValidPackage(g.deps[d].target);
    var t := g.deps[d].target;
    || (q == t && Real(g, ps, t) && Kept(g, ps, t).value in g.deps[d].satVers)
    || exists k :: 0 <= k < n && k < |g.pkgs[t].providesList| && SatisfiesBy(g, ps, d, g.pkgs[t].providesList[k], q)
  }

  ghost predicate OffersUpTo(g: Graph, ps: seq<PkgState>, t: nat, q: nat, n: nat)
    requires g.Valid() && |ps| == |g.pkgs| && t < |ps|
  {
    assert g.ValidPackage(t);
    || (q == t && Real(g, ps, t))
    || exists k :: 0 <= k < n && k < |g.pkgs[t].providesList| && OffersBy(g, ps, g.pkgs[t].providesList[k], q)
  }

  /** l is a list of kept versions that satisfy d. */
  ghost predicate AreProviders(g: Graph, ps: seq<PkgState>, d: nat, l: seq<nat>, n: nat)
    requires g.Valid() && |ps| == |g.pkgs| && d < |g.deps|
  {
    forall v :: v in l ==>
      && v < |g.vers| && g.vers[v].parentPkg < |ps|
      && Kept(g, ps, g.vers[v].parentPkg) == Some(v)
      && SatisfiesUpTo(g, ps, d, g.vers[v].parentPkg, n)
  }

  /** It has the version of every package that does. */
  ghost predicate AllProviders(g: Graph, ps: seq<PkgState>, d: nat, l: seq<nat>, n: nat)
    requires g.Valid() && |ps| == |g.pkgs| && d < |g.deps|
  {
    forall q :: 0 <= q < |ps| && SatisfiesUpTo(g, ps, d, q, n) ==> Kept(g, ps, q).Some? && Kept(g, ps, q).value in l
  }

  /** Every package answering to the name d targets satisfies d. */
  ghost predicate AllSatisfy(g: Graph, ps: seq<PkgState>, d: nat, n: nat)
    requires g.Valid() && |ps| == |g.pkgs| && d < |g.deps|
  {
    assert g.ValidDependency(d);
    forall q :: 0 <= q < |ps| && OffersUpTo(g, ps, g.deps[d].target, q, n) ==> SatisfiesUpTo(g, ps, d, q, n)
  }

  ghost predicate Collected(g: Graph, ps: seq<PkgState>, d: nat, l: seq<nat>, unsatisfied: bool, n: nat)
    requires g.Valid() && |ps| == |g.pkgs| && d < |g.deps|
  {
    && AreProviders(g, ps, d, l, n) && AllProviders(g, ps, d, l, n)
    && (!unsatisfied ==> AllSatisfy(g, ps, d, n))
  }

  /** What looking at one more provider adds. */
  lemma CollectStep(g: Graph, ps: seq<PkgState>, d: nat, l: seq<nat>, unsatisfied: bool, n: nat)
    requires ValidStates(g, ps) && d < |g.deps| && g.ValidDependency(d) && g.ValidPackage(g.deps[d].target)
    requires n < |g.pkgs[g.deps[d].target].providesList| && Collected(g, ps, d, l, unsatisfied, n)
    ensures var r := g.pkgs[g.deps[d].target].providesList[n];
      if !Present(g, ps, r) then Collected(g, ps, d, l, unsatisfied, n + 1)
      else if r !in g.deps[d].satPrvs then Collected(g, ps, d, l, true, n + 1)
      else Collected(g, ps, d, l + [g.prvs[r].ownerVer], unsatisfied, n + 1)
  {
    var t := g.deps[d].target;
    var r := g.pkgs[t].providesList[n];
    assert g.ValidProvides(r) && g.ValidVersion(g.prvs[r].ownerVer);
    forall q | 0 <= q < |ps|
      ensures SatisfiesUpTo(g, ps, d, q, n + 1) <==> SatisfiesUpTo(g, ps, d, q, n) || SatisfiesBy(g, ps, d, r, q)
      ensures OffersUpTo(g, ps, t, q, n + 1) <==> OffersUpTo(g, ps, t, q, n) || OffersBy(g, ps, r, q)
    {
      if SatisfiesBy(g, ps, d, r, q) { assert SatisfiesBy(g, ps, d, g.pkgs[t].providesList[n], q); }
      if OffersBy(g, ps, r, q) { assert OffersBy(g, ps, g.pkgs[t].providesList[n], q); }
    }
    hide SatisfiesUpTo, OffersUpTo;
  }

  /** The part of the search that looks at the target itself. */
  method CollectReal(g: Graph, pkgState: array<PkgState>, d: nat) returns (l: seq<nat>, unsatisfied: bool)
    requires ValidStates(g, pkgState[..]) && d < |g.deps|
    ensures Collected(g, pkgState[..], d, l, unsatisfied, 0) && Finding(l, unsatisfied) == RealPart(g, pkgState[..], d)
    ensures g.ValidDependency(d) && (Real(g, pkgState[..], g.deps[d].target) <==> l != [] || unsatisfied)
  {
    ghost var ps := pkgState[..];
    assert g.ValidDependency(d) && g.ValidPackage(g.deps[d].target);
    var t := g.deps[d].target;
    l, unsatisfied := [], false;
    if !Boring(g, pkgState[..], t) {
      var tv := if pkgState[t].Install() then pkgState[t].installVer else g.pkgs[t].currentVer;
      assert g.OwnVersion(t, ps[t].installVer) && g.OwnVersion(t, tv);
      if tv.Some? {
        if tv.value !in g.deps[d].satVers {
          unsatisfied := true;
        } else {
          l := [tv.value];
        }
      }
    }
  }

  /** The providers of d on offer; `unsatisfied` if one of them does not satisfy it. */
  method CollectProviders(g: Graph, pkgState: array<PkgState>, d: nat, marked: array<bool>)
    returns (l: seq<nat>, unsatisfied: bool)
    requires ValidStates(g, pkgState[..]) && marked.Length == pkgState.Length && d < |g.deps|
    modifies marked
    ensures g.ValidDependency(d) && g.ValidPackage(g.deps[d].target)
    ensures marked[..] == if Real(g, pkgState[..], g.deps[d].target) then old(marked[..])
                          else old(marked[..])[g.deps[d].target := true]
    ensures Collected(g, pkgState[..], d, l, unsatisfied, |g.pkgs[g.deps[d].target].providesList|)
    ensures Finding(l, unsatisfied) == FoundFor(g, pkgState[..], d)
  {
    ghost var ps := pkgState[..];
    assert g.ValidDependency(d) && g.ValidPackage(g.deps[d].target);
    var t := g.deps[d].target;
    l, unsatisfied := CollectReal(g, pkgState, d);
    if l == [] && !unsatisfied {
      marked[t] := true;
    }
    ghost var m := if Real(g, ps, t) then old(marked[..]) else old(marked[..])[t := true];
    assert marked[..] == m && pkgState[..] == ps;
    hide Collected, Real, Boring;
    for k := 0 to |g.pkgs[t].providesList|
      invariant Collected(g, ps, d, l, unsatisfied, k) && marked[..] == m && pkgState[..] == ps
      invariant Finding(l, unsatisfied) == Found(g, ps, d, k)
    {
      l, unsatisfied := CollectOne(g, pkgState, d, l, unsatisfied, k);
    }
  }

  /** The part that looks at one provides of the target. */
  method CollectOne(g: Graph, pkgState: array<PkgState>, d: nat, l: seq<nat>, unsatisfied: bool, k: nat)
    returns (l': seq<nat>, unsatisfied': bool)
    requires ValidStates(g, pkgState[..]) && d < |g.deps| && g.ValidDependency(d) && g.ValidPackage(g.deps[d].target)
    requires k < |g.pkgs[g.deps[d].target].providesList| && Collected(g, pkgState[..], d, l, unsatisfied, k)
    requires Finding(l, unsatisfied) == Found(g, pkgState[..], d, k)
    ensures Collected(g, pkgState[..], d, l', unsatisfied', k + 1)
    ensures Finding(l', unsatisfied') == Found(g, pkgState[..], d, k + 1)
  {
    CollectStep(g, pkgState[..], d, l, unsatisfied, k);
    hide Collected;
    l', unsatisfied' := l, unsatisfied;
    var r := g.pkgs[g.deps[d].target].providesList[k];
    var pp := g.OwnerPkg(r);
    if !Boring(g, pkgState[..], pp) {
      var pv := if pkgState[pp].Install() then pkgState[pp].installVer else g.pkgs[pp].currentVer;
      if pv == Some(g.prvs[r].ownerVer) {
        if r !in g.deps[d].satPrvs {
          unsatisfied' := true;
        } else {
          l' := l + [g.prvs[r].ownerVer];
        }
      }
    }
  }

  // ---------- Steps of the walk ----------

  lemma CompleteGrows(g: Graph, ps: seq<PkgState>, m: seq<bool>, e: seq<bool>, m': seq<bool>, e': seq<bool>,
                      open: set<nat>, pend: set<nat>, open': set<nat>, pend': set<nat>)
    requires Tables(g, ps, m, e) && Tables(g, ps, m', e') && Grown(m, m') && Grown(e, e')
    requires Complete(g, ps, m, e, open, pend) && open <= open' && pend <= pend'
    requires forall p :: 0 <= p < |m| && !m[p] && m'[p] && Real(g, ps, p) ==> p in open'
    requires forall t :: 0 <= t < |e| && !e[t] && e'[t] ==> t in pend'
    requires forall t :: t in pend' ==> t < |e| && e'[t]
    ensures Complete(g, ps, m', e', open', pend')
  {
    forall p | 0 <= p < |m'| && m'[p] && Real(g, ps, p) && p !in open' ensures PkgDone(g, ps, m', e', p) {
      forall d: nat | Needs(g, ps, p, d) ensures DepDone(g, ps, m', e', d) {
        DepDoneGrown(g, ps, m, e, m', e', d);
      }
    }
  }

  lemma CompleteCloses(g: Graph, ps: seq<PkgState>, m: seq<bool>, e: seq<bool>, open: set<nat>, pend: set<nat>,
                       p: nat, t: nat)
    requires Tables(g, ps, m, e) && p < |m| && t < |m|
    ensures Complete(g, ps, m, e, open + {p}, pend) && PkgDone(g, ps, m, e, p) ==> Complete(g, ps, m, e, open, pend)
    ensures Complete(g, ps, m, e, open, pend + {t}) && NameDone(g, ps, m, t) ==> Complete(g, ps, m, e, open, pend)
  {
  }

  /** The providers of an explored name are all marked once those in l are. */
  lemma ProvidersMarked(g: Graph, ps: seq<PkgState>, m: seq<bool>, e: seq<bool>, d: nat, l: seq<nat>, unsatisfied: bool)
    requires Tables(g, ps, m, e) && d < |g.deps| && g.ValidDependency(d) && g.ValidPackage(g.deps[d].target)
    requires Collected(g, ps, d, l, unsatisfied, |g.pkgs[g.deps[d].target].providesList|)
    requires forall v :: v in l ==> v < |g.vers| && g.vers[v].parentPkg < |m| && m[g.vers[v].parentPkg]
    requires !Real(g, ps, g.deps[d].target) ==> m[g.deps[d].target]
    ensures DepDone(g, ps, m, e, d)
    ensures !unsatisfied ==> NameDone(g, ps, m, g.deps[d].target)
  {
    var t := g.deps[d].target;
    var n := |g.pkgs[t].providesList|;
    forall q | 0 <= q < |m| && Satisfies(g, ps, d, q) ensures m[q] {
      assert SatisfiesUpTo(g, ps, d, q, n);
      var v := Kept(g, ps, q).value;
      SatisfiesIsReal(g, ps, d, q);
      KeptIsOwn(g, ps, q);
    }
    if !unsatisfied {
      forall q | 0 <= q < |m| && Offers(g, ps, t, q) ensures m[q] {
        assert OffersUpTo(g, ps, t, q, n);
        assert Satisfies(g, ps, d, q);
      }
    }
  }

  /** The tables are sound, and complete if the filter keeps every provider. */
  ghost predicate Walking(g: Graph, keep: ProviderFilter, ps: seq<PkgState>, m: seq<bool>, e: seq<bool>,
                          open: set<nat>, pend: set<nat>)
  {
    && Filters(keep)
    && Tables(g, ps, m, e)
    && Sound(g, ps, m)
    && (KeepsAll(keep) ==> Complete(g, ps, m, e, open, pend))
  }

  /** Marks package p, whose kept version is v, and whatever it needs. */
  method MarkPackage(g: Graph, keep: ProviderFilter, pkgState: array<PkgState>, p: nat, v: Option<nat>, depth: nat,
                     marked: array<bool>, explored: array<bool>, ghost open: set<nat>, ghost pend: set<nat>)
    returns (ok: bool)
    requires marked != explored && Walking(g, keep, pkgState[..], marked[..], explored[..], open, pend)
    requires p < pkgState.Length && v == Kept(g, pkgState[..], p)
    requires v.Some? ==> !Boring(g, pkgState[..], p) && Reachable(g, pkgState[..], p)
    modifies marked, explored
    ensures Grown(old(marked[..]), marked[..]) && Grown(old(explored[..]), explored[..])
    ensures if ok then Walking(g, keep, pkgState[..], marked[..], explored[..], open, pend)
            else Sound(g, pkgState[..], marked[..])
    ensures ok && v.Some? ==> marked[p]
    ensures Walk(ok, marked[..], explored[..]) ==
      PkgWalk(g, keep, pkgState[..], p, v, depth, old(marked[..]), old(explored[..]))
    decreases Unmarked(marked[..]), 0
  {
    ghost var ps, m, e := pkgState[..], marked[..], explored[..];
    hide *;
    WalkingMeans(g, keep, ps, m, e, open, pend);
    PkgWalkSteps(g, keep, ps, p, v, depth, m, e);
    GrownRefl(m);
    GrownRefl(e);
    if v.None? || marked[p] { return true; }
    if Boring(g, pkgState[..], p) { assert false; }
    if depth > MAX_DEPTH { return false; }
    marked[p] := true;
    ghost var m1 := m[p := true];
    assert marked[..] == m1;
    MarkOpens(g, keep, ps, m, e, p, v.value, open, pend);
    ok := FollowAll(g, keep, pkgState, p, v.value, depth, marked, explored, open + {p}, pend);
    GrownTrans(m, m, m1, marked[..]);
    if !ok { return false; }
    PkgCloses(g, keep, ps, marked[..], explored[..], p, v.value, open, pend);
    GrownAt(m1, marked[..], p);
    return true;
  }

  /** The loop over the dependencies of the kept version v of package p. */
  method FollowAll(g: Graph, keep: ProviderFilter, pkgState: array<PkgState>, p: nat, v: nat, depth: nat,
                   marked: array<bool>, explored: array<bool>, ghost open: set<nat>, ghost pend: set<nat>)
    returns (ok: bool)
    requires marked != explored && Walking(g, keep, pkgState[..], marked[..], explored[..], open, pend)
    requires p < pkgState.Length && v < |g.vers| && Reachable(g, pkgState[..], p)
    requires Real(g, pkgState[..], p) && Kept(g, pkgState[..], p) == Some(v)
    requires DepsOf(g, v) && DepsDone(g, keep, pkgState[..], marked[..], explored[..], v, 0)
    modifies marked, explored
    ensures Grown(old(marked[..]), marked[..]) && Grown(old(explored[..]), explored[..])
    ensures if ok then Walking(g, keep, pkgState[..], marked[..], explored[..], open, pend)
            else Sound(g, pkgState[..], marked[..])
    ensures ok ==> DepsDone(g, keep, pkgState[..], marked[..], explored[..], v, |g.vers[v].depends|)
    ensures Walk(ok, marked[..], explored[..]) ==
      DepsWalk(g, keep, pkgState[..], g.vers[v].depends, 0, depth, old(marked[..]), old(explored[..]))
    decreases Unmarked(marked[..]), 3
  {
    hide *;
    ghost var ps, m, e := pkgState[..], marked[..], explored[..];
    var l := g.vers[v].depends;
    WalkingMeans(g, keep, ps, m, e, open, pend);
    DepsOfMeans(g, v);
    GrownRefl(m);
    GrownRefl(e);
    for i := 0 to |l|
      invariant Walking(g, keep, ps, marked[..], explored[..], open, pend)
      invariant Grown(m, marked[..]) && Grown(e, explored[..])
      invariant DepsDone(g, keep, ps, marked[..], explored[..], v, i) && Tables(g, ps, marked[..], explored[..])
      invariant DepsWalk(g, keep, ps, l, i, depth, marked[..], explored[..]) == DepsWalk(g, keep, ps, l, 0, depth, m, e)
    {
      ghost var m2, e2 := marked[..], explored[..];
      DepsWalkSteps(g, keep, ps, l, i, depth, m2, e2);
      UnmarkedGrown(m, m2);
      ok := FollowDep(g, keep, pkgState, p, l[i], depth, marked, explored, open, pend);
      GrownTrans(m, m, m2, marked[..]);
      GrownTrans(e, e, e2, explored[..]);
      if !ok { return false; }
      WalkingMeans(g, keep, ps, marked[..], explored[..], open, pend);
      DepsDoneStep(g, keep, ps, m2, e2, marked[..], explored[..], v, i);
    }
    DepsWalkSteps(g, keep, ps, l, |l|, depth, marked[..], explored[..]);
    return true;
  }

  /** Marks whatever satisfies one dependency of package p. */
  method FollowDep(g: Graph, keep: ProviderFilter, pkgState: array<PkgState>, p: nat, d: nat, depth: nat,
                   marked: array<bool>, explored: array<bool>, ghost open: set<nat>, ghost pend: set<nat>)
    returns (ok: bool)
    requires marked != explored && Walking(g, keep, pkgState[..], marked[..], explored[..], open, pend)
    requires p < pkgState.Length && d < |g.deps| && Reachable(g, pkgState[..], p)
    requires Real(g, pkgState[..], p) && Kept(g, pkgState[..], p) == Some(g.deps[d].parentVer)
    modifies marked, explored
    ensures Grown(old(marked[..]), marked[..]) && Grown(old(explored[..]), explored[..])
    ensures if ok then Walking(g, keep, pkgState[..], marked[..], explored[..], open, pend)
            else Sound(g, pkgState[..], marked[..])
    ensures ok && KeepsAll(keep) ==> DepDone(g, pkgState[..], marked[..], explored[..], d)
    ensures Walk(ok, marked[..], explored[..]) ==
      DepWalk(g, keep, pkgState[..], d, depth, old(marked[..]), old(explored[..]))
    decreases Unmarked(marked[..]), 2
  {
    hide *;
    ghost var ps, m, e := pkgState[..], marked[..], explored[..];
    FollowFacts(g, keep, ps, m, e, open, pend, p, d);
    GrownRefl(m);
    GrownRefl(e);
    WalkingMeans(g, keep, ps, m, e, open, pend);
    DepWalkSteps(g, keep, ps, d, depth, m, e);
    var t := g.deps[d].target;
    if explored[t] || !Followed(g, d) { return true; }
    var found, unsatisfied := CollectProviders(g, pkgState, d, marked);
    if !unsatisfied { explored[t] := true; }
    ghost var m1, e1 := marked[..], explored[..];
    assert e1 == if unsatisfied then e else e[t := true];
    ghost var pend' := if unsatisfied then pend else pend + {t};
    var l := keep(d, found);
    FollowStarts(g, keep, ps, p, d, m, e, m1, e1, found, unsatisfied, open, pend);
    GrownRefl(m1);
    GrownTrans(m, m1, m1, m1);
    UnmarkedGrown(m, m1);
    ok := FollowProviders(g, keep, pkgState, l, depth + 1, marked, explored, open, pend');
    GrownTrans(m, m, m1, marked[..]);
    GrownRefl(e1);
    GrownTrans(e, e1, e1, explored[..]);
    if !ok { return false; }
    FollowEnds(g, keep, ps, d, m1, marked[..], explored[..], found, unsatisfied, open, pend);
    return true;
  }

  /** The loop over the providers that were not dropped. */
  method FollowProviders(g: Graph, keep: ProviderFilter, pkgState: array<PkgState>, l: seq<nat>, depth: nat,
                         marked: array<bool>, explored: array<bool>, ghost open: set<nat>, ghost pend: set<nat>)
    returns (ok: bool)
    requires marked != explored && Walking(g, keep, pkgState[..], marked[..], explored[..], open, pend)
    requires g.Valid() && pkgState.Length == |g.pkgs| && ToVisit(g, pkgState[..], l)
    requires (forall v :: v in l ==> OnOffer(g, pkgState[..], v)) && Visited(g, marked[..], l, 0)
    modifies marked, explored
    ensures Grown(old(marked[..]), marked[..]) && Grown(old(explored[..]), explored[..])
    ensures if ok then Walking(g, keep, pkgState[..], marked[..], explored[..], open, pend)
            else Sound(g, pkgState[..], marked[..])
    ensures ok ==> Visited(g, marked[..], l, |l|)
    ensures Walk(ok, marked[..], explored[..]) ==
      ListWalk(g, keep, pkgState[..], l, 0, depth, old(marked[..]), old(explored[..]))
    decreases Unmarked(marked[..]), 1
  {
    hide *;
    ghost var ps, m, e := pkgState[..], marked[..], explored[..];
    GrownRefl(m);
    GrownRefl(e);
    WalkingMeans(g, keep, ps, m, e, open, pend);
    for k := 0 to |l|
      invariant Walking(g, keep, ps, marked[..], explored[..], open, pend)
      invariant Grown(m, marked[..]) && Grown(e, explored[..])
      invariant Visited(g, marked[..], l, k) && Tables(g, ps, marked[..], explored[..])
      invariant ListWalk(g, keep, ps, l, k, depth, marked[..], explored[..]) == ListWalk(g, keep, ps, l, 0, depth, m, e)
    {
      ghost var m2, e2 := marked[..], explored[..];
      ListWalkSteps(g, keep, ps, l, k, depth, m2, e2);
      UnmarkedGrown(m, m2);
      VisitFacts(g, ps, l, k);
      var q := g.vers[l[k]].parentPkg;
      ok := MarkPackage(g, keep, pkgState, q, Some(l[k]), depth, marked, explored, open, pend);
      GrownTrans(m, m, m2, marked[..]);
      GrownTrans(e, e, e2, explored[..]);
      if !ok { return false; }
      VisitedStep(g, m2, marked[..], l, k);
      WalkingMeans(g, keep, ps, marked[..], explored[..], open, pend);
    }
    ListWalkSteps(g, keep, ps, l, |l|, depth, marked[..], explored[..]);
    return true;
  }

  /** What the walk may rely on when it turns to dependency d of package p. */
  lemma FollowFacts(g: Graph, keep: ProviderFilter, ps: seq<PkgState>, m: seq<bool>, e: seq<bool>, open: set<nat>,
                    pend: set<nat>,
                    p: nat, d: nat)
    requires Walking(g, keep, ps, m, e, open, pend) && p < |ps| && d < |g.deps|
    requires Real(g, ps, p) && Kept(g, ps, p) == Some(g.deps[d].parentVer)
    ensures ValidStates(g, ps) && |ps| == |g.pkgs| == |m| == |e|
    ensures g.ValidDependency(d) && g.ValidPackage(g.deps[d].target) && g.deps[d].target < |m|
    ensures Followed(g, d) ==> Needs(g, ps, p, d)
    ensures e[g.deps[d].target] || !Followed(g, d) ==> DepDone(g, ps, m, e, d)
  {
    assert g.ValidDependency(d) && g.ValidPackage(g.deps[d].target);
  }

  lemma GrownRefl(m: seq<bool>)
    ensures Grown(m, m)
  {
  }

  lemma GrownTrans(a: seq<bool>, b: seq<bool>, c: seq<bool>, d: seq<bool>)
    requires Grown(a, b) && Grown(b, c) && Grown(c, d)
    ensures Grown(a, c) && Grown(a, d) && Grown(b, d)
  {
  }

  lemma GrownAt(m: seq<bool>, m': seq<bool>, q: nat)
    requires Grown(m, m') && q < |m| && m[q]
    ensures m'[q]
  {
  }

  ghost predicate DepsDone(g: Graph, keep: ProviderFilter, ps: seq<PkgState>, m: seq<bool>, e: seq<bool>, v: nat,
                           n: nat)
  {
    && Tables(g, ps, m, e) && v < |g.vers| && g.ValidVersion(v) && n <= |g.vers[v].depends|
    && (KeepsAll(keep) ==> forall j :: 0 <= j < n ==> DepDone(g, ps, m, e, g.vers[v].depends[j]))
  }

  lemma DepsDoneStep(g: Graph, keep: ProviderFilter, ps: seq<PkgState>, m: seq<bool>, e: seq<bool>, m': seq<bool>,
                     e': seq<bool>, v: nat, n: nat)
    requires DepsDone(g, keep, ps, m, e, v, n) && Grown(m, m') && Grown(e, e') && Tables(g, ps, m', e')
    requires n < |g.vers[v].depends|
    requires KeepsAll(keep) ==> DepDone(g, ps, m', e', g.vers[v].depends[n])
    ensures DepsDone(g, keep, ps, m', e', v, n + 1)
  {
    if KeepsAll(keep) {
      forall j | 0 <= j < n ensures DepDone(g, ps, m', e', g.vers[v].depends[j]) {
        DepDoneGrown(g, ps, m, e, m', e', g.vers[v].depends[j]);
      }
    }
  }

  lemma PkgCloses(g: Graph, keep: ProviderFilter, ps: seq<PkgState>, m: seq<bool>, e: seq<bool>, p: nat, v: nat,
                  open: set<nat>, pend: set<nat>)
    requires Walking(g, keep, ps, m, e, open + {p}, pend) && p < |m| && Kept(g, ps, p) == Some(v)
    requires v < |g.vers| && DepsDone(g, keep, ps, m, e, v, |g.vers[v].depends|)
    ensures Walking(g, keep, ps, m, e, open, pend)
  {
    if KeepsAll(keep) {
      forall d: nat | Needs(g, ps, p, d) ensures DepDone(g, ps, m, e, d) {
        assert g.ValidDependency(d) && g.vers[v].depends[g.deps[d].pos] == d;
      }
      CompleteCloses(g, ps, m, e, open, pend, p, p);
    }
  }

  /** The versions in l are kept versions of reachable packages. */
  ghost predicate ToVisit(g: Graph, ps: seq<PkgState>, l: seq<nat>)
    requires g.Valid() && |ps| == |g.pkgs|
  {
    forall k :: 0 <= k < |l| ==>
      && l[k] < |g.vers| && g.vers[l[k]].parentPkg < |ps|
      && Kept(g, ps, g.vers[l[k]].parentPkg) == Some(l[k])
      && !Boring(g, ps, g.vers[l[k]].parentPkg) && Reachable(g, ps, g.vers[l[k]].parentPkg)
  }

  lemma VisitFacts(g: Graph, ps: seq<PkgState>, l: seq<nat>, k: nat)
    requires g.Valid() && |ps| == |g.pkgs| && ToVisit(g, ps, l) && k < |l|
    ensures l[k] < |g.vers| && g.vers[l[k]].parentPkg < |ps|
    ensures Kept(g, ps, g.vers[l[k]].parentPkg) == Some(l[k])
    ensures !Boring(g, ps, g.vers[l[k]].parentPkg) && Reachable(g, ps, g.vers[l[k]].parentPkg)
  {
  }

  ghost predicate Visited(g: Graph, m: seq<bool>, l: seq<nat>, n: nat) {
    n <= |l| && forall k :: 0 <= k < n ==> l[k] < |g.vers| && g.vers[l[k]].parentPkg < |m| && m[g.vers[l[k]].parentPkg]
  }

  lemma VisitedStep(g: Graph, m: seq<bool>, m': seq<bool>, l: seq<nat>, n: nat)
    requires Visited(g, m, l, n) && Grown(m, m') && n < |l|
    requires l[n] < |g.vers| && g.vers[l[n]].parentPkg < |m'| && m'[g.vers[l[n]].parentPkg]
    ensures Visited(g, m', l, n + 1)
  {
  }

  /** Having looked up the providers of d, the tables are as good as before. */
  lemma FollowStarts(g: Graph, keep: ProviderFilter, ps: seq<PkgState>, p: nat, d: nat, m: seq<bool>, e: seq<bool>,
                     m': seq<bool>, e': seq<bool>, found: seq<nat>, unsatisfied: bool, open: set<nat>, pend: set<nat>)
    requires Walking(g, keep, ps, m, e, open, pend) && p < |ps| && Reachable(g, ps, p) && Needs(g, ps, p, d)
    requires g.ValidDependency(d) && g.ValidPackage(g.deps[d].target)
    requires Collected(g, ps, d, found, unsatisfied, |g.pkgs[g.deps[d].target].providesList|)
    requires m' == if Real(g, ps, g.deps[d].target) then m else m[g.deps[d].target := true]
    requires e' == if unsatisfied then e else e[g.deps[d].target := true]
    ensures Walking(g, keep, ps, m', e', open, if unsatisfied then pend else pend + {g.deps[d].target})
    ensures Grown(m, m') && Grown(e, e') && ToVisit(g, ps, keep(d, found))
    ensures Visited(g, m', keep(d, found), 0)
    ensures !Real(g, ps, g.deps[d].target) ==> m'[g.deps[d].target]
  {
    FoundReachable(g, ps, p, d, found, unsatisfied, keep(d, found));
    LookupSound(g, ps, p, d, m, m');
    if KeepsAll(keep) { LookupComplete(g, ps, d, m, e, m', e', unsatisfied, open, pend); }
    hide Collected, Real, Reachable, Targeted, Kept, Boring, Needs, Complete, Sound, ToVisit;
  }

  lemma LookupSound(g: Graph, ps: seq<PkgState>, p: nat, d: nat, m: seq<bool>, m': seq<bool>)
    requires g.Valid() && |ps| == |g.pkgs| == |m| && Sound(g, ps, m) && p < |ps| && Reachable(g, ps, p)
    requires Needs(g, ps, p, d)
    requires g.ValidDependency(d) && m' == if Real(g, ps, g.deps[d].target) then m else m[g.deps[d].target := true]
    ensures Sound(g, ps, m') && Grown(m, m')
  {
    if !Real(g, ps, g.deps[d].target) { assert Targeted(g, ps, g.deps[d].target); }
  }

  lemma LookupComplete(g: Graph, ps: seq<PkgState>, d: nat, m: seq<bool>, e: seq<bool>, m': seq<bool>, e': seq<bool>,
                       unsatisfied: bool, open: set<nat>, pend: set<nat>)
    requires Tables(g, ps, m, e) && d < |g.deps| && g.ValidDependency(d)
    requires m' == if Real(g, ps, g.deps[d].target) then m else m[g.deps[d].target := true]
    requires e' == if unsatisfied then e else e[g.deps[d].target := true]
    requires Complete(g, ps, m, e, open, pend)
    ensures Complete(g, ps, m', e', open, if unsatisfied then pend else pend + {g.deps[d].target})
  {
    CompleteGrows(g, ps, m, e, m', e', open, pend, open, if unsatisfied then pend else pend + {g.deps[d].target});
  }

  lemma FoundReachable(g: Graph, ps: seq<PkgState>, p: nat, d: nat, found: seq<nat>, unsatisfied: bool, l: seq<nat>)
    requires ValidStates(g, ps) && p < |ps| && Reachable(g, ps, p) && Needs(g, ps, p, d)
    requires g.ValidDependency(d) && g.ValidPackage(g.deps[d].target)
    requires Collected(g, ps, d, found, unsatisfied, |g.pkgs[g.deps[d].target].providesList|)
    requires forall v :: v in l ==> v in found
    ensures ToVisit(g, ps, l)
  {
    forall k | 0 <= k < |l|
      ensures l[k] < |g.vers| && g.vers[l[k]].parentPkg < |ps| && Kept(g, ps, g.vers[l[k]].parentPkg) == Some(l[k])
      ensures !Boring(g, ps, g.vers[l[k]].parentPkg) && Reachable(g, ps, g.vers[l[k]].parentPkg)
    {
      var v := l[k];
      assert v in found;
      var q := g.vers[v].parentPkg;
      assert Satisfies(g, ps, d, q);
      SatisfiesIsReal(g, ps, d, q);
      assert Edge(g, ps, p, q);
      EdgeReachable(g, ps, p, q);
    }
  }

  lemma FollowEnds(g: Graph, keep: ProviderFilter, ps: seq<PkgState>, d: nat, m1: seq<bool>, m: seq<bool>, e: seq<bool>,
                   found: seq<nat>, unsatisfied: bool, open: set<nat>, pend: set<nat>)
    requires d < |g.deps| && g.ValidDependency(d) && g.ValidPackage(g.deps[d].target)
    requires Walking(g, keep, ps, m, e, open, if unsatisfied then pend else pend + {g.deps[d].target})
    requires Collected(g, ps, d, found, unsatisfied, |g.pkgs[g.deps[d].target].providesList|)
    requires Grown(m1, m) && (!Real(g, ps, g.deps[d].target) ==> m1[g.deps[d].target])
    requires Visited(g, m, keep(d, found), |keep(d, found)|)
    ensures Walking(g, keep, ps, m, e, open, pend)
    ensures KeepsAll(keep) ==> DepDone(g, ps, m, e, d)
  {
    if KeepsAll(keep) {
      assert keep(d, found) == found;
      ProvidersMarked(g, ps, m, e, d, found, unsatisfied);
      CompleteCloses(g, ps, m, e, open, pend, g.deps[d].target, g.deps[d].target);
    }
  }

  lemma WalkingMeans(g: Graph, keep: ProviderFilter, ps: seq<PkgState>, m: seq<bool>, e: seq<bool>,
                     open: set<nat>, pend: set<nat>)
    requires Walking(g, keep, ps, m, e, open, pend)
    ensures Tables(g, ps, m, e) && Filters(keep) && ValidStates(g, ps) && |ps| == |g.pkgs| == |m| == |e|
    ensures Sound(g, ps, m)
  {
  }

  ghost predicate DepsOf(g: Graph, v: nat)
    requires v < |g.vers|
  {
    forall i :: 0 <= i < |g.vers[v].depends| ==>
      g.vers[v].depends[i] < |g.deps| && g.deps[g.vers[v].depends[i]].parentVer == v
  }

  lemma DepsOfMeans(g: Graph, v: nat)
    requires v < |g.vers| && DepsOf(g, v)
    ensures forall i :: 0 <= i < |g.vers[v].depends| ==>
      g.vers[v].depends[i] < |g.deps| && g.deps[g.vers[v].depends[i]].parentVer == v
  {
  }

  lemma MarkOpens(g: Graph, keep: ProviderFilter, ps: seq<PkgState>, m: seq<bool>, e: seq<bool>, p: nat, v: nat,
                  open: set<nat>, pend: set<nat>)
    requires Walking(g, keep, ps, m, e, open, pend) && p < |m| && !m[p] && Reachable(g, ps, p)
    requires !Boring(g, ps, p) && Kept(g, ps, p) == Some(v)
    ensures Walking(g, keep, ps, m[p := true], e, open + {p}, pend)
    ensures Grown(m, m[p := true]) && Unmarked(m[p := true]) < Unmarked(m)
    ensures v < |g.vers| && DepsOf(g, v)
    ensures DepsDone(g, keep, ps, m[p := true], e, v, 0) && Real(g, ps, p)
  {
    UnmarkedGrown(m, m[p := true]);
    KeptIsOwn(g, ps, p);
    assert g.ValidVersion(v);
    if KeepsAll(keep) {
      CompleteGrows(g, ps, m, e, m[p := true], e, open, pend, open + {p}, pend);
    }
  }

  // ---------- Mark and sweep ----------

  ghost predicate RootsDone(g: Graph, keep: ProviderFilter, ps: seq<PkgState>, m: seq<bool>, n: nat) {
    && g.Valid() && |ps| == |g.pkgs| == |m| && n <= |m|
    && forall p :: 0 <= p < n && Root(g, ps, p) && Real(g, ps, p) ==> m[p]
  }

  lemma RootsDoneStep(g: Graph, keep: ProviderFilter, ps: seq<PkgState>, m: seq<bool>, m': seq<bool>, n: nat)
    requires RootsDone(g, keep, ps, m, n) && n < |m| && Grown(m, m')
    requires Root(g, ps, n) && Real(g, ps, n) ==> m'[n]
    ensures RootsDone(g, keep, ps, m', n + 1)
  {
  }

  /** With every provider followed, the marks are exactly the packages that should be marked. */
  lemma MarksExact(g: Graph, keep: ProviderFilter, ps: seq<PkgState>, m: seq<bool>, e: seq<bool>)
    requires Walking(g, keep, ps, m, e, {}, {}) && RootsDone(g, keep, ps, m, |m|) && KeepsAll(keep)
    ensures forall q :: 0 <= q < |m| ==> (m[q] <==> ShouldMark(g, ps, q))
  {
    forall p: nat, d: nat | p < |m| && m[p] && Needs(g, ps, p, d)
      ensures forall q :: 0 <= q < |m| && Satisfies(g, ps, d, q) ==> m[q]
      ensures g.ValidDependency(d) && (!Real(g, ps, g.deps[d].target) ==> m[g.deps[d].target])
    {
      NeedsMarked(g, ps, m, e, p, d);
    }
    forall q | 0 <= q < |m| && ShouldMark(g, ps, q) ensures m[q] {
      if Real(g, ps, q) {
        var path :| Path(g, ps, path) && path[|path| - 1] == q;
        ClosedHoldsPath(g, ps, m, path);
      } else {
        var p: nat, d: nat :| p < |ps| && Reachable(g, ps, p) && Needs(g, ps, p, d) && g.deps[d].target == q;
        var path :| Path(g, ps, path) && path[|path| - 1] == p;
        ClosedHoldsPath(g, ps, m, path);
      }
    }
  }

  lemma NeedsMarked(g: Graph, ps: seq<PkgState>, m: seq<bool>, e: seq<bool>, p: nat, d: nat)
    requires Tables(g, ps, m, e) && Complete(g, ps, m, e, {}, {}) && p < |m| && m[p] && Needs(g, ps, p, d)
    ensures forall q :: 0 <= q < |m| && Satisfies(g, ps, d, q) ==> m[q]
    ensures g.ValidDependency(d) && (!Real(g, ps, g.deps[d].target) ==> m[g.deps[d].target])
  {
    assert PkgDone(g, ps, m, e, p) && DepDone(g, ps, m, e, d) && g.ValidDependency(d);
    forall q | 0 <= q < |m| && Satisfies(g, ps, d, q) ensures m[q] {
      SatisfiesIsReal(g, ps, d, q);
    }
  }

  lemma NothingMarked(g: Graph, keep: ProviderFilter, ps: seq<PkgState>, m: seq<bool>, e: seq<bool>)
    requires ValidStates(g, ps) && Filters(keep) && |m| == |e| == |ps|
    requires forall q :: 0 <= q < |m| ==> !m[q] && !e[q]
    ensures Walking(g, keep, ps, m, e, {}, {}) && RootsDone(g, keep, ps, m, 0)
  {
  }

  /** Whether the walk ran to its end and what it marked, for any filter. */
  ghost predicate FreshMarks(g: Graph, keep: ProviderFilter, ps: seq<PkgState>, m: seq<bool>, ok: bool) {
    && ValidStates(g, ps) && Filters(keep)
    && ok == FreshWalk(g, keep, ps).ok && m == FreshWalk(g, keep, ps).marked
  }

  lemma LengthsAgree(g: Graph, ps: seq<PkgState>)
    requires ValidStates(g, ps)
    ensures g.Valid() && |ps| == |g.pkgs|
  {
  }

  lemma FreshMean(g: Graph, keep: ProviderFilter, ps: seq<PkgState>, m: seq<bool>, ok: bool)
    requires FreshMarks(g, keep, ps, m, ok)
    ensures |m| == |ps| == |g.pkgs| && ValidStates(g, ps)
    ensures HasReasons(g, keep, ps, m) && (ok ==> KeepsWanted(g, ps, m))
  {
    WalkHasReasons(g, keep, ps);
    if ok { WalkKeepsWanted(g, keep, ps); }
    hide HasReasons, KeepsWanted, FreshWalk;
  }

  lemma StartsFresh(g: Graph, keep: ProviderFilter, ps: seq<PkgState>, m: seq<bool>, e: seq<bool>)
    requires ValidStates(g, ps) && Filters(keep) && |m| == |e| == |ps|
    requires forall q :: 0 <= q < |m| ==> !m[q] && !e[q]
    ensures Tables(g, ps, m, e)
    ensures var r := RootsWalk(g, keep, ps, 0, m, e); FreshMarks(g, keep, ps, r.marked, r.ok)
  {
    var none := seq(|ps|, i => false);
    assert m == none && e == none;
  }

  /** The mark part: from every root, everything it needs. */
  method MarkRequired(g: Graph, keep: ProviderFilter, pkgState: array<PkgState>, marked: array<bool>,
                      garbage: array<bool>)
    returns (ok: bool)
    requires ValidStates(g, pkgState[..]) && Filters(keep) && marked != garbage
    requires marked.Length == garbage.Length == pkgState.Length
    modifies marked, garbage
    ensures FreshMarks(g, keep, pkgState[..], marked[..], ok) && Sound(g, pkgState[..], marked[..])
    ensures HasReasons(g, keep, pkgState[..], marked[..]) && (ok ==> KeepsWanted(g, pkgState[..], marked[..]))
    ensures ok && KeepsAll(keep) ==>
      forall q :: 0 <= q < marked.Length ==> (marked[q] <==> ShouldMark(g, pkgState[..], q))
    ensures forall q :: 0 <= q < garbage.Length ==> !garbage[q]
  {
    hide *;
    var explored := ResetTables(marked, garbage);
    ghost var ps := pkgState[..];
    LengthsAgree(g, ps);
    NothingMarked(g, keep, ps, marked[..], explored[..]);
    ghost var m0, e0 := marked[..], explored[..];
    StartsFresh(g, keep, ps, m0, e0);
    WalkingMeans(g, keep, ps, m0, e0, {}, {});
    for p := 0 to marked.Length
      invariant Walking(g, keep, ps, marked[..], explored[..], {}, {})
      invariant RootsDone(g, keep, ps, marked[..], p) && Tables(g, ps, marked[..], explored[..])
      invariant RootsWalk(g, keep, ps, p, marked[..], explored[..]) == RootsWalk(g, keep, ps, 0, m0, e0)
      invariant forall q :: 0 <= q < garbage.Length ==> !garbage[q]
    {
      ghost var m := marked[..];
      RootsWalkSteps(g, keep, ps, p, m, explored[..]);
      ok := MarkRoot(g, keep, pkgState, p, marked, explored);
      if !ok {
        FreshMean(g, keep, ps, marked[..], false);
        return false;
      }
      RootsDoneStep(g, keep, ps, m, marked[..], p);
      WalkingMeans(g, keep, ps, marked[..], explored[..], {}, {});
    }
    WalkingMeans(g, keep, ps, marked[..], explored[..], {}, {});
    RootsWalkSteps(g, keep, ps, |ps|, marked[..], explored[..]);
    FreshMean(g, keep, ps, marked[..], true);
    if KeepsAll(keep) {
      MarksExact(g, keep, ps, marked[..], explored[..]);
    }
    return true;
  }

  method ResetTables(marked: array<bool>, garbage: array<bool>) returns (explored: array<bool>)
    requires marked.Length == garbage.Length && marked != garbage
    modifies marked, garbage
    ensures fresh(explored) && explored.Length == marked.Length
    ensures forall q :: 0 <= q < marked.Length ==> !marked[q] && !garbage[q] && !explored[q]
  {
    explored := new bool[marked.Length](i => false);
    for i := 0 to marked.Length
      invariant forall q :: 0 <= q < i ==> !marked[q] && !garbage[q]
      invariant forall q :: 0 <= q < marked.Length ==> !explored[q]
    {
      marked[i], garbage[i] := false, false;
    }
  }

  /** Marks from package p if it is in the root set. */
  method MarkRoot(g: Graph, keep: ProviderFilter, pkgState: array<PkgState>, p: nat, marked: array<bool>,
                  explored: array<bool>)
    returns (ok: bool)
    requires marked != explored && Walking(g, keep, pkgState[..], marked[..], explored[..], {}, {}) && p < marked.Length
    modifies marked, explored
    ensures Grown(old(marked[..]), marked[..])
    ensures if ok then Walking(g, keep, pkgState[..], marked[..], explored[..], {}, {})
            else Sound(g, pkgState[..], marked[..])
    ensures ok && Root(g, pkgState[..], p) && Real(g, pkgState[..], p) ==> marked[p]
    ensures Walk(ok, marked[..], explored[..]) ==
      RootWalk(g, keep, pkgState[..], p, old(marked[..]), old(explored[..]))
  {
    ghost var ps := pkgState[..];
    if marked[p] || Boring(g, pkgState[..], p) { return true; }
    assert g.ValidPackage(p);
    var P, st := g.pkgs[p], pkgState[p];
    if !(!st.auto || P.essential || P.important
         || (P.currentVer.Some? && g.vers[P.currentVer.value].required)
         || P.inRootSet
         || !IsModeChangeOk(g, st, ModeGarbage, p, 0, false)) {
      return true;
    }
    var pv := if st.Install() then st.installVer else P.currentVer;
    if pv.Some? { RootReachable(g, ps, p); }
    hide *;
    ok := MarkPackage(g, keep, pkgState, p, pv, 0, marked, explored, {}, {});
  }

  /** The sweep part: installed or to be installed, unmarked and not required. */
  method Sweep(g: Graph, pkgState: array<PkgState>, marked: array<bool>, garbage: array<bool>)
    requires ValidStates(g, pkgState[..]) && marked.Length == garbage.Length == pkgState.Length && marked != garbage
    modifies garbage
    ensures forall q :: 0 <= q < garbage.Length ==>
      garbage[q] == (old(garbage[q]) || Swept(g, pkgState[..], marked[..], q))
  {
    ghost var ps := pkgState[..];
    for p := 0 to garbage.Length
      invariant forall q :: 0 <= q < p ==> garbage[q] == (old(garbage[q]) || Swept(g, ps, marked[..], q))
      invariant forall q :: p <= q < garbage.Length ==> garbage[q] == old(garbage[q])
    {
      assert g.ValidPackage(p);
      var cur := g.pkgs[p].currentVer;
      if !(cur.Some? && g.vers[cur.value].required) {
        if !marked[p] && (cur.Some? || pkgState[p].Install()) {
          garbage[p] := true;
        }
      }
    }
  }

  ghost predicate Swept(g: Graph, ps: seq<PkgState>, m: seq<bool>, q: nat)
    requires g.Valid() && |ps| == |g.pkgs| == |m| && q < |m|
  {
    assert g.ValidPackage(q);
    var cur := g.pkgs[q].currentVer;
    && !(cur.Some? && g.vers[cur.value].required)
    && !m[q]
    && (cur.Some? || ps[q].Install())
  }

  /** The two tables are those of a fresh mark-and-sweep of the given records. */
  ghost predicate FreshlySwept(g: Graph, ps: seq<PkgState>, m: seq<bool>, garbage: seq<bool>)
    requires g.Valid() && |ps| == |g.pkgs|
  {
    && |m| == |garbage| == |ps|
    && (forall q :: 0 <= q < |m| ==> (m[q] <==> ShouldMark(g, ps, q)))
    && (forall q :: 0 <= q < |m| ==> (garbage[q] <==> IsGarbage(g, ps, q)))
  }

  /** Garbage is what is present, unmarked and not installed with Required priority, whatever the marks are. */
  ghost predicate SweptByMarks(g: Graph, ps: seq<PkgState>, m: seq<bool>, garbage: seq<bool>)
    requires g.Valid() && |ps| == |g.pkgs|
  {
    |m| == |garbage| == |ps| && forall q :: 0 <= q < |m| ==> (garbage[q] <==> Swept(g, ps, m, q))
  }

  /**
    The marks are those of a fresh walk, whatever providers it drops, and sound. Nothing is garbage if the
    walk was given up; otherwise garbage follows from the marks, and if every provider was followed the
    marks are exact.
  */
  ghost predicate UpToDate(g: Graph, keep: ProviderFilter, ps: seq<PkgState>, m: seq<bool>, garbage: seq<bool>,
                           swept: bool)
    requires g.Valid() && |ps| == |g.pkgs| == |m|
  {
    && FreshMarks(g, keep, ps, m, swept) && Sound(g, ps, m)
    && (!swept ==> forall q :: 0 <= q < |garbage| ==> !garbage[q])
    && (swept ==> SweptByMarks(g, ps, m, garbage))
    && (swept && KeepsAll(keep) ==> FreshlySwept(g, ps, m, garbage))
  }

  /** What a finished or abandoned run stands for, in terms of the package data. */
  ghost predicate Explained(g: Graph, keep: ProviderFilter, ps: seq<PkgState>, m: seq<bool>, garbage: seq<bool>,
                            swept: bool)
    requires ValidStates(g, ps) && |ps| == |g.pkgs| == |m| == |garbage|
  {
    && HasReasons(g, keep, ps, m)
    && (swept ==> KeepsWanted(g, ps, m) && SweepsRest(g, ps, m, garbage))
    && (swept && KeepsAll(keep) ==> KeepsAsked(g, ps, m))
  }

  lemma UpToDateMeans(g: Graph, keep: ProviderFilter, ps: seq<PkgState>, m: seq<bool>, garbage: seq<bool>, swept: bool)
    requires g.Valid() && |ps| == |g.pkgs| == |m| == |garbage| && UpToDate(g, keep, ps, m, garbage, swept)
    ensures Explained(g, keep, ps, m, garbage, swept)
  {
    WalkHasReasons(g, keep, ps);
    if swept {
      WalkKeepsWanted(g, keep, ps);
      SweptInTerms(g, ps, m, garbage);
      if KeepsAll(keep) { ExactKeepsAsked(g, ps, m); }
    }
    hide HasReasons, KeepsWanted, KeepsAsked, SweepsRest, ShouldMark, IsGarbage, FreshWalk, Sound, SweptByMarks;
  }

  lemma SweptInTerms(g: Graph, ps: seq<PkgState>, m: seq<bool>, garbage: seq<bool>)
    requires g.Valid() && |ps| == |g.pkgs| == |m| == |garbage| && SweptByMarks(g, ps, m, garbage)
    ensures SweepsRest(g, ps, m, garbage)
  {
    forall q | 0 <= q < |garbage| ensures g.ValidPackage(q) && garbage[q] == Swept(g, ps, m, q) {}
  }

  lemma SameUpToDate(g: Graph, keep: ProviderFilter, ps: seq<PkgState>, ps': seq<PkgState>, m: seq<bool>,
                     garbage: seq<bool>,
                     swept: bool)
    requires g.Valid() && |ps| == |g.pkgs| == |m| && SameForMarks(ps, ps') && ValidStates(g, ps')
    requires UpToDate(g, keep, ps, m, garbage, swept)
    ensures UpToDate(g, keep, ps', m, garbage, swept)
  {
    hide ShouldMark, IsGarbage;
    SameFreshWalk(g, keep, ps, ps');
    forall q | 0 <= q < |m|
      ensures ShouldMark(g, ps, q) <==> ShouldMark(g, ps', q)
      ensures IsGarbage(g, ps, q) <==> IsGarbage(g, ps', q)
      ensures Swept(g, ps, m, q) <==> Swept(g, ps', m, q)
    {
      SameShouldMark(g, ps, ps', q);
    }
  }

  method MarkAndSweep(g: Graph, keep: ProviderFilter, pkgState: array<PkgState>, marked: array<bool>,
                      garbage: array<bool>)
    returns (ok: bool)
    requires ValidStates(g, pkgState[..]) && Filters(keep) && marked != garbage
    requires marked.Length == garbage.Length == pkgState.Length
    modifies marked, garbage
    ensures FreshMarks(g, keep, pkgState[..], marked[..], ok) && Sound(g, pkgState[..], marked[..])
    ensures !ok ==> forall q :: 0 <= q < garbage.Length ==> !garbage[q]
    ensures ok ==> SweptByMarks(g, pkgState[..], marked[..], garbage[..])
    ensures ok && KeepsAll(keep) ==> FreshlySwept(g, pkgState[..], marked[..], garbage[..])
    ensures Explained(g, keep, pkgState[..], marked[..], garbage[..], ok)
  {
    ok := MarkRequired(g, keep, pkgState, marked, garbage);
    hide ShouldMark;
    if ok {
      Sweep(g, pkgState, marked, garbage);
    }
    assert UpToDate(g, keep, pkgState[..], marked[..], garbage[..], ok);
    UpToDateMeans(g, keep, pkgState[..], marked[..], garbage[..], ok);
  }
}
