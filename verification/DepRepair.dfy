/**
  The proof that repairing in place is as good as recomputing: what one recheck,
  one rebuilt version, one rescanned package and one full pass leave behind.
*/
module DepRepair {
  import opened Wrappers
  import opened DepGraph
  import opened DepBytes
  import opened DepSpec
  import opened DepLemmas

  /**
    Apart from summaries the records are those of `base`, and everything but the
    dependencies in `pend` and the summaries in `stale` is up to date.
  */
  ghost predicate Repairing(g: Graph, base: seq<PkgState>, ps: seq<PkgState>, ds: seq<Byte>, tally: Tally,
                            pend: set<nat>, stale: set<nat>)
  {
    && ValidStates(g, ps)
    && OnlySummaries(base, ps)
    && |ds| == |g.deps|
    && (forall v :: 0 <= v < |g.vers| ==> Canonical(g, ds, v))
    && (forall d :: 0 <= d < |ds| && d !in pend ==> LowOk(g, ps, ds, d))
    && (forall p :: 0 <= p < |ps| && p !in stale ==> SummaryOk(g, ps, ds, p))
    && tally == Total(StateContribs(g, ps))
  }

  lemma {:induction false} GroupStartAt(g: Graph, v: nat, start: nat, end: nat)
    requires v < |g.vers| && g.ValidVersion(v) && start <= end < |g.vers[v].depends|
    requires start > 0 ==> !g.deps[g.vers[v].depends[start - 1]].orNext
    requires forall j :: start <= j < end ==> g.deps[g.vers[v].depends[j]].orNext
    ensures GroupStart(g, v, end) == start
  {
    if end > start {
      GroupStartAt(g, v, start, end - 1);
    }
  }

  /** What the scan of a version says; nothing is wrong with the null version. */
  ghost predicate ScanOf(g: Graph, ds: seq<Byte>, v: Option<nat>, check: VersionType, min: bool, policy: bool) {
    && g.Valid() && |ds| == |g.deps| && (v.Some? ==> v.value < |g.vers|)
    && (min <==> (v.Some? ==> !MinFails(g, ds, v.value, check)))
    && (policy <==> (v.Some? ==> !PolicyFails(g, ds, v.value, check)))
  }

  lemma ScanFacts(g: Graph, ps: seq<PkgState>, p: nat)
    requires ValidStates(g, ps) && p < |g.pkgs|
    ensures |ps| == |g.pkgs| && g.Valid() && g.ValidPackage(p) && g.OwnVersion(p, ps[p].installVer)
    ensures forall v :: v in {g.pkgs[p].currentVer, ps[p].candidateVer, ps[p].installVer} && v.Some? ==>
      v.value < |g.vers|
  {
    assert g.ValidPackage(p) && g.OwnVersion(p, ps[p].candidateVer) && g.OwnVersion(p, ps[p].installVer);
  }

  lemma SummaryFrom(g: Graph, ps: seq<PkgState>, ds: seq<Byte>, p: nat, b: Summary)
    requires ValidStates(g, ps) && |ds| == |g.deps| && p < |ps| && g.ValidPackage(p)
    requires g.OwnVersion(p, ps[p].installVer)
    requires ScanOf(g, ds, g.pkgs[p].currentVer, NowVersion, b.nowMin, b.nowPolicy)
    requires ScanOf(g, ds, ps[p].installVer, InstallVersion, b.instMin, b.instPolicy)
    ensures var ps' := ps[p := ps[p].(depState := b)];
      ValidStates(g, ps') && SummaryOk(g, ps', ds, p)
  {
    SummariesKeepSizes(g, ps, ps[p := ps[p].(depState := b)]);
  }

  /** ds' is ds except that the first n entries of version v hold the bytes `raw` demands. */
  ghost predicate Rebuilt(g: Graph, raw: seq<Bits>, ds: seq<Byte>, ds': seq<Byte>, v: nat, n: nat)
    requires g.Valid() && v < |g.vers| && |raw| == |ds| == |g.deps|
  {
    assert g.ValidVersion(v);
    && |ds'| == |ds|
    && n <= |g.vers[v].depends|
    && (forall d :: 0 <= d < |ds| && (g.deps[d].parentVer != v || g.deps[d].pos >= n) ==> ds'[d] == ds[d])
    && (forall d :: 0 <= d < |ds| && g.deps[d].parentVer == v && g.deps[d].pos < n ==>
          ds'[d] == (assert g.ValidDependency(d); CanonByte(g, raw, v, g.deps[d].pos)))
  }

  /** Rebuilding has come to entry i, with the group bits gathered so far. */
  ghost predicate InGroup(g: Graph, raw: seq<Bits>, ds: seq<Byte>, ds': seq<Byte>, v: nat, i: nat, group: Bits) {
    && g.Valid() && v < |g.vers| && g.ValidVersion(v) && |raw| == |ds| == |g.deps|
    && Rebuilt(g, raw, ds, ds', v, i) && group == GroupBefore(g, raw, v, i)
  }

  /** ... when the raw results are those ds stored, or those a fresh check yields. */
  ghost predicate StoredInGroup(g: Graph, ds: seq<Byte>, ds': seq<Byte>, v: nat, i: nat, group: Bits) {
    |ds| == |g.deps| && InGroup(g, RawsStored(g, ds), ds, ds', v, i, group)
  }

  ghost predicate CheckedInGroup(g: Graph, ps: seq<PkgState>, raw: seq<Bits>, ds: seq<Byte>, ds': seq<Byte>,
                                 v: nat, i: nat, group: Bits)
  {
    ValidStates(g, ps) && raw == RawsChecked(g, ps) && InGroup(g, raw, ds, ds', v, i, group)
  }

  /** ds' is ds with the bytes of version v rebuilt from the low bits ds holds. */
  ghost predicate BuiltFrom(g: Graph, ds: seq<Byte>, ds': seq<Byte>, v: nat)
    requires g.Valid() && v < |g.vers| && |ds| == |g.deps|
  {
    Rebuilt(g, RawsStored(g, ds), ds, ds', v, |g.vers[v].depends|)
  }

  lemma RebuildStart(g: Graph, raw: seq<Bits>, ds: seq<Byte>, v: nat)
    requires g.Valid() && v < |g.vers| && |raw| == |ds| == |g.deps|
    ensures InGroup(g, raw, ds, ds, v, 0, NO_BITS)
  {
    assert g.ValidVersion(v);
  }

  lemma StoredStart(g: Graph, ds: seq<Byte>, v: nat)
    requires g.Valid() && v < |g.vers| && |ds| == |g.deps|
    ensures StoredInGroup(g, ds, ds, v, 0, NO_BITS)
  {
    RebuildStart(g, RawsStored(g, ds), ds, v);
  }

  lemma StoredEnd(g: Graph, ds: seq<Byte>, ds': seq<Byte>, v: nat, group: Bits)
    requires v < |g.vers| && StoredInGroup(g, ds, ds', v, |g.vers[v].depends|, group)
    ensures g.Valid() && |ds| == |g.deps| && BuiltFrom(g, ds, ds', v)
  {
  }

  lemma RebuildStep(g: Graph, raw: seq<Bits>, ds: seq<Byte>, ds': seq<Byte>, v: nat, i: nat, group: Bits)
    requires InGroup(g, raw, ds, ds', v, i, group) && i < |g.vers[v].depends|
    ensures var d := g.vers[v].depends[i];
      && d < |raw| == |ds| == |ds'| && ds'[d] == ds[d]
      && InGroup(g, raw, ds, ds'[d := Stored(raw[d], group.Or(raw[d]), g.IsNegative(d))], v, i + 1,
                 if g.deps[d].orNext then group.Or(raw[d]) else NO_BITS)
  {
    var d := g.vers[v].depends[i];
    forall d' | 0 <= d' < |ds| && d' != d && g.deps[d'].parentVer == v ensures g.deps[d'].pos != i {
      assert g.ValidDependency(d');
    }
  }

  lemma RebuildEnd(g: Graph, raw: seq<Bits>, ds: seq<Byte>, ds': seq<Byte>, v: nat, group: Bits)
    requires v < |g.vers| && InGroup(g, raw, ds, ds', v, |g.vers[v].depends|, group)
    ensures Rebuilt(g, raw, ds, ds', v, |g.vers[v].depends|)
  {
  }

  /** A version rewritten from its own low bits is canonical and keeps all low bits. */
  lemma BytesRebuilt(g: Graph, ds: seq<Byte>, ds': seq<Byte>, v: nat)
    requires g.Valid() && v < |g.vers| && |ds| == |g.deps|
    requires BuiltFrom(g, ds, ds', v)
    ensures RawsStored(g, ds') == RawsStored(g, ds)
    ensures Canonical(g, ds', v)
  {
    assert g.ValidVersion(v);
    forall d | 0 <= d < |ds| ensures RawOf(ds'[d], g.IsNegative(d)) == RawsStored(g, ds)[d] {
      if g.deps[d].parentVer == v {
        assert g.ValidDependency(d);
      }
    }
  }

  /** What rechecking d, rebuilding its version and rescanning its package leaves behind. */
  ghost predicate Rechecked(g: Graph, ps: seq<PkgState>, ps': seq<PkgState>, ds: seq<Byte>, ds': seq<Byte>, d: nat) {
    && ValidStates(g, ps) && ValidStates(g, ps') && d < |g.deps| == |ds| == |ds'|
    && OnlySummaries(ps, ps')
    && (forall q :: 0 <= q < |ps| && q != g.ParentPkg(d) ==> ps'[q] == ps[q])
    && (forall e :: 0 <= e < |ds| && g.deps[e].parentVer != g.deps[d].parentVer ==> ds'[e] == ds[e])
    && (forall e :: 0 <= e < |ds| && e != d ==> RawOf(ds'[e], g.IsNegative(e)) == RawOf(ds[e], g.IsNegative(e)))
    && RawOf(ds'[d], g.IsNegative(d)) == RawState(g, ps, d)
  }

  /** The low bits of all dependencies but the given ones are as they were. */
  ghost predicate LowKept(g: Graph, ds: seq<Byte>, ds': seq<Byte>, walked: set<nat>) {
    && |ds| == |ds'| == |g.deps|
    && forall e :: 0 <= e < |ds| && e !in walked ==> RawOf(ds'[e], g.IsNegative(e)) == RawOf(ds[e], g.IsNegative(e))
  }

  lemma NothingWalked(g: Graph, ds: seq<Byte>)
    requires |ds| == |g.deps|
    ensures LowKept(g, ds, ds, {})
  {
  }

  lemma WalkedOn(g: Graph, ds: seq<Byte>, ds': seq<Byte>, ds'': seq<Byte>, a: set<nat>, b: set<nat>)
    requires LowKept(g, ds, ds', a) && LowKept(g, ds', ds'', b)
    ensures LowKept(g, ds, ds'', a + b)
  {
  }

  lemma RecheckedKeepsLow(g: Graph, ps: seq<PkgState>, ps': seq<PkgState>, ds: seq<Byte>, ds': seq<Byte>, d: nat)
    requires Rechecked(g, ps, ps', ds, ds', d)
    ensures LowKept(g, ds, ds', {d})
  {
  }

  lemma RecheckedLow(g: Graph, ps: seq<PkgState>, ps': seq<PkgState>, ds: seq<Byte>, ds': seq<Byte>, d: nat, e: nat)
    requires Rechecked(g, ps, ps', ds, ds', d) && e < |ds| && (e == d || LowOk(g, ps, ds, e))
    ensures LowOk(g, ps', ds', e)
  {
    SameSelectionSameRaw(g, ps, ps', e);
  }

  lemma RecheckedCanonical(g: Graph, ps: seq<PkgState>, ps': seq<PkgState>, ds: seq<Byte>, ds': seq<Byte>, d: nat,
                           w: nat)
    requires Rechecked(g, ps, ps', ds, ds', d) && w < |g.vers| && w != g.deps[d].parentVer && Canonical(g, ds, w)
    ensures Canonical(g, ds', w)
  {
    SameBytesSameCanon(g, ds, ds', w);
  }

  lemma RecheckedSummary(g: Graph, ps: seq<PkgState>, ps': seq<PkgState>, ds: seq<Byte>, ds': seq<Byte>, d: nat, q: nat)
    requires Rechecked(g, ps, ps', ds, ds', d) && q < |ps| && q != g.ParentPkg(d) && SummaryOk(g, ps, ds, q)
    ensures SummaryOk(g, ps', ds', q)
  {
    SameBytesSameSummary(g, ps, ps', ds, ds', q);
  }

  lemma DepRechecked(g: Graph, ps: seq<PkgState>, ds: seq<Byte>, ds': seq<Byte>, d: nat, b: Summary)
    requires ValidStates(g, ps) && d < |g.deps| == |ds|
    requires var v, p := g.deps[d].parentVer, g.ParentPkg(d);
      && v < |g.vers| && g.ValidVersion(v)
      && BuiltFrom(g, ds[d := Stored(RawState(g, ps, d), NO_BITS, g.IsNegative(d))], ds', v)
      && ValidStates(g, ps[p := ps[p].(depState := b)])
    ensures Rechecked(g, ps, ps[g.ParentPkg(d) := ps[g.ParentPkg(d)].(depState := b)], ds, ds', d)
    ensures Canonical(g, ds', g.deps[d].parentVer)
  {
    var ds1 := ds[d := Stored(RawState(g, ps, d), NO_BITS, g.IsNegative(d))];
    BytesRebuilt(g, ds1, ds', g.deps[d].parentVer);
    hide Canonical, CanonByte, GroupBefore, DepHit;
    forall e | 0 <= e < |ds| ensures RawOf(ds'[e], g.IsNegative(e)) == RawOf(ds1[e], g.IsNegative(e)) {
      assert RawsStored(g, ds')[e] == RawsStored(g, ds1)[e];
    }
  }

  /** Rechecking d, rebuilding its version and rescanning its package repairs d. */
  lemma DepUpdated(g: Graph, base: seq<PkgState>, ps: seq<PkgState>, ds: seq<Byte>, ds': seq<Byte>, d: nat,
                   tally: Tally, tally': Tally, pend: set<nat>, b: Summary)
    requires Repairing(g, base, ps, ds, tally, pend, {}) && d < |g.deps|
    requires var v, p := g.deps[d].parentVer, g.ParentPkg(d);
      var ps' := ps[p := ps[p].(depState := b)];
      && v < |g.vers| && g.ValidVersion(v)
      && BuiltFrom(g, ds[d := Stored(RawState(g, ps, d), NO_BITS, g.IsNegative(d))], ds', v)
      && ValidStates(g, ps') && SummaryOk(g, ps', ds', p)
      && tally' == Total(StateContribs(g, ps'))
    ensures Repairing(g, base, ps[g.ParentPkg(d) := ps[g.ParentPkg(d)].(depState := b)], ds', tally', pend - {d}, {})
    ensures LowKept(g, ds, ds', {d})
  {
    var v, p := g.deps[d].parentVer, g.ParentPkg(d);
    var ps' := ps[p := ps[p].(depState := b)];
    DepRechecked(g, ps, ds, ds', d, b);
    RecheckedKeepsLow(g, ps, ps', ds, ds', d);
    hide Rechecked, Canonical, LowOk, SummaryOk, Rebuilt, ValidStates, StateContribs, Total, RawState;
    assert OnlySummaries(base, ps');
    forall w | 0 <= w < |g.vers| ensures Canonical(g, ds', w) {
      if w != v { RecheckedCanonical(g, ps, ps', ds, ds', d, w); }
    }
    forall e | 0 <= e < |ds'| && e !in pend - {d} ensures LowOk(g, ps', ds', e) {
      RecheckedLow(g, ps, ps', ds, ds', d, e);
    }
    forall q | 0 <= q < |ps'| ensures SummaryOk(g, ps', ds', q) {
      if q != p { RecheckedSummary(g, ps, ps', ds, ds', d, q); }
    }
  }

  lemma Rescanned(g: Graph, base: seq<PkgState>, ps: seq<PkgState>, ps': seq<PkgState>, ds: seq<Byte>, t: Tally, p: nat,
                  pend: set<nat>, b: Summary)
    requires p < |g.pkgs| && Repairing(g, base, ps, ds, t, pend, {p})
    requires |ps| == |g.pkgs| && ps' == ps[p := ps[p].(depState := b)] && ValidStates(g, ps')
    requires |ds| == |g.deps| && SummaryOk(g, ps', ds, p)
    ensures Repairing(g, base, ps', ds, Total(StateContribs(g, ps')), pend, {})
  {
    hide *;
    RescannedBase(g, base, ps, ps', ds, t, p, pend, b);
    RescannedSummaries(g, ps, ps', ds, p, b);
    RescannedLow(g, ps, ps', ds, p, b, pend);
    MakeRepairing(g, base, ps', ds, pend, {});
  }

  lemma RescannedBase(g: Graph, base: seq<PkgState>, ps: seq<PkgState>, ps': seq<PkgState>, ds: seq<Byte>, t: Tally,
                      p: nat,
                      pend: set<nat>, b: Summary)
    requires p < |g.pkgs| && Repairing(g, base, ps, ds, t, pend, {p})
    requires |ps| == |g.pkgs| && ps' == ps[p := ps[p].(depState := b)]
    ensures ValidStates(g, ps) && |ds| == |g.deps| && OnlySummaries(base, ps')
    ensures forall v :: 0 <= v < |g.vers| ==> Canonical(g, ds, v)
    ensures forall d :: 0 <= d < |ds| && d !in pend ==> LowOk(g, ps, ds, d)
    ensures forall q :: 0 <= q < |ps| && q !in {p} ==> SummaryOk(g, ps, ds, q)
  {
    hide SummaryOk, LowOk, Canonical, StateContribs, Total;
  }

  lemma MakeRepairing(g: Graph, base: seq<PkgState>, ps: seq<PkgState>, ds: seq<Byte>, pend: set<nat>, stale: set<nat>)
    requires ValidStates(g, ps) && OnlySummaries(base, ps) && |ds| == |g.deps|
    requires forall v :: 0 <= v < |g.vers| ==> Canonical(g, ds, v)
    requires forall d :: 0 <= d < |ds| && d !in pend ==> LowOk(g, ps, ds, d)
    requires forall q :: 0 <= q < |ps| && q !in stale ==> SummaryOk(g, ps, ds, q)
    ensures Repairing(g, base, ps, ds, Total(StateContribs(g, ps)), pend, stale)
  {
    hide Canonical, LowOk, SummaryOk, StateContribs, Total;
  }

  lemma RescannedSummaries(g: Graph, ps: seq<PkgState>, ps': seq<PkgState>, ds: seq<Byte>, p: nat, b: Summary)
    requires p < |ps| && ps' == ps[p := ps[p].(depState := b)] && ValidStates(g, ps) && ValidStates(g, ps')
    requires |ds| == |g.deps|
    requires SummaryOk(g, ps', ds, p) && forall q :: 0 <= q < |ps| && q !in {p} ==> SummaryOk(g, ps, ds, q)
    ensures forall q :: 0 <= q < |ps'| ==> SummaryOk(g, ps', ds, q)
  {
    hide SummaryOk;
    forall q | 0 <= q < |ps'| ensures SummaryOk(g, ps', ds, q) {
      if q != p { SameBytesSameSummary(g, ps, ps', ds, ds, q); }
    }
  }

  lemma RescannedLow(g: Graph, ps: seq<PkgState>, ps': seq<PkgState>, ds: seq<Byte>, p: nat, b: Summary, pend: set<nat>)
    requires p < |ps| && ps' == ps[p := ps[p].(depState := b)] && ValidStates(g, ps) && ValidStates(g, ps')
    requires |ds| == |g.deps|
    requires forall d :: 0 <= d < |ds| && d !in pend ==> LowOk(g, ps, ds, d)
    ensures forall d :: 0 <= d < |ds| && d !in pend ==> LowOk(g, ps', ds, d)
  {
    hide LowOk;
    forall d | 0 <= d < |ds| && d !in pend ensures LowOk(g, ps', ds, d) {
      SameSelectionSameLow(g, ps, ps', ds, d);
    }
  }

  // ---------- The walk over reverse dependencies and provides ----------

  ghost function Entries(list: seq<nat>): set<nat> {
    set d | d in list
  }

  lemma NoEntries(list: seq<nat>)
    ensures Entries(list[..0]) == {}
  {
  }

  lemma EntriesGrow(list: seq<nat>, i: nat)
    requires i < |list|
    ensures Entries(list[..i + 1]) == Entries(list[..i]) + {list[i]}
    ensures list[..|list|] == list
  {
    assert list[..i + 1] == list[..i] + [list[i]];
  }

  function RevDependsOfProvides(g: Graph, v: nat, i: nat): (list: seq<nat>)
    requires g.Valid() && v < |g.vers| && i < |g.vers[v].providesList|
    ensures forall j :: 0 <= j < |list| ==> list[j] < |g.deps|
  {
    assert g.ValidVersion(v) && g.ValidProvides(g.vers[v].providesList[i]);
    var q := g.prvs[g.vers[v].providesList[i]].parentPkg;
    assert g.ValidPackage(q);
    g.pkgs[q].revDepends
  }

  /** The dependencies a walk over the first n provides of version v reaches. */
  ghost function ReachedBy(g: Graph, v: nat, n: nat): (r: set<nat>)
    requires g.Valid() && v < |g.vers| && n <= |g.vers[v].providesList|
    ensures forall d :: d in r <==> exists j :: 0 <= j < n && d in RevDependsOfProvides(g, v, j)
  {
    if n == 0 then {} else ReachedBy(g, v, n - 1) + Entries(RevDependsOfProvides(g, v, n - 1))
  }

  ghost function ReachedThrough(g: Graph, v: Option<nat>): set<nat>
    requires g.Valid() && (v.Some? ==> v.value < |g.vers|)
  {
    if v.None? then {} else ReachedBy(g, v.value, |g.vers[v.value].providesList|)
  }

  /** A walk over all three lists reaches exactly the covered dependencies. */
  lemma WalkedIsCovered(g: Graph, p: nat, cand: Option<nat>)
    requires g.Valid() && p < |g.pkgs| && g.OwnVersion(p, cand)
    ensures g.OwnVersion(p, g.pkgs[p].currentVer)
    ensures Entries(g.pkgs[p].revDepends) + ReachedThrough(g, g.pkgs[p].currentVer) + ReachedThrough(g, cand)
         == CoveredSet(g, p, cand)
  {
    assert g.ValidPackage(p);
    ReachedMeans(g, g.pkgs[p].currentVer);
    ReachedMeans(g, cand);
    hide ReachedThrough, CoveredBy;
  }

  lemma ReachedMeans(g: Graph, v: Option<nat>)
    requires g.Valid() && (v.Some? ==> v.value < |g.vers|)
    ensures forall d :: d in ReachedThrough(g, v) <==> CoveredBy(g, v, d)
    ensures forall d :: d in ReachedThrough(g, v) ==> 0 <= d < |g.deps|
  {
    if v.Some? {
      assert g.ValidVersion(v.value);
      var l := g.vers[v.value].providesList;
      forall j | 0 <= j < |l|
        ensures forall d :: d in RevDependsOfProvides(g, v.value, j) <==> ReachedByPrv(g, l[j], d)
      {
      }
    }
  }

  /** Of the dependencies in `pend` those not in `walked` may still be out of date; others were left alone. */
  ghost predicate Walked(g: Graph, base: seq<PkgState>, ps: seq<PkgState>, ds: seq<Byte>, ds': seq<Byte>, tally: Tally,
                         pend: set<nat>, walked: set<nat>)
  {
    Repairing(g, base, ps, ds', tally, pend - walked, {}) && LowKept(g, ds, ds', walked)
  }

  lemma WalkStarts(g: Graph, base: seq<PkgState>, ps: seq<PkgState>, ds: seq<Byte>, tally: Tally, pend: set<nat>)
    requires Repairing(g, base, ps, ds, tally, pend, {})
    ensures Walked(g, base, ps, ds, ds, tally, pend, {}) && g.Valid()
  {
    assert pend - {} == pend;
    assert |ds| == |g.deps|;
    NothingWalked(g, ds);
    hide Repairing, LowKept;
  }

  lemma WalkFrom(g: Graph, base: seq<PkgState>, ps: seq<PkgState>, ds: seq<Byte>, ds': seq<Byte>, tally: Tally,
                 pend: set<nat>, walked: set<nat>)
    requires Repairing(g, base, ps, ds', tally, pend - walked, {}) && LowKept(g, ds, ds', walked)
    ensures Walked(g, base, ps, ds, ds', tally, pend, walked)
  {
  }

  lemma WalkParts(g: Graph, base: seq<PkgState>, ps: seq<PkgState>, ds: seq<Byte>, ds': seq<Byte>, tally: Tally,
                  pend: set<nat>, walked: set<nat>)
    requires Walked(g, base, ps, ds, ds', tally, pend, walked)
    ensures Repairing(g, base, ps, ds', tally, pend - walked, {}) && LowKept(g, ds, ds', walked)
  {
  }

  lemma WalkGoesOn(g: Graph, base: seq<PkgState>, ps: seq<PkgState>, ds: seq<Byte>, ds': seq<Byte>, ds'': seq<Byte>,
                   tally: Tally,
                   pend: set<nat>, walked: set<nat>, more: set<nat>)
    requires LowKept(g, ds, ds', walked) && LowKept(g, ds', ds'', more)
    requires Repairing(g, base, ps, ds'', tally, (pend - walked) - more, {})
    ensures Walked(g, base, ps, ds, ds'', tally, pend, walked + more)
  {
    WalkedOn(g, ds, ds', ds'', walked, more);
    assert (pend - walked) - more == pend - (walked + more);
    hide Repairing, LowKept;
  }

  lemma NothingReached(g: Graph, v: nat)
    requires g.Valid() && v < |g.vers|
    ensures ReachedBy(g, v, 0) == {}
    ensures ReachedThrough(g, Some(v)) == ReachedBy(g, v, |g.vers[v].providesList|)
  {
  }

  lemma NoVersionNothingReached(g: Graph, v: Option<nat>)
    requires g.Valid() && (v.Some? ==> v.value < |g.vers|)
    ensures v.None? ==> ReachedThrough(g, v) == {}
    ensures v.Some? ==> v == Some(v.value)
  {
  }

  lemma MoreReached(g: Graph, v: nat, i: nat)
    requires g.Valid() && v < |g.vers| && i < |g.vers[v].providesList|
    ensures ReachedBy(g, v, i + 1) == ReachedBy(g, v, i) + Entries(RevDependsOfProvides(g, v, i))
  {
  }

  /** What the walk may rely on when it begins. */
  lemma UpdateFacts(g: Graph, base: seq<PkgState>, ps: seq<PkgState>, ds: seq<Byte>, tally: Tally, pend: set<nat>,
                    p: nat)
    requires Repairing(g, base, ps, ds, tally, pend, {p}) && p < |g.pkgs|
    ensures g.Valid() && ValidStates(g, ps) && |base| == |ps| == |g.pkgs| && |ds| == |g.deps|
    ensures tally == Total(StateContribs(g, ps))
    ensures g.ValidPackage(p) && g.OwnVersion(p, ps[p].candidateVer) && ps[p].candidateVer == base[p].candidateVer
    ensures g.pkgs[p].currentVer.Some? ==> g.pkgs[p].currentVer.value < |g.vers|
    ensures ps[p].candidateVer.Some? ==> ps[p].candidateVer.value < |g.vers|
    ensures forall i :: 0 <= i < |g.pkgs[p].revDepends| ==> g.pkgs[p].revDepends[i] < |g.deps|
  {
    assert g.ValidPackage(p) && g.OwnVersion(p, ps[p].candidateVer);
  }

  lemma SameSelectionSameLow(g: Graph, ps: seq<PkgState>, ps': seq<PkgState>, ds: seq<Byte>, d: nat)
    requires ValidStates(g, ps) && ValidStates(g, ps') && SameSelection(ps, ps')
    requires |ds| == |g.deps| && d < |ds| && LowOk(g, ps, ds, d)
    ensures LowOk(g, ps', ds, d)
  {
    SameSelectionSameRaw(g, ps, ps', d);
  }

  // ---------- What the full pass computes ----------

  /** The byte a full recomputation gives dependency d. */
  ghost function FullByte(g: Graph, raw: seq<Bits>, d: nat): Byte
    requires g.Valid() && |raw| == |g.deps| && d < |raw|
  {
    assert g.ValidDependency(d) && g.ValidVersion(g.deps[d].parentVer);
    CanonByte(g, raw, g.deps[d].parentVer, g.deps[d].pos)
  }

  /** The bytes of the versions of the first n packages are those of a full recomputation. */
  ghost predicate BytesDone(g: Graph, raw: seq<Bits>, ds: seq<Byte>, n: nat)
    requires g.Valid() && |raw| == |ds| == |g.deps|
  {
    forall d :: 0 <= d < |ds| && g.ParentPkg(d) < n ==> ds[d] == FullByte(g, raw, d)
  }

  ghost predicate SummariesDone(g: Graph, ps: seq<PkgState>, ds: seq<Byte>, n: nat)
    requires ValidStates(g, ps) && |ds| == |g.deps| && n <= |ps|
  {
    forall p :: 0 <= p < n ==> SummaryOk(g, ps, ds, p)
  }

  ghost predicate SumsDone(g: Graph, base: seq<PkgState>, ps: seq<PkgState>, tally: Tally, sizes: Sizes, n: nat)
    requires ValidStates(g, base) && ValidStates(g, ps) && n <= |ps|
  {
    tally == Total(StateContribs(g, ps)[..n]) && sizes == TotalSizes(SizeContribs(g, base)[..n])
  }

  /** The first n packages, their versions' bytes and their share of the counters are done. */
  ghost predicate FullyComputed(g: Graph, base: seq<PkgState>, ps: seq<PkgState>, ds: seq<Byte>,
                                tally: Tally, sizes: Sizes, n: nat)
  {
    && ValidStates(g, base) && ValidStates(g, ps) && OnlySummaries(base, ps)
    && |ds| == |g.deps| && n <= |ps|
    && BytesDone(g, RawsChecked(g, base), ds, n)
    && SummariesDone(g, ps, ds, n)
    && SumsDone(g, base, ps, tally, sizes, n)
  }

  ghost predicate VersionsChecked(g: Graph, raw: seq<Bits>, ds: seq<Byte>, ds': seq<Byte>, p: nat, n: nat)
    requires g.Valid() && |raw| == |ds| == |g.deps| && p < |g.pkgs|
  {
    && |ds'| == |ds| && n <= |g.pkgs[p].versions|
    && (forall d :: 0 <= d < |ds| && g.ParentPkg(d) != p ==> ds'[d] == ds[d])
    && (forall d :: 0 <= d < |ds| && g.ParentPkg(d) == p && g.deps[d].parentVer in g.pkgs[p].versions[..n] ==>
          ds'[d] == FullByte(g, raw, d))
  }

  lemma VersionChecked(g: Graph, raw: seq<Bits>, ds: seq<Byte>, before: seq<Byte>, after: seq<Byte>, p: nat, n: nat)
    requires g.Valid() && |raw| == |ds| == |g.deps| && p < |g.pkgs| && g.ValidPackage(p) && n < |g.pkgs[p].versions|
    requires VersionsChecked(g, raw, ds, before, p, n)
    requires var v := g.pkgs[p].versions[n];
      Rebuilt(g, raw, before, after, v, |g.vers[v].depends|)
    ensures VersionsChecked(g, raw, ds, after, p, n + 1)
  {
    var v := g.pkgs[p].versions[n];
    assert g.pkgs[p].versions[..n + 1] == g.pkgs[p].versions[..n] + [v];
    forall d | 0 <= d < |ds| && g.deps[d].parentVer == v ensures g.deps[d].pos < |g.vers[v].depends| {
      assert g.ValidDependency(d);
    }
  }

  /** The three checks read nothing a full pass changes. */
  lemma SameChoiceSameRaws(g: Graph, base: seq<PkgState>, ps: seq<PkgState>)
    requires ValidStates(g, base) && ValidStates(g, ps) && OnlySummaries(base, ps)
    ensures RawsChecked(g, base) == RawsChecked(g, ps)
  {
    forall d | 0 <= d < |g.deps| ensures RawState(g, base, d) == RawState(g, ps, d) {
      assert g.ValidDependency(d) && g.ValidPackage(g.deps[d].target);
      var l := g.pkgs[g.deps[d].target].providesList;
      assert forall k, ty :: 0 <= k < |l| ==> (PrvHit(g, base, d, l[k], ty) <==> PrvHit(g, ps, d, l[k], ty));
    }
  }

  lemma NothingComputed(g: Graph, base: seq<PkgState>, ds: seq<Byte>)
    requires ValidStates(g, base) && |ds| == |g.deps|
    ensures FullyComputed(g, base, base, ds, Tally(0, 0, 0, 0, 0, 0, 0), Sizes(0, 0), 0)
  {
  }

  /** What the pass relies on before it turns to package p. */
  lemma PassFacts(g: Graph, base: seq<PkgState>, ps: seq<PkgState>, ds: seq<Byte>, t: Tally, z: Sizes, p: nat)
    requires FullyComputed(g, base, ps, ds, t, z, p) && p < |g.pkgs|
    ensures ValidStates(g, base) && ValidStates(g, ps) && RawsChecked(g, base) == RawsChecked(g, ps)
    ensures g.OwnVersion(p, ps[p].installVer) && ValidStates(g, ps) && |ps| == |g.pkgs| && |ds| == |g.deps|
    ensures SizeContrib(g, p, ps[p]) == SizeContribs(g, base)[p]
  {
    SameChoiceSameRaws(g, base, ps);
    SummariesKeepSizes(g, base, ps);
  }

  lemma PackageComputed(g: Graph, base: seq<PkgState>, ps: seq<PkgState>, ps': seq<PkgState>, ds: seq<Byte>,
                        ds': seq<Byte>,
                        t: Tally, z: Sizes, p: nat, b: Summary)
    requires p < |g.pkgs| && FullyComputed(g, base, ps, ds, t, z, p)
    requires VersionsChecked(g, RawsChecked(g, base), ds, ds', p, |g.pkgs[p].versions|)
    requires ps' == ps[p := ps[p].(depState := b)] && ValidStates(g, ps') && SummaryOk(g, ps', ds', p)
    ensures FullyComputed(g, base, ps', ds', t.Plus(StateContrib(g, p, ps'[p])), z.Plus(SizeContribs(g, base)[p]),
      p + 1)
  {
    hide BytesDone, SummariesDone, SumsDone, SummaryOk, StateContrib, SizeContrib, VersionsChecked, RawsChecked, Total,
      TotalSizes;
    PackageBytes(g, RawsChecked(g, base), ds, ds', p);
    PackageSums(g, base, ps, ps', t, z, p, b);
    PackageSummaries(g, ps, ps', ds, ds', p, b);
  }

  lemma PackageBytes(g: Graph, raw: seq<Bits>, ds: seq<Byte>, ds': seq<Byte>, p: nat)
    requires g.Valid() && |raw| == |ds| == |g.deps| && p < |g.pkgs|
    requires BytesDone(g, raw, ds, p) && VersionsChecked(g, raw, ds, ds', p, |g.pkgs[p].versions|)
    ensures |ds'| == |ds| && BytesDone(g, raw, ds', p + 1)
    ensures forall d :: 0 <= d < |ds| && g.ParentPkg(d) != p ==> ds'[d] == ds[d]
  {
    hide FullByte;
    forall d | 0 <= d < |ds'| && g.ParentPkg(d) == p ensures ds'[d] == FullByte(g, raw, d) {
      assert g.ValidDependency(d) && g.ValidVersion(g.deps[d].parentVer);
      assert g.pkgs[p].versions[..|g.pkgs[p].versions|] == g.pkgs[p].versions;
    }
  }

  lemma PackageSums(g: Graph, base: seq<PkgState>, ps: seq<PkgState>, ps': seq<PkgState>, t: Tally, z: Sizes, p: nat,
                    b: Summary)
    requires ValidStates(g, base) && ValidStates(g, ps) && ValidStates(g, ps') && p < |g.pkgs|
    requires ps' == ps[p := ps[p].(depState := b)] && SumsDone(g, base, ps, t, z, p)
    ensures SumsDone(g, base, ps', t.Plus(StateContrib(g, p, ps'[p])), z.Plus(SizeContribs(g, base)[p]), p + 1)
  {
    hide StateContrib, SizeContrib;
    TotalNext(StateContribs(g, ps), StateContribs(g, ps'), SizeContribs(g, base), p);
  }

  lemma TotalNext(c: seq<Tally>, c': seq<Tally>, z: seq<Sizes>, p: nat)
    requires p < |c| == |c'| == |z| && (forall q :: 0 <= q < |c| && q != p ==> c[q] == c'[q])
    ensures Total(c'[..p + 1]) == Total(c[..p]).Plus(c'[p])
    ensures TotalSizes(z[..p + 1]) == TotalSizes(z[..p]).Plus(z[p])
  {
    assert c'[..p + 1][..p] == c[..p] && z[..p + 1][..p] == z[..p];
  }

  lemma PackageSummaries(g: Graph, ps: seq<PkgState>, ps': seq<PkgState>, ds: seq<Byte>, ds': seq<Byte>, p: nat,
                         b: Summary)
    requires ValidStates(g, ps) && ValidStates(g, ps') && |ds| == |ds'| == |g.deps| && p < |ps|
    requires ps' == ps[p := ps[p].(depState := b)] && SummaryOk(g, ps', ds', p)
    requires forall d :: 0 <= d < |ds| && g.ParentPkg(d) != p ==> ds'[d] == ds[d]
    requires SummariesDone(g, ps, ds, p)
    ensures SummariesDone(g, ps', ds', p + 1)
  {
    hide SummaryOk;
    forall q | 0 <= q < p ensures SummaryOk(g, ps', ds', q) {
      SameBytesSameSummary(g, ps, ps', ds, ds', q);
    }
  }

  // ---------- Changing one package ----------

  /** The new record names versions of the package itself. */
  ghost predicate OwnChoice(g: Graph, p: nat, next: PkgState) {
    p < |g.pkgs| && g.OwnVersion(p, next.candidateVer) && g.OwnVersion(p, next.installVer)
  }

  /** The new record is in order and its choice is one the walk over reverse dependencies covers. */
  ghost predicate MayChoose(g: Graph, ps: seq<PkgState>, p: nat, next: PkgState)
    requires |ps| == |g.pkgs|
  {
    && OwnChoice(g, p, next)
    && ModeOk(g, p, next)
    && ps[p].installVer in {None, g.pkgs[p].currentVer, next.candidateVer}
  }

  ghost function CoveredSet(g: Graph, p: nat, cand: Option<nat>): set<nat>
    requires g.Valid() && p < |g.pkgs| && g.OwnVersion(p, cand)
  {
    set d | 0 <= d < |g.deps| && Covered(g, p, cand, d)
  }

  /** The choice changes the result of d, and the walk does not come by. */
  ghost predicate Overlooked(g: Graph, ps: seq<PkgState>, p: nat, next: PkgState, d: nat)
    requires ValidStates(g, ps) && OwnChoice(g, p, next) && d < |g.deps|
  {
    && !Covered(g, p, next.candidateVer, d)
    && DepHit(g, ps, d, InstallVersion) != DepHit(g, ps[p := next], d, InstallVersion)
  }

  ghost function OverlookedSet(g: Graph, ps: seq<PkgState>, p: nat, next: PkgState): set<nat>
    requires ValidStates(g, ps) && OwnChoice(g, p, next)
  {
    set d | 0 <= d < |g.deps| && Overlooked(g, ps, p, next, d)
  }

  /** The choice leaves a consistent cache behind. */
  ghost predicate ChoiceFits(g: Graph, ps: seq<PkgState>, p: nat, next: PkgState) {
    && ValidStates(g, ps) && OwnChoice(g, p, next)
    && ModeOk(g, p, next)
    && forall d :: 0 <= d < |g.deps| ==> !Overlooked(g, ps, p, next, d)
  }

  lemma MayChooseFits(g: Graph, ps: seq<PkgState>, p: nat, next: PkgState)
    requires ValidStates(g, ps) && MayChoose(g, ps, p, next)
    ensures OwnChoice(g, p, next) && ChoiceFits(g, ps, p, next)
  {
    ChoiceInstalls(g, p, next);
    hide Covered, DepHit, RawState;
    forall d | 0 <= d < |g.deps| ensures !Overlooked(g, ps, p, next, d) {
      if !Covered(g, p, next.candidateVer, d) {
        UpdateCoverage(g, ps, ps[p := next], p, next.candidateVer, d);
      }
    }
  }

  lemma StillShaped(g: Graph, ps: seq<PkgState>, p: nat, next: PkgState)
    requires ValidStates(g, ps) && OwnChoice(g, p, next)
    ensures ValidStates(g, ps[p := next])
  {
  }

  lemma ChooseFacts(g: Graph, s: CacheState, p: nat, next: PkgState)
    requires Consistent(g, s) && OwnChoice(g, p, next)
    ensures ValidStates(g, s.ps) && |s.ps| == |g.pkgs| && |s.ds| == |g.deps| && ValidStates(g, s.ps[p := next])
    ensures g.OwnVersion(p, s.ps[p].installVer) && g.OwnVersion(p, next.candidateVer)
    ensures s.tally.AtLeast(StateContrib(g, p, s.ps[p]))
    ensures s.sizes.download >= SizeContrib(g, p, s.ps[p]).download
  {
    hide StateContrib, SizeContrib;
    TotalAtLeast(StateContribs(g, s.ps), p);
    TotalSizesUpdate(SizeContribs(g, s.ps), p, Sizes(0, 0));
  }

  /** Out of date once the choice is made: what the walk will reach, and what it overlooks. */
  ghost function OutOfDate(g: Graph, ps: seq<PkgState>, p: nat, next: PkgState): set<nat>
    requires ValidStates(g, ps) && OwnChoice(g, p, next)
  {
    CoveredSet(g, p, next.candidateVer) + OverlookedSet(g, ps, p, next)
  }

  lemma ChoiceMade(g: Graph, s: CacheState, p: nat, next: PkgState, rest: Tally)
    requires Consistent(g, s) && OwnChoice(g, p, next)
    requires rest.Plus(StateContrib(g, p, s.ps[p])) == s.tally
    ensures Repairing(g, s.ps[p := next], s.ps[p := next], s.ds, rest.Plus(StateContrib(g, p, next)),
                      OutOfDate(g, s.ps, p, next), {p})
  {
    var ps' := s.ps[p := next];
    StillShaped(g, s.ps, p, next);
    Ledger(g, s.ps, p, next, rest);
    OthersKeepSummaries(g, s.ps, ps', s.ds, p);
    UncoveredKeepLow(g, s.ps, ps', s.ds, p, next);
    MakeRepairing(g, ps', ps', s.ds, OutOfDate(g, s.ps, p, next), {p});
  }

  lemma OthersKeepSummaries(g: Graph, ps: seq<PkgState>, ps': seq<PkgState>, ds: seq<Byte>, p: nat)
    requires ValidStates(g, ps) && ValidStates(g, ps') && |ps| == |ps'| && |ds| == |g.deps|
    requires forall q :: 0 <= q < |ps| && q != p ==> ps[q] == ps'[q]
    requires forall q :: 0 <= q < |ps| ==> SummaryOk(g, ps, ds, q)
    ensures forall q :: 0 <= q < |ps| && q != p ==> SummaryOk(g, ps', ds, q)
  {
    hide SummaryOk;
    forall q | 0 <= q < |ps| && q != p ensures SummaryOk(g, ps', ds, q) {
      SameBytesSameSummary(g, ps, ps', ds, ds, q);
    }
  }

  lemma UncoveredKeepLow(g: Graph, ps: seq<PkgState>, ps': seq<PkgState>, ds: seq<Byte>, p: nat, next: PkgState)
    requires ValidStates(g, ps) && ValidStates(g, ps') && OwnChoice(g, p, next) && ps' == ps[p := next]
    requires |ds| == |g.deps|
    requires forall d :: 0 <= d < |ds| ==> LowOk(g, ps, ds, d)
    ensures forall d :: 0 <= d < |ds| && d !in OutOfDate(g, ps, p, next) ==> LowOk(g, ps', ds, d)
  {
    hide DepHit, Covered;
    forall d | 0 <= d < |ds| && d !in OutOfDate(g, ps, p, next) ensures LowOk(g, ps', ds, d) {
      NowStays(g, ps, ps', d);
      assert LowOk(g, ps, ds, d) && !Overlooked(g, ps, p, next, d) && !Covered(g, p, next.candidateVer, d);
    }
  }

  /** What is installed now does not depend on what is selected. */
  lemma NowStays(g: Graph, ps: seq<PkgState>, ps': seq<PkgState>, d: nat)
    requires ValidStates(g, ps) && ValidStates(g, ps') && d < |g.deps|
    ensures DepHit(g, ps, d, NowVersion) == DepHit(g, ps', d, NowVersion)
  {
    assert g.ValidDependency(d) && g.ValidPackage(g.deps[d].target);
    var l := g.pkgs[g.deps[d].target].providesList;
    assert forall k :: 0 <= k < |l| ==> (PrvHit(g, ps, d, l[k], NowVersion) <==> PrvHit(g, ps', d, l[k], NowVersion));
  }

  lemma ChoiceInstalls(g: Graph, p: nat, st: PkgState)
    requires p < |g.pkgs| && ModeOk(g, p, st)
    ensures st.installVer in {None, g.pkgs[p].currentVer, st.candidateVer}
  {
  }

  lemma ChoiceRepaired(g: Graph, s: CacheState, p: nat, next: PkgState, ps: seq<PkgState>, ds: seq<Byte>,
                       tally: Tally, rest: Sizes)
    requires Consistent(g, s) && OwnChoice(g, p, next)
    requires rest.Plus(SizeContrib(g, p, s.ps[p])) == s.sizes
    requires Repairing(g, s.ps[p := next], ps, ds, tally,
      OutOfDate(g, s.ps, p, next) - CoveredSet(g, p, next.candidateVer), {})
    requires LowKept(g, s.ds, ds, CoveredSet(g, p, next.candidateVer))
    ensures ValidStates(g, ps) && |ps| == |g.pkgs| && |ds| == |g.deps| && g.OwnVersion(p, ps[p].installVer)
    ensures Consistent(g, CacheState(ps, ds, tally, rest.Plus(SizeContrib(g, p, ps[p])))) <==>
      ChoiceFits(g, s.ps, p, next)
    ensures OnlySummaries(s.ps[p := next], ps)
  {
    var pend := OutOfDate(g, s.ps, p, next) - CoveredSet(g, p, next.candidateVer);
    ConsistentParts(g, s);
    hide *;
    ChosenSizes(g, s.ps, ps, p, next, rest);
    RepairedParts(g, s.ps[p := next], ps, ds, tally, pend);
    ChosenModes(g, s.ps, ps, p, next);
    OverlookedStale(g, s.ps, s.ds, ps, ds, p, next, pend);
    Assembled(g, ps, ds, tally, rest.Plus(SizeContrib(g, p, ps[p])));
  }

  /** After the walk exactly the overlooked dependencies are out of date. */
  lemma OverlookedStale(g: Graph, ps: seq<PkgState>, ds: seq<Byte>, ps': seq<PkgState>, ds': seq<Byte>, p: nat,
                        next: PkgState,
                        pend: set<nat>)
    requires ValidStates(g, ps) && ValidStates(g, ps') && OwnChoice(g, p, next) && OnlySummaries(ps[p := next], ps')
    requires LowKept(g, ds, ds', CoveredSet(g, p, next.candidateVer))
    requires forall d :: 0 <= d < |ds| ==> LowOk(g, ps, ds, d)
    requires pend == OutOfDate(g, ps, p, next) - CoveredSet(g, p, next.candidateVer)
    requires forall d :: 0 <= d < |ds'| && d !in pend ==> LowOk(g, ps', ds', d)
    ensures |ds| == |ds'| == |g.deps|
    ensures forall d :: 0 <= d < |ds'| ==> (LowOk(g, ps', ds', d) <==> !Overlooked(g, ps, p, next, d))
    ensures ChoiceFits(g, ps, p, next) <==> ModeOk(g, p, next) && forall d :: 0 <= d < |ds'| ==> LowOk(g, ps', ds', d)
  {
    hide DepHit, Covered;
    StillShaped(g, ps, p, next);
    forall d | 0 <= d < |ds'| && Overlooked(g, ps, p, next, d) ensures !LowOk(g, ps', ds', d) {
      SameSelectionSameRaw(g, ps[p := next], ps', d);
      assert LowOk(g, ps, ds, d) && d !in CoveredSet(g, p, next.candidateVer);
      assert RawOf(ds'[d], g.IsNegative(d)) == RawOf(ds[d], g.IsNegative(d));
    }
  }

  lemma ChosenModes(g: Graph, ps: seq<PkgState>, ps': seq<PkgState>, p: nat, next: PkgState)
    requires ValidStates(g, ps) && OwnChoice(g, p, next) && OnlySummaries(ps[p := next], ps')
    requires forall q :: 0 <= q < |ps| ==> ModeOk(g, q, ps[q])
    ensures |ps'| == |g.pkgs|
    ensures ModeOk(g, p, next) <==> forall q :: 0 <= q < |ps'| ==> ModeOk(g, q, ps'[q])
  {
    forall q | 0 <= q < |ps'| ensures ModeOk(g, q, ps'[q]) <==> ModeOk(g, q, ps[p := next][q]) {
      assert ps'[q] == ps[p := next][q].(depState := ps'[q].depState);
    }
    assert ModeOk(g, p, next) <==> ModeOk(g, p, ps'[p]);
  }

  lemma ChosenSizes(g: Graph, ps: seq<PkgState>, ps': seq<PkgState>, p: nat, next: PkgState, rest: Sizes)
    requires ValidStates(g, ps) && OwnChoice(g, p, next) && OnlySummaries(ps[p := next], ps')
    requires rest.Plus(SizeContrib(g, p, ps[p])) == TotalSizes(SizeContribs(g, ps))
    ensures ValidStates(g, ps') && g.OwnVersion(p, ps'[p].installVer)
    ensures rest.Plus(SizeContrib(g, p, ps'[p])) == TotalSizes(SizeContribs(g, ps'))
  {
    StillShaped(g, ps, p, next);
    SizeLedger(g, ps, p, next, rest);
    SummariesKeepSizes(g, ps[p := next], ps');
    assert SizeContribs(g, ps')[p] == SizeContrib(g, p, ps'[p]) &&
      SizeContribs(g, ps[p := next])[p] == SizeContrib(g, p, next);
  }

  lemma RepairedParts(g: Graph, base: seq<PkgState>, ps: seq<PkgState>, ds: seq<Byte>, tally: Tally, pend: set<nat>)
    requires Repairing(g, base, ps, ds, tally, pend, {})
    ensures ValidStates(g, ps) && |ps| == |g.pkgs| && |ds| == |g.deps| && OnlySummaries(base, ps)
    ensures forall v :: 0 <= v < |g.vers| ==> Canonical(g, ds, v)
    ensures forall d :: 0 <= d < |ds| && d !in pend ==> LowOk(g, ps, ds, d)
    ensures forall p :: 0 <= p < |ps| ==> SummaryOk(g, ps, ds, p)
    ensures tally == Total(StateContribs(g, ps))
  {
    hide Canonical, LowOk, SummaryOk, Total, StateContribs;
  }

  lemma Assembled(g: Graph, ps: seq<PkgState>, ds: seq<Byte>, tally: Tally, sizes: Sizes)
    requires ValidStates(g, ps) && |ps| == |g.pkgs| && |ds| == |g.deps|
    requires forall v :: 0 <= v < |g.vers| ==> Canonical(g, ds, v)
    requires forall p :: 0 <= p < |ps| ==> SummaryOk(g, ps, ds, p)
    requires tally == Total(StateContribs(g, ps)) && sizes == TotalSizes(SizeContribs(g, ps))
    ensures Consistent(g, CacheState(ps, ds, tally, sizes))
       <==> (forall p :: 0 <= p < |ps| ==> ModeOk(g, p, ps[p])) && (forall d :: 0 <= d < |ds| ==> LowOk(g, ps, ds, d))
  {
    hide Canonical, LowOk, SummaryOk, ValidStates, Total, StateContribs, ModeOk, SizeContribs, TotalSizes;
  }

  /** next selects the same version and adds the same to every total as st. */
  ghost predicate Quiet(g: Graph, p: nat, st: PkgState, next: PkgState) {
    && g.Valid() && p < |g.pkgs|
    && next.depState == st.depState && next.installVer == st.installVer
    && g.OwnVersion(p, next.candidateVer) && g.OwnVersion(p, next.installVer) && ModeOk(g, p, next)
    && StateContrib(g, p, next) == StateContrib(g, p, st)
    && SizeContrib(g, p, next) == SizeContrib(g, p, st)
  }

  lemma QuietChange(g: Graph, s: CacheState, p: nat, next: PkgState)
    requires Consistent(g, s) && p < |s.ps| && Quiet(g, p, s.ps[p], next)
    ensures Consistent(g, s.(ps := s.ps[p := next]))
  {
    QuietShape(g, s.ps, p, next);
    SameDerived(g, s.ps, s.ps[p := next], s.ds);
    QuietModes(g, s.ps, s.ps[p := next], p);
    hide LowOk, SummaryOk, Canonical, ValidStates, ModeOk, StateContribs, SizeContribs, Quiet;
  }

  lemma QuietModes(g: Graph, ps: seq<PkgState>, ps': seq<PkgState>, p: nat)
    requires |ps| == |ps'| == |g.pkgs| && p < |ps| && ModeOk(g, p, ps'[p])
    requires forall q :: 0 <= q < |ps| && q != p ==> ps'[q] == ps[q]
    requires forall q :: 0 <= q < |ps| ==> ModeOk(g, q, ps[q])
    ensures forall q :: 0 <= q < |ps| ==> ModeOk(g, q, ps'[q])
  {
  }

  lemma SameDerived(g: Graph, ps: seq<PkgState>, ps': seq<PkgState>, ds: seq<Byte>)
    requires ValidStates(g, ps) && ValidStates(g, ps') && |ds| == |g.deps| && |ps| == |ps'|
    requires forall q :: 0 <= q < |ps| ==> ps[q].installVer == ps'[q].installVer && ps[q].depState == ps'[q].depState
    requires forall d :: 0 <= d < |ds| ==> LowOk(g, ps, ds, d)
    requires forall q :: 0 <= q < |ps| ==> SummaryOk(g, ps, ds, q)
    ensures forall d :: 0 <= d < |ds| ==> LowOk(g, ps', ds, d)
    ensures forall q :: 0 <= q < |ps| ==> SummaryOk(g, ps', ds, q)
  {
    hide LowOk, SummaryOk;
    forall d | 0 <= d < |ds| ensures LowOk(g, ps', ds, d) { SameSelectionSameLow(g, ps, ps', ds, d); }
    forall q | 0 <= q < |ps| ensures SummaryOk(g, ps', ds, q) { SameBytesSameSummary(g, ps, ps', ds, ds, q); }
  }

  lemma QuietShape(g: Graph, ps: seq<PkgState>, p: nat, next: PkgState)
    requires ValidStates(g, ps) && p < |ps| && Quiet(g, p, ps[p], next)
    ensures ValidStates(g, ps[p := next])
    ensures StateContribs(g, ps[p := next]) == StateContribs(g, ps)
    ensures SizeContribs(g, ps[p := next]) == SizeContribs(g, ps)
  {
    ContribsUpdate(g, ps, p, next);
    SizesUpdate(g, ps, p, next);
  }

  // ---------- Counting one package anew ----------

  /** next selects the same version; what it adds to the totals may differ. */
  ghost predicate SameChoice(g: Graph, p: nat, st: PkgState, next: PkgState) {
    && g.Valid() && p < |g.pkgs|
    && next.depState == st.depState && next.installVer == st.installVer
    && g.OwnVersion(p, next.candidateVer) && g.OwnVersion(p, next.installVer) && ModeOk(g, p, next)
  }

  lemma RecountFacts(g: Graph, s: CacheState, p: nat, next: PkgState)
    requires Consistent(g, s) && p < |s.ps| && SameChoice(g, p, s.ps[p], next)
    ensures ValidStates(g, s.ps) && |s.ps| == |g.pkgs| && |s.ds| == |g.deps| && ValidStates(g, s.ps[p := next])
    ensures g.OwnVersion(p, s.ps[p].installVer) && g.OwnVersion(p, next.installVer)
    ensures s.tally.AtLeast(StateContrib(g, p, s.ps[p]))
    ensures s.sizes.download >= SizeContrib(g, p, s.ps[p]).download
    ensures StateContribs(g, s.ps)[p] == StateContrib(g, p, s.ps[p])
    ensures SizeContribs(g, s.ps)[p] == SizeContrib(g, p, s.ps[p])
  {
    hide StateContrib, SizeContrib;
    TotalAtLeast(StateContribs(g, s.ps), p);
    TotalSizesUpdate(SizeContribs(g, s.ps), p, Sizes(0, 0));
  }

  lemma Recounted(g: Graph, s: CacheState, p: nat, next: PkgState, restTally: Tally, restSizes: Sizes)
    requires Consistent(g, s) && p < |s.ps| && SameChoice(g, p, s.ps[p], next)
    requires restTally.Plus(StateContrib(g, p, s.ps[p])) == s.tally
    requires restSizes.Plus(SizeContrib(g, p, s.ps[p])) == s.sizes
    ensures Consistent(g, CacheState(s.ps[p := next], s.ds, restTally.Plus(StateContrib(g, p, next)),
                                     restSizes.Plus(SizeContrib(g, p, next))))
  {
    var ps' := s.ps[p := next];
    RecountFacts(g, s, p, next);
    ConsistentParts(g, s);
    hide *;
    Ledger(g, s.ps, p, next, restTally);
    SizeLedger(g, s.ps, p, next, restSizes);
    RecountedDerived(g, s.ps, ps', s.ds, p, next);
    Assembled(g, ps', s.ds, restTally.Plus(StateContrib(g, p, next)), restSizes.Plus(SizeContrib(g, p, next)));
  }

  lemma RecountedDerived(g: Graph, ps: seq<PkgState>, ps': seq<PkgState>, ds: seq<Byte>, p: nat, next: PkgState)
    requires ValidStates(g, ps) && ValidStates(g, ps') && |ps| == |g.pkgs| && |ds| == |g.deps|
    requires p < |ps| && ps' == ps[p := next] && SameChoice(g, p, ps[p], next)
    requires forall d :: 0 <= d < |ds| ==> LowOk(g, ps, ds, d)
    requires forall q :: 0 <= q < |ps| ==> SummaryOk(g, ps, ds, q)
    requires forall q :: 0 <= q < |ps| ==> ModeOk(g, q, ps[q])
    ensures forall d :: 0 <= d < |ds| ==> LowOk(g, ps', ds, d)
    ensures forall q :: 0 <= q < |ps| ==> SummaryOk(g, ps', ds, q)
    ensures forall q :: 0 <= q < |ps| ==> ModeOk(g, q, ps'[q])
  {
    hide LowOk, SummaryOk, ModeOk;
    SameDerived(g, ps, ps', ds);
    QuietModes(g, ps, ps', p);
  }

  lemma ConsistentParts(g: Graph, s: CacheState)
    requires Consistent(g, s)
    ensures ValidStates(g, s.ps) && |s.ps| == |g.pkgs| && |s.ds| == |g.deps|
    ensures forall p :: 0 <= p < |s.ps| ==> ModeOk(g, p, s.ps[p])
    ensures forall v :: 0 <= v < |g.vers| ==> Canonical(g, s.ds, v)
    ensures forall d :: 0 <= d < |s.ds| ==> LowOk(g, s.ps, s.ds, d)
    ensures forall p :: 0 <= p < |s.ps| ==> SummaryOk(g, s.ps, s.ds, p)
    ensures s.tally == Total(StateContribs(g, s.ps)) && s.sizes == TotalSizes(SizeContribs(g, s.ps))
  {
    hide Canonical, LowOk, SummaryOk, Total, ModeOk, TotalSizes, StateContrib, SizeContrib;
  }
}
