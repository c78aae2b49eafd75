/**
  The dependency cache: the per-package and per-dependency records that every
  mark operation repairs in place, and the full pass that recomputes them.
*/
module DependencyCache {
  import opened Wrappers
  import opened DepGraph
  import opened DepBytes
  import opened DepSpec
  import opened DepLemmas
  import opened DepRepair
  import opened DepCheck
  import opened DepMarks
  import opened DepMeaning
  import opened DepTerms
  import opened DepCandidate
  import opened AutoremoveSpec
  import opened AutoremoveWalk
  import opened Autoremove

  const ZERO_RECORD := PkgState(None, None, false, false, false, false, false, 0, ModeDelete, ZERO_SUMMARY)

  class DepCache {
    const g: Graph
    var pkgState: array<PkgState>
    var depState: array<Byte>
    /** The seven counters and the two size totals. */
    var tally: Tally
    var sizes: Sizes
    /** The Marked and Garbage fields of the package records, and which providers marking follows. */
    var marked: array<bool>
    var garbage: array<bool>
    const keep: ProviderFilter
    /** Open action groups, and whether the last mark-and-sweep ran to its end. */
    var groupLevel: nat
    var swept: bool

    ghost function State(): CacheState
      reads this, pkgState, depState
    {
      CacheState(pkgState[..], depState[..], tally, sizes)
    }

    /** The records have the right length and name versions of the right package. */
    ghost predicate Shaped()
      reads this, pkgState, depState
    {
      ValidStates(g, pkgState[..]) && depState.Length == |g.deps|
    }

    // ---------- Reading ----------

    method CheckDep(d: nat, ty: VersionType) returns (hit: bool)
      requires Shaped() && d < |g.deps|
      ensures hit <==> DepHit(g, pkgState[..], d, ty)
    {
      ghost var ps := pkgState[..];
      assert g.ValidDependency(d) && g.ValidPackage(g.deps[d].target);
      var t := g.deps[d].target;
      if !g.IsIgnorablePkg(d, t) {
        var v := if ty == NowVersion then g.pkgs[t].currentVer
                 else if ty == InstallVersion then pkgState[t].installVer else pkgState[t].candidateVer;
        if v.Some? && v.value in g.deps[d].satVers { return true; }
      }
      assert !TargetHit(g, ps, d, ty);
      if g.deps[d].kind == Obsoletes { return false; }
      var l := g.pkgs[t].providesList;
      for k := 0 to |l|
        invariant forall i :: 0 <= i < k ==> !PrvHit(g, ps, d, l[i], ty)
      {
        var r := l[k];
        if !g.IsIgnorablePrv(d, r) {
          var p := g.OwnerPkg(r);
          var v := if ty == NowVersion then g.pkgs[p].currentVer
                   else if ty == InstallVersion then pkgState[p].installVer else pkgState[p].candidateVer;
          if v == Some(g.prvs[r].ownerVer) && r in g.deps[d].satPrvs {
            assert PrvHit(g, ps, d, l[k], ty);
            return true;
          }
        }
      }
      return false;
    }

    method DependencyState(d: nat) returns (state: Bits)
      requires Shaped() && d < |g.deps|
      ensures state == RawState(g, pkgState[..], d)
    {
      var now := CheckDep(d, NowVersion);
      var install := CheckDep(d, InstallVersion);
      var cver := CheckDep(d, CandidateVersion);
      state := Bits(now, install, cver);
    }

    /** Steps over one or-group: its first member, its last one, and the entry behind it. */
    method GlobOr(v: nat, i: nat) returns (start: nat, end: nat, next: nat)
      requires g.Valid() && v < |g.vers| && i < |g.vers[v].depends|
      requires i > 0 ==> g.ValidVersion(v) && GroupEnd(g, v, i - 1)
      ensures g.ValidVersion(v) && GroupEnd(g, v, end) && start == i <= end && next == end + 1
      ensures GroupStart(g, v, end) == start
      ensures forall j :: i <= j < end ==> !GroupEnd(g, v, j)
    {
      assert g.ValidVersion(v);
      var l := g.vers[v].depends;
      start, end, next := i, i, i;
      var lastOr := true;
      while next < |l| && lastOr
        invariant i <= next <= |l| && i <= end < |l|
        invariant end == (if next > i && !lastOr then next - 1 else next)
        invariant lastOr && next > i ==> g.deps[l[next - 1]].orNext
        invariant !lastOr ==> next > i && GroupEnd(g, v, next - 1)
        invariant forall j :: i <= j < next && (j < next - 1 || lastOr) ==> g.deps[l[j]].orNext
        decreases |l| - next, lastOr
      {
        lastOr := g.deps[l[next]].orNext;
        next := next + 1;
        if lastOr { end := next; }
      }
      GroupStartAt(g, v, start, end);
    }

    /**
      One pass over a version's dependencies, or-group by or-group, filtered by a minimum and a
      policy check. It stops at the first critical group that is not met; both results are low then.
    */
    method VersionState(v: nat, check: VersionType) returns (min: bool, policy: bool)
      requires g.Valid() && depState.Length == |g.deps| && v < |g.vers|
      ensures min <==> !MinFails(g, depState[..], v, check)
      ensures policy <==> !PolicyFails(g, depState[..], v, check)
      ensures min <==> !MustFails(g, depState[..], v, check)
      ensures policy <==> !ShouldFails(g, depState[..], v, check)
    {
      hide *;
      ghost var ds := depState[..];
      ScanInTerms(g, ds, v, check);
      ScanStarts(g, ds, v, check);
      min, policy := true, true;
      var i := 0;
      while i < |g.vers[v].depends|
        invariant i <= |g.vers[v].depends| && (i > 0 ==> GroupEnd(g, v, i - 1))
        invariant forall j :: 0 <= j < i ==> !MinGroupFails(g, ds, v, j, check)
        invariant min
        invariant policy ==> forall j :: 0 <= j < i ==> !PolicyGroupFails(g, ds, v, j, check)
        invariant !policy ==> exists j :: PolicyGroupFails(g, ds, v, j, check)
      {
        var start, end, next := GlobOr(v, i);
        GroupScanned(g, ds, v, i, end, check);
        var passes := Passes(depState[g.vers[v].depends[end]], check);
        if g.IsCritical(g.vers[v].depends[start]) {
          if !passes { return false, false; }
        } else if g.IsImportantDep(g.vers[v].depends[start]) && !passes {
          policy := false;
        }
        i := next;
      }
    }

    // ---------- Repairing ----------

    /** Rewrites one byte: its own result and that of its or-group up to here. */
    method StoreInGroup(v: nat, i: nat, group: Bits, ghost ds: seq<Byte>) returns (next: Bits)
      requires StoredInGroup(g, ds, depState[..], v, i, group) && i < |g.vers[v].depends|
      modifies depState
      ensures StoredInGroup(g, ds, depState[..], v, i + 1, next)
    {
      ghost var before := depState[..];
      RebuildStep(g, RawsStored(g, ds), ds, before, v, i, group);
      var d := g.vers[v].depends[i];
      var negative := g.IsNegative(d);
      var raw := RawOf(depState[d], negative);
      next := group.Or(raw);
      depState[d] := Stored(raw, next, negative);
      assert depState[..] == before[d := Stored(raw, next, negative)];
      if !g.deps[d].orNext { next := NO_BITS; }
    }

    /** The or-group results are kept in the last member of the group. */
    method BuildGroupOrs(v: nat)
      requires g.Valid() && depState.Length == |g.deps| && v < |g.vers|
      modifies depState
      ensures BuiltFrom(g, old(depState[..]), depState[..], v)
    {
      hide *;
      ghost var ds := depState[..];
      var group := NO_BITS;
      StoredStart(g, ds, v);
      for i := 0 to |g.vers[v].depends|
        invariant StoredInGroup(g, ds, depState[..], v, i, group)
      {
        group := StoreInGroup(v, i, group, ds);
      }
      StoredEnd(g, ds, depState[..], v, group);
    }

    method UpdateVerState(p: nat)
      requires Shaped() && p < |g.pkgs|
      modifies pkgState
      ensures pkgState[..] == old(pkgState[..])[p := old(pkgState[p]).(depState := pkgState[p].depState)]
      ensures Shaped() && SummaryOk(g, pkgState[..], depState[..], p)
      ensures ScanOf(g, depState[..], pkgState[p].candidateVer, InstallVersion,
                     pkgState[p].depState.candMin, pkgState[p].depState.candPolicy)
    {
      hide *;
      ghost var ps := pkgState[..];
      StateParts();
      ScanFacts(g, ps, p);
      var nowMin, nowPolicy := ScanVersion(g.pkgs[p].currentVer, NowVersion);
      var candMin, candPolicy := ScanVersion(pkgState[p].candidateVer, InstallVersion);
      var instMin, instPolicy := ScanVersion(pkgState[p].installVer, InstallVersion);
      ghost var b := Summary(nowPolicy, nowMin, instPolicy, instMin, candPolicy, candMin);
      SummaryFrom(g, ps, depState[..], p, b);
      pkgState[p] := pkgState[p].(depState := Summary(nowPolicy, nowMin, instPolicy, instMin, candPolicy, candMin));
      assert pkgState[..] == ps[p := ps[p].(depState := b)];
      MakeShaped();
    }

    method ScanVersion(v: Option<nat>, check: VersionType) returns (min: bool, policy: bool)
      requires g.Valid() && depState.Length == |g.deps| && (v.Some? ==> v.value < |g.vers|)
      ensures ScanOf(g, depState[..], v, check, min, policy)
    {
      min, policy := true, true;
      if v.Some? {
        min, policy := VersionState(v.value, check);
      }
    }

    /** The first half of AddStates: broken packages and packages in a bad state. */
    method AddBroken(p: nat, add: int)
      requires pkgState.Length == |g.pkgs| && p < |g.pkgs| && (add == 1 || add == -1)
      requires add == -1 ==> tally.AtLeast(BrokenContrib(g, p, pkgState[p]))
      modifies `tally
      ensures add == 1 ==> tally == old(tally).Plus(BrokenContrib(g, p, pkgState[p]))
      ensures add == -1 ==> tally.Plus(BrokenContrib(g, p, pkgState[p])) == old(tally)
    {
      if pkgState[p].InstBroken() { tally := tally.(broken := tally.broken + add); }
      if pkgState[p].InstPolicyBroken() { tally := tally.(policyBroken := tally.policyBroken + add); }
      if g.pkgs[p].okState != NeedsNothing { tally := tally.(bad := tally.bad + add); }
    }

    /** The second half: what will happen to the package. */
    method AddModes(p: nat, add: int)
      requires pkgState.Length == |g.pkgs| && p < |g.pkgs| && (add == 1 || add == -1)
      requires add == -1 ==> tally.AtLeast(ModeContrib(g, p, pkgState[p]))
      modifies `tally
      ensures add == 1 ==> tally == old(tally).Plus(ModeContrib(g, p, pkgState[p]))
      ensures add == -1 ==> tally.Plus(ModeContrib(g, p, pkgState[p])) == old(tally)
    {
      var st, P := pkgState[p], g.pkgs[p];
      if P.currentVer.None? {
        if st.mode == ModeDelete && st.purge && !P.purged { tally := tally.(del := tally.del + add); }
        if st.mode == ModeInstall { tally := tally.(inst := tally.inst + add); }
        return;
      }
      if st.status == 0 {
        if st.mode == ModeDelete {
          tally := tally.(del := tally.del + add);
        } else if st.reInstall {
          tally := tally.(inst := tally.inst + add);
        }
        return;
      }
      if st.mode == ModeDelete {
        tally := tally.(del := tally.del + add);
      } else if st.mode == ModeKeep {
        tally := tally.(keep := tally.keep + add);
      } else if st.mode == ModeInstall {
        tally := tally.(inst := tally.inst + add);
        if st.status > 0 { tally := tally.(upgrade := tally.upgrade + add); }
      }
    }

    /** Adds the package to the counters, or takes it off again. */
    method AddStates(p: nat, invert: bool)
      requires pkgState.Length == |g.pkgs| && p < |g.pkgs|
      requires invert ==> tally.AtLeast(StateContrib(g, p, pkgState[p]))
      modifies `tally
      ensures !invert ==> tally == old(tally).Plus(StateContrib(g, p, pkgState[p]))
      ensures invert ==> tally.Plus(StateContrib(g, p, pkgState[p])) == old(tally)
    {
      hide *;
      ghost var t, broken, modes := tally, BrokenContrib(g, p, pkgState[p]), ModeContrib(g, p, pkgState[p]);
      StateContribSplit(g, p, pkgState[p]);
      if invert { TallySplit(t, broken, modes); }
      AddBroken(p, if invert then -1 else 1);
      if invert { TallyRest(t, broken, modes, tally); }
      ghost var between := tally;
      AddModes(p, if invert then -1 else 1);
      TallyJoin(t, broken, modes, between, tally);
    }

    method AddSizes(p: nat, invert: bool)
      requires Shaped() && p < |g.pkgs| && g.OwnVersion(p, pkgState[p].installVer)
      requires invert ==> sizes.download >= SizeContrib(g, p, pkgState[p]).download
      modifies `sizes
      ensures !invert ==> sizes == old(sizes).Plus(SizeContrib(g, p, pkgState[p]))
      ensures invert ==> sizes.Plus(SizeContrib(g, p, pkgState[p])) == old(sizes)
    {
      assert g.ValidPackage(p);
      var sign := if invert then -1 else 1;
      var st := pkgState[p];
      var P := g.pkgs[p];
      if P.versions == [] { return; }
      if P.okState == NeedsConfigure && st.Keep() { return; }
      if st.NewInstall() {
        var usr, size := g.VerInstalledSize(st.installVer), g.VerSize(st.installVer);
        sizes := if invert then Sizes(sizes.usr - usr, sizes.download - size)
          else Sizes(sizes.usr + usr, sizes.download + size);
        return;
      }
      if P.currentVer.Some? && (st.installVer != P.currentVer || st.reInstall) && st.installVer.Some? {
        var cur := g.VerInstalledSize(P.currentVer);
        var usr, size := g.VerInstalledSize(st.installVer), g.VerSize(st.installVer);
        sizes := if invert then Sizes(sizes.usr - usr + cur, sizes.download - size)
                 else Sizes(sizes.usr - cur + usr, sizes.download + size);
        return;
      }
      if P.okState == NeedsUnpack && !st.Delete() {
        var size := g.VerSize(st.installVer);
        sizes := if invert then Sizes(sizes.usr, sizes.download - size) else Sizes(sizes.usr, sizes.download + size);
        return;
      }
      if P.currentVer.Some? && st.installVer.None? {
        var cur := g.VerInstalledSize(P.currentVer);
        sizes := if invert then Sizes(sizes.usr + cur, sizes.download) else Sizes(sizes.usr - cur, sizes.download);
      }
    }

    /** Takes package p off the counters, rescans it and adds it again. */
    method Rescan(p: nat)
      requires Shaped() && p < |g.pkgs| && tally == Total(StateContribs(g, pkgState[..]))
      modifies pkgState, `tally
      ensures pkgState[..] == old(pkgState[..])[p := old(pkgState[p]).(depState := pkgState[p].depState)]
      ensures Shaped() && SummaryOk(g, pkgState[..], depState[..], p)
      ensures tally == Total(StateContribs(g, pkgState[..]))
    {
      ghost var ps := pkgState[..];
      TotalAtLeast(StateContribs(g, ps), p);
      AddStates(p, true);
      UpdateVerState(p);
      ghost var rest := tally;
      AddStates(p, false);
      Ledger(g, ps, p, pkgState[p], rest);
    }

    /** Rechecks one dependency and repairs everything that depends on its result. */
    method UpdateDep(d: nat, ghost base: seq<PkgState>, ghost pend: set<nat>)
      requires Repairing(g, base, pkgState[..], depState[..], tally, pend, {}) && d < |g.deps|
      modifies pkgState, depState, `tally
      ensures Repairing(g, base, pkgState[..], depState[..], tally, pend - {d}, {})
      ensures LowKept(g, old(depState[..]), depState[..], {d})
    {
      ghost var ps, ds, before := pkgState[..], depState[..], tally;
      var v := g.deps[d].parentVer;
      var p := g.ParentPkg(d);
      assert g.ValidDependency(d);
      hide *;
      var raw := DependencyState(d);
      depState[d] := Stored(raw, NO_BITS, g.IsNegative(d));
      BuildGroupOrs(v);
      Rescan(p);
      DepUpdated(g, base, ps, ds, depState[..], d, before, tally, pend, pkgState[p].depState);
    }

    method UpdateDeps(list: seq<nat>, ghost base: seq<PkgState>, ghost pend: set<nat>)
      requires Repairing(g, base, pkgState[..], depState[..], tally, pend, {})
      requires forall i :: 0 <= i < |list| ==> list[i] < |g.deps|
      modifies pkgState, depState, `tally
      ensures Repairing(g, base, pkgState[..], depState[..], tally, pend - Entries(list), {})
      ensures LowKept(g, old(depState[..]), depState[..], Entries(list))
    {
      hide *;
      ghost var ds := depState[..];
      ghost var walked := {};
      NoEntries(list);
      WalkStarts(g, base, pkgState[..], ds, tally, pend);
      for i := 0 to |list|
        invariant Walked(g, base, pkgState[..], ds, depState[..], tally, pend, walked)
        invariant walked == Entries(list[..i])
      {
        ghost var before := depState[..];
        WalkParts(g, base, pkgState[..], ds, before, tally, pend, walked);
        UpdateDep(list[i], base, pend - walked);
        WalkGoesOn(g, base, pkgState[..], ds, before, depState[..], tally, pend, walked, {list[i]});
        walked := walked + {list[i]};
        EntriesGrow(list, i);
      }
      assert list[..|list|] == list;
      WalkParts(g, base, pkgState[..], ds, depState[..], tally, pend, walked);
    }

    /** Rechecks everything that may depend on version v being selected through what it provides. */
    method UpdateProvided(v: nat, ghost base: seq<PkgState>, ghost pend: set<nat>)
      requires Repairing(g, base, pkgState[..], depState[..], tally, pend, {}) && v < |g.vers|
      modifies pkgState, depState, `tally
      ensures g.Valid() && Repairing(g, base, pkgState[..], depState[..], tally, pend - ReachedThrough(g, Some(v)), {})
      ensures LowKept(g, old(depState[..]), depState[..], ReachedThrough(g, Some(v)))
    {
      hide *;
      ghost var ds := depState[..];
      WalkStarts(g, base, pkgState[..], ds, tally, pend);
      NothingReached(g, v);
      for i := 0 to |g.vers[v].providesList|
        invariant g.Valid() && Walked(g, base, pkgState[..], ds, depState[..], tally, pend, ReachedBy(g, v, i))
      {
        ghost var before, walked := depState[..], ReachedBy(g, v, i);
        WalkParts(g, base, pkgState[..], ds, before, tally, pend, walked);
        var list := RevDependsOfProvides(g, v, i);
        UpdateDeps(list, base, pend - walked);
        WalkGoesOn(g, base, pkgState[..], ds, before, depState[..], tally, pend, walked, Entries(list));
        MoreReached(g, v, i);
      }
      WalkParts(g, base, pkgState[..], ds, depState[..], tally, pend, ReachedThrough(g, Some(v)));
    }

    /** Repairs everything a changed choice of package p can have touched through the lists walked. */
    method UpdatePkg(p: nat, ghost base: seq<PkgState>, ghost pend: set<nat>)
      requires p < |g.pkgs| && Repairing(g, base, pkgState[..], depState[..], tally, pend, {p})
      modifies pkgState, depState, `tally
      ensures |base| == |g.pkgs| && g.Valid() && g.OwnVersion(p, base[p].candidateVer)
      ensures Repairing(g, base, pkgState[..], depState[..], tally, pend - CoveredSet(g, p, base[p].candidateVer), {})
      ensures LowKept(g, old(depState[..]), depState[..], CoveredSet(g, p, base[p].candidateVer))
    {
      hide *;
      ghost var ps, ds := pkgState[..], depState[..];
      UpdateFacts(g, base, ps, depState[..], tally, pend, p);
      MakeShaped();
      var list, cur := g.pkgs[p].revDepends, g.pkgs[p].currentVer;
      ghost var t := tally;
      Rescan(p);
      StateParts();
      Rescanned(g, base, ps, pkgState[..], depState[..], t, p, pend, pkgState[p].depState);
      var cand := pkgState[p].candidateVer;
      assert cand == ps[p].candidateVer;
      UpdateDeps(list, base, pend);
      ghost var walked := Entries(list);
      WalkFrom(g, base, pkgState[..], ds, depState[..], tally, pend, walked);
      NoVersionNothingReached(g, cur);
      NoVersionNothingReached(g, cand);
      ghost var more := walked + ReachedThrough(g, cur);
      if cur.Some? {
        ghost var before := depState[..];
        WalkParts(g, base, pkgState[..], ds, before, tally, pend, walked);
        UpdateProvided(cur.value, base, pend - walked);
        WalkGoesOn(g, base, pkgState[..], ds, before, depState[..], tally, pend, walked, ReachedThrough(g, cur));
      } else {
        assert more == walked;
      }
      ghost var all := more + ReachedThrough(g, cand);
      if cand.Some? && cand != cur {
        ghost var before := depState[..];
        WalkParts(g, base, pkgState[..], ds, before, tally, pend, more);
        UpdateProvided(cand.value, base, pend - more);
        WalkGoesOn(g, base, pkgState[..], ds, before, depState[..], tally, pend, more, ReachedThrough(g, cand));
      } else {
        assert all == more;
      }
      WalkedIsCovered(g, p, cand);
      WalkParts(g, base, pkgState[..], ds, depState[..], tally, pend, all);
    }

    // ---------- The full pass ----------

    /** Computes one byte from scratch: its own result and that of its or-group up to here. */
    method CheckInGroup(v: nat, i: nat, group: Bits, ghost raw: seq<Bits>, ghost ds: seq<Byte>) returns (next: Bits)
      requires CheckedInGroup(g, pkgState[..], raw, ds, depState[..], v, i, group) && i < |g.vers[v].depends|
      modifies depState
      ensures CheckedInGroup(g, pkgState[..], raw, ds, depState[..], v, i + 1, next)
    {
      ghost var before := depState[..];
      RebuildStep(g, raw, ds, before, v, i, group);
      var d := g.vers[v].depends[i];
      var negative := g.IsNegative(d);
      var state := DependencyState(d);
      assert state == raw[d];
      hide *;
      next := group.Or(state);
      depState[d] := Stored(state, next, negative);
      assert depState[..] == before[d := Stored(state, next, negative)];
      if !g.deps[d].orNext { next := NO_BITS; }
    }

    /** Computes the bytes of one version from scratch. */
    method CheckVersion(v: nat, ghost raw: seq<Bits>)
      requires Shaped() && v < |g.vers| && raw == RawsChecked(g, pkgState[..])
      modifies depState
      ensures Rebuilt(g, raw, old(depState[..]), depState[..], v, |g.vers[v].depends|)
    {
      ghost var ds := depState[..];
      var group := NO_BITS;
      RebuildStart(g, raw, ds, v);
      hide *;
      for i := 0 to |g.vers[v].depends|
        invariant CheckedInGroup(g, pkgState[..], raw, ds, depState[..], v, i, group)
      {
        group := CheckInGroup(v, i, group, raw, ds);
      }
      RebuildEnd(g, raw, ds, depState[..], v, group);
    }

    method CheckVersions(p: nat, ghost raw: seq<Bits>)
      requires Shaped() && p < |g.pkgs| && raw == RawsChecked(g, pkgState[..])
      modifies depState
      ensures VersionsChecked(g, raw, old(depState[..]), depState[..], p, |g.pkgs[p].versions|)
    {
      assert g.ValidPackage(p);
      ghost var ds := depState[..];
      hide RawsChecked;
      for j := 0 to |g.pkgs[p].versions|
        invariant VersionsChecked(g, raw, ds, depState[..], p, j)
      {
        ghost var before := depState[..];
        CheckVersion(g.pkgs[p].versions[j], raw);
        VersionChecked(g, raw, ds, before, depState[..], p, j);
      }
    }

    /** The pass over one package: its versions' bytes, its sizes, its summary, its counters. */
    method PassPackage(p: nat, ghost base: seq<PkgState>)
      requires p < |g.pkgs| && FullyComputed(g, base, pkgState[..], depState[..], tally, sizes, p)
      modifies pkgState, depState, `tally, `sizes
      ensures FullyComputed(g, base, pkgState[..], depState[..], tally, sizes, p + 1)
    {
      hide *;
      ghost var ps, ds, t, z := pkgState[..], depState[..], tally, sizes;
      PassFacts(g, base, ps, ds, t, z, p);
      MakeShaped();
      CheckVersions(p, RawsChecked(g, base));
      MakeShaped();
      AddSizes(p, false);
      MakeShaped();
      UpdateVerState(p);
      StateParts();
      AddStates(p, false);
      PackageComputed(g, base, ps, pkgState[..], ds, depState[..], t, z, p, pkgState[p].depState);
    }

    /** Recomputes every derived value of the cache. */
    method PerformDependencyPass()
      requires Shaped()
      modifies pkgState, depState, `tally, `sizes
      ensures FullyComputed(g, old(pkgState[..]), pkgState[..], depState[..], tally, sizes, |g.pkgs|)
    {
      ghost var base := pkgState[..];
      tally, sizes := Tally(0, 0, 0, 0, 0, 0, 0), Sizes(0, 0);
      NothingComputed(g, base, depState[..]);
      hide *;
      for p := 0 to |g.pkgs|
        invariant FullyComputed(g, base, pkgState[..], depState[..], tally, sizes, p)
      {
        PassPackage(p, base);
      }
    }

    /** The state between two operations. */
    ghost predicate Valid()
      reads this, pkgState, depState
    {
      Consistent(g, State())
    }

    // ---------- Starting and checking ----------

    /** A fresh cache over package data g, with the policy's candidates and the Auto flags of the state file. */
    constructor (g: Graph, keep: ProviderFilter, candidates: seq<Option<nat>>, auto: set<nat>)
      requires ValidCandidates(g, candidates) && Filters(keep)
      ensures this.g == g && this.keep == keep && Ready() && groupLevel == 0
      ensures OnlySummaries(WithAutoFlags(g, InitialRecords(g, candidates), auto, |g.pkgs|), pkgState[..])
      ensures fresh(pkgState) && fresh(depState) && fresh(marked) && fresh(garbage)
    {
      this.g, this.keep := g, keep;
      pkgState := new PkgState[|g.pkgs|](p => ZERO_RECORD);
      depState := new Byte[|g.deps|](d => ZERO_BYTE);
      marked, garbage := new bool[|g.pkgs|](p => false), new bool[|g.pkgs|](p => false);
      tally, sizes, groupLevel, swept := Tally(0, 0, 0, 0, 0, 0, 0), Sizes(0, 0), 0, false;
      new;
      Init(candidates, auto);
    }

    method Init(candidates: seq<Option<nat>>, auto: set<nat>)
      requires ValidCandidates(g, candidates) && Filters(keep) && groupLevel == 0
      requires depState.Length == |g.deps| && pkgState.Length == marked.Length == garbage.Length == |g.pkgs|
      requires marked != garbage
      modifies pkgState, depState, marked, garbage, `tally, `sizes, `groupLevel, `swept
      ensures Ready() && groupLevel == 0
      ensures OnlySummaries(WithAutoFlags(g, InitialRecords(g, candidates), auto, |g.pkgs|), pkgState[..])
    {
      hide *;
      groupLevel := groupLevel + 1;
      ghost var base := InitialRecords(g, candidates);
      SetInitialRecords(candidates);
      InitialShaped(g, candidates);
      MakeShaped();
      PerformDependencyPass();
      PassFinished(base);
      ghost var ps := pkgState[..];
      ReadStateFile(auto);
      AutoFlagsKeepSummaries(g, base, ps, auto, |g.pkgs|);
      ReadyFacts();
      Release(false);
    }

    lemma MakeShaped()
      requires ValidStates(g, pkgState[..]) && depState.Length == |g.deps|
      ensures Shaped()
    {
    }

    lemma PassFinished(base: seq<PkgState>)
      requires FullyComputed(g, base, pkgState[..], depState[..], tally, sizes, |g.pkgs|)
      requires forall p :: 0 <= p < |g.pkgs| ==> |base| == |g.pkgs| && ModeOk(g, p, base[p])
      requires groupLevel > 0 && Filters(keep) && marked != garbage && marked.Length == garbage.Length == |g.pkgs|
      ensures Ready() && OnlySummaries(base, pkgState[..]) && |base| == |g.pkgs|
    {
      FullIsConsistent(g, base, pkgState[..], depState[..], tally, sizes);
    }

    method SetInitialRecords(candidates: seq<Option<nat>>)
      requires ValidCandidates(g, candidates) && pkgState.Length == |g.pkgs|
      modifies pkgState
      ensures pkgState[..] == InitialRecords(g, candidates)
    {
      for p := 0 to pkgState.Length
        invariant forall q :: 0 <= q < p ==> pkgState[q] == InitialRecords(g, candidates)[q]
      {
        pkgState[p] := InitialRecord(g, p, candidates[p]);
      }
    }

    method ReadStateFile(auto: set<nat>)
      requires Ready() && groupLevel > 0
      modifies pkgState
      ensures Ready() && |old(pkgState[..])| == |g.pkgs|
      ensures pkgState[..] == WithAutoFlags(g, old(pkgState[..]), auto, |g.pkgs|)
    {
      hide *;
      ghost var ps := pkgState[..];
      ReadyFacts();
      AutoFlagsNone(g, ps, auto);
      for p := 0 to |g.pkgs|
        invariant Ready()
        invariant pkgState[..] == WithAutoFlags(g, ps, auto, p)
      {
        ReadyFacts();
        ModeFacts(p);
        AutoFlagsStep(g, ps, auto, p);
        if p in auto && g.pkgs[p].versions != [] {
          AutoIsQuiet(g, pkgState[..], p, true);
          RewriteInGroup(p, pkgState[p].(auto := true));
        }
      }
    }

    /**
      Recomputes everything in fresh buffers and compares. It never warns about a valid cache, and
      when it does not warn a full recomputation confirms the cache. What it finds is reported as
      warnings, which do not set the pending flag its answer is made of, so it always answers yes.
    */
    method CheckConsistency() returns (warned: bool, ok: bool)
      requires Shaped()
      modifies `pkgState, `depState, `tally, `sizes
      ensures pkgState == old(pkgState) && depState == old(depState) && State() == old(State())
      ensures warned <==> !Confirmed(g, State())
      ensures Valid() == old(Valid()) && (Valid() ==> !warned)
      ensures g.Valid() && pkgState.Length == |g.pkgs|
      ensures Shape(g, State()) ==> (warned <==> !(RecordsRight(g, State().ps) && TotalsRight(g, State())))
      ensures ok
    {
      hide *;
      ValidMeans();
      ghost var s := State();
      StateParts();
      CopiedFacts(g, pkgState[..]);
      var origPkgState, origDepState, origTally, origSizes := pkgState, depState, tally, sizes;
      pkgState := CopyRecords();
      depState := new Byte[|g.deps|](d => ZERO_BYTE);
      MakeShaped();
      PerformDependencyPass();
      var errors := NoErrors();
      var same := SameBrokennessAs(origPkgState);
      same := same && SameCounts(origTally, origSizes, tally, sizes);
      if !same { errors := errors.Warning(); }
      warned, ok := errors.warnings, !errors.pending;
      CheckVerdict(g, s, pkgState[..], depState[..], tally, sizes, same);
      CheckFindsWrong(g, s, pkgState[..], depState[..], tally, sizes, same);
      pkgState, depState, tally, sizes := origPkgState, origDepState, origTally, origSizes;
      assert State() == s by { StateIs(s); }
      ValidMeans();
    }

    lemma StateIs(s: CacheState)
      requires pkgState[..] == s.ps && depState[..] == s.ds && tally == s.tally && sizes == s.sizes
      ensures State() == s
    {
    }

    lemma StateParts()
      ensures State().ps == pkgState[..] && State().ds == depState[..] && State().tally == tally
      ensures State().sizes == sizes
      ensures Shaped() ==> ValidStates(g, pkgState[..]) && pkgState.Length == |g.pkgs| && depState.Length == |g.deps|
    {
    }

    lemma ValidMeans()
      ensures Valid() <==> Consistent(g, State())
      ensures Valid() ==> |State().ps| == pkgState.Length == |g.pkgs|
    {
    }

    method CopyRecords() returns (copy: array<PkgState>)
      ensures fresh(copy) && copy[..] == Copied(pkgState[..])
    {
      copy := new PkgState[pkgState.Length](p => ZERO_RECORD);
      for p := 0 to pkgState.Length
        invariant forall q :: 0 <= q < p ==> copy[q] == Copied(pkgState[..])[q]
      {
        copy[p] := pkgState[p].(auto := false, depState := ZERO_SUMMARY);
      }
    }

    method SameBrokennessAs(orig: array<PkgState>) returns (same: bool)
      requires orig.Length == pkgState.Length
      ensures same <==> AllSameBrokenness(orig[..], pkgState[..])
    {
      for p := 0 to pkgState.Length
        invariant forall q :: 0 <= q < p ==> SameBrokenness(orig[q], pkgState[q])
      {
        if !SameBrokenness(orig[p], pkgState[p]) {
          assert !SameBrokenness(orig[..][p], pkgState[..][p]);
          return false;
        }
      }
      return true;
    }

    // ---------- Changing one package ----------

    /**
      The section every mark operation consists of: take the package off all totals,
      change its record, add it again and repair what depends on it.
    */
    method Choose(p: nat, next: PkgState)
      requires Valid() && p < |g.pkgs| && OwnChoice(g, p, next)
      modifies pkgState, depState, `tally, `sizes
      ensures Shaped() && OnlySummaries(old(pkgState[..])[p := next], pkgState[..])
      ensures Valid() <==> ChoiceFits(g, old(pkgState[..]), p, next)
    {
      hide *;
      ghost var s := State();
      StateParts();
      ValidMeans();
      ChooseFacts(g, s, p, next);
      MakeShaped();
      AddSizes(p, true);
      AddStates(p, true);
      ghost var restSizes, restTally := sizes, tally;
      pkgState[p] := next;
      assert pkgState[..] == s.ps[p := next];
      AddStates(p, false);
      ChoiceMade(g, s, p, next, restTally);
      UpdatePkg(p, s.ps[p := next], OutOfDate(g, s.ps, p, next));
      ChoiceRepaired(g, s, p, next, pkgState[..], depState[..], tally, restSizes);
      MakeShaped();
      AddSizes(p, false);
      MakeShaped();
      StateParts();
      ValidMeans();
    }

    /** Rewrites a record in a way no total, check or summary can see. */
    method Rewrite(p: nat, next: PkgState)
      requires Valid() && p < |g.pkgs| && Quiet(g, p, pkgState[p], next)
      modifies pkgState
      ensures Valid() && pkgState[..] == old(pkgState[..])[p := next]
    {
      hide *;
      ghost var s := State();
      StateParts();
      ValidMeans();
      QuietChange(g, s, p, next);
      pkgState[p] := next;
      assert pkgState[..] == s.ps[p := next];
      StateParts();
      ValidMeans();
    }

    // ---------- Action groups ----------

    /**
      The invariant of the object. Everything the dependencies derive is up to date at all
      times; the marks of the automatic removal are whenever no action group is open.
    */
    ghost predicate Ready()
      reads this, pkgState, depState, marked, garbage
    {
      Valid() && MarksOk(pkgState[..])
    }

    /** The marks are what the records ps call for, unless an action group is open. */
    ghost predicate MarksOk(ps: seq<PkgState>)
      reads `marked, `garbage, `groupLevel, `swept, marked, garbage
    {
      && g.Valid() && |ps| == |g.pkgs|
      && Filters(keep) && marked != garbage && marked.Length == garbage.Length == |ps|
      && (groupLevel == 0 ==> UpToDate(g, keep, ps, marked[..], garbage[..], swept))
    }

    lemma ReadyFacts()
      requires Ready()
      ensures Shaped() && MarksOk(pkgState[..]) && g.Valid()
      ensures pkgState.Length == marked.Length == |g.pkgs| && depState.Length == |g.deps|
    {
    }

    lemma ReadyMeans()
      ensures Ready() <==> Valid() && MarksOk(pkgState[..])
    {
    }

    lemma ReadyState()
      requires Ready()
      ensures Consistent(g, State()) && State().ps == pkgState[..] && State().tally == tally
    {
    }

    /** What being in order means for modes, counters and sizes. */
    lemma ReadyTotals()
      requires Ready()
      ensures ValidStates(g, pkgState[..]) && pkgState.Length == |g.pkgs|
      ensures forall p :: 0 <= p < |g.pkgs| ==> ModeOk(g, p, pkgState[p])
      ensures tally == Total(StateContribs(g, pkgState[..])) && sizes == TotalSizes(SizeContribs(g, pkgState[..]))
    {
      ConsistentParts(g, State());
      forall p | 0 <= p < |g.pkgs| ensures ModeOk(g, p, pkgState[p]) { assert ModeOk(g, p, State().ps[p]); }
    }

    lemma ModeFacts(p: nat)
      requires Ready() && p < |g.pkgs|
      ensures p < pkgState.Length && ModeOk(g, p, pkgState[p]) && g.ValidPackage(p)
      ensures g.OwnVersion(p, pkgState[p].candidateVer) && g.OwnVersion(p, pkgState[p].installVer)
    {
      assert ModeOk(g, p, State().ps[p]) && g.OwnVersion(p, pkgState[..][p].candidateVer);
    }

    method IncreaseActionGroupLevel()
      requires Ready()
      modifies `groupLevel
      ensures Ready() && groupLevel == old(groupLevel) + 1
      ensures forall snap :: old(Restorable(snap)) ==> Restorable(snap)
    {
      groupLevel := groupLevel + 1;
    }

    /** Leaves an action group; leaving the outermost one brings the marks up to date. */
    method Release(released: bool)
      requires Shaped() && MarksOk(pkgState[..])
      modifies marked, garbage, `groupLevel, `swept
      ensures Shaped() && MarksOk(pkgState[..]) && Valid() == old(Valid())
      ensures old(Ready()) ==> Ready()
      ensures groupLevel == if released || old(groupLevel) == 0 then old(groupLevel) else old(groupLevel) - 1
    {
      if released || groupLevel == 0 { return; }
      hide *;
      groupLevel := groupLevel - 1;
      if groupLevel == 0 {
        swept := MarkAndSweep(g, keep, pkgState, marked, garbage);
      }
    }

    method ChooseInGroup(p: nat, next: PkgState)
      requires Ready() && groupLevel > 0 && p < |g.pkgs| && MayChoose(g, pkgState[..], p, next)
      modifies pkgState, depState, `tally, `sizes
      ensures Ready()
      ensures OnlySummaries(old(pkgState[..])[p := next], pkgState[..])
    {
      hide *;
      ReadyFacts();
      SplitReady();
      MayChooseFits(g, pkgState[..], p, next);
      Choose(p, next);
      InGroupReady();
    }

    /** Rewrites a package's choice whether or not the walk reaches everything that depends on it. */
    method ChooseBlindly(p: nat, next: PkgState)
      requires Ready() && groupLevel > 0 && OwnChoice(g, p, next)
      modifies pkgState, depState, `tally, `sizes
      ensures Shaped() && MarksOk(pkgState[..]) && OnlySummaries(old(pkgState[..])[p := next], pkgState[..])
      ensures Valid() <==> ChoiceFits(g, old(pkgState[..]), p, next)
    {
      hide Consistent, ChoiceFits;
      Choose(p, next);
    }

    method RewriteInGroup(p: nat, next: PkgState)
      requires Ready() && groupLevel > 0 && p < |g.pkgs| && Quiet(g, p, pkgState[p], next)
      modifies pkgState
      ensures Ready()
      ensures pkgState[..] == old(pkgState[..])[p := next]
    {
      hide Consistent, Quiet;
      Rewrite(p, next);
    }

    /** Rewrites flags nobody derives anything from, the marks included. */
    method SetFlags(p: nat, next: PkgState)
      requires Ready() && p < |g.pkgs| && Quiet(g, p, pkgState[p], next) && SameRecordForMarks(pkgState[p], next)
      modifies pkgState
      ensures Ready()
      ensures pkgState[..] == old(pkgState[..])[p := next]
    {
      ghost var ps := pkgState[..];
      SameMarksOk(p, next);
      hide *;
      Rewrite(p, next);
      Reassemble();
    }

    lemma SameMarksOk(p: nat, next: PkgState)
      requires Ready() && p < |g.pkgs| && SameRecordForMarks(pkgState[p], next) && Quiet(g, p, pkgState[p], next)
      ensures MarksOk(pkgState[..][p := next]) && Valid() && |pkgState[..]| == pkgState.Length == |g.pkgs|
    {
      ghost var ps := pkgState[..];
      assert Valid() && MarksOk(ps) && Consistent(g, State()) && ps == State().ps;
      ConsistentParts(g, State());
      SameAfter(ps, p, next);
      QuietShape(g, ps, p, next);
      hide UpToDate, Consistent, Quiet, ValidStates, SameForMarks, SameRecordForMarks;
      if groupLevel == 0 {
        SameUpToDate(g, keep, ps, ps[p := next], marked[..], garbage[..], swept);
      }
    }

    lemma SplitReady()
      requires Ready()
      ensures Valid() && MarksOk(pkgState[..]) && marked != garbage && marked.Length == garbage.Length == |g.pkgs|
      ensures Filters(keep)
    {
    }

    lemma MarksAgree()
      requires Valid() && MarksOk(pkgState[..]) && groupLevel == 0
      ensures Ready() && g.Valid() && pkgState.Length == |g.pkgs| == marked.Length == garbage.Length
      ensures FreshMarks(g, keep, pkgState[..], marked[..], swept) && Sound(g, pkgState[..], marked[..])
      ensures !swept ==> forall q :: 0 <= q < garbage.Length ==> !garbage[q]
      ensures swept ==> SweptByMarks(g, pkgState[..], marked[..], garbage[..])
      ensures swept && KeepsAll(keep) ==> FreshlySwept(g, pkgState[..], marked[..], garbage[..])
      ensures Explained(g, keep, pkgState[..], marked[..], garbage[..], swept)
    {
      UpToDateMeans(g, keep, pkgState[..], marked[..], garbage[..], swept);
      hide Explained;
    }

    lemma InGroupReady()
      requires Valid() && Filters(keep) && marked != garbage && marked.Length == garbage.Length == |g.pkgs|
      ensures groupLevel > 0 ==> Ready()
    {
    }

    lemma Reassemble()
      requires Valid() && MarksOk(pkgState[..])
      ensures Ready()
    {
    }

    // ---------- State manipulators ----------

    method MarkKeep(p: nat, soft: bool, fromUser: bool, depth: nat) returns (ok: bool)
      requires Ready() && p < |g.pkgs|
      modifies pkgState, depState, marked, garbage, `tally, `sizes, `groupLevel, `swept
      ensures Ready() && groupLevel == old(groupLevel)
      ensures ok == MayKeep(g, old(pkgState[..]), p, fromUser, depth)
      ensures OnlySummaries(KeepEffect(g, old(pkgState[..]), p, soft, fromUser, depth), pkgState[..])
      ensures !ok || old(pkgState[p].mode) == ModeKeep ==> pkgState[..] == old(pkgState[..])
    {
      hide *;
      ReadyFacts();
      ModeFacts(p);
      KeepFacts(g, pkgState[..], p, soft, fromUser, depth);
      if !IsModeChangeOk(g, pkgState[p], ModeKeep, p, depth, fromUser) { return false; }
      if g.pkgs[p].okState == NeedsUnpack && !g.Downloadable(g.pkgs[p].currentVer) { return false; }
      if pkgState[p].mode == ModeKeep { return true; }
      KeepAfterFlag(g, pkgState[..], p, soft);
      SetFlags(p, pkgState[p].(autoKept := soft));
      IncreaseActionGroupLevel();
      ChooseInGroup(p, KeepRecord(g, p, pkgState[p], soft));
      ReadyFacts();
      Release(false);
      return true;
    }

    method MarkAuto(p: nat, auto: bool)
      requires Ready() && p < |g.pkgs|
      modifies pkgState, marked, garbage, `groupLevel, `swept
      ensures Ready() && groupLevel == old(groupLevel)
      ensures pkgState[..] == old(pkgState[..])[p := old(pkgState[p]).(auto := auto)]
    {
      AutoIsQuiet(g, pkgState[..], p, auto);
      var next := pkgState[p].(auto := auto);
      hide *;
      IncreaseActionGroupLevel();
      RewriteInGroup(p, next);
      ReadyFacts();
      Release(false);
    }

    method MarkManual(l: seq<nat>)
      requires Ready() && forall i :: 0 <= i < |l| ==> l[i] < |g.vers|
      modifies pkgState, marked, garbage, `groupLevel, `swept
      ensures Ready() && groupLevel == old(groupLevel)
      ensures pkgState[..] == Demoted(old(pkgState[..]), ParentsOf(g, l))
    {
      hide *;
      ghost var ps := pkgState[..];
      ReadyFacts();
      DemotedNone(g, ps, l);
      for i := 0 to |l|
        invariant Ready() && groupLevel == old(groupLevel)
        invariant pkgState[..] == DemotedBy(g, ps, l[..i])
      {
        ReadyFacts();
        var q := ParentOf(g, l[i]);
        DemotedStep(g, ps, l, i);
        MarkAuto(q, false);
      }
      assert l[..|l|] == l;
      DemotedAll(g, ps, l);
    }

    /** A removed metapackage turns what it depends on into manually installed packages. */
    method MarkDependenciesManual(v: nat)
      requires Ready() && v < |g.vers|
      modifies pkgState, marked, garbage, `groupLevel, `swept
      ensures Ready() && groupLevel == old(groupLevel)
      ensures pkgState[..] == Demoted(old(pkgState[..]), ManualBelow(g, v, |g.vers[v].depends|))
    {
      hide *;
      ghost var ps := pkgState[..];
      ReadyFacts();
      ManualNone(g, ps, v);
      for i := 0 to |g.vers[v].depends|
        invariant Ready() && groupLevel == old(groupLevel)
        invariant pkgState[..] == Demoted(ps, ManualBelow(g, v, i))
      {
        ReadyFacts();
        ManualStep(g, ps, v, i);
        MarkManual(ManualTargets(g, v, i));
      }
    }

    method MarkDelete(p: nat, purge: bool, depth: nat, fromUser: bool) returns (ok: bool)
      requires Ready() && p < |g.pkgs|
      modifies pkgState, depState, marked, garbage, `tally, `sizes, `groupLevel, `swept
      ensures Ready() && groupLevel == old(groupLevel)
      ensures ok == (MayDelete(g, old(pkgState[..]), p, purge, depth, fromUser)
                     || DeletedAlready(g, old(pkgState[..]), p, purge, depth, fromUser))
      ensures OnlySummaries(DeleteEffect(g, old(pkgState[..]), p, purge, depth, fromUser), pkgState[..])
    {
      DeleteFacts(g, pkgState[..], p, purge, depth, fromUser);
      if !IsModeChangeOk(g, pkgState[p], ModeDelete, p, depth, fromUser) { return false; }
      if (pkgState[p].mode == ModeDelete || pkgState[p].installVer.None?) && (g.pkgs[p].purged || !purge) {
        return true;
      }
      if !IsDeleteOk(g, pkgState[p], p, fromUser) { return false; }
      DeletePackage(p, purge, depth, fromUser);
      return true;
    }

    /** The part of MarkDelete behind its checks. */
    method DeletePackage(p: nat, purge: bool, ghost depth: nat, fromUser: bool)
      requires Ready() && p < |g.pkgs| && MayDelete(g, pkgState[..], p, purge, depth, fromUser)
      modifies pkgState, depState, marked, garbage, `tally, `sizes, `groupLevel, `swept
      ensures Ready() && groupLevel == old(groupLevel)
      ensures OnlySummaries(DeleteEffect(g, old(pkgState[..]), p, purge, depth, fromUser), pkgState[..])
    {
      hide *;
      ghost var ps := pkgState[..];
      ReadyFacts();
      ModeFacts(p);
      DeleteFacts(g, ps, p, purge, depth, fromUser);
      SetFlags(p, pkgState[p].(autoKept := false, purge := purge));
      IncreaseActionGroupLevel();
      ReadyFacts();
      MarkRemovedMetapackage(p, fromUser);
      ReadyFacts();
      DeleteChoice(g, ps, pkgState[..], p, purge, depth, fromUser);
      ChooseInGroup(p, DeleteRecord(g, p, pkgState[p], purge));
      ReadyFacts();
      Release(false);
    }

    /** The dependencies of a metapackage about to be removed become manually installed. */
    method MarkRemovedMetapackage(p: nat, fromUser: bool)
      requires Ready() && p < |g.pkgs|
      modifies pkgState, marked, garbage, `groupLevel, `swept
      ensures Ready() && groupLevel == old(groupLevel)
      ensures pkgState[..] == Demoted(old(pkgState[..]), ManualSet(g, old(pkgState[..]), p, fromUser))
    {
      hide *;
      ReadyFacts();
      var pv := pkgState[p].installVer;
      ManualFacts(g, pkgState[..], p, fromUser);
      if !fromUser && pv.Some? && g.vers[pv.value].neverMarkAutoSection {
        MarkDependenciesManual(pv.value);
      }
    }

    /** The part of MarkInstall that changes the package, without installing dependencies. */
    method MarkInstallStateChange(p: nat, autoInst: bool, fromUser: bool) returns (ok: bool)
      requires Ready() && groupLevel > 0 && p < |g.pkgs| && pkgState[p].candidateVer.Some?
      modifies pkgState, depState, `tally, `sizes
      ensures Ready() && ok
      ensures OnlySummaries(StateChangeEffect(g, old(pkgState[..]), p, marked[p], autoInst, fromUser), pkgState[..])
    {
      hide *;
      ReadyFacts();
      ModeFacts(p);
      InstallFacts(g, pkgState[..], p, marked[p], autoInst, fromUser);
      if pkgState[p].protect && pkgState[p].installVer == pkgState[p].candidateVer { return true; }
      ChooseInGroup(p, InstallRecord(g, p, pkgState[p], marked[p], autoInst, fromUser));
      return true;
    }

    /** MarkInstall when dependencies are not to be solved automatically. */
    method MarkInstall(p: nat, depth: nat, fromUser: bool) returns (ok: bool)
      requires Ready() && p < |g.pkgs|
      modifies pkgState, depState, marked, garbage, `tally, `sizes, `groupLevel, `swept
      ensures Ready() && groupLevel == old(groupLevel)
      ensures ok == InstallAnswer(g, old(pkgState[..]), p, depth, fromUser)
      ensures OnlySummaries(InstallEffect(g, old(pkgState[..]), p, old(marked[p]), depth, fromUser), pkgState[..])
    {
      hide *;
      ReadyFacts();
      ModeFacts(p);
      ghost var ps := pkgState[..];
      var verdict := DecideInstall(p, depth, fromUser);
      InstallSplit(g, ps, p, marked[p], depth, fromUser);
      AutoKeptIsQuiet(g, ps, p);
      if verdict == Refuse { return false; }
      if verdict == Fine { return true; }
      if verdict == KeepIt {
        ok := MarkKeep(p, false, fromUser, depth + 1);
        return ok;
      }
      if verdict == NotInSync {
        SetFlags(p, pkgState[p].(autoKept := true));
        return false;
      }
      IncreaseActionGroupLevel();
      ok := MarkInstallStateChange(p, false, fromUser);
      ReadyFacts();
      Release(false);
    }

    method DecideInstall(p: nat, depth: nat, fromUser: bool) returns (verdict: Verdict)
      requires Shaped() && p < |g.pkgs|
      ensures verdict == InstallVerdict(g, pkgState[..], p, depth, fromUser)
      ensures verdict == Proceed ==> pkgState[p].candidateVer.Some?
    {
      var st, cur := pkgState[p], g.pkgs[p].currentVer;
      if !(st.protect && st.Keep() && st.candidateVer.Some? && st.candidateVer == cur) {
        if !IsModeChangeOk(g, st, ModeInstall, p, depth, fromUser) { return Refuse; }
      }
      if st.candidateVer.None? { return Refuse; }
      if !st.protect && !st.InstPolicyBroken() && !st.InstBroken() {
        if st.candidateVer == cur {
          return if st.installVer.None? then KeepIt else Fine;
        } else if st.mode == ModeInstall {
          return Fine;
        }
      }
      var ok := IsInstallOkMultiArchSameVersionSynced(p, fromUser);
      return if ok then Proceed else NotInSync;
    }

    method IsInstallOkMultiArchSameVersionSynced(p: nat, fromUser: bool) returns (ok: bool)
      requires Shaped() && p < |g.pkgs|
      ensures ok == InSync(g, pkgState[..], p, fromUser)
    {
      ghost var ps := pkgState[..];
      assert g.OwnVersion(p, ps[p].candidateVer);
      if fromUser { return true; }
      var cand := pkgState[p].candidateVer;
      if pkgState[p].mode == ModeInstall && pkgState[p].installVer == cand { return true; }
      if cand.None? || cand == g.pkgs[p].currentVer || !g.vers[cand.value].multiArchSame { return true; }
      for q := 0 to |g.pkgs|
        invariant forall r :: 0 <= r < q ==> !OutOfSync(g, ps, p, cand.value, r)
      {
        assert g.OwnVersion(q, ps[q].candidateVer);
        if g.pkgs[q].group != g.pkgs[p].group || g.pkgs[q].currentVer.None? || q == p { continue; }
        var cv := pkgState[q].candidateVer;
        if cv.None? || g.vers[cv.value].text == g.vers[cand.value].text { continue; }
        if !g.vers[cv.value].multiArchSame { continue; }
        if !g.vers[cv.value].downloadable { continue; }
        assert OutOfSync(g, ps, p, cand.value, q);
        return false;
      }
      return true;
    }

    /** Takes an installation back and forgets the candidate with it. */
    method MarkInstallDiscardInstall(p: nat) returns (ok: bool)
      requires Ready() && groupLevel > 0 && p < |g.pkgs|
      modifies pkgState, depState, `tally, `sizes
      ensures Ready() && ok
      ensures OnlySummaries(DiscardEffect(g, old(pkgState[..]), p), pkgState[..])
    {
      hide *;
      ReadyFacts();
      ModeFacts(p);
      ghost var ps := pkgState[..];
      DiscardFacts(g, ps, p);
      if NothingToDiscard(g, p, pkgState[p]) { return true; }
      ChooseInGroup(p, DiscardRecord(g, p, pkgState[p]));
      ReadyFacts();
      CandidateDropped(g, ps, pkgState[..], p);
      RewriteInGroup(p, pkgState[p].(candidateVer := pkgState[p].installVer));
      return true;
    }

    /**
      Makes version v the candidate of its package. What the old candidate provides is not walked
      again, so the cache stays in order exactly when CandidateFits.
    */
    method SetCandidateVersion(v: nat)
      requires Ready() && v < |g.vers|
      modifies pkgState, depState, marked, garbage, `tally, `sizes, `groupLevel, `swept
      ensures Shaped() && MarksOk(pkgState[..]) && groupLevel == old(groupLevel)
      ensures Ready() <==> CandidateFits(g, old(pkgState[..]), v)
      ensures OnlySummaries(var ps, p := old(pkgState[..]), ParentOf(g, v);
        if ps[p].candidateVer == Some(v) then ps else ps[p := CandidateRecord(g, p, ps[p], v)], pkgState[..])
    {
      hide *;
      ReadyFacts();
      SplitReady();
      var p := ParentOf(g, v);
      ModeFacts(p);
      CandidateFacts(g, pkgState[..], p, v);
      if pkgState[p].candidateVer == Some(v) { return; }
      IncreaseActionGroupLevel();
      ChooseBlindly(p, CandidateRecord(g, p, pkgState[p], v));
      Release(false);
      ReadyMeans();
    }

    /** Takes a package off all totals, rewrites its record and adds it again; no dependency is rechecked. */
    method Recount(p: nat, next: PkgState)
      requires Valid() && p < |g.pkgs| && SameChoice(g, p, pkgState[p], next)
      modifies pkgState, `tally, `sizes
      ensures Valid() && pkgState[..] == old(pkgState[..])[p := next]
    {
      hide *;
      ghost var s := State();
      StateParts();
      ValidMeans();
      RecountFacts(g, s, p, next);
      MakeShaped();
      AddSizes(p, true);
      assert sizes.Plus(SizeContrib(g, p, s.ps[p])) == s.sizes;
      AddStates(p, true);
      assert tally.Plus(StateContrib(g, p, s.ps[p])) == s.tally;
      ghost var restSizes, restTally := sizes, tally;
      pkgState[p] := next;
      assert pkgState[..] == s.ps[p := next];
      MakeShaped();
      AddStates(p, false);
      assert tally == restTally.Plus(StateContrib(g, p, next));
      AddSizes(p, false);
      assert sizes == restSizes.Plus(SizeContrib(g, p, next));
      Recounted(g, s, p, next, restTally, restSizes);
      StateParts();
      ValidMeans();
    }

    method RecountInGroup(p: nat, next: PkgState)
      requires Ready() && groupLevel > 0 && p < |g.pkgs| && SameChoice(g, p, pkgState[p], next)
      modifies pkgState, `tally, `sizes
      ensures Ready() && pkgState[..] == old(pkgState[..])[p := next]
    {
      hide Consistent, SameChoice;
      Recount(p, next);
    }

    method SetReInstall(p: nat, to: bool)
      requires Ready() && p < |g.pkgs|
      modifies pkgState, marked, garbage, `tally, `sizes, `groupLevel, `swept
      ensures Ready() && groupLevel == old(groupLevel)
      ensures pkgState[..] == ReInstalled(g, old(pkgState[..]), p, to, |g.pkgs|)
    {
      hide *;
      ghost var ps := pkgState[..];
      ReadyFacts();
      ReInstalledNone(g, ps, p, to);
      IncreaseActionGroupLevel();
      for q := 0 to |g.pkgs|
        invariant Ready() && groupLevel == old(groupLevel) + 1
        invariant pkgState[..] == ReInstalled(g, ps, p, to, q)
      {
        ReadyFacts();
        ModeFacts(q);
        ReInstalledStep(g, ps, p, to, q);
        if ReInstalledWith(g, p, q) {
          FlagIsSameChoice(g, q, pkgState[q], to);
          RecountInGroup(q, pkgState[q].(reInstall := to));
        }
      }
      ReadyFacts();
      Release(false);
    }

    /** The flag the resolver protects packages with; the root set changes, so the marks may be out of date. */
    method MarkProtected(p: nat)
      requires Ready() && p < |g.pkgs|
      modifies pkgState
      ensures Valid() && (groupLevel > 0 ==> Ready())
      ensures pkgState[..] == old(pkgState[..])[p := old(pkgState[p]).(protect := true)]
    {
      hide *;
      Protect(p, true);
    }

    /** The end of the protection a package has while its dependencies are solved. */
    method UnmarkProtected(p: nat)
      requires Ready() && p < |g.pkgs|
      modifies pkgState
      ensures Valid() && (groupLevel > 0 ==> Ready())
      ensures pkgState[..] == old(pkgState[..])[p := old(pkgState[p]).(protect := false)]
    {
      hide *;
      Protect(p, false);
    }

    method Protect(p: nat, protect: bool)
      requires Ready() && p < |g.pkgs|
      modifies pkgState
      ensures Valid() && (groupLevel > 0 ==> Ready())
      ensures pkgState[..] == old(pkgState[..])[p := old(pkgState[p]).(protect := protect)]
    {
      hide *;
      ReadyFacts();
      ModeFacts(p);
      ProtectIsQuiet(g, pkgState[..], p, protect);
      SplitReady();
      Rewrite(p, pkgState[p].(protect := protect));
      InGroupReady();
    }

    // ---------- Transactions ----------

    method TakeSnapshot() returns (snap: Snapshot)
      requires Ready()
      ensures SnapshotOf(snap) && Restorable(snap)
      ensures State() == CacheState(snap.ps, snap.ds, snap.tally, snap.sizes)
    {
      snap := Snapshot(pkgState[..], depState[..], tally, sizes, marked[..], garbage[..], swept);
    }

    ghost predicate SnapshotOf(snap: Snapshot)
      reads this, pkgState, depState, marked, garbage
    {
      snap == Snapshot(pkgState[..], depState[..], tally, sizes, marked[..], garbage[..], swept)
    }

    /** Rolling back to the snapshot at the present group level leaves the object in order. */
    ghost predicate Restorable(snap: Snapshot)
      reads `groupLevel, `marked, `garbage
    {
      Consistent(g, CacheState(snap.ps, snap.ds, snap.tally, snap.sizes)) && SnapshotMarksOk(snap)
    }

    ghost predicate SnapshotMarksOk(snap: Snapshot)
      reads `groupLevel, `marked, `garbage
    {
      && g.Valid() && |snap.ps| == |g.pkgs|
      && Filters(keep) && marked != garbage && |snap.marked| == |snap.garbage| == |snap.ps|
      && (groupLevel == 0 ==> UpToDate(g, keep, snap.ps, snap.marked, snap.garbage, snap.swept))
    }

    /** Puts everything back to what the snapshot recorded. */
    method Rollback(snap: Snapshot)
      requires Restorable(snap)
      requires pkgState.Length == marked.Length == garbage.Length == |snap.ps| && depState.Length == |snap.ds|
      modifies pkgState, depState, marked, garbage, `tally, `sizes, `swept
      ensures Ready() && SnapshotOf(snap)
      ensures State() == CacheState(snap.ps, snap.ds, snap.tally, snap.sizes)
    {
      hide *;
      RestorableFacts(snap);
      forall p | 0 <= p < pkgState.Length { pkgState[p] := snap.ps[p]; }
      forall d | 0 <= d < depState.Length { depState[d] := snap.ds[d]; }
      forall p | 0 <= p < marked.Length { marked[p] := snap.marked[p]; }
      forall p | 0 <= p < garbage.Length { garbage[p] := snap.garbage[p]; }
      tally, sizes, swept := snap.tally, snap.sizes, snap.swept;
      Restored(snap);
    }

    lemma RestorableShape(snap: Snapshot)
      requires Ready() && Restorable(snap)
      ensures pkgState.Length == marked.Length == garbage.Length == |snap.ps| && depState.Length == |snap.ds|
    {
    }

    lemma RestorableFacts(snap: Snapshot)
      requires Restorable(snap)
      ensures Consistent(g, CacheState(snap.ps, snap.ds, snap.tally, snap.sizes)) && SnapshotMarksOk(snap)
      ensures marked != garbage && |snap.marked| == |snap.garbage| == |snap.ps|
    {
    }

    lemma Restored(snap: Snapshot)
      requires Consistent(g, CacheState(snap.ps, snap.ds, snap.tally, snap.sizes)) && SnapshotMarksOk(snap)
      requires tally == snap.tally && sizes == snap.sizes && swept == snap.swept
      requires pkgState[..] == snap.ps && depState[..] == snap.ds && marked[..] == snap.marked
      requires garbage[..] == snap.garbage
      ensures Ready() && SnapshotOf(snap)
      ensures State() == CacheState(snap.ps, snap.ds, snap.tally, snap.sizes)
    {
    }
  }

  /** What a transaction copies when it begins. */
  datatype Snapshot = Snapshot(ps: seq<PkgState>, ds: seq<Byte>, tally: Tally, sizes: Sizes,
                               marked: seq<bool>, garbage: seq<bool>, swept: bool)
}
