/**
  What each state manipulator does to the package records, as functions of the
  records before it, and why each such change is one the repair can follow.
*/
module DepMarks {
  import opened Wrappers
  import opened DepGraph
  import opened DepBytes
  import opened DepSpec
  import opened DepLemmas
  import opened DepRepair
  import opened AutoremoveSpec

  // ---------- What the totals look at ----------

  /** Both records select the same version in the same way. */
  predicate SameToSizes(st: PkgState, st': PkgState) {
    st.installVer == st'.installVer && st.mode == st'.mode && st.status == st'.status && st.reInstall == st'.reInstall
  }

  predicate SameToCounters(st: PkgState, st': PkgState) {
    SameToSizes(st, st') && st.depState == st'.depState && st.purge == st'.purge
  }

  lemma SameSizes(g: Graph, p: nat, st: PkgState, st': PkgState)
    requires g.Valid() && p < |g.pkgs| && g.OwnVersion(p, st.installVer) && SameToSizes(st, st')
    ensures SizeContrib(g, p, st) == SizeContrib(g, p, st')
  {
    assert g.ValidPackage(p);
    hide g.Valid, g.ValidPackage;
  }

  lemma SameBroken(g: Graph, p: nat, st: PkgState, st': PkgState)
    requires p < |g.pkgs| && SameToCounters(st, st')
    ensures BrokenContrib(g, p, st) == BrokenContrib(g, p, st')
  {
  }

  lemma SameModes(g: Graph, p: nat, st: PkgState, st': PkgState)
    requires p < |g.pkgs| && SameToCounters(st, st')
    ensures ModeContrib(g, p, st) == ModeContrib(g, p, st')
  {
  }

  lemma SameCounters(g: Graph, p: nat, st: PkgState, st': PkgState)
    requires p < |g.pkgs| && SameToCounters(st, st')
    ensures StateContrib(g, p, st) == StateContrib(g, p, st')
  {
    SameBroken(g, p, st, st');
    SameModes(g, p, st, st');
    hide BrokenContrib, ModeContrib;
  }

  /** Flags no total and no check looks at. */
  lemma FlagsAreQuiet(g: Graph, ps: seq<PkgState>, p: nat, next: PkgState)
    requires ValidStates(g, ps) && p < |ps| && ModeOk(g, p, ps[p])
    requires SameToCounters(ps[p], next) && next.candidateVer == ps[p].candidateVer
    ensures Quiet(g, p, ps[p], next)
  {
    assert g.OwnVersion(p, ps[p].candidateVer) && g.OwnVersion(p, ps[p].installVer);
    SameCounters(g, p, ps[p], next);
    SameSizes(g, p, ps[p], next);
    hide StateContrib, SizeContrib, ValidStates;
  }

  // ---------- Keeping ----------

  predicate MayKeep(g: Graph, ps: seq<PkgState>, p: nat, fromUser: bool, depth: nat)
    requires g.Valid() && |ps| == |g.pkgs| && p < |ps|
  {
    assert g.ValidPackage(p);
    && IsModeChangeOk(g, ps[p], ModeKeep, p, depth, fromUser)
    && !(g.pkgs[p].okState == NeedsUnpack && !g.Downloadable(g.pkgs[p].currentVer))
  }

  function KeepRecord(g: Graph, p: nat, st: PkgState, soft: bool): PkgState
    requires p < |g.pkgs|
  {
    st.(autoKept := soft, mode := ModeKeep, installVer := g.pkgs[p].currentVer)
  }

  function KeepEffect(g: Graph, ps: seq<PkgState>, p: nat, soft: bool, fromUser: bool, depth: nat): seq<PkgState>
    requires g.Valid() && |ps| == |g.pkgs| && p < |ps|
  {
    if MayKeep(g, ps, p, fromUser, depth) && ps[p].mode != ModeKeep then ps[p := KeepRecord(g, p, ps[p], soft)] else ps
  }

  lemma KeepFacts(g: Graph, ps: seq<PkgState>, p: nat, soft: bool, fromUser: bool, depth: nat)
    requires ValidStates(g, ps) && p < |ps| && ModeOk(g, p, ps[p])
    ensures MayChoose(g, ps, p, KeepRecord(g, p, ps[p], soft))
    ensures var v := g.pkgs[p].currentVer;
      && (v.Some? ==> v.value < |g.vers|)
      && MayKeep(g, ps, p, fromUser, depth) ==
           (IsModeChangeOk(g, ps[p], ModeKeep, p, depth, fromUser)
            && !(g.pkgs[p].okState == NeedsUnpack && !g.Downloadable(v)))
    ensures OnlySummaries(ps, ps)
    ensures KeepEffect(g, ps, p, soft, fromUser, depth) ==
      if MayKeep(g, ps, p, fromUser, depth) && ps[p].mode != ModeKeep then ps[p := KeepRecord(g, p, ps[p], soft)]
        else ps
  {
    assert g.ValidPackage(p) && g.OwnVersion(p, ps[p].candidateVer);
  }

  /** Writing the AutoKept flag first and choosing afterwards is the same as doing both at once. */
  lemma KeepAfterFlag(g: Graph, ps: seq<PkgState>, p: nat, soft: bool)
    requires ValidStates(g, ps) && p < |ps| && ModeOk(g, p, ps[p])
    ensures var flagged := ps[p].(autoKept := soft);
      && Quiet(g, p, ps[p], flagged) && SameRecordForMarks(ps[p], flagged)
      && KeepRecord(g, p, flagged, soft) == KeepRecord(g, p, ps[p], soft)
      && MayChoose(g, ps[p := flagged], p, KeepRecord(g, p, ps[p], soft))
      && ps[p := flagged][p := KeepRecord(g, p, ps[p], soft)] == ps[p := KeepRecord(g, p, ps[p], soft)]
  {
    hide *;
    var flagged := ps[p].(autoKept := soft);
    AutoKeptOnly(g, ps, p, soft);
    FlagsAreQuiet(g, ps, p, flagged);
    KeepIsChoice(g, ps, ps[p := flagged], p, soft);
    assert ps[p := flagged][p := KeepRecord(g, p, ps[p], soft)] == ps[p := KeepRecord(g, p, ps[p], soft)];
  }

  lemma AutoKeptOnly(g: Graph, ps: seq<PkgState>, p: nat, soft: bool)
    requires ValidStates(g, ps) && p < |ps|
    ensures var st, flagged := ps[p], ps[p].(autoKept := soft);
      SameToCounters(st, flagged) && SameRecordForMarks(st, flagged) && p < |g.pkgs| == |ps| &&
      KeepRecord(g, p, st, soft) == KeepRecord(g, p, flagged, soft)
  {
  }

  /** Keeping is a choice the walk covers, whatever the mode was. */
  lemma KeepIsChoice(g: Graph, ps: seq<PkgState>, ps': seq<PkgState>, p: nat, soft: bool)
    requires ValidStates(g, ps) && p < |ps| == |ps'| && ModeOk(g, p, ps[p])
    requires ps'[p].installVer == ps[p].installVer
    ensures MayChoose(g, ps', p, KeepRecord(g, p, ps[p], soft))
  {
    assert g.ValidPackage(p) && g.OwnVersion(p, ps[p].candidateVer);
    hide g.Valid, g.ValidPackage;
  }

  lemma AutoIsQuiet(g: Graph, ps: seq<PkgState>, p: nat, auto: bool)
    requires ValidStates(g, ps) && p < |ps| && ModeOk(g, p, ps[p])
    ensures Quiet(g, p, ps[p], ps[p].(auto := auto))
  {
    FlagsAreQuiet(g, ps, p, ps[p].(auto := auto));
    hide Quiet;
  }

  /** The records with the packages in `manual` no longer automatically installed. */
  function Demoted(ps: seq<PkgState>, manual: set<nat>): (r: seq<PkgState>)
    ensures |r| == |ps|
  {
    seq(|ps|, q requires 0 <= q < |ps| => if q in manual then ps[q].(auto := false) else ps[q])
  }

  lemma DemotedTwice(ps: seq<PkgState>, a: set<nat>, b: set<nat>)
    ensures Demoted(Demoted(ps, a), b) == Demoted(ps, a + b)
  {
  }

  ghost function ParentsOf(g: Graph, l: seq<nat>): set<nat> {
    set i | 0 <= i < |l| && l[i] < |g.vers| :: g.vers[l[i]].parentPkg
  }

  function ParentOf(g: Graph, v: nat): (p: nat)
    requires g.Valid() && v < |g.vers|
    ensures p < |g.pkgs|
  {
    assert g.ValidVersion(v);
    g.vers[v].parentPkg
  }

  ghost function DemotedBy(g: Graph, ps: seq<PkgState>, l: seq<nat>): (r: seq<PkgState>)
    ensures |r| == |ps|
  {
    Demoted(ps, ParentsOf(g, l))
  }

  lemma DemotedNone(g: Graph, ps: seq<PkgState>, l: seq<nat>)
    ensures DemotedBy(g, ps, l[..0]) == ps
  {
    assert ParentsOf(g, l[..0]) == {};
  }

  lemma DemotedStep(g: Graph, ps: seq<PkgState>, l: seq<nat>, i: nat)
    requires g.Valid() && |ps| == |g.pkgs| && i < |l| && l[i] < |g.vers|
    ensures var q, before := ParentOf(g, l[i]), DemotedBy(g, ps, l[..i]);
      DemotedBy(g, ps, l[..i + 1]) == before[q := before[q].(auto := false)]
  {
    var q := ParentOf(g, l[i]);
    assert ParentsOf(g, l[..i + 1]) == ParentsOf(g, l[..i]) + {q} by {
      assert l[..i + 1] == l[..i] + [l[i]];
      assert l[..i + 1][i] == l[i];
      forall p | p in ParentsOf(g, l[..i]) ensures p in ParentsOf(g, l[..i + 1]) {
        var j :| 0 <= j < i && l[j] < |g.vers| && g.vers[l[j]].parentPkg == p;
        assert l[..i + 1][j] == l[j];
      }
    }
  }

  lemma DemotedAll(g: Graph, ps: seq<PkgState>, l: seq<nat>)
    ensures DemotedBy(g, ps, l) == Demoted(ps, ParentsOf(g, l))
  {
  }

  /** The installed packages entry i of a version's dependency list makes manual. */
  function ManualTargets(g: Graph, v: nat, i: nat): (l: seq<nat>)
    requires g.Valid() && v < |g.vers| && i < |g.vers[v].depends|
    ensures forall j :: 0 <= j < |l| ==> l[j] < |g.vers|
  {
    assert g.ValidVersion(v) && g.ValidDependency(g.vers[v].depends[i]);
    var d := g.vers[v].depends[i];
    if g.deps[d].multiArchImplicit || g.IsNegative(d) || !g.IsImportantDep(d) then [] else g.deps[d].installedTargets
  }

  lemma ManualNone(g: Graph, ps: seq<PkgState>, v: nat)
    requires g.Valid() && v < |g.vers|
    ensures Demoted(ps, ManualBelow(g, v, 0)) == ps
  {
  }

  lemma ManualStep(g: Graph, ps: seq<PkgState>, v: nat, i: nat)
    requires g.Valid() && v < |g.vers| && i < |g.vers[v].depends|
    ensures Demoted(Demoted(ps, ManualBelow(g, v, i)), ParentsOf(g, ManualTargets(g, v, i))) ==
      Demoted(ps, ManualBelow(g, v, i + 1))
  {
    DemotedTwice(ps, ManualBelow(g, v, i), ParentsOf(g, ManualTargets(g, v, i)));
  }

  /** The packages the first n dependencies of version v make manual. */
  ghost function ManualBelow(g: Graph, v: nat, n: nat): set<nat>
    requires g.Valid() && v < |g.vers| && n <= |g.vers[v].depends|
  {
    if n == 0 then {} else ManualBelow(g, v, n - 1) + ParentsOf(g, ManualTargets(g, v, n - 1))
  }

  /** A manual install request is not undone behind the user's back. */
  predicate IsDeleteOk(g: Graph, st: PkgState, p: nat, fromUser: bool)
    requires p < |g.pkgs|
  {
    !(!fromUser && g.pkgs[p].currentVer.None? && st.installVer.Some? && st.status == 2 && !st.auto)
  }

  predicate DeletedAlready(g: Graph, ps: seq<PkgState>, p: nat, purge: bool, depth: nat, fromUser: bool)
    requires |ps| == |g.pkgs| && p < |ps|
  {
    && IsModeChangeOk(g, ps[p], ModeDelete, p, depth, fromUser)
    && (ps[p].mode == ModeDelete || ps[p].installVer.None?) && (g.pkgs[p].purged || !purge)
  }

  predicate MayDelete(g: Graph, ps: seq<PkgState>, p: nat, purge: bool, depth: nat, fromUser: bool)
    requires |ps| == |g.pkgs| && p < |ps|
  {
    && IsModeChangeOk(g, ps[p], ModeDelete, p, depth, fromUser)
    && !DeletedAlready(g, ps, p, purge, depth, fromUser)
    && IsDeleteOk(g, ps[p], p, fromUser)
  }

  function DeleteRecord(g: Graph, p: nat, st: PkgState, purge: bool): PkgState
    requires p < |g.pkgs|
  {
    st.(autoKept := false, purge := purge, installVer := None,
        mode := if g.pkgs[p].currentVer.None? && (g.pkgs[p].purged || !purge) then ModeKeep else ModeDelete)
  }

  ghost function ManualSet(g: Graph, ps: seq<PkgState>, p: nat, fromUser: bool): set<nat>
    requires ValidStates(g, ps) && p < |ps|
  {
    assert g.OwnVersion(p, ps[p].installVer);
    if !fromUser && ps[p].installVer.Some? && g.vers[ps[p].installVer.value].neverMarkAutoSection then
      ManualBelow(g, ps[p].installVer.value, |g.vers[ps[p].installVer.value].depends|)
    else {}
  }

  lemma ManualFacts(g: Graph, ps: seq<PkgState>, p: nat, fromUser: bool)
    requires ValidStates(g, ps) && p < |ps|
    ensures var v := ps[p].installVer;
      && (v.Some? ==> v.value < |g.vers|)
      && ManualSet(g, ps, p, fromUser) ==
           (if !fromUser && v.Some? && g.vers[v.value].neverMarkAutoSection then
              ManualBelow(g, v.value, |g.vers[v.value].depends|) else {})
    ensures Demoted(ps, {}) == ps
  {
    assert g.OwnVersion(p, ps[p].installVer);
  }

  ghost function DeleteEffect(g: Graph, ps: seq<PkgState>, p: nat, purge: bool, depth: nat,
                              fromUser: bool): seq<PkgState>
    requires ValidStates(g, ps) && p < |ps|
  {
    if MayDelete(g, ps, p, purge, depth, fromUser) then
      var demoted := Demoted(ps, ManualSet(g, ps, p, fromUser));
      demoted[p := DeleteRecord(g, p, demoted[p], purge)]
    else ps
  }

  lemma DeleteFacts(g: Graph, ps: seq<PkgState>, p: nat, purge: bool, depth: nat, fromUser: bool)
    requires ValidStates(g, ps) && p < |ps| && ModeOk(g, p, ps[p])
    ensures g.OwnVersion(p, ps[p].installVer) && OnlySummaries(ps, ps)
    ensures var flagged := ps[p].(autoKept := false, purge := purge);
      && SameRecordForMarks(ps[p], flagged)
      && (MayDelete(g, ps, p, purge, depth, fromUser) ==> Quiet(g, p, ps[p], flagged))
  {
    assert g.OwnVersion(p, ps[p].candidateVer) && g.OwnVersion(p, ps[p].installVer);
    var flagged := ps[p].(autoKept := false, purge := purge);
    if MayDelete(g, ps, p, purge, depth, fromUser) {
      PurgeFlagCounts(g, p, ps[p], purge);
      hide StateContrib, SizeContrib, MayDelete;
    }
  }

  /** Before a deletion the purge flag may be rewritten while the package is still on the counters. */
  lemma PurgeFlagCounts(g: Graph, p: nat, st: PkgState, purge: bool)
    requires g.Valid() && p < |g.pkgs| && g.OwnVersion(p, st.installVer) && ModeOk(g, p, st)
    requires !(st.mode == ModeDelete || st.installVer.None?) || !(g.pkgs[p].purged || !purge)
    ensures var flagged := st.(autoKept := false, purge := purge);
      && ModeOk(g, p, flagged)
      && StateContrib(g, p, flagged) == StateContrib(g, p, st)
      && SizeContrib(g, p, flagged) == SizeContrib(g, p, st)
  {
    var flagged := st.(autoKept := false, purge := purge);
    SameSizes(g, p, st, flagged);
    PurgeFlagModes(g, p, st, purge);
    hide SizeContrib, ModeContrib, g.Valid;
  }

  lemma PurgeFlagModes(g: Graph, p: nat, st: PkgState, purge: bool)
    requires p < |g.pkgs| && ModeOk(g, p, st)
    requires !(st.mode == ModeDelete || st.installVer.None?) || !(g.pkgs[p].purged || !purge)
    ensures var flagged := st.(autoKept := false, purge := purge);
      ModeContrib(g, p, flagged) == ModeContrib(g, p, st)
  {
  }

  /** After the flags were written and dependencies made manual, the deletion itself is a legal choice. */
  lemma DeleteChoice(g: Graph, ps: seq<PkgState>, ps': seq<PkgState>, p: nat, purge: bool, depth: nat, fromUser: bool)
    requires ValidStates(g, ps) && p < |ps| && ModeOk(g, p, ps[p]) && MayDelete(g, ps, p, purge, depth, fromUser)
    requires var flagged := ps[p := ps[p].(autoKept := false, purge := purge)];
      ValidStates(g, flagged) && ps' == Demoted(flagged, ManualSet(g, flagged, p, fromUser))
    ensures MayChoose(g, ps', p, DeleteRecord(g, p, ps'[p], purge))
    ensures ps'[p := DeleteRecord(g, p, ps'[p], purge)] == DeleteEffect(g, ps, p, purge, depth, fromUser)
  {
    DeleteCovered(g, ps, ps', p, purge, depth, fromUser);
    hide MayChoose, ModeOk;
    assert g.OwnVersion(p, ps[p].installVer);
  }

  lemma DeleteCovered(g: Graph, ps: seq<PkgState>, ps': seq<PkgState>, p: nat, purge: bool, depth: nat, fromUser: bool)
    requires ValidStates(g, ps) && p < |ps| == |ps'| && ModeOk(g, p, ps[p])
    requires MayDelete(g, ps, p, purge, depth, fromUser)
    requires ps'[p].installVer == ps[p].installVer && ps'[p].candidateVer == ps[p].candidateVer
    requires ps'[p].status == ps[p].status
    ensures MayChoose(g, ps', p, DeleteRecord(g, p, ps'[p], purge))
  {
    assert g.OwnVersion(p, ps[p].candidateVer) && g.OwnVersion(p, ps[p].installVer);
  }

  // ---------- Installing ----------

  /** The record MarkInstall_StateChange leaves; `marked` is what the last mark-and-sweep said of the package. */
  function InstallRecord(g: Graph, p: nat, st: PkgState, marked: bool, autoInst: bool, fromUser: bool): PkgState
    requires p < |g.pkgs|
  {
    var cur := g.pkgs[p].currentVer;
    st.(autoKept := false, installVer := st.candidateVer,
        mode := if st.candidateVer == cur then ModeKeep else ModeInstall,
        auto := if fromUser && !g.config.markAuto then
                  st.auto && !(st.status == 2 || (cur.Some? && (autoInst || !marked)))
                else st.auto || st.status == 2)
  }

  function StateChangeEffect(g: Graph, ps: seq<PkgState>, p: nat, marked: bool, autoInst: bool,
                             fromUser: bool): seq<PkgState>
    requires |ps| == |g.pkgs| && p < |ps|
  {
    if ps[p].protect && ps[p].installVer == ps[p].candidateVer then ps
    else ps[p := InstallRecord(g, p, ps[p], marked, autoInst, fromUser)]
  }

  lemma InstallFacts(g: Graph, ps: seq<PkgState>, p: nat, marked: bool, autoInst: bool, fromUser: bool)
    requires ValidStates(g, ps) && p < |ps| && ModeOk(g, p, ps[p]) && ps[p].candidateVer.Some?
    ensures MayChoose(g, ps, p, InstallRecord(g, p, ps[p], marked, autoInst, fromUser))
    ensures OnlySummaries(ps, ps)
    ensures StateChangeEffect(g, ps, p, marked, autoInst, fromUser) ==
      if ps[p].protect && ps[p].installVer == ps[p].candidateVer then ps
      else ps[p := InstallRecord(g, p, ps[p], marked, autoInst, fromUser)]
  {
    assert g.OwnVersion(p, ps[p].candidateVer);
  }

  /** Package q is a sibling of p on another architecture whose candidate is another version. */
  predicate OutOfSync(g: Graph, ps: seq<PkgState>, p: nat, v: nat, q: nat)
    requires ValidStates(g, ps) && p < |ps| && q < |ps| && v < |g.vers|
  {
    assert g.OwnVersion(q, ps[q].candidateVer);
    var cv := ps[q].candidateVer;
    && g.pkgs[q].group == g.pkgs[p].group && q != p && g.pkgs[q].currentVer.Some?
    && cv.Some? && g.vers[cv.value].text != g.vers[v].text
    && g.vers[cv.value].multiArchSame && g.vers[cv.value].downloadable
  }

  /** The candidate of a Multi-Arch: same package has to be that of its installed siblings. */
  predicate InSync(g: Graph, ps: seq<PkgState>, p: nat, fromUser: bool)
    requires ValidStates(g, ps) && p < |ps|
  {
    var st := ps[p];
    assert g.OwnVersion(p, st.candidateVer);
    || fromUser
    || (st.mode == ModeInstall && st.installVer == st.candidateVer)
    || st.candidateVer.None? || st.candidateVer == g.pkgs[p].currentVer
    || !g.vers[st.candidateVer.value].multiArchSame
    || forall q :: 0 <= q < |ps| ==> !OutOfSync(g, ps, p, st.candidateVer.value, q)
  }

  datatype Verdict = Refuse | Fine | KeepIt | NotInSync | Proceed

  /** What MarkInstall decides before it changes anything. */
  function InstallVerdict(g: Graph, ps: seq<PkgState>, p: nat, depth: nat, fromUser: bool): Verdict
    requires ValidStates(g, ps) && p < |ps|
  {
    var st, cur := ps[p], g.pkgs[p].currentVer;
    if !(st.protect && st.Keep() && st.candidateVer.Some? && st.candidateVer == cur)
       && !IsModeChangeOk(g, st, ModeInstall, p, depth, fromUser) then Refuse
    else if st.candidateVer.None? then Refuse
    else if !st.protect && !st.InstPolicyBroken() && !st.InstBroken() && st.candidateVer == cur then
      if st.installVer.None? then KeepIt else Fine
    else if !st.protect && !st.InstPolicyBroken() && !st.InstBroken() && st.mode == ModeInstall then Fine
    else if !InSync(g, ps, p, fromUser) then NotInSync
    else Proceed
  }

  function InstallEffect(g: Graph, ps: seq<PkgState>, p: nat, marked: bool, depth: nat, fromUser: bool): seq<PkgState>
    requires ValidStates(g, ps) && p < |ps|
  {
    match InstallVerdict(g, ps, p, depth, fromUser)
    case KeepIt => KeepEffect(g, ps, p, false, fromUser, depth + 1)
    case NotInSync => ps[p := ps[p].(autoKept := true)]
    case Proceed => StateChangeEffect(g, ps, p, marked, false, fromUser)
    case _ => ps
  }

  function InstallAnswer(g: Graph, ps: seq<PkgState>, p: nat, depth: nat, fromUser: bool): bool
    requires ValidStates(g, ps) && p < |ps|
  {
    match InstallVerdict(g, ps, p, depth, fromUser)
    case KeepIt => MayKeep(g, ps, p, fromUser, depth + 1)
    case Fine => true
    case Proceed => true
    case _ => false
  }

  lemma AutoKeptIsQuiet(g: Graph, ps: seq<PkgState>, p: nat)
    requires ValidStates(g, ps) && p < |ps| && ModeOk(g, p, ps[p])
    ensures Quiet(g, p, ps[p], ps[p].(autoKept := true)) && SameRecordForMarks(ps[p], ps[p].(autoKept := true))
    ensures OnlySummaries(ps, ps) && OnlySummaries(ps[p := ps[p].(autoKept := true)], ps[p := ps[p].(autoKept := true)])
  {
    FlagsAreQuiet(g, ps, p, ps[p].(autoKept := true));
    hide Quiet, ModeOk, ValidStates;
  }

  lemma InstallSplit(g: Graph, ps: seq<PkgState>, p: nat, marked: bool, depth: nat, fromUser: bool)
    requires ValidStates(g, ps) && p < |ps|
    ensures InstallEffect(g, ps, p, marked, depth, fromUser) ==
      match InstallVerdict(g, ps, p, depth, fromUser)
      case KeepIt => KeepEffect(g, ps, p, false, fromUser, depth + 1)
      case NotInSync => ps[p := ps[p].(autoKept := true)]
      case Proceed => StateChangeEffect(g, ps, p, marked, false, fromUser)
      case _ => ps
    ensures InstallAnswer(g, ps, p, depth, fromUser) ==
      match InstallVerdict(g, ps, p, depth, fromUser)
      case KeepIt => MayKeep(g, ps, p, fromUser, depth + 1)
      case Fine => true
      case Proceed => true
      case _ => false
  {
  }

  // ---------- Taking an installation back ----------

  predicate NothingToDiscard(g: Graph, p: nat, st: PkgState)
    requires p < |g.pkgs|
  {
    st.mode == ModeKeep && st.installVer == st.candidateVer && st.candidateVer == g.pkgs[p].currentVer
  }

  function DiscardEffect(g: Graph, ps: seq<PkgState>, p: nat): seq<PkgState>
    requires |ps| == |g.pkgs| && p < |ps|
  {
    var cur := g.pkgs[p].currentVer;
    if NothingToDiscard(g, p, ps[p]) then ps
    else ps[p := ps[p].(installVer := cur, mode := ModeKeep, candidateVer := cur)]
  }

  function DiscardRecord(g: Graph, p: nat, st: PkgState): PkgState
    requires p < |g.pkgs|
  {
    st.(installVer := g.pkgs[p].currentVer, mode := ModeKeep)
  }

  lemma DiscardFacts(g: Graph, ps: seq<PkgState>, p: nat)
    requires ValidStates(g, ps) && p < |ps| && ModeOk(g, p, ps[p])
    ensures MayChoose(g, ps, p, DiscardRecord(g, p, ps[p])) && OnlySummaries(ps, ps)
    ensures NothingToDiscard(g, p, ps[p]) ==> DiscardEffect(g, ps, p) == ps
  {
    assert g.ValidPackage(p) && g.OwnVersion(p, ps[p].candidateVer);
  }

  /** Forgetting the candidate as well is invisible to the Now and Install results. */
  lemma CandidateDropped(g: Graph, ps: seq<PkgState>, ps': seq<PkgState>, p: nat)
    requires ValidStates(g, ps) && ValidStates(g, ps') && p < |ps| && ModeOk(g, p, ps[p])
    requires !NothingToDiscard(g, p, ps[p]) && OnlySummaries(ps[p := DiscardRecord(g, p, ps[p])], ps')
    ensures var next := ps'[p].(candidateVer := ps'[p].installVer);
      && Quiet(g, p, ps'[p], next)
      && OnlySummaries(DiscardEffect(g, ps, p), ps'[p := next])
  {
    var next := ps'[p].(candidateVer := ps'[p].installVer);
    var expected := ps[p := DiscardRecord(g, p, ps[p])];
    assert ps'[p] == expected[p].(depState := ps'[p].depState);
    DroppedIsQuiet(g, ps', p);
    DroppedRecords(g, ps, ps', p);
  }

  lemma DroppedIsQuiet(g: Graph, ps: seq<PkgState>, p: nat)
    requires ValidStates(g, ps) && p < |ps| && ps[p].mode == ModeKeep && ps[p].installVer == g.pkgs[p].currentVer
    ensures Quiet(g, p, ps[p], ps[p].(candidateVer := ps[p].installVer))
  {
    var next := ps[p].(candidateVer := ps[p].installVer);
    assert g.ValidPackage(p) && g.OwnVersion(p, ps[p].installVer);
    SameCounters(g, p, ps[p], next);
    SameSizes(g, p, ps[p], next);
    hide StateContrib, SizeContrib, g.Valid, g.ValidPackage;
  }

  lemma DroppedRecords(g: Graph, ps: seq<PkgState>, ps': seq<PkgState>, p: nat)
    requires |ps| == |g.pkgs| && p < |ps| && !NothingToDiscard(g, p, ps[p])
    requires OnlySummaries(ps[p := DiscardRecord(g, p, ps[p])], ps')
    ensures OnlySummaries(DiscardEffect(g, ps, p), ps'[p := ps'[p].(candidateVer := ps'[p].installVer)])
  {
    var expected := ps[p := DiscardRecord(g, p, ps[p])];
    assert ps'[p] == expected[p].(depState := ps'[p].depState);
    forall q | 0 <= q < |ps| && q != p ensures ps'[q] == ps[q].(depState := ps'[q].depState) {
      assert ps'[q] == expected[q].(depState := ps'[q].depState);
    }
  }

  // ---------- Reinstalling ----------

  /** An installed Multi-Arch: same package is reinstalled together with its installed siblings. */
  predicate ReInstalledWith(g: Graph, p: nat, q: nat)
    requires g.Valid() && p < |g.pkgs| && q < |g.pkgs|
  {
    assert g.ValidPackage(p);
    var cur := g.pkgs[p].currentVer;
    if cur.Some? && g.vers[cur.value].multiArchSame
      then g.pkgs[q].group == g.pkgs[p].group && g.pkgs[q].currentVer.Some?
    else q == p
  }

  /** The records with the flag written for the first n packages. */
  function ReInstalled(g: Graph, ps: seq<PkgState>, p: nat, to: bool, n: nat): (r: seq<PkgState>)
    requires g.Valid() && |ps| == |g.pkgs| && p < |ps|
    ensures |r| == |ps|
  {
    seq(|ps|, q requires 0 <= q < |ps| => if q < n && ReInstalledWith(g, p, q) then ps[q].(reInstall := to) else ps[q])
  }

  lemma ReInstalledStep(g: Graph, ps: seq<PkgState>, p: nat, to: bool, n: nat)
    requires g.Valid() && |ps| == |g.pkgs| && p < |ps| && n < |ps|
    ensures var r := ReInstalled(g, ps, p, to, n);
      ReInstalled(g, ps, p, to, n + 1) == if ReInstalledWith(g, p, n) then r[n := r[n].(reInstall := to)] else r
  {
  }

  lemma ReInstalledNone(g: Graph, ps: seq<PkgState>, p: nat, to: bool)
    requires g.Valid() && |ps| == |g.pkgs| && p < |ps|
    ensures ReInstalled(g, ps, p, to, 0) == ps
  {
  }

  lemma FlagIsSameChoice(g: Graph, p: nat, st: PkgState, to: bool)
    requires g.Valid() && p < |g.pkgs| && ModeOk(g, p, st)
    requires g.OwnVersion(p, st.candidateVer) && g.OwnVersion(p, st.installVer)
    ensures SameChoice(g, p, st, st.(reInstall := to))
  {
  }

  lemma ProtectIsQuiet(g: Graph, ps: seq<PkgState>, p: nat, protect: bool)
    requires ValidStates(g, ps) && p < |ps| && ModeOk(g, p, ps[p])
    ensures Quiet(g, p, ps[p], ps[p].(protect := protect))
  {
    FlagsAreQuiet(g, ps, p, ps[p].(protect := protect));
    hide Quiet;
  }

  // ---------- Another candidate ----------

  /** How the candidate compares to the installed version; 2 when there is nothing to compare. */
  function StatusOf(g: Graph, p: nat, cand: Option<nat>): (s: int)
    requires g.Valid() && p < |g.pkgs| && g.OwnVersion(p, cand)
  {
    assert g.ValidPackage(p);
    var P := g.pkgs[p];
    if P.currentVer.None? || P.versions == [] || cand.None? then 2
    else
      Compare(g.vers[cand.value].rank, g.vers[P.currentVer.value].rank)
  }

  lemma StatusOfFits(g: Graph, p: nat, st: PkgState)
    requires g.Valid() && p < |g.pkgs| && g.OwnVersion(p, st.candidateVer)
    requires st.status == StatusOf(g, p, st.candidateVer)
    ensures StatusFits(g, p, st)
  {
    assert g.ValidPackage(p);
    if st.candidateVer.Some? { assert g.ValidVersion(st.candidateVer.value); }
  }

  // ---------- The initial state ----------

  /** Everything is kept exactly as it is. */
  function InitialRecord(g: Graph, p: nat, cand: Option<nat>): PkgState
    requires g.Valid() && p < |g.pkgs| && g.OwnVersion(p, cand)
  {
    PkgState(cand, g.pkgs[p].currentVer, false, false, false, false, false, StatusOf(g, p, cand), ModeKeep,
      ZERO_SUMMARY)
  }

  ghost predicate ValidCandidates(g: Graph, candidates: seq<Option<nat>>) {
    g.Valid() && |candidates| == |g.pkgs| && forall p :: 0 <= p < |candidates| ==> g.OwnVersion(p, candidates[p])
  }

  function InitialRecords(g: Graph, candidates: seq<Option<nat>>): (ps: seq<PkgState>)
    requires ValidCandidates(g, candidates)
    ensures |ps| == |g.pkgs|
  {
    seq(|g.pkgs|, p requires 0 <= p < |g.pkgs| => InitialRecord(g, p, candidates[p]))
  }

  /** The Auto flags the state file holds, for the first n packages; it is ignored for packages without versions. */
  function WithAutoFlags(g: Graph, ps: seq<PkgState>, auto: set<nat>, n: nat): (r: seq<PkgState>)
    requires |ps| == |g.pkgs|
    ensures |r| == |ps|
  {
    seq(|ps|, p requires 0 <= p < |ps| => if p < n && p in auto && g.pkgs[p].versions != [] then ps[p].(auto := true)
      else ps[p])
  }

  lemma InitialShaped(g: Graph, candidates: seq<Option<nat>>)
    requires ValidCandidates(g, candidates)
    ensures ValidStates(g, InitialRecords(g, candidates))
    ensures forall p :: 0 <= p < |g.pkgs| ==> ModeOk(g, p, InitialRecords(g, candidates)[p])
  {
    var ps := InitialRecords(g, candidates);
    forall p | 0 <= p < |ps|
      ensures g.OwnVersion(p, ps[p].candidateVer) && g.OwnVersion(p, ps[p].installVer) && ModeOk(g, p, ps[p])
    {
      assert g.ValidPackage(p) && g.OwnVersion(p, candidates[p]);
      StatusOfFits(g, p, ps[p]);
    }
  }

  lemma AutoFlagsNone(g: Graph, ps: seq<PkgState>, auto: set<nat>)
    requires |ps| == |g.pkgs|
    ensures WithAutoFlags(g, ps, auto, 0) == ps
  {
  }

  lemma AutoFlagsStep(g: Graph, ps: seq<PkgState>, auto: set<nat>, n: nat)
    requires |ps| == |g.pkgs| && n < |ps|
    ensures var r := WithAutoFlags(g, ps, auto, n);
      WithAutoFlags(g, ps, auto, n + 1) == if n in auto && g.pkgs[n].versions != [] then r[n := r[n].(auto := true)]
        else r
  {
  }

  lemma AutoFlagsKeepSummaries(g: Graph, ps: seq<PkgState>, ps': seq<PkgState>, auto: set<nat>, n: nat)
    requires |ps| == |g.pkgs| && OnlySummaries(ps, ps')
    ensures OnlySummaries(WithAutoFlags(g, ps, auto, n), WithAutoFlags(g, ps', auto, n))
  {
  }
}
