/**
  Runs of the cache that end where its promises do: a conflict nothing counts, and a dependency
  whose stored result is wrong. They show that the states in question are reached.
*/
module DepWitness {
  import opened Wrappers
  import opened DepGraph
  import opened DepBytes
  import opened DepSpec
  import opened DepLemmas
  import opened DepMarks
  import opened DepCandidate
  import opened DepMeaning
  import opened AutoremoveWalk
  import opened Autoremove
  import opened DependencyCache

  /** What a run has chosen for a package so far. */
  datatype Choice = Choice(cand: Option<nat>, inst: Option<nat>, mode: Mode)

  predicate HasChosen(st: PkgState, choice: Choice) {
    st.candidateVer == choice.cand && st.installVer == choice.inst && st.mode == choice.mode && !st.protect
  }

  ghost predicate AllChosen(ps: seq<PkgState>, choices: seq<Choice>) {
    |ps| == |choices| && forall p :: 0 <= p < |ps| ==> HasChosen(ps[p], choices[p])
  }

  /** Everything is kept as it is. */
  ghost function Untouched(g: Graph, candidates: seq<Option<nat>>): (r: seq<Choice>)
    requires |candidates| == |g.pkgs|
    ensures |r| == |candidates|
    ensures forall p :: 0 <= p < |r| ==> r[p] == Choice(candidates[p], g.pkgs[p].currentVer, ModeKeep)
  {
    seq(|candidates|, p requires 0 <= p < |candidates| => Choice(candidates[p], g.pkgs[p].currentVer, ModeKeep))
  }

  /** A fresh cache with an action group open. */
  method FreshCache(g: Graph, candidates: seq<Option<nat>>) returns (c: DepCache)
    requires ValidCandidates(g, candidates)
    ensures fresh(c) && fresh(c.pkgState) && fresh(c.depState) && fresh(c.marked) && fresh(c.garbage)
    ensures c.g == g && c.Ready() && c.groupLevel == 1 && c.pkgState.Length == |g.pkgs| == |candidates|
    ensures AllChosen(c.pkgState[..], Untouched(g, candidates))
  {
    var keep := (d: nat, l: seq<nat>) => l;
    KeepsAllProviders(keep);
    hide *;
    c := new DepCache(g, keep, candidates, {});
    c.ReadyFacts();
    InitiallyChosen(g, candidates, c.pkgState[..]);
    c.IncreaseActionGroupLevel();
  }

  lemma KeepsAllProviders(keep: ProviderFilter)
    requires forall d, l :: keep(d, l) == l
    ensures Filters(keep)
  {
  }

  lemma InitiallyChosen(g: Graph, candidates: seq<Option<nat>>, ps: seq<PkgState>)
    requires ValidCandidates(g, candidates)
    requires OnlySummaries(WithAutoFlags(g, InitialRecords(g, candidates), {}, |g.pkgs|), ps)
    ensures |ps| == |g.pkgs| == |candidates| && AllChosen(ps, Untouched(g, candidates))
  {
    var base := WithAutoFlags(g, InitialRecords(g, candidates), {}, |g.pkgs|);
    hide StatusOf;
    forall p | 0 <= p < |ps| ensures HasChosen(ps[p], Choice(candidates[p], g.pkgs[p].currentVer, ModeKeep)) {
      assert ps[p] == base[p].(depState := ps[p].depState) && base[p] == InitialRecord(g, p, candidates[p]);
    }
  }

  /** Selects the candidate of package p, which is not its current version. */
  method Select(c: DepCache, p: nat, ghost choices: seq<Choice>)
    requires c.Ready() && c.groupLevel > 0 && p < |c.g.pkgs| && AllChosen(c.pkgState[..], choices)
    requires |choices| == |c.g.pkgs| && choices[p].cand.Some? && choices[p].cand != c.g.pkgs[p].currentVer
    modifies c.pkgState, c.depState, c`tally, c`sizes
    ensures c.Ready() && c.groupLevel == old(c.groupLevel)
    ensures AllChosen(c.pkgState[..], choices[p := Choice(choices[p].cand, choices[p].cand, ModeInstall)])
  {
    hide *;
    ghost var ps := c.pkgState[..];
    c.ReadyFacts();
    ChoiceOf(ps, choices, p);
    ghost var m := c.marked[p];
    var _ := c.MarkInstallStateChange(p, false, true);
    CandidateChosen(c.g, ps, c.pkgState[..], p, m, choices);
  }

  lemma ChoiceOf(ps: seq<PkgState>, choices: seq<Choice>, p: nat)
    requires AllChosen(ps, choices) && p < |choices|
    ensures p < |ps| && !ps[p].protect && ps[p].candidateVer == choices[p].cand && ps[p].installVer == choices[p].inst
    ensures ps[p].mode == choices[p].mode
  {
    assert HasChosen(ps[p], choices[p]);
  }

  lemma CandidateChosen(g: Graph, ps: seq<PkgState>, ps': seq<PkgState>, p: nat, marked: bool, choices: seq<Choice>)
    requires |ps| == |g.pkgs| && p < |ps| && AllChosen(ps, choices) && choices[p].cand != g.pkgs[p].currentVer
    requires OnlySummaries(StateChangeEffect(g, ps, p, marked, false, true), ps')
    ensures AllChosen(ps', choices[p := Choice(choices[p].cand, choices[p].cand, ModeInstall)])
  {
    var next := StateChangeEffect(g, ps, p, marked, false, true);
    ChoiceOf(ps, choices, p);
    forall q | 0 <= q < |ps| && q != p ensures HasChosen(ps'[q], choices[q]) {
      assert ps'[q] == next[q].(depState := ps'[q].depState) && next[q] == ps[q] && HasChosen(ps[q], choices[q]);
    }
    assert ps'[p] == next[p].(depState := ps'[p].depState);
  }

  /** Both packages are to be installed although one conflicts with the other, and nothing is broken. */
  method ConflictReached() returns (c: DepCache)
    ensures c.g == ALTERNATIVE_CONFLICTS && c.Ready() && ValidStates(c.g, c.pkgState[..])
    ensures c.tally.broken == 0 && Closed(c.g, c.pkgState[..]) && !ConflictFree(c.g, c.pkgState[..])
  {
    hide *;
    var candidates := [Some(0), Some(1), Some(2)];
    AlternativesStart(ALTERNATIVE_CONFLICTS, candidates);
    c := FreshCache(ALTERNATIVE_CONFLICTS, candidates);
    ghost var choices := Untouched(c.g, candidates);
    Select(c, 0, choices);
    ghost var next := choices[0 := Choice(Some(0), Some(0), ModeInstall)];
    Select(c, 1, next);
    c.ReadyState();
    ConflictMissed(c.g, c.State(), next[1 := Choice(Some(1), Some(1), ModeInstall)]);
  }

  lemma AlternativesStart(g: Graph, candidates: seq<Option<nat>>)
    requires g == ALTERNATIVE_CONFLICTS && candidates == [Some(0), Some(1), Some(2)]
    ensures ValidCandidates(g, candidates) && |g.pkgs| == |candidates| == 3
    ensures Untouched(g, candidates) ==
      [Choice(Some(0), None, ModeKeep), Choice(Some(1), None, ModeKeep), Choice(Some(2), None, ModeKeep)]
    ensures g.pkgs[0].currentVer == g.pkgs[1].currentVer == None
  {
    AlternativeConflictsExist(g);
  }

  lemma ConflictMissed(g: Graph, s: CacheState, choices: seq<Choice>)
    requires g == ALTERNATIVE_CONFLICTS && Consistent(g, s) && AllChosen(s.ps, choices) && |choices| == 3
    requires choices[0].inst == Some(0) && choices[1].inst == Some(1) && choices[2].inst == None
    ensures ValidStates(g, s.ps) && s.tally.broken == 0 && Closed(g, s.ps) && !ConflictFree(g, s.ps)
  {
    AlternativeConflictsExist(g);
    ChoiceOf(s.ps, choices, 0);
    ChoiceOf(s.ps, choices, 1);
    ChoiceOf(s.ps, choices, 2);
    hide *;
    AlternativeConflictsMissed(g, s);
    NothingBrokenMeans(g, s);
  }

  /** Making version 1 the candidate of package 0, which is to be installed in version 0, leaves a wrong result. */
  method StaleResultReached() returns (c: DepCache)
    ensures c.g == PROVIDER_CHANGES && c.Shaped() && !c.Valid()
  {
    hide *;
    var candidates := [Some(0), Some(2), None];
    ProvidersStart(PROVIDER_CHANGES, candidates);
    c := FreshCache(PROVIDER_CHANGES, candidates);
    ghost var choices := Untouched(c.g, candidates);
    Select(c, 0, choices);
    ChoiceOf(c.pkgState[..], choices[0 := Choice(Some(0), Some(0), ModeInstall)], 0);
    c.ReadyFacts();
    c.ModeFacts(0);
    c.StateParts();
    ProviderChangesMissed(c.g, c.pkgState[..]);
    c.SetCandidateVersion(1);
    c.ReadyMeans();
  }

  lemma ProvidersStart(g: Graph, candidates: seq<Option<nat>>)
    requires g == PROVIDER_CHANGES && candidates == [Some(0), Some(2), None]
    ensures ValidCandidates(g, candidates) && |g.pkgs| == |candidates| == 3 && |g.vers| == 3
    ensures Untouched(g, candidates)[0] == Choice(Some(0), None, ModeKeep) && g.pkgs[0].currentVer == None
  {
    ProviderChangesValid(g);
  }
}
