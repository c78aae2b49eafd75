# APT's dependency and download engines, modelled in Dafny

The project models five parts of APT and proves what they are relied on for.

* **Dependency cache** (`DepGraph`, `DepBytes`, `DepSpec`, `DepLemmas`, `DepRepair`, `DepCheck`,
  `DepMarks`, `DepCandidate`, `DepCache`, `DepRun`, `DepMeaning`, `DepTerms`, `DepVerdicts`,
  `DepWitness`). Every mark operation repairs in place what the full pass would recompute. Main
  results: after any run of operations, with action groups and transactions nested at will, the
  state equals a full recomputation, so the built-in self-check never warns (`DepRun.CheckedRun`,
  `DepCheck.IncrementalEqualsFull`); what a broken count of zero says of the selection, exactly
  (`DepMeaning.BrokenCountExact`, `DepMeaning.NothingBrokenMeans`, and in the kinds of the
  dependencies `DepTerms.NothingBrokenInTerms`); what every counter and size is (`DepTerms`); and
  when each mark operation says yes, and what that is worth (`DepVerdicts`).
* **Autoremove** (`AutoremoveSpec`, `AutoremoveWalk`, `AutoremoveReasons`, `Autoremove`). The
  depth-first mark with its second memo table is plain reachability if no provider is dropped;
  whatever filter drops providers, the lazily updated marks are those of a fresh walk, every root is
  marked, and nothing is marked without a reason.
* **Problem resolvers** (`Resolver`). ResolveByKeep terminates, changes nothing but to keep packages,
  and stops only when there is nothing left to keep; both resolvers answer yes only when every hard
  requirement of what is selected is met.
* **Download protocols** (`MergeDiffs`, `IndexDiffs`, `Transactions`, `Redirections`, `FetchQueue`).
  The two pdiff protocols, the commit that may be interrupted, the end of every chain of redirects
  and failures, and the queue accounting.
* **Pattern language** (`PatternText`, `PatternSpec`, `PatternParser`, `PatternSyntax`,
  `PatternProofs`, `PatternRoundTrip`, `PatternGrammar`, `PatternSound`). The recursive-descent parser
  against a functional specification, and that specification against a printer, a surface syntax and
  a grammar.

## How the model is built

Packages, versions, dependencies and provides are numbered records of an immutable graph whose
cross references are assumed consistent (`Graph.Valid`). Version comparison is not modelled: a
dependency names the versions and provides satisfying it, a version has a rank. The bodies of
IsCritical, IsNegative, IsIgnorable and IsImportantDep are those of apt-pkg/pkgcache.cc:602-797 and
apt-pkg/depcache.cc:2241-2261. The two packed bytes are records of booleans, bit by bit. The seven
counters are one record, and so are the two size totals; counters are natural numbers, so every
subtraction has been proved not to underflow. The Marked and Garbage fields of a package record are
arrays of their own. Configuration switches, the candidate a policy picks, the Auto flags of the
state file, the root set and the order a score gives to packages are inputs.

The consistency invariant (`DepSpec.Consistent`) holds the Now and the Install results only. The
candidate results are stored and scanned as the program does, but nothing is claimed of them,
because a candidate may change without an update (apt-pkg/depcache.cc:1246-1254).

## Where code and expectation differ

* CheckConsistency reports every mismatch as a warning, but its answer is made of pending errors, so
  it answers yes whatever it finds (apt-pkg/contrib/error.cc:161-162, `DependencyCache.DepCache.CheckConsistency`).
* A new candidate for a package about to be installed can leave dependencies on what the old
  candidate provided with stale results, and one that is the current version leaves the package to
  be "installed" in the version it has (`DepCandidate.ProviderChangesMissed`,
  `DepWitness.StaleResultReached`); the exact condition is `DepCandidate.CandidateFits`.
* An or-group that ends in a negative dependency is judged by that last member alone, and one that
  starts with an uncritical member not at all (`DepMeaning.AlternativeConflictsMissed`,
  `DepWitness.ConflictReached`). What a broken count of zero says is `DepMeaning.BrokenCountExact`;
  it means freedom from conflicts exactly when there is no hidden one (`DepMeaning.NothingBrokenMeans`).
  Section 7.1 of the Debian Policy Manual has no alternatives in negative fields, and then nothing
  can be hidden (`DepMeaning.NothingBrokenMeansClosed`).
* That each owner is the primary owner of at most one queue entry does not suffice for the pipe
  accounting (`FetchQueue.SharedOwnerMiscounts`); it is right exactly when who leads an entry waits in
  no other (`FetchQueue.CountingNeedsLeadersApart`). Sharing secondary owners does no harm.
* The release file is committed last so that it never stands beside index files it does not match; but
  an index file that could not be moved is not looked at (`Transactions.FailureIgnored`, and
  `Transactions.IndexFileLost` for a concrete input). It keeps the promise exactly when the release
  file itself ends badly or every other item meets no failure or had nothing to change
  (`Transactions.ReleaseVouches`, and `Transactions.CommitExactly` for the single item).
* A comment in Enqueue speaks of inserting before anything with a higher priority; the code inserts
  behind everything of at least the same key, and delayed entries, which sort first, hold up the
  queue (`FetchQueue.DelayBlocksQueue`).
* The header promises that there may be whitespace behind a pattern; this is so only behind a long
  form without argument list (`PatternRoundTrip.SentenceParsed`).
* A word of a short form may begin with a tab or line break, which is lost when it is printed and
  parsed again (`PatternRoundTrip.TabIsLost`, `PatternRoundTrip.ParseRenderParse`).
* The looping error of ResolveByKeep is not needed for termination: the restarts are bounded without
  it (`Resolver.ProblemResolver.ResolveByKeepInternal`).
* A server-merged chain that has used up its patches stages the file without comparing it with the
  target (`IndexDiffs.WrongFileStaged`); what it stages is wrong exactly when the last patch of the list
  made something else than the target (`IndexDiffs.Chain.Done`, `IndexDiffs.Run`).
* An owner may ask for a URI while he waits elsewhere; the pipe accounts stay right exactly when he may
  join the entry (`FetchQueue.JoinExactly`) or, for an entry of his own, waits for nothing
  (`FetchQueue.PlaceExactly`, `FetchQueue.Fetcher.Enqueue`).

## Model

| member | source | states |
|---|---|---|
| DependencyCache.DepCache.CheckDep | apt-pkg/depcache.cc:455-520 | a dependency is a hit iff the chosen version of its target, or a chosen provider of the target, satisfies it; ignorable self and group conflicts never are, and Obsoletes looks at no providers |
| DependencyCache.DepCache.DependencyState | apt-pkg/depcache.cc:716-728 | the three results (Now, Install, Candidate) of that check |
| DependencyCache.DepCache.GlobOr | apt-pkg/pkgcache.cc:745-757 | steps over exactly one or-group: first member, last member, the entry behind it |
| DependencyCache.DepCache.VersionState | apt-pkg/depcache.cc:683-709 | the minimum check fails iff an or-group beginning with Depends, Pre-Depends, Conflicts, Breaks or Obsoletes has a last byte that fails the test; the policy check iff one of those, a Recommends the configuration or the section asks for, or a Suggests the configuration asks for begins such a group; the early return loses nothing |
| DependencyCache.DepCache.BuildGroupOrs | apt-pkg/depcache.cc:651-675 | every byte of the version becomes the one its own low bits demand, all other bytes stay |
| DependencyCache.DepCache.UpdateVerState | apt-pkg/depcache.cc:735-763 | afterwards the Now, Inst and Cand summary bits of the package are low exactly when the scan of its current, selected or candidate version fails; nothing else of the record changes |
| DependencyCache.DepCache.AddStates | apt-pkg/depcache.cc:596-645 | adds the package's share to the seven counters, or takes exactly it off; no counter goes below zero |
| DependencyCache.DepCache.AddSizes | apt-pkg/depcache.cc:525-586 | the same for the two size totals, reinstallation and removal included |
| DependencyCache.DepCache.UpdateDep | apt-pkg/depcache.cc:826-843 | one recheck, rebuild and rescan makes this dependency up to date and leaves no other one, no summary and no counter behind |
| DependencyCache.DepCache.UpdatePkg | apt-pkg/depcache.cc:849-870 | the walk over reverse dependencies and over what the current and the candidate version provide repairs exactly the covered dependencies, cycles included, and leaves the low bits of all others alone |
| DependencyCache.DepCache.PerformDependencyPass | apt-pkg/depcache.cc:769-815 | all bytes, summaries, counters and sizes are those a definition over the chosen versions gives |
| DependencyCache.DepCache.constructor | apt-pkg/depcache.cc:227-282 | a fresh cache keeps everything as it is, is consistent and has up-to-date marks |
| DependencyCache.DepCache.Init | apt-pkg/depcache.cc:227-282 | the same for the buffers of an existing object |
| DependencyCache.DepCache.ReadStateFile | apt-pkg/depcache.cc:284-337 | only Auto flags of packages with versions are set, and the cache stays consistent |
| DependencyCache.DepCache.CheckConsistency | apt-pkg/depcache.cc:140-222 | warns iff something stored is wrong: a package said to be broken or not against the package data, a counter other than that of the upgrades that is not the number of packages it is about, or a size that does not add up; never about a consistent cache; puts the original buffers and totals back; and answers yes whatever it found, because warnings are not pending errors |
| DependencyCache.DepCache.Choose | apt-pkg/depcache.cc:994-1005 | the RemoveSizes/RemoveStates, change, AddStates, Update, AddSizes section: only the one record and summaries change, and the cache stays consistent iff mode and version go together and the walk overlooks no dependency whose result changes |
| DependencyCache.DepCache.ChooseInGroup | apt-pkg/depcache.cc:994-1005 | for a choice among nothing, the current and the candidate version it always stays consistent |
| DependencyCache.DepCache.IncreaseActionGroupLevel | apt-pkg/depcache.cc:91-94 | opens a group; the object stays in order |
| DependencyCache.DepCache.Release | apt-pkg/depcache.cc:78-103 | leaving the outermost group makes the marks those of a fresh mark-and-sweep; a released or unbalanced group does nothing |
| DependencyCache.DepCache.MarkKeep | apt-pkg/depcache.cc:953-1008 | answer and new records, refusals included; the cache stays consistent and marks stay lazily up to date; without a change of mode nothing changes at all |
| DependencyCache.DepCache.MarkDelete | apt-pkg/depcache.cc:1013-1088 | the same for deletion and purge, with the dependencies of a removed metapackage becoming manual |
| DependencyCache.DepCache.MarkDependenciesManual | apt-pkg/depcache.cc:1048-1067 | exactly the installed targets of important positive dependencies lose their Auto flag |
| DependencyCache.DepCache.MarkInstall | apt-pkg/depcache.cc:1648-1682 | answer and new records of an installation without automatic dependency solving, every refusal and the keep instead of install included |
| DependencyCache.DepCache.MarkInstallStateChange | apt-pkg/depcache.cc:1205-1244 | the record of an installation, Auto flag rules included |
| DependencyCache.DepCache.IsInstallOkMultiArchSameVersionSynced | apt-pkg/depcache.cc:1820-1866 | refuses iff an installed sibling on another architecture has another downloadable Multi-Arch: same candidate |
| DependencyCache.DepCache.MarkInstallDiscardInstall | apt-pkg/depcache.cc:1246-1272 | takes an installation and the candidate with it back; the stale candidate results never reach a Now or Install result |
| DependencyCache.DepCache.SetCandidateVersion | apt-pkg/depcache.cc:1967-1989 | the new record, marks still lazily up to date; the cache stays consistent iff CandidateFits: the package is not about to be installed, or the candidate is not its current version and all that only the old candidate satisfied by what it provides is walked |
| DependencyCache.DepCache.SetReInstall | apt-pkg/depcache.cc:1922-1957 | the flag is written for the package, or for all installed siblings of a Multi-Arch: same one; counters and sizes follow although nothing is rechecked |
| DependencyCache.DepCache.MarkAuto | apt-pkg/depcache.cc:2162-2172 | changes one Auto flag and nothing else |
| DependencyCache.DepCache.MarkProtected | apt-pkg/depcache.h:439 | keeps the cache consistent; the marks only stay lazily up to date inside an action group |
| DependencyCache.DepCache.UnmarkProtected | apt-pkg/depcache.cc:1721-1738 | the same for the end of the protection an automatic installation sets up for its package |
| DependencyCache.DepCache.TakeSnapshot | apt-pkg/depcache.cc:2670-2692 | copies everything a rollback needs |
| DependencyCache.DepCache.Rollback | apt-pkg/depcache.cc:2694-2708 | restores the copied state exactly, and that state is in order |
| DepLemmas.UpdateCoverage | apt-pkg/depcache.cc:849-870 | a dependency outside the walked lists keeps its Now and Install results when one package moves among nothing, its current and its candidate version |
| DepLemmas.GroupBeforeBit | apt-pkg/depcache.cc:651-675 | a gathered group bit is set iff some earlier member of the same or-group has it |
| DepLemmas.CanonByteAgrees | apt-pkg/depcache.cc:788-806 | bytes built from low bits that agree for Now and Install agree for Now and Install |
| DepLemmas.TotalAtLeast | apt-pkg/depcache.cc:596-645 | the sum over all packages is at least the share of each, so taking one off cannot underflow |
| DepRepair.DepUpdated | apt-pkg/depcache.cc:826-843 | the invariant of the incremental walk, one dependency at a time |
| DepRepair.ChoiceMade | apt-pkg/depcache.cc:994-1004 | after the record has changed only covered and overlooked dependencies and one summary can be out of date |
| DepRepair.ChoiceRepaired | apt-pkg/depcache.cc:994-1005 | after the walk the whole cache is consistent iff nothing was overlooked and mode and version go together |
| DepRepair.QuietChange | apt-pkg/depcache.cc:1030-1032 | rewriting flags that no total and no check sees keeps the cache consistent |
| DepRepair.Recounted | apt-pkg/depcache.cc:1943-1956 | taking a package off the totals, changing it and adding it again keeps the totals the sums they are |
| DepMarks.DeleteFacts | apt-pkg/depcache.cc:1030-1032 | writing the Purge flag before RemoveStates is invisible to every counter, because of the invariant on packages in delete mode |
| DepMarks.KeepAfterFlag | apt-pkg/depcache.cc:973-978 | writing AutoKept outside the action group and choosing inside gives the record of doing both at once |
| DepMarks.CandidateDropped | apt-pkg/depcache.cc:1246-1254 | changing the candidate without an update is invisible to all Now and Install results |
| DepRepair.MayChooseFits | apt-pkg/depcache.cc:849-870 | a choice among nothing, the current and the candidate version overlooks nothing |
| DepRepair.WalkedIsCovered | apt-pkg/depcache.cc:849-870 | the three lists walked are exactly the covered dependencies |
| DepCandidate.CandidateFacts | apt-pkg/depcache.cc:1967-1989 | the condition a caller can check before the call is the exact one |
| DepCandidate.OverlookedMeans | apt-pkg/depcache.cc:1967-1989 | what the walk overlooks is what only the provides of the old candidate satisfied |
| DepCandidate.PlainlyFitting | apt-pkg/depcache.cc:1967-1989 | it is enough that the old candidate provides nothing and the new one is not the current version |
| DepCandidate.ProviderChangesMissed | apt-pkg/depcache.cc:1967-1989 | a dependency on what only the old candidate provides goes stale (concrete graph) |
| DepCandidate.ProviderChangesValid | apt-pkg/depcache.cc:1967-1989 | that graph is a valid one |
| DepWitness.StaleResultReached | apt-pkg/depcache.cc:1967-1989 | a run on that graph after which the cache is no longer consistent |
| DepCheck.FullIsConsistent | apt-pkg/depcache.cc:769-820 | what the full pass leaves is a state every operation may start from |
| DepCheck.IncrementalEqualsFull | apt-pkg/depcache.cc:140-222 | for every consistent state a full pass over the same choices computes the same Now and Install bits, the same brokenness, the same counters and sizes |
| DepCheck.PassDeterministic | apt-pkg/depcache.cc:769-815 | two full passes over the same records end the same |
| DepMeaning.BuildersAgree | apt-pkg/depcache.cc:651-675 | from low bits that are right for Now and Install the in-place builder writes bytes that agree with those of a full pass for Now and Install, and from low bits right altogether exactly those bytes, negative dependencies included |
| DepMeaning.RebuildIdempotent | apt-pkg/depcache.cc:651-675 | rebuilding twice is rebuilding once |
| DepMeaning.GroupByteMeaning | apt-pkg/depcache.cc:695-706 | the test of a group's last byte means: some member is satisfied (positive end), or the last member is not matched (negative end) |
| DepMeaning.BrokenCountMeaning | apt-pkg/depcache.cc:601-605 | the broken count is zero iff every critical or-group of every selected version is met in that sense |
| DepMeaning.HitIsMatch | apt-pkg/depcache.cc:455-520 | a check is a hit iff some selected version matches the dependency by name or by a name it provides |
| DepMeaning.PkgBrokenMeaning | apt-pkg/depcache.cc:735-763 | the install-broken bit says a hard requirement of the selected version is unmet; the newly-policy-broken test that a policy wish is given up that is met for the installed version |
| DepMeaning.BrokenCountExact | apt-pkg/algorithms.cc:1176-1186 | for every consistent state: the broken count is zero iff every critical positive or-group of a selected version has a satisfied member and no negative dependency ending a group with a critical start matches a selected version |
| DepMeaning.NothingBrokenMeans | apt-pkg/algorithms.cc:1176-1186 | zero always means a closed selection; a closed and conflict-free one always counts zero; and at zero the selection is conflict-free iff no negative dependency the scan never judges matches a selected version |
| DepMeaning.AlternativeConflictsMissed | apt-pkg/depcache.cc:695-702 | of alternative conflicts only the last one counts (concrete graph) |
| DepTerms.ScanInTerms | apt-pkg/depcache.cc:683-709 | what the scan finds, by the kinds of the dependencies and the configuration alone |
| DepTerms.HitInTerms | apt-pkg/depcache.cc:455-520 | for the installed, the selected and the candidate versions: a check is a hit iff one of them has the name in a version that fits or provides it, where a conflict leaves out the package itself, Multi-Arch siblings unless made for them, and names its own group provides |
| DepTerms.VersionInTerms | apt-pkg/depcache.cc:683-709 | a version's requirements are met iff no or-group that has to hold by its first member fails, and its wishes iff none that should hold does |
| DepTerms.GroupBitInTerms | apt-pkg/depcache.cc:651-675 | the group bit of the last byte is set iff some member is there, or none is if the group ends in a conflict |
| DepTerms.BrokenInTerms | apt-pkg/depcache.cc:735-763 | the four brokenness bits of a record, read off installed and selected versions |
| DepTerms.CounterInTerms | apt-pkg/depcache.cc:596-645 | each of the seven counters is the number of packages it is about: broken, neglected by policy, in a bad state, to be unpacked, to be removed, kept back, upgraded to a higher version |
| DepTerms.NothingBrokenInTerms | apt-pkg/algorithms.cc:1176-1186 | the broken count is zero iff every or-group that begins with Depends, Pre-Depends, Conflicts, Breaks or Obsoletes in a selected version holds: its last member does not apply if that is a conflict, else some member is there |
| DepTerms.SizesInTerms | apt-pkg/depcache.cc:525-586 | the disk usage is what the selected versions take up less what the installed ones do; the download size adds up what is to be unpacked |
| DepTerms.PassFindsWrong | apt-pkg/depcache.cc:140-222 | a full pass agrees with what is stored iff what is stored is right |
| DepVerdicts.KeepExactly | apt-pkg/depcache.cc:953-962 | when keeping is refused, by depth, versions, protection and the state of the package |
| DepVerdicts.KeepDone | apt-pkg/depcache.cc:964-1008 | who may be kept selects the installed version; nothing else changes but mode and AutoKept flag |
| DepVerdicts.InstallRefused | apt-pkg/depcache.cc:889-950 | without the user's word a protected package, or a held one where holds count, is not installed and nothing changes, unless it is protected in its current version |
| DepVerdicts.InstallExactly | apt-pkg/depcache.cc:1648-1682 | the answer of an installation, exactly: there is a candidate, depth, protection and hold allow it, and it needs nothing or tears no Multi-Arch: same siblings apart |
| DepVerdicts.InstallDone | apt-pkg/depcache.cc:1648-1682 | a yes means that the candidate is selected afterwards; no other package changes |
| DepVerdicts.InstallUndone | apt-pkg/depcache.cc:1648-1682 | a no changes nothing, but for the AutoKept flag of a package out of sync with its siblings |
| DepVerdicts.InstallAuto | apt-pkg/depcache.cc:1205-1244 | whether the package is automatically installed afterwards |
| DepVerdicts.SyncInTerms | apt-pkg/depcache.cc:1820-1866 | out of sync means an installed sibling whose candidate is another fetchable Multi-Arch: same version |
| DepVerdicts.DeleteExactly | apt-pkg/depcache.cc:1013-1028 | the answer of a removal, exactly |
| DepVerdicts.DeleteRefused | apt-pkg/depcache.cc:889-950 | protected, held, essential and important packages are not removed behind the user's back, nor what the user asked to install |
| DepVerdicts.DeleteDone | apt-pkg/depcache.cc:1029-1088 | what a removal leaves, the parts of a metapackage that become manual included |
| DepVerdicts.ManualInTerms | apt-pkg/depcache.cc:1048-1067 | those parts: the installed targets of dependencies, and of recommendations and suggestions that are wanted, not made up for another architecture |
| DepVerdicts.ReInstallInTerms | apt-pkg/depcache.cc:1922-1957 | the flag is written for the package and, with an installed Multi-Arch: same one, its installed siblings |
| DepVerdicts.InitialInTerms | apt-pkg/depcache.cc:227-337 | a fresh record keeps what is installed and is automatic iff the state file says so |
| DepWitness.ConflictReached | apt-pkg/depcache.cc:695-702 | a run from a fresh cache that ends with a broken count of zero, a closed selection and two selected packages that conflict |
| DepRun.Step | apt-pkg/depcache.cc:2732-2740 | one operation, group or transaction, what is done to open transactions in its middle included: a transaction to be rolled back that was not ended before restores the state, an automatic one never ends with more broken packages |
| DepRun.Transaction.TemporaryRollback | apt-pkg/depcache.cc:2713-2716 | goes back to the copied state, any number of times |
| DepRun.Transaction.RollbackNow | apt-pkg/depcache.cc:2723-2730 | goes back and ends the transaction; once it is over nothing happens |
| DepRun.Transaction.End | apt-pkg/depcache.cc:2732-2740 | rolls back or commits as the behaviour says, unless the transaction is over; an automatic one rolls back iff more packages are broken than before, and else keeps its state |
| DepRun.Run | apt-pkg/depcache.cc:78-103 | any run of operations in any nesting keeps the object in order |
| DepRun.CheckedRun | apt-pkg/depcache.cc:140-222 | from a fresh cache, after every run: the self-check has nothing to warn about, modes and selected versions go together, counters and sizes are the sums of the packages' shares, the marks are those a fresh walk with the same provider filter leaves (completed or given up); who is marked is wanted or asked for by a marked package, and after a completed walk who is wanted is marked, garbage is what is there, unmarked and not required, and without a filter whatever a marked package asks for is marked, too |
| AutoremoveSpec.SameShouldMark | apt-pkg/depcache.cc:2473-2525 | candidate, status, summary and other flags do not matter to what has to be marked |
| AutoremoveSpec.RootInTerms | apt-pkg/depcache.cc:2489-2515 | a package that will be there is a root iff it is manual, essential, important, of Required priority, in the user's root set, protected, or held where holds count |
| AutoremoveSpec.SatisfiesInTerms | apt-pkg/depcache.cc:2369-2400 | what satisfies a dependency, by the versions that will be there |
| AutoremoveSpec.EdgeInTerms | apt-pkg/depcache.cc:2355-2400 | one package leads to another iff its version asks for the other's by a dependency, or by a recommendation or suggestion that is configured to count |
| AutoremoveReasons.WalkKeepsWanted | apt-pkg/depcache.cc:2473-2525 | a walk that ran to its end has marked every root, whichever providers it dropped |
| AutoremoveReasons.WalkHasReasons | apt-pkg/depcache.cc:2316-2470 | whichever providers it dropped, and even if given up, the walk has marked nobody but roots and those a marked package asks for through a provider that is not dropped |
| AutoremoveReasons.ExactKeepsAsked | apt-pkg/depcache.cc:2316-2470 | with every provider followed whatever a marked package asks for is marked |
| Autoremove.CollectProviders | apt-pkg/depcache.cc:2372-2400 | finds exactly the kept providers that satisfy the dependency, and notices one that does not |
| AutoremoveWalk.SameFreshWalk | apt-pkg/depcache.cc:2473-2525 | records that differ in candidate, status, summary and other flags only lead the walk to the same marks, with any provider filter |
| Autoremove.MarkPackage | apt-pkg/depcache.cc:2316-2470 | the depth-first walk: the two tables become exactly those of the walk as a function, depth limit and filter included; only reachable packages get marked, and without a filter marked ones are complete up to those on the stack and the names being visited |
| Autoremove.FollowDep | apt-pkg/depcache.cc:2355-2468 | the same for one dependency: afterwards, without a filter, everything satisfying it is marked, or its target name has been dealt with as a whole |
| Autoremove.MarksExact | apt-pkg/depcache.cc:2473-2525 | with all roots walked the marks are exact although later dependencies on an explored name are skipped |
| Autoremove.MarkRequired | apt-pkg/depcache.cc:2473-2525 | for any provider filter the marks of the walk as a function, and whether it was given up; nobody is marked but roots and those a marked package asks for through a provider that is not dropped; every root is marked if the walk ran to its end; and if nothing was filtered marked iff reachable from the root set along followed dependencies |
| Autoremove.Sweep | apt-pkg/depcache.cc:2527-2551 | garbage becomes what is present, unmarked and not installed with Required priority |
| Autoremove.MarkAndSweep | apt-pkg/depcache.cc:2554-2557 | both tables together: the marks of the walk with their reasons, garbage exactly what is there, unmarked and not required, and no garbage at all if the walk was given up |
| Resolver.ProblemResolver.InstOrNewPolicyBroken | apt-pkg/algorithms.cc:1217-1238 | true iff a hard requirement of the selected version is unmet, or a policy wish is given up that is met for the installed version and may not be broken |
| Resolver.ProblemResolver.KeepDependencies | apt-pkg/algorithms.cc:1341-1397 | if the package stays broken and nothing has changed, then for each or-group that has to hold by its last member and does not, whatever installed package could satisfy a member is kept already or cannot be |
| Resolver.ProblemResolver.RepairPackage | apt-pkg/algorithms.cc:1319-1409 | a package in trouble is kept afterwards unless it is protected or cannot be kept; the turn is skipped iff there was no trouble or there still is; only unprotected packages are kept, a repair leaves fewer that are not, and a turn that changes nothing leaves nothing to keep for the package or its failing requirements |
| Resolver.ProblemResolver.ResolveByKeepInternal | apt-pkg/algorithms.cc:1280-1419 | terminates with at most as many restarts as there were packages not kept; records either stay or were unprotected and are kept; if the last round, or the whole call, changes nothing, nothing is left to keep for any listed package in trouble; it gives up iff the targets of the same package had to be kept twice in a row; Resolved means every hard requirement is met and the selection is closed, StillBroken that a requirement is not met |
| Resolver.ProblemResolver.ClearFlags | apt-pkg/algorithms.cc:839-850 | the flags the repair phase clears for the installed packages it tries to reinstate |
| Resolver.ProblemResolver.RecordInstalls | apt-pkg/algorithms.cc:763-785 | nobody leaves install mode; there is at most one round more than packages that entered it; in the end PreInstalled says which are to be installed; and if the last round changed no choice every broken package is to be installed, or is held back, out of sync or without a new candidate |
| Resolver.ProblemResolver.SetAutoFlags | apt-pkg/algorithms.cc:1190-1200 | new installations nobody asked for become automatic, and nothing else changes in any record |
| Resolver.ProblemResolver.ResolveInternal | apt-pkg/algorithms.cc:1176-1206 | whatever the repair phase does to the cache, true means every hard requirement is met, the selection is closed, conflicts can only be hidden ones, and the records are those of the repair phase with the Auto flags set; false that a requirement is not met and nothing was changed after it; the flags are those recorded before, but cleared for what was tried |
| MergeDiffs.DoneKeeps | apt-pkg/acquire-item.cc:3134-3209 | a successful answer keeps at most one item applying, with all others done, and leaves less to do |
| MergeDiffs.FailedKeeps | apt-pkg/acquire-item.cc:3104-3132 | so does a failure, and only the first creates a fallback |
| MergeDiffs.QuietOutcome | apt-pkg/acquire-item.cc:3104-3209 | when nothing is outstanding exactly one holds: staged once, one fallback, or a fatal error because the file to patch was gone |
| MergeDiffs.OneApplies | apt-pkg/acquire-item.cc:3161-3184 | two items are never both in the apply state |
| MergeDiffs.EntriesKept | apt-pkg/acquire-item.cc:3161-3184 | an item that enters the apply state is the first one to do so, and no download is left then |
| MergeDiffs.Batch.Done | apt-pkg/acquire-item.cc:3134-3209 | new states and counts after a success, in terms of all states before; an item enters the apply state only when all others are done |
| MergeDiffs.Batch.Failed | apt-pkg/acquire-item.cc:3104-3132 | new states and counts after a failure |
| MergeDiffs.Batch.Run | apt-pkg/acquire-item.cc:3104-3209 | the invariant and the outcome for every interleaving of answers; over the whole run at most one item ever enters the apply state |
| IndexDiffs.SelectSuffix | apt-pkg/acquire-item.cc:2687-2695 | keeps the history from the last entry that applies to the local file on, or fails if there is none |
| IndexDiffs.FromFirstIsSuffix | apt-pkg/acquire-item.cc:2987-2992 | dropping patches up to the next applicable one drops a prefix with no applicable patch in it |
| IndexDiffs.SelectedStartsHere | apt-pkg/acquire-item.cc:2987-2992 | of the selected history nothing is dropped |
| IndexDiffs.Chain.QueueNextDiff | apt-pkg/acquire-item.cc:2955-3013 | queues a patch only if it applies to the file in place; else it finishes at the target or falls back |
| IndexDiffs.Chain.Done | apt-pkg/acquire-item.cc:3015-3064 | each applied patch strictly shortens the list; the chain ends staged when the target is reached or the list is used up, and stages a wrong file iff the last patch made something else |
| IndexDiffs.Chain.RequestFailed | apt-pkg/acquire-item.cc:2901-2919 | one fallback, and the item is finished |
| IndexDiffs.Run | apt-pkg/acquire-item.cc:2876-3064 | however requests are answered, an ended chain has staged once or fallen back once, every item has finished once, it ends within a bounded number of answers, and the staged file is not the target iff the last patch of the list was applied and made something else |
| IndexDiffs.WrongFileStaged | apt-pkg/acquire-item.cc:3015-3064 | a chain that stages a file that is not the target (concrete run) |
| IndexDiffs.RunHonestly | apt-pkg/acquire-item.cc:3015-3064 | with a history and a patcher that keep their promises it arrives at the target without a fallback |
| Transactions.ItemExactly | apt-pkg/acquire-item.cc:586-650 | a committed item is in place iff no file operation of it failed, or nothing had to be changed anyway |
| Transactions.HinderedItem | apt-pkg/acquire-item.cc:614-636 | an item that met a failure leaves its destination as it was, unless that is one of the old forms removed before the failure: then it is gone |
| Transactions.OldFormsGone | apt-pkg/acquire-item.cc:618-641 | a committed item leaves no other form of its file |
| Transactions.CommitExactly | apt-pkg/acquire-item.cc:1335-1360 | the same for every item of a commit of independent items, whatever becomes of the others |
| Transactions.ReleaseVouches | apt-pkg/acquire-item.cc:1335-1360 | after a commit a release file in place stands only beside files in place iff, as can be told before the commit, each other item meets no failure or has nothing to change, or the release file itself does not end in place |
| Transactions.AllInPlace | apt-pkg/acquire-item.cc:596-650 | a commit of independent items leaves every staged file at its destination and every removal done, for each item no file operation of which failed |
| Transactions.InterruptedCommit | apt-pkg/acquire-item.cc:1335-1360 | killed between any two file operations, the release file's path is as before unless every other item is in place exactly if it was to end so; and it never holds anything but the old file, nothing, or the staged one |
| Transactions.FailureIgnored | apt-pkg/acquire-item.cc:1346-1355 | the release file ends in place although another item does not, for every item that cannot |
| Transactions.IndexFileLost | apt-pkg/acquire-item.cc:614-636 | an old index file removed, the new one not moved, and the release file in place (concrete input) |
| Transactions.Transaction.CommitTransaction | apt-pkg/acquire-item.cc:1335-1360 | carries out the file operations of all items in order, the release file last, once, up to the one the process is killed at; ending a transaction twice is a fatal error and changes nothing |
| Transactions.Transaction.CommitItem | apt-pkg/acquire-item.cc:586-650 | removes the compressed forms and moves the file, until an operation fails or the process is killed |
| Transactions.Transaction.AbortTransaction | apt-pkg/acquire-item.cc:1290-1314 | touches no file; items not being fetched leave the queues, items not started are done; ending a transaction twice is a fatal error |
| Transactions.Transaction.TransactionHasError | apt-pkg/acquire-item.cc:1317-1331 | true iff some item failed |
| Transactions.Transaction.Finished | apt-pkg/acquire-item.cc:2024-2032 | commits iff the transaction is open and no item failed, with the files a commit leaves, and never raises a fatal error |
| Redirections.Item.PushAll | apt-pkg/acquire-worker.cc:340-353 | offered alternatives that are good come first, in the order offered |
| Redirections.Item.RemoveAlternativeSite | apt-pkg/acquire-item.cc:849-866 | no alternative of the site is left and the site stays bad; local methods are exempt |
| Redirections.Item.IsRedirectionLoop | apt-pkg/acquire-item.cc:1172-1191 | true iff the URI was visited before and is not the last one; a new one is remembered, unless it goes to the store method |
| Redirections.Item.Enqueue | apt-pkg/acquire.cc:289-325 | queueing again ends an item that goes round in circles or could not be verified, and no other; it never adds to what it has left, keeps the history free of duplicates, and no alternative of a bad site is ever among the rest |
| Redirections.Item.Redirected | apt-pkg/acquire-worker.cc:325-385 | a good URI is followed and the offered alternatives are kept; a bad one is replaced by the first alternative, the offered ones coming first; what is left then, and when the item ends, exactly; no simple retry leaves it with as much (unvisited URIs, alternatives, retries, lexicographically) |
| Redirections.Item.HandleFailure | apt-pkg/acquire-worker.cc:686-765 | a transient failure costs one retry and nothing else; any other goes on to the next alternative, without those of a site that failed to authenticate, or ends the item; in both cases it has less left |
| Redirections.RedirectAll | apt-pkg/acquire-worker.cc:325-385 | the same for all owners of one request; each is asked to go where the one before has been sent |
| Redirections.UntilEnded | apt-pkg/acquire-worker.cc:302-385 | among finitely many URIs, none of them a store URI, every run of redirects and failures ends |
| Redirections.StoreForever | apt-pkg/acquire-item.cc:1174-1176 | redirects to a store URI can go on forever (why the condition is needed) |
| FetchQueue.FindPlace | apt-pkg/acquire.cc:1034-1057 | the first entry the request can be combined with, or the place behind all entries of at least its key |
| FetchQueue.KeyInTerms | apt-pkg/acquire.cc:1311-1333 | an entry may be fetched when the last of its owners may, and is as urgent as the most urgent one |
| FetchQueue.CombinesExactly | apt-pkg/acquire.cc:1018-1045 | requests for a URI are combined iff all transaction items waiting for it then have the same meta key |
| FetchQueue.RequestAgrees | apt-pkg/acquire.cc:1016-1070 | a request leaves the owners of every entry with the same meta key |
| FetchQueue.InsertSorted | apt-pkg/acquire.cc:1047-1064 | the new entry keeps the queue sorted by fetch time and priority and goes behind its equals |
| FetchQueue.MergeSorted | apt-pkg/acquire.cc:1038-1045 | combining requests keeps the order iff the raised key does not pass the entry in front |
| FetchQueue.DelayBlocksQueue | apt-pkg/acquire.cc:1249-1251 | a delayed entry is in front, and while it is too early nothing behind it can start |
| FetchQueue.StartCountsOne | apt-pkg/acquire.cc:1254-1256 | starting an entry makes one more entry busy iff its owners lead no other entry that is not being fetched |
| FetchQueue.FinishCountsOne | apt-pkg/acquire.cc:1197-1202 | finishing an entry makes one entry less busy iff its owners lead no other entry that is being fetched |
| FetchQueue.CountingNeedsLeadersApart | apt-pkg/acquire.cc:1195-1262 | counting the busy entries one by one is right for every entry and every status iff who leads an entry waits in no other |
| FetchQueue.SharedOwnerMiscounts | apt-pkg/acquire.cc:1254-1256 | that nobody leads two entries is not enough (concrete queue) |
| FetchQueue.EntryChanged | apt-pkg/acquire.cc:1197-1202 | if who leads an entry waits in no other, changing the statuses of one entry's owners changes that entry only, whoever shares a secondary owner with it |
| FetchQueue.JoinExactly | apt-pkg/acquire.cc:1038-1045 | combining a request with an entry leaves the books right iff its owner leads nothing, or just this entry and it is not being fetched |
| FetchQueue.PlaceExactly | apt-pkg/acquire.cc:1047-1070 | a new entry leaves the books right iff its owner waited for nothing |
| FetchQueue.Fetcher.Enqueue | apt-pkg/acquire.cc:1016-1070 | the request is combined with the first possible entry, whose primary owner's status it takes over, or inserted idle behind everything at least as urgent; a sorted queue stays sorted, unless combining raises a key past the entry in front; ToFetch counts new entries; and the accounts are right afterwards iff the condition MayEnqueue held before |
| FetchQueue.Fetcher.Cycle | apt-pkg/acquire.cc:1219-1262 | fills the pipe: what is started was idle, is not too early, and is at least as urgent as all that is under way in front of it; its owners are being fetched, nobody else's status changes; afterwards the pipe is full, nothing is idle, or the first idle entry is too early or less urgent than what is under way; without a worker nothing happens |
| FetchQueue.Fetcher.Settle | apt-pkg/acquire.cc:1195-1204 | the statuses of all owners of the finished entry, and one place more in the pipe |
| FetchQueue.Fetcher.ItemDone | apt-pkg/acquire.cc:1195-1213 | exactly the finished entry leaves its queue, its owners are done or idle again, what is started in its place is started in turn, ToFetch drops by one, and the branch for further queue instances is dead |
| FetchQueue.Fetcher.Dequeue | apt-pkg/acquire.cc:377-396 | removes what the owner leads from every queue, unless it is being fetched |
| FetchQueue.Fetcher.DequeueFrom | apt-pkg/acquire.cc:1075-1098 | the same within one queue |
| FetchQueue.Fetcher.Startup | apt-pkg/acquire.cc:1104-1138 | who waits for what cannot be served fails, and nobody else; entries led by somebody who failed leave the queue, all others stay in order, the pipe gets its limit, and a started queue fills its pipe in turn |
| FetchQueue.Fetcher.FailBadItems | apt-pkg/acquire.cc:1115-1123 | everybody waiting who cannot be served fails, nobody else's status changes, and exactly the entries those lead go |
| FetchQueue.Run | apt-pkg/acquire.cc:1016-1262 | in every reachable state PipeDepth is the number of entries being fetched and within its bounds, ToFetch is the number of entries, and the owners of each entry agree on their meta key |
| PatternParser.PatternTreeParser.Top | apt-pkg/cachefilter-patterns.cc:81-94 | the result of parsing a whole sentence; no index behind the terminating zero is read |
| PatternParser.PatternTreeParser.Or | apt-pkg/cachefilter-patterns.cc:102-138 | alternatives, by the loop over bars |
| PatternParser.PatternTreeParser.And | apt-pkg/cachefilter-patterns.cc:140-168 | juxtaposition, by the loop over unaries |
| PatternParser.PatternTreeParser.Unary | apt-pkg/cachefilter-patterns.cc:170-189 | negation |
| PatternParser.PatternTreeParser.Primary | apt-pkg/cachefilter-patterns.cc:191-202 | short form, long form or group, in this order |
| PatternParser.PatternTreeParser.Group | apt-pkg/cachefilter-patterns.cc:204-226 | a parenthesised pattern |
| PatternParser.PatternTreeParser.Argument | apt-pkg/cachefilter-patterns.cc:228-240 | quoted word, bare word or pattern, in this order |
| PatternParser.PatternTreeParser.Short | apt-pkg/cachefilter-patterns.cc:243-269 | the first short form of the table that fits |
| PatternParser.PatternTreeParser.LongPattern | apt-pkg/cachefilter-patterns.cc:272-331 | a long form with or without arguments |
| PatternParser.PatternTreeParser.Arguments | apt-pkg/cachefilter-patterns.cc:311-331 | the arguments, a trailing comma allowed |
| PatternParser.PatternTreeParser.QuotedWord | apt-pkg/cachefilter-patterns.cc:334-357 | a quoted word |
| PatternParser.PatternTreeParser.BareWord | apt-pkg/cachefilter-patterns.cc:360-382 | a bare word, ended by different characters in short and long forms |
| PatternSpec.ParseOr | apt-pkg/cachefilter-patterns.cc:102-138 | every node strictly advances within the text and its end lies behind its start; the recursion ends by remaining length and rank |
| PatternProofs.OrReads | apt-pkg/cachefilter-patterns.cc:102-138 | text written by the surface syntax is read as the tree it stands for, up to the place where it ends |
| PatternProofs.AndReads | apt-pkg/cachefilter-patterns.cc:140-168 | the same for juxtaposition |
| PatternProofs.UnaryReads | apt-pkg/cachefilter-patterns.cc:170-189 | the same for negation |
| PatternProofs.ArgReads | apt-pkg/cachefilter-patterns.cc:228-240 | the same for arguments, spaces in front included; an argument of spaces only is an error |
| PatternSound.AcceptedIsWritten | apt-pkg/cachefilter-patterns.cc:81-382 | an accepted sentence is written by the grammar, spaces in front apart, and read as the tree it stands for: brackets closed, bars and negations followed by patterns, names and words of the characters allowed |
| PatternSound.UnwritableIsRejected | apt-pkg/cachefilter-patterns.cc:81-94 | a sentence the grammar cannot write is rejected |
| PatternSound.QuotedRead | apt-pkg/cachefilter-patterns.cc:334-357 | what stands between two quotes is the word, and a missing quote is an error |
| PatternSound.WordEndChars | apt-pkg/cachefilter-patterns.cc:360-382 | the characters that end a word, or cannot begin one |
| PatternRoundTrip.SentenceParsed | apt-pkg/cachefilter-patterns.cc:81-94 | a written pattern is parsed to its tree; spaces, tabs and line breaks behind it are accepted iff it ends in a long form without argument list |
| PatternRoundTrip.ShorthandIsLongForm | apt-pkg/cachefilter-patterns.cc:102-269 | juxtaposition, bars, negation, groups and short forms parse to the same tree as the rendered long form |
| PatternRoundTrip.RoundTrip | apt-pkg/cachefilter-patterns.cc:385-402 | a rendered tree parses back to itself iff no word of it begins with a space |
| PatternRoundTrip.ParseRenderParse | apt-pkg/cachefilter-patterns.cc:81-402 | parse, render, parse is the identity on text without quotes iff no word begins with a space |
| PatternRoundTrip.TabIsLost | apt-pkg/cachefilter-patterns.cc:360-382 | a short form whose word begins with a tab does not survive (concrete text) |

## Left out

- SetCandidateRelease (apt-pkg/depcache.cc:2002-2157): a search that calls SetCandidateVersion.
- Single: runs give a package about to be installed another candidate only if what it selects provides nothing, a check that can be made at run time; the exact condition is stated with SetCandidateVersion.
- The mode reset in IsInstallOkDependenciesSatisfiableByCandidates bypasses the paired remove and add (apt-pkg/depcache.cc:1900-1912).
- MarkInstall: its recursion that solves dependencies automatically; it is an arbitrary run of the modelled operations, protection taken back included, as `DepRun.Run` allows.
- ResolveInternal: the choices of its second phase, which is an arbitrary run followed by clearing the flags of packages it tried to reinstate.
- The candidate bits of bytes and summaries as part of the invariant.
- MarkPackage: which providers the source version and kernel filters drop; the filter is any function of the dependency and the providers found, and reachability is exact for none.
- FollowDep: with a filter nothing is promised about what is left unmarked, because a later dependency on the same name may be skipped.
- MarkRequired: with an external solver it does nothing; this switch is not modelled, and reachability is exact without a filter only.
- MarkAndSweep: as MarkRequired.
- MarkProtected: outside of action groups it leaves the marks out of date, as it does in the program.
- Step: a temporary rollback of a transaction that is over, which is no longer defined in the program, is not called.
- Running out of memory and the width of counters and sizes; the totals are unbounded numbers.
- The hand-linked queue and the package lists are sequences: aliasing and relinking of nodes are not modelled, their order is.
- Which queue a URI belongs to, workers that are shut down, and Bump.
- Startup: why an item cannot be served, and what its failing sets off besides leaving its queue.
- FailBadItems: as Startup.
- Custom header fields of alternatives, and mirror changes of a site.
- Simple retries, where a method sends an item back to the same URI: the code leaves it to the methods not to loop.
- The hash lists, size limits and file operations of the pdiff protocols; a file is its hash, and aborted transactions are not modelled.
- CommitTransaction: what subclasses of items do besides; a file already in place, by a link or because the server had no new one, is an item with nothing to do.
- CommitItem: the test for a symbolic link to the destination, whose outcome is an item with nothing to do.
- Quoted words in the round trip: the printer writes them without quotes.
- SentenceParsed: a tab or line break behind a short form with a word belongs to that word and is left to `PatternRoundTrip.TabIsLost`.
- ShorthandIsLongForm: the surface syntax has one spacing, and only words behind short forms; a short form whose argument is a pattern swallows the rest of its group, which the parser model does.
- Error messages and node positions of the pattern parser, except the end position its acceptance depends on; turning trees into matchers.
