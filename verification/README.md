# A verified model of chaotic

chaotic is an in-process fault-injection engine. An adapter asks the engine about each
operation; the engine walks an ordered rule list, decides whether a rule fires, passes the
decision through its safety rails (failure budget, rate limit, concurrency limit) and returns an
action with a Before / Outcome / After lifecycle. This project models that engine and the code
that feeds, administers and replays it, and proves what its documentation promises, over every
input, every run and every interleaving. Where a promise is not kept by the code, the exact
condition under which it is kept is proved instead, with an input that breaks it.

`dafny verify dfyconfig.toml` checks everything.

## How it is built

Code that updates fields in place is a class (`FailureBudget`, `Limiter`, `StickyTracker`,
`StagedCounter`, `Engine`, `Handler`, `Reader`, `Writer`); each method is proved equal to an
operation on values, and the theorems are about those operations. Loops in the source are methods
with loops. Concurrent code is a step machine: each mutex section, atomic add and channel
operation is one step, and steps interleave freely.

| file | what it models |
|---|---|
| `Budget`, `TokenBucket`, `Sticky`, `Staged` | the rails and schedules, one structure each |
| `Calls`, `RailRuns` | overlapping calls through the rails: their mutex sections and channel operations, and whole evaluations |
| `Rules`, `RuleOptions`, `Engine`, `EvalSpec` | rules, their options, the evaluation walk, and its simple specification |
| `Runs`, `CellRuns`, `ColdStart`, `Scenarios` | whole sequential runs of an engine, and of one rule's counter, sticky set, stages and limiter in them |
| `Publish` | rule administration, backing arrays and hit counters beside concurrent evaluation |
| `Golden`, `Replay` | what a recording leaves in its log, the rules rebuilt from it, and the simulation between them |
| `Sessions`, `Witness`, `Divergence` | record and replay as two engine runs, engines that make given recordings, and exactly when replay is faithful |
| `Spec`, `Lint`, `Handler` | compiling and linting rule specs, and the admin handler |
| `Scan`, `Text`, `Terms`, `RoundTrip`, `Accepted` | the terms language: splitters, parser, printer, and what the parser accepts |
| `Minimize` | the property runner and its delta debugging |
| `Truncate` | the stream adapter's truncation cap |

Time and float64 are `real`, counters unbounded integers. The random draws of a probability
counter, `path.Match`, `time.ParseDuration`, `strconv` on floats and quoted strings, regular
expressions, user predicates, the wrapped call's result and the clock are parameters, so every
theorem holds for all of them.

## Findings

- The failure budget bounds the injected errors of the last `window` outcomes only once enough
  outcomes are recorded: `ColdStart.BoundHoldsExactly` gives the exact point. The first `window`
  calls may all be injected errors, while the repository's README.md:294
  says chaos can't take a dependency fully down.
- Golden replay is promised when selectors are distinguishable by Op.Kind
  (chaostest/golden/golden.go:15). That is enough only if each rule selects by kind alone
  (`Divergence.FaithfulIffKindOnly`). Rules that share a kind replay faithfully exactly when a
  later rule selects no more than an earlier one it overlaps (`FaithfulIffNested`), and with
  engine-wide rails only if none overlap (`FaithfulUnderRailsIffDisjoint`). Each failing case has a
  session of a newly built engine on a running clock that no replay reproduces.
- A jittered fault with its bounds the wrong way round is accepted and can sleep longer than the
  five-minute cap (`Spec.SleepsAreCapped`).
- The minimizer is documented to find the smallest failing set (chaostest/property/property.go:138).
  For a body that more rules cannot mend and that does not see their order, it does so from every
  failing start exactly when the minimal failing parts of a failing set are all of one size
  (`Minimize.SmallestIffOneSize`); for any body, exactly when every single step keeps a smallest
  part (`Minimize.SmallestIffStepsKeep`). `Minimize.MonotoneNotSmallest` is a body for which it
  does not. That no index can be dropped always holds, and that no part fails holds exactly for
  bodies that can shed one rule at a time (`Minimize.MinimalIffStepwise`).
- engine/staged.go:84-86 says the last of WithStages and a counter option wins. It does exactly
  when the last fire strategy is not a counter given beside stages
  (`RuleOptions.LastOptionWinsIff`); `RuleOptions.CounterAfterStagesLoses` is a rule for which it
  does not.

## Model

| member | source | states |
|---|---|---|
| Budget.FailureBudget.constructor | engine/budget.go:18-26 | a new budget is valid, with an empty log of outcomes |
| Budget.FailureBudget.Record | engine/budget.go:28-44 | the ring, its cursor and its error count stay the sliding window of the log of all outcomes, which grows by this one |
| Budget.FailureBudget.IsOverBudget | engine/budget.go:46-53 | true exactly when the window is full and its error rate reaches the maximum |
| Budget.RingSlides | engine/budget.go:31-43 | overwriting one slot and stepping on keeps a ring the window of the log; the slot overwritten held the outcome that leaves the window |
| Budget.CountSlides | engine/budget.go:31-38 | the running error count moves by the entering minus the leaving outcome |
| Calls.SlotConservation | engine/engine.go:206-216 | under every interleaving, with faults that fail or panic: tokens in the semaphore are the calls that acquired one and have not released it and never exceed its size, no call releases twice, every closed call has released, and no release blocks |
| Calls.SlotIsGivenIffFree | engine/maxconcurrent.go:17-24 | under every interleaving a call past its budget check fires if and only if there is no semaphore or fewer calls than its size have acquired a slot and not released it |
| Calls.SlotIsHeldUntilAfter | engine/maxconcurrent.go:15-24 | a slot is given back only by the call's After, or because one of its faults failed or panicked |
| Calls.LogIsReported | engine/budget.go:28-44 | under every interleaving the log of outcomes is exactly what calls reported, in order, marked injected exactly if a rule fired for the call |
| Calls.CheckPermitsIffWithinBudget | engine/budget.go:46-53 | a rule that decided to fire passes the budget if and only if fewer than window outcomes were reported or the share of errors among the last window is below the maximum |
| RailRuns.RailsOverRuns | engine/engine.go:152-184 | in any run of overlapping calls and rule changes, from the history alone: a rule that decided to fire is blocked by the budget iff the reported window is full and its error share reaches the maximum; else by the limiter iff one more grant exceeds the rate in some stretch; else by the semaphore iff as many fired calls are open as it has slots; and fires otherwise |
| RailRuns.SlotsAreOpenCalls | engine/engine.go:206-216 | the semaphore holds one token per fired call that has not finished |
| RailRuns.BudgetIsReports | engine/engine.go:277-281 | the budget's log is the outcomes reported since the engine was built, in order |
| RailRuns.LimiterIsItsAsks | engine/engine.go:169-172 | the engine-wide limiter is a new one asked once for each rule that got past the budget, and those verdicts are its answers |
| Calls.BlastRadius | engine/engine.go:152-184 | with at most k calls pending at any time, after 2 * window outcomes the injected errors among the last window are at most maxRate * window + k, under every interleaving |
| TokenBucket.Limiter.constructor | engine/ratelimit.go:18-29 | a new bucket is full |
| TokenBucket.Limiter.Take | engine/ratelimit.go:31-45 | refills by elapsed time up to the burst, then spends one token or refuses |
| TokenBucket.AllowedIffWithinRate | engine/ratelimit.go:31-45 | the bucket is the greedy limiter: a call is allowed if and only if that keeps every stretch of calls ending with it within burst plus rate |
| TokenBucket.RateBound | engine/ratelimit.go:31-45 | for every nondecreasing clock, calls i..j get at most rps + rps * (t_j - t_i) grants |
| TokenBucket.SpacedCallIsAllowed | engine/ratelimit.go:34-44 | a call at least 1/rps after the previous one is always allowed |
| TokenBucket.SpacedVerdict | engine/ratelimit.go:34-44 | of calls to a new bucket the first is allowed, and every one at least 1/rps after the call before it |
| TokenBucket.CallWithin | engine/ratelimit.go:34-44 | a grant and what is left after it never exceed what was on hand plus the drip of the interval |
| Sticky.StickyTracker.IsSticky | engine/sticky.go:44-60 | answers for the window and drops an expired entry |
| Sticky.StickyTracker.MarkAttr | engine/sticky.go:66-77 | marks the value, evicting an oldest one if a new value would exceed the cap |
| Sticky.StickyTracker.EvictOldest | engine/sticky.go:88-100 | removes exactly one entry, and none is older |
| Sticky.StickyIsBoundedCache | engine/sticky.go:44-100 | in every history: never more than cap values; a sticky value was marked within the window with fewer than cap others after it; a value marked within the window, since when fewer than cap others were marked, is sticky |
| Staged.ValidateStages | engine/staged.go:30-44 | accepts exactly the valid stage lists |
| Staged.StagedCounter.constructor | engine/staged.go:47-61 | the prefix sums describe the expanded schedule |
| Staged.StagedCounter.Fire | engine/staged.go:65-77 | the i-th fire returns the i-th entry of the stages expanded by their times, the last forever if open-ended, nothing past the end otherwise |
| Staged.ExpandAt | engine/staged.go:47-77 | an index between two prefix sums falls in that stage of the expanded schedule |
| Staged.InterleavedFiresFollowSchedule | engine/staged.go:65-77 | under any interleaving of the atomic adds and the lookup loops, comparison by comparison, the numbers given out are 1 to cur, one to a fire, and every fire that has returned gave the schedule entry of its number |
| Rules.MatchesAll | engine/rule.go:44-51 | a rule matches exactly the ops all its matchers accept |
| RuleOptions.NewRule | engine/rule.go:34-40 | applies the options in order, each to its own field |
| RuleOptions.BuiltStrategies | engine/rule.go:117-216 | of each sort of fire strategy the last one given is kept |
| RuleOptions.BuiltFields | engine/rule.go:219-233 | the rule matches exactly what every match option accepts, injects all faults given in order, and has the last sticky set and the last rate limit given, with their state new |
| RuleOptions.LastOptionWinsIff | engine/staged.go:84-86 | the last fire strategy decides if and only if it is not a counter given beside stages |
| RuleOptions.CounterAfterStagesLoses | engine/staged.go:84-86 | stages followed by Times(0) still fire |
| Engine.Engine.Add | engine/engine.go:71-90 | appends the rule and gives its name a counter if it has none |
| Engine.Engine.Replace | engine/engine.go:103-115 | the rules are the new ones and the counters exactly their names at zero |
| Engine.Engine.Decide | engine/engine.go:188-201 | a sticky hit fires the rule's faults; else the stages, if any, decide; else the counter, marking the value when it fires; `CellRuns` gives all three from history |
| Engine.Engine.Rail | engine/engine.go:152-184 | budget, limiter and semaphore in that order; the first to refuse stops the walk |
| Engine.Engine.Step | engine/engine.go:152-184 | one rule's visit: matcher, decision, own limiter with its token spent, rails; `CellRuns` and `RailRuns` give the verdict from history |
| Engine.Engine.Run | engine/engine.go:133-147 | the loop of Eval is the walk: it stops at the first rule that fires or is blocked |
| EvalSpec.VisitHasShape | engine/engine.go:133-184 | a walk gives each visited matching rule exactly one verdict, and only its last verdict can be a fire or a block |
| EvalSpec.FirstDecisionWins | engine/engine.go:133-184 | the first matching rule whose decision and own limiter say fire, each asked once and in order, copies with shared counters included, decides the call; the rails fire or block it; the state behind every rule is exactly that of rules 0 to d asked once |
| EvalSpec.NoDecisionPasses | engine/engine.go:133-147 | if no rule decides to fire, the call passes, no rail moves and every rule was asked exactly once |
| EvalSpec.WalkTouchesRailsOnce | engine/engine.go:152-184 | for any rules, copies with shared counters included, one walk consults the engine-wide rails at most once, for the rule that stopped it |
| EvalSpec.VisitFrame | engine/engine.go:133-147 | the state behind rules that were not visited or do not match is untouched |
| EvalSpec.BudgetTracksEveryCall | engine/engine.go:221-228 | with a budget every call of an enabled engine reports its outcome; without one only fired calls do |
| Runs.HitsAreFires | engine/engine.go:264-274 | in every sequential run each named rule has a counter, and it is the number of fires of that name since the last Reset or ReplaceRules |
| Runs.SequentialBlastRadius | engine/engine.go:152-184 | once 2 * window outcomes are recorded, fewer than maxRate * window + 1 of the last window are injected errors, whatever calls return and rules come and go |
| Runs.RateOfFires | engine/engine.go:169-172 | the fires of commands i..j of any run are at most rps plus rps per second elapsed |
| Runs.StagesWinOverSticky | engine/engine.go:188-201 | in no reachable state does a rule with stages take the sticky branch: its sticky set stays empty |
| Runs.SwitchedOffCallsAreInert | engine/engine.go:133-147 | in any run a call with the kill switch thrown, the engine disabled or no rules injects nothing and changes no counter, sticky set, limiter, slot or hit count; only the budget of an enabled engine records its outcome |
| CellRuns.CounterDecides | engine/engine.go:188-201 | over any run the k-th matching visit of a rule and its copies decides to fire if and only if its counter says so for the k-th time, with that rule's faults |
| CellRuns.StagesDecide | engine/engine.go:188-201 | over any run the k-th matching visit of a staged rule and its copies follows the k-th entry of the expanded schedule, in deciding and in its faults |
| CellRuns.StickyRulesStick | engine/sticky.go:44-77 | over any run every visit of a sticky rule or a copy fires with the rule's faults if its attribute value made the counter fire within the window and fewer than cap other values did since; if not, it decides as its counter, asked only then, says |
| CellRuns.OwnLimiterIsGreedy | engine/engine.go:161-164 | over any run a visit that decided to fire is held by the rule's own limiter if and only if letting it on would take some stretch of such visits past rps plus rps per second |
| CellRuns.SpacedDecisionIsLetOn | engine/perrule.go:3-12 | a rule that decides to fire at least 1/rps after it last did is never held by its own limiter |
| CellRuns.OwnRateOfFires | engine/perrule.go:3-12 | the fires of a rule and its copies in commands i..j of any run are at most rps plus rps per second elapsed |
| ColdStart.BoundHoldsExactly | engine/budget.go:46-53 | from the first full window on, the blast-radius bound holds at the n-th outcome of every run if and only if 2 * window - n < maxRate * window + 1 |
| ColdStart.WorstExceeds | engine/budget.go:47-52 | the run that breaks it otherwise: a rule that always fires against calls that all fail |
| Scenarios.Install | chaostest/scenarios/scenarios.go:50-65 | adds the outage rule, then the lag rule |
| Scenarios.CascadeTheorem | chaostest/scenarios/scenarios.go:107-122 | for any cascade, in any interleaving of kinds, the n-th op of the cascade's kinds is dropped iff n <= count, delayed iff count < n <= 2 * count, and passed otherwise |
| Scenarios.DatabaseOutage | chaostest/scenarios/scenarios.go:50-65 | of the SQL and pgx calls the first count are dropped, the next count delayed by the latency, and all other calls pass |
| Scenarios.RegionFailover | chaostest/scenarios/scenarios.go:103-122 | the same for AWS calls |
| Publish.EvaluationsReadOneSet | engine/engine.go:76-82 | with backing arrays written and read element by element, under every interleaving whatever was installed still holds what it held when stored, and each evaluation reads exactly the one set it loaded |
| Publish.SetsOnlyGrow | engine/ruleset.go:14-21 | the sets stored so far stay the first ones stored |
| Publish.NothingDueIsStuck | engine/ruleset.go:47-67 | no copy, element read or counter add that is due is ever out of range |
| Publish.PublishedIsRegistered | engine/engine.go:71-115 | whenever no mutator holds the lock every named rule of the published set has a counter |
| Publish.OnlyStaleFiresAreLost | engine/engine.go:264-274 | a fire finds no counter only if a set without its name was published since its evaluation loaded the rules |
| Publish.FiresAreCounted | engine/engine.go:264-274 | a fire adds one to what Hits reports for its name unless its rule set was stale when it looked its counter up, or Reset or ReplaceRules discarded the counters between that and its add |
| Publish.HitsAreConserved | engine/engine.go:264-274 | each counter plus the adds still to come equals the fires that found it: none lost, none twice |
| Golden.BuildReplayRules | chaostest/golden/golden.go:165-235 | one rule per recorded name in order of first appearance, with that name's fire/skip mask and kinds; its fault is the latency noted on its first fired line, or ErrReplay if that line notes none or no line fired |
| Golden.FirstFiredIs | chaostest/golden/golden.go:207-214 | the fault comes from the first fired event of the name |
| Golden.InstallReplay | chaostest/golden/golden.go:325-342 | sets a bare engine up with the rebuilt rules |
| Golden.ReplayEngineReplays | chaostest/golden/golden.go:219-235 | that engine matches by the recorded kinds and has every mask at its start |
| Golden.SameSequence | chaostest/golden/golden.go:249-261 | reports no difference exactly for equal sequences |
| Golden.EvalIsTurn | chaostest/golden/golden.go:108-132 | every evaluation of any engine is a turn a recorder can have logged |
| Golden.EvalReplays | chaostest/golden/golden.go:219-235 | an evaluation of the engine built from replay rules is one step of the replay: it fires the first rule whose mask says so and moves the cursors of the rules it visited |
| Sessions.SessionIsRecording | chaostest/golden/golden.go:108-132 | the walks of any run of any engine are a recording |
| Sessions.ReplayDecides | chaostest/golden/golden.go:325-342 | a run of the engine rebuilt from the log of another run, over the same ops, logs the recorded fires if and only if the recording is faithful |
| Sessions.OrderedIsFaithful | chaostest/golden/golden.go:165-246 | two engine runs: the replay logs exactly the recorded fires if rules sharing a kind first appear in engine order and no blocked walk hid a rule seen for that kind |
| Sessions.NestedIsFaithful | chaostest/golden/golden.go:165-246 | two engine runs: without engine-wide rails the replay of nested kind-only rules logs exactly the recorded fires, whatever their counters, sticky sets and limiters |
| Sessions.DisjointIsFaithful | chaostest/golden/golden.go:165-246 | two engine runs: with any rails the replay of disjoint kind-only rules logs exactly the recorded fires |
| Witness.Realized | chaostest/golden/golden.go:108-132 | for every recording of plain verdicts that a limiter, or none, paces there is an engine and calls whose walks give exactly it |
| Witness.WitnessIsGenuine | engine/ratelimit.go:18-29 | that engine is newly built, its limiter full, and its clock never runs backwards |
| Divergence.FaithfulIffNested | chaostest/golden/golden.go:160-185 | over all runs of newly built engines without rails: every replay logs the recorded fires if and only if overlapping rules are nested, the later within the earlier |
| Divergence.FaithfulUnderRailsIffDisjoint | chaostest/golden/golden.go:160-185 | over all runs of newly built engines with any rails: if and only if no two rules overlap |
| Divergence.FaithfulIffKindOnly | chaostest/golden/golden.go:11-15 | over all runs, for rules of different kinds: if and only if each selects by kind alone |
| Divergence.BlockedOverlapDiverges | chaostest/golden/golden.go:121-132 | any two overlapping rules under a limiter of one a second have a run, called at seconds 0, 0, 1 and 2, that no replay reproduces |
| Divergence.CrossedOverlapDiverges | chaostest/golden/golden.go:168-179 | any two overlapping rules that are not nested have a run without rails that no replay reproduces |
| Divergence.PassedOverDiverges | chaostest/golden/golden.go:219-235 | any rule finer than its kind has, beside another rule, a run without rails that no replay reproduces |
| Spec.BuildRule | engine/spec.go:78-115 | succeeds exactly for valid specs, else reports every problem; the rule matches exactly the ops its fields describe, fault by fault injects what each fault spec says, fires on the visits the counter spec names, and stage by stage has the times and faults written |
| Spec.BuildMatchers | engine/spec.go:119-144 | the matchers accept exactly the ops of the known kinds, the name pattern and the attributes; unknown kinds are reported |
| Spec.AttrMatchers | engine/spec.go:138-141 | in whatever order the map is walked, the matchers accept exactly the ops that carry every attribute |
| Spec.KindMatchers | engine/spec.go:123-134 | the kinds matcher accepts exactly ops of a named kind; every unknown name is reported |
| Spec.BuildFaultList | engine/spec.go:168-180 | the faults of the valid specs in order, a problem for each other; without problems fault i does what spec i says: the duration to sleep, the bounds, the message, the value, the rate, the limit |
| Spec.FaultsMean | engine/spec.go:213-279 | every fault of a valid list is the one its spec describes, at its index, kind by kind and field by field |
| Spec.CounterCounts | engine/spec.go:148-166 | for every n a built counter fires at its n-th question exactly if the spec says: always, the first n, from..to, or by the n-th draw at p |
| Spec.BuildStages | engine/spec.go:184-206 | stages with their faults, and every problem of a staged spec |
| Spec.StagesMean | engine/spec.go:184-206 | stage i has the times written and, fault by fault, what its specs describe |
| Spec.ProblemsAreExact | engine/spec.go:78-206 | a problem is reported if and only if the spec has it: each unknown kind, bad fault, bad counter, and each way stages clash |
| Spec.ValidIffNoProblems | engine/spec.go:78-206 | a spec is valid, field by field, if and only if building it meets no problem |
| Spec.CompiledCellIsValid | engine/staged.go:88-96 | what BuildRule installs never trips a constructor's panic |
| Spec.SleepsAreCapped | engine/spec.go:245-270 | every sleep of the fault a valid spec describes is within five minutes if and only if it is not jittered with a minimum above that |
| Spec.UpsideDownJitterSleepsTooLong | engine/spec.go:257-270 | jitter from an hour to a second is valid and can sleep an hour |
| Lint.IsOk | engine/lint.go:57-64 | OK exactly when no finding is high |
| Lint.LintOverlaps | engine/lint.go:251-267 | one warning per spec that repeats an earlier signature, naming the first |
| Lint.OverlapsAreExact | engine/lint.go:251-277 | the overlaps reported are exactly the specs whose scope an earlier one has, each naming the first that has it |
| Lint.LintFindsExactly | engine/lint.go:169-294 | for every spec, severity and hazard: it is found if and only if it is there: wildcard glob, certain probability, endless stream, long latency, unscoped terminal fault, permanent terminal last stage |
| Lint.LintAll | engine/lint.go:157-164 | the report on a set is the reports on its specs in order, then the overlaps |
| Lint.LintOkIffNoneHazardous | engine/lint.go:157-197 | a set passes if and only if no spec in it has a terminal fault, flat or staged, without scope |
| Lint.LintIsPerSpec | engine/lint.go:157-164 | a set passes if and only if each spec passes alone: overlaps only warn |
| Lint.BuiltHighIsSpecHigh | engine/lint.go:120-149 | a built rule that Lint rates high comes from a spec that LintSpecs rates high |
| Lint.BuiltLintIs | engine/lint.go:120-149 | a rule built from a spec has a finding if and only if the spec selects everything, always, and a high one if and only if it then has a terminal fault |
| Handler.ServeKeeps | source/http/handler.go:116-193 | every request keeps names, specs, document and live rules in agreement; a refused one changes nothing; no rebuild fails after the state was touched |
| Handler.HistoryKeepsConsistent | source/http/handler.go:116-321 | in every state of every request history, from the empty start and with nothing assumed of the states between, names are distinct and are the keys, each spec carries its name and is valid, live rules and document are the specs in order; no request is answered 500 |
| Handler.HistoryPassesLint | source/http/handler.go:266-283 | under LintReject every reachable installed set passes LintSpecs as a whole, though a PUT lints only its own rule |
| Handler.CollectMeans | source/http/handler.go:131-143 | a document installs each name once, in order of first appearance, with its last spec |
| Handler.PutInstalls | source/http/handler.go:240-288 | an accepted PUT replaces the rule of that name in place or adds it last; every other live rule stays where it was |
| Handler.PutServedIff | source/http/handler.go:240-288 | a PUT is served if and only if the handler is writable and the body is exactly one rule that, under the URL's name, is valid and not refused by lint; else 405 from a read-only handler and 400 from any other; what lint found comes back |
| Handler.PostServedIff | source/http/handler.go:116-169 | a POST is served if and only if the handler is writable, the document can be read and of each name the last rule is valid and not refused by lint; else 405 or 400 |
| Handler.PostInstalls | source/http/handler.go:131-169 | a served POST leaves the names of the document and no others, each once, in order of first appearance, with the spec of its last rule |
| Handler.DeleteServedIff | source/http/handler.go:290-311 | a DELETE is served if and only if the handler is writable and a live rule has the name; else 405 or 404 |
| Handler.ReadOnlyStaysAtStart | source/http/handler.go:51-52 | in every request history a read-only handler stays at its empty start |
| Handler.DeleteRemoves | source/http/handler.go:290-311 | a DELETE removes exactly the rule of that name and keeps the rest in order |
| Handler.DocumentRestores | source/http/handler.go:104-169 | posting a served document brings any handler with the same settings to the state it was served from, if and only if no rule has the empty name |
| Handler.Handler.constructor | source/http/handler.go:77-94 | a new handler holds no rules and leaves the engine alone |
| Handler.BuildRules | source/http/handler.go:173-181 | builds every rule from its spec, each with state of its own, or gives up at the first that cannot be built |
| Handler.Handler.Rebuild | source/http/handler.go:173-193 | installs every rule compiled from its spec, in order, with fresh state and zero hits, in a well-formed engine, and serves those specs; or, if one cannot be built, touches nothing |
| Handler.Handler.Post | source/http/handler.go:116-169 | as the specification of a POST, whose outcome PostServedIff and PostInstalls give; refused, handler and engine are as they were |
| Handler.Handler.Put | source/http/handler.go:240-288 | as the specification of a PUT, whose outcome PutServedIff and PutInstalls give; refused, handler and engine are as they were |
| Handler.Handler.Delete | source/http/handler.go:290-311 | as the specification of a DELETE, whose outcome DeleteServedIff and DeleteRemoves give; refused, handler and engine are as they were |
| Handler.Handler.Evaluate | engine/engine.go:133-147 | calls through the engine between requests keep what the handler installed installed |
| Handler.CollectRules | source/http/handler.go:131-143 | the loop computes the order and specs of the document |
| Handler.RemoveName | source/http/handler.go:313-321 | the filter keeps exactly the other names, in order |
| Scan.SplitTop | source/terms/terms.go:14-33 | the scanning loop cuts at exactly the top-level separators |
| Scan.IndexTop | source/terms/terms.go:36-53 | finds the first top-level separator, or -1 |
| Scan.SplitTopArrow | source/terms/terms.go:204-230 | cuts at exactly the arrows outside parentheses and strings, escapes included |
| Scan.JoinOfSplit | source/terms/terms.go:14-53 | for every string, joining the pieces restores it, no piece has a top-level separator, and indexTop is the length of the first piece |
| Scan.SplitOfJoin | source/terms/terms.go:14-33 | splitting undoes joining if and only if no piece has a top-level separator and all but the last close their parentheses |
| Scan.JoinOfSplitArrow | source/terms/terms.go:204-230 | the same for arrows, with unclamped depth |
| Scan.SplitArrowOfJoin | source/terms/terms.go:204-230 | splitting at arrows undoes joining if and only if no piece has an arrow in the open and all but the last end in the clean scan state |
| Text.AtoiOfItoa | source/terms/terms.go:172-178 | reading back a printed integer gives it, over the whole int range |
| Text.TrimIs | source/terms/terms.go:72-127 | trimming takes white space off both ends, all of it and nothing else |
| Terms.RunSelectors | source/terms/terms.go:129-158 | the selector loop is the fold over the pieces, failing at the first bad one |
| Terms.RunParse | source/terms/terms.go:72-92 | the rule loop skips blank pieces, fails at the first bad rule, on an empty list and on a set the lint policy refuses |
| RoundTrip.ParsedRule | source/terms/terms.go:94-127 | a printed rule parses to exactly the spec it stands for |
| RoundTrip.ParseOfPrint | source/terms/doc.go:9-37 | parsing any non-empty list of rules printed in the documented grammar gives exactly their specs: names, selectors, counts and percentages, actions, stages |
| Accepted.ParsedIsMeant | source/terms/terms.go:72-305 | the converse, for every text: whatever parses gives the specs a non-empty list of rules of the grammar stands for, so unknown actions and selectors, bad counts, percentages and messages are refused |
| RoundTrip.RejectedIffHazardous | source/terms/lint.go:43-50 | under a lint policy the same text is an error if and only if the policy rejects and one of its specs is hazardous; else its specs come back |
| RoundTrip.SimpleTextIsEnclosed | source/terms/terms.go:14-33 | any text without parentheses and quotes may stand as an argument, separators and arrows included |
| Minimize.Explore | chaostest/property/property.go:85-94 | reports the first failing seed of the range with the shrunk indices, or nothing if and only if none fails |
| Minimize.SeedsAreConsecutive | chaostest/property/property.go:85-94 | the seeds tried are the base seed and those after it, wrapping as int64 does |
| Minimize.Reduce | chaostest/property/property.go:98-115 | the loop ends with the greedy shrinking of its start |
| Minimize.Without | chaostest/property/property.go:125-133 | keeps exactly the other elements, in order |
| Minimize.Indices | chaostest/property/property.go:117-123 | the indices 0 to n - 1 |
| Minimize.ShrinkMeans | chaostest/property/property.go:98-115 | the result is a subsequence, still fails, is not empty unless the start is, and dropping any single index passes or leaves nothing |
| Minimize.SmallestIffOneSize | chaostest/property/property.go:135-138 | for monotone bodies blind to order the result is a smallest failing set from every failing start if and only if the minimal failing parts of each failing set have one size |
| Minimize.SmallestIffStepsKeep | chaostest/property/property.go:98-115 | for every body the result is smallest from every failing start if and only if every step of the search keeps a failing part as short as any |
| Minimize.MonotoneNotSmallest | chaostest/property/property.go:135-138 | a monotone body for which two indices are reported where one alone fails |
| Minimize.MinimalIffStepwise | chaostest/property/property.go:44-50 | minimal by inclusion: the result has no failing part of its own from every failing start if and only if whatever fails and has a smaller failing part can lose one index and still fail |
| Minimize.MonotoneIsStepwise | chaostest/property/property.go:96-97 | a body that more rules cannot mend is such a body |
| Minimize.NotAlwaysMinimal | chaostest/property/property.go:135-138 | a body for which three indices are reported where one alone fails |
| Minimize.RecipeReproduces | chaostest/property/property.go:142-146 | one run from the reported seed reports the same failure |
| Truncate.Reader.constructor | adapter/io/io.go:34-36 | a wrapped reader is not armed |
| Truncate.Reader.Read | adapter/io/io.go:47-69 | disabled passes by, armed is capped, otherwise what was injected decides |
| Truncate.Reader.CappedRead | adapter/io/io.go:123-133 | EOF at the cap, else at most what is left of it |
| Truncate.ReadErrors | adapter/io/io.go:47-69 | an injected error comes back as it is and moves nothing; a cap with no room answers EOF; otherwise data and error are the inner reader's, offered no more than the cap has room for |
| Truncate.WriteErrors | adapter/io/io.go:71-93 | the same for writes; one across the cap is short even if the inner writer is content |
| Truncate.Writer.Write | adapter/io/io.go:71-93 | the same for writes |
| Truncate.Writer.CappedWrite | adapter/io/io.go:150-165 | a short-write error at or across the cap |
| Truncate.WriterKeepsContract | adapter/io/io.go:135-165 | fewer bytes than offered always come with an error, what is passed on is a prefix, and an armed cap shrinks by exactly that |
| Truncate.StreamIsConserved | adapter/io/io.go:47-69 | over every run of reads no byte is lost, repeated or reordered |
| Truncate.CapIsConserved | adapter/io/io.go:108-133 | once armed it stays armed, and bytes read while enabled plus what the cap still allows equal what it allowed at first |
| Truncate.TruncationDelivers | adapter/io/io.go:108-133 | from the arming call on, bytes delivered plus what is left equal max(limit, 0) if and only if nothing was read while the engine was disabled; at zero every enabled read is EOF |
| Truncate.SinkIsConserved | adapter/io/io.go:71-93 | over every run of writes the sink grows by exactly a prefix of each buffer, in order |
| Truncate.WriteCapIsConserved | adapter/io/io.go:135-165 | once armed a writer stays armed, and bytes passed on while enabled plus what the cap still allows equal what it allowed at first |
| Truncate.TruncationPasses | adapter/io/io.go:135-165 | from the arming write on, bytes passed on plus what is left equal max(limit, 0) if and only if nothing was written while the engine was disabled; at zero every enabled write is short |

## Left out

- internal/sqlclass: a best-effort scanner whose promises are about examples; modelling it would add only easy members.
- Adapters other than io: plumbing around libraries; they appear as clients of the Eval, Before, Outcome, After protocol.
- `*_off.go` build variants, observers, the file and environment sources, examples and command-line tools.
- HTTP routing, authorization, body size limits, and YAML and JSON encoding: a request carries what was decoded, a document is its list of specs, and encoding is taken as total.
- Sleeping, context cancellation and the slow-stream fault with rate 0, which never returns: timing of the runtime.
- Result mutators and `partitionFaults`: they change what a wrapped call returns, not whether a rule fires.
- Wrapped calls that panic: adapters do not defer After, so `Calls.SlotConservation` takes the wrapped call to return; faults that panic are covered.
- `MatchTimeWindow`, `MatchPredicate` and the other matchers not named above: any predicate on ops stands for them.
- Texts of error messages and lint findings: they are constructors here.
- Rails inside the `Engine` class are held by value; that each rail's own class does the same is what its methods state. Concurrency of one evaluation with another is in `Calls`, `Publish` and `Staged`, not in that class.
- Engine.Engine.Decide: which of several equally old sticky values is evicted depends on map order in the source; it is an arbitrary choice here.
- Spec.AttrMatchers: the order of attribute matchers depends on map order in the source; only what they accept together is stated.
- Sticky.StickyIsBoundedCache: values marked at one instant may be evicted in either order, so the two directions differ in how they count those.
- CellRuns.StickyRulesStick: likewise for values marked at one instant.
- Accepted.ParsedIsMeant: gives what an accepted text means, not its spelling; blanks and empty pieces between rules are not tracked.
- `terms.Compile`: Parse followed by BuildRule, which are modelled.
- How the golden recorder annotates a fired event with its fault kind and latency: with several faults per rule it can annotate an earlier event. The annotations are given to `Golden.BuildReplayRules`.
- Publish.EvaluationsReadOneSet: a slice handed to ReplaceRules is taken not to be written by its source afterwards; NewRuleSet keeps it without a copy.
- Minimize.Explore: generators, engine and body are one deterministic predicate of seed and indices.
