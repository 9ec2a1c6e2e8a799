# What this project verifies

A Dafny model of the parts of this repository whose guarantees live in no single function, with proofs of
those guarantees. Each module follows one part of the program. Where the program changes a row or an object in place the model has a class whose
methods are proved against a function of the old state; where transactions run side by side the model is a
state machine whose steps interleave freely; where the program only computes, the model is functions and
lemmas.

| file | what it models |
|---|---|
| `runs.dfy` | one run of an agent: what a runner may report, stops, a key's close, and the run's whole life |
| `cap_protocol.dfy`, `money.dfy` | a bank's runs under one monthly cap, as concurrent transactions with locks, reads, writes and commits |
| `calendar.dfy`, `schedule.dfy` | Gregorian months and ISO weekdays; the next run of an agent, a bank's months, a platform agent's periods |
| `tenant_agents.dfy` | a bank's own agent: switched, scheduled, paused, resumed and run by the beat, all at once |
| `beats.dfy` | the platform's beat: overlapping beats, and beats that follow one another |
| `filings.dfy` | filing under one run while others file, report, stop and close it |
| `scope.dfy` | the markets a run looks at, and the walk up their parents |
| `definitions.dfy` | publishing and retiring the versions of an agent |
| `cases.dfy` | one case per bank per change, through replays, failures and the banks' own work |
| `licences.dfy`, `licence_trees.dfy`, `text.dfy` | the classifier of SPDX expressions, and what it makes of the text of any expression tree |
| `record_keys.dfy` | which constant keys a recorded value can carry, read through an AST with a path-local `seen` |
| `api_docs.dfy`, `ledger.dfy` | reachable schemas with a shared `seen`, reference chains, and the ledger file of the documentation gate |
| `search_eval.dfy` | the scores, means, baseline and verdict of the search evaluation gate |

Money is in 1/10000 EUR, the unit of a stored cost; the cap has two decimals, and `quantize` rounds half to even. Instants are
integers of microseconds. A bank's time zone is any map between local days and hours and instants with three
properties: `at` and `date` agree, the local date never goes back, and days start at 1
(`Schedule.Admissible`); that `at` grows with the day follows from these.

## What the proofs found

Each of these is the code's own behaviour, kept in the model, with a lemma for the concrete case and the
exact condition under which the stated guarantee holds.

- An event that leaves a bank's run open is judged against the cap under the spend lock, but a terminal event,
  a stop because the bank's AI is off and a drafted summary commit without that lock. At the event's commit the
  spend is within the cap exactly when what slipped past meanwhile fits the room the judgement left
  (`CapProtocol.OpenEventWithinCap`, `CapProtocol.TerminalEventSlipsPast`). Once the spend has passed the cap,
  at most one event of the whole bank still leaves a run open.
- The half cent in the cap theorem is reached from an empty month, within every hypothesis of the theorem
  (`CapProtocol.HalfCentIsReached`).
- `control.resume` reads the agent's row without a lock, so two resumes, or a resume and a change, can write
  back a next run computed from an older row: a switched-off agent keeps a next run, or one slot starts two
  runs (`TenantAgents.StaleResumeBreaks`, `TenantAgents.SameSlotTwice`). What every event keeps holds
  throughout a run of events exactly when each resume, as it writes, wants a run exactly when the row does
  and, if so, has computed a slot of the row with no slot it read taken since
  (`TenantAgents.ReachableIsConsistent`, `TenantAgents.ResumeWriteExactly`).
- `pause` saves without a lock too, from `control.pause`, `put_budget` and the check after an event. It keeps all of
  that, but two pauses of one running agent leave the second one's time, person and reason; an earlier pause survives
  exactly when the later one's read had seen it or it says the same (`TenantAgents.PauseWriteSays`).
- `order_by("last_run")` puts an agent that never ran after every one that did, where the docstring says the
  longest-waiting first (`Beats.NeverRunLeftOut`); the docstring holds exactly when a beat reaches everybody or
  nobody, or all listed have run, or none has (`Beats.LongestFirstExactly`). The bound on the beats holds for any order.
- `_value_keys` keeps names of different scopes, and helpers, in one `seen`, so a name bound in two scopes of one
  chain hides a key (`RecordKeys.TwoScopesHideAKey`). What it collects is, on every file, what stands at the end
  of a walk that meets no name twice; where no name repeats across scopes that is every walk.
- `classify_expression` raises an `IndexError`, None in the model, on a text such as `WITH WITH` or `MIT OR (WITH)`:
  of the texts that spell a tree, exactly on those whose tree holds a bare WITH (`LicenceTrees.StopsExactlyOnBare`),
  and on any text nothing divides or wraps exactly when all its words are WITH (`LicenceTrees.LeafAnswers`).
- The ledger reads back exactly the owners with findings if and only if every owner is free of white space
  (`Ledger.ReadsBackExactly`).

## Model

| member | source | states |
|---|---|---|
| CapProtocol.RunKeeps | backend/apps/agents/tasks.py:198-271 | Over every interleaving of opens, events, interrupts, cap changes and summaries: only the lock holder has a pending check, a judged event's figure plus what was committed past the lock is the true spend, and every checked open fits the cap it read |
| CapProtocol.HoldSplits | backend/apps/agents/budget.py:63-82 | What is held is exactly what the limits of checked runs cover, plus what unchecked runs cover, plus what runs reported past their limits |
| CapProtocol.HeldStaysUnderTheCap | backend/apps/agents/budget.py:63-82 | Under every interleaving, any reports and any moves of the cap: what is held is at most the cap of the latest open, half a cent, the overruns and the runs opened without the check |
| CapProtocol.HeldUnderOneCap | backend/apps/agents/tasks.py:198-205 | One unchanged cap, no unchecked open, no run past its limit: closed costs plus the larger of cost and limit of each open run stay within cap + 0.005 EUR once an open has succeeded |
| CapProtocol.CheckFitsExactly | backend/apps/agents/tasks.py:198-205 | The check before a run lets it go on exactly when its limit and what is held are within the cap and its rounding slack, whatever the drafted summaries come to; with no cap it never does |
| CapProtocol.OpensExactly | backend/apps/agents/tasks.py:198-271 | With nothing else in flight, from its begin to its commit: the run is opened exactly when the bank's AI is on, a cap is set and there is that room, and it is refused leaving everything as it was |
| CapProtocol.OpenAloneHolds | backend/apps/agents/tasks.py:229-271 | With nothing else in flight, an open there is room for adds exactly its run, and so exactly its limit to what is held |
| CapProtocol.SummariesHoldNothing | backend/apps/agents/budget.py:63-82 | Under a cap of 100 EUR with 50 EUR of drafted summaries a run of 60 EUR opens: summaries are spent but hold nothing |
| CapProtocol.HalfCentIsReached | backend/apps/agents/budget.py:60-82 | From an empty month, under one cap, with checked opens and no run past its limit: what is held comes to cap + 0.005 EUR |
| CapProtocol.JudgesExactly | backend/apps/agents/runner_events.py:150-169 | An event's judgement leaves its run open exactly when the exact spend with its own write is within the cap and its slack - reaching the cap is not passing it - and else interrupts it, as with no cap |
| CapProtocol.EventAloneExactly | backend/apps/agents/runner_events.py:108-169 | With nothing else in flight, an event that reports its run running leaves it so exactly when the bank's AI is on, it has a cap and the month's spend is then within it; what it reported is stored either way |
| CapProtocol.InterruptAlone | backend/apps/agents/control.py:104-158 | With nothing else in flight, an interrupt stops a running run in the person's name and leaves every other run, and any finished one, as it was |
| CapProtocol.AbortedLeavesNothing | backend/apps/agents/tasks.py:229-271 | A transaction that ends without a commit, whatever it did, leaves runs, summaries, cap and locks as they were |
| CapProtocol.OpenEventWithinCap | backend/apps/agents/runner_events.py:150-169 | An event that leaves its run open was judged within the cap, and at its commit the spend is within the cap exactly when what slipped past the lock fits the room left |
| CapProtocol.DriftIsWhatSlipped | backend/apps/agents/runner_events.py:108-147 | Between a judgement and its commit, what slipped past the lock is exactly the cost rises of terminal commits and the drafted summaries |
| CapProtocol.TerminalEventSlipsPast | backend/apps/agents/runner_events.py:108-147 | From an empty month under one cap of two cents: a terminal event past its run's own limit commits between another event's judgement and its commit, and leaves that run open with three cents spent |
| CapProtocol.PassedCapStops | backend/apps/agents/runner_events.py:150-169 | Once the spend has passed the cap, judging any event interrupts its run |
| CapProtocol.SpendGrows | backend/apps/agents/budget.py:51-60 | No step of anyone lowers the month's spend |
| CapProtocol.AtMostOneLeftOpen | backend/apps/agents/runner_events.py:108-169 | Under one cap at most one event of the whole bank leaves a run open after the spend has passed it |
| CapProtocol.LeftOpenCounts | backend/apps/agents/runner_events.py:150-169 | The history of the protocol counts exactly the commits that leave a run running after the spend has passed the cap |
| CapProtocol.AsideExactly | backend/apps/agents/budget.py:51-60 | Beside opens and events: switch and cap are as last set, a drafted summary adds its cents to the spend alone, and a research run opens unchecked exactly while the AI is on |
| Money.QuantizeIsNearest | backend/apps/agents/budget.py:60-60 | `quantize` gives whole cents no other whole cents are nearer than, half to even |
| Money.QuantizeMeetsBound | backend/apps/agents/budget.py:90-94 | A quantized amount is within a cap exactly when the exact amount is within the cap and its rounding slack |
| AgentRuns.EventIsTaken | backend/apps/agents/runner_events.py:172-215 | A report is refused for its zone, then for a finished run, and else taken exactly when its status, counters, cost, tokens and error are ones a run can have and nothing spent falls or disappears |
| AgentRuns.EventStores | backend/apps/agents/runner_events.py:108-135 | A report that is taken stores its status, each counter it names and zero for the others, its cost to the 1/10000, tokens and error, the finish time as it ends and the interrupt time with it, and nothing else |
| AgentRuns.CostMeans | backend/apps/agents/runner_events.py:187-194 | A cost is allowed exactly when it is a whole number of 1/10000 EUR from 0 to under a million EUR, and that number is stored |
| AgentRuns.AgentRun.TakeEvent | backend/apps/agents/runner_events.py:108-215 | An event is refused for a wrong zone, a finished run or a report that is not allowed, changing nothing, or sets exactly the fields a report sets |
| AgentRuns.AgentRun.HandOver | backend/apps/agents/opener.py:113-147 | A start failure fails the run with the fixed sentence and a finish time; else only the session is set |
| AgentRuns.AgentRun.Stop | backend/apps/agents/control.py:130-158 | A stop interrupts the run, with equal finish and interrupt times and who did it |
| AgentRuns.AgentRun.Finish | backend/apps/agents/runs.py:273-308 | A close of a running run stores the server's counts and the run's own account; of a finished run it answers unchanged or is refused |
| AgentRuns.LifeKeeps | backend/apps/agents/runner_events.py:172-215 | Over any sequence of events, interrupts and closes: finish time set exactly when not running, interrupt time exactly when interrupted, cost and tokens never fall or disappear |
| AgentRuns.FinishedStays | backend/apps/agents/runs.py:260-308 | Whatever is done after a run has finished, not one field of it moves |
| AgentRuns.EachDeedIsDone | backend/apps/agents/control.py:104-158 | Each deed acts on what the ones before it left, a refused one stores nothing, and an interrupt stops exactly a running run |
| AgentRuns.CloseOnce | backend/apps/agents/runs.py:273-308 | Repeating the close that closed a run answers it unchanged whatever is counted meanwhile; a later close is refused exactly when a value of the run's own account differs |
| Calendar.MonthOfIsUnique | backend/apps/agents/budget.py:39-48 | A day lies in one month only, the one whose first day and next first day enclose it |
| Calendar.NextFirst | backend/apps/agents/budget.py:43-43 | Thirty-two days after a month's first day, back to day 1, is the next month's first day |
| Calendar.NewYearIsClosedForm | backend/apps/agents/budget.py:39-48 | Counting month lengths gives the closed form of the Gregorian new year |
| Calendar.WeekdaysGoRound | backend/apps/agents/tenant_agents.py:158-186 | ISO weekdays go round in sevens from Monday 1 January of year 1, and each day has the one after the day before it |
| Schedule.UpcomingIsNextSlot | backend/apps/agents/tenant_agents.py:158-186 | For every cadence that runs, date, weekday, hour and zone the next run is a slot strictly after now with no slot between |
| Schedule.NextRunAt | backend/apps/agents/tenant_agents.py:158-186 | The computation gives that least slot, on the weekday the row names or Monday where it names none, and none exactly when off, paused or manual |
| Schedule.UpcomingIsNamed | backend/apps/agents/tenant_agents.py:158-186 | The next weekly run is on the weekday the row names and the next monthly run on that weekday of a month's first seven days, Monday exactly where none is named |
| Schedule.NextMonthly | backend/apps/agents/tenant_agents.py:180-186 | The monthly loop ends within two months: its closing assertion is unreachable |
| Schedule.MonthsPartition | backend/apps/agents/budget.py:39-48 | A bank's months are half-open, contain their own now, never overlap and leave no gap |
| Schedule.EachCostOnce | backend/apps/agents/budget.py:51-60 | Summed over all months each run's exact cost counts exactly once |
| Schedule.PeriodsAre | backend/apps/agents/tasks.py:141-149 | Two days are in one period exactly when they are one day, lie in one week from Monday, or in one month, by the cadence; a period starts on that day, that Monday or the first of that month |
| Schedule.PeriodsInOrder | backend/apps/agents/tasks.py:141-149 | A later day's period starts no earlier, and a day's period has started by an earlier day exactly when both are in it |
| TenantAgents.TenantAgent.Change | backend/apps/agents/tenant_agents.py:256-292 | A refused change changes nothing; another sets what was sent, the normal form and the next run |
| TenantAgents.UpdateStores | backend/apps/agents/tenant_agents.py:144-186 | A change that goes through stores each field as sent or else as it was, the day and hour only where the cadence reads them - a sent weekday as it is, Monday and the bank's hour where none was named - and a next run, if any, on the day so named |
| TenantAgents.UpdateRefusedExactly | backend/apps/agents/tenant_agents.py:256-292 | A change is refused exactly for a cadence above the plan, or for switching on with no cap set, and then changes nothing |
| TenantAgents.AbovePlanMeans | backend/apps/agents/tenant_agents.py:119-124 | Exactly the cadences more frequent than the plan's least are above it |
| TenantAgents.TenantAgent.Pause | backend/apps/agents/tenant_agents.py:295-321 | A pause clears the next run and keeps an earlier pause as it is |
| TenantAgents.TenantAgent.Resume | backend/apps/agents/control.py:66-101 | A resume clears the pause and recomputes the next run, and does nothing to an agent not paused |
| TenantAgents.TenantAgentBudget.Put | backend/apps/agents/budget.py:106-132 | Setting a cap at or below the spend pauses exactly the switched-on agents; a higher one none |
| TenantAgents.BeatExactly | backend/apps/agents/tasks.py:304-320 | A beat takes a slot exactly when the agent is on, not paused and its next run has come; the next run is then the first slot after the beat, however many were missed, and a run that does not fit pauses the agent for the cap |
| TenantAgents.PauseAlone | backend/apps/agents/tenant_agents.py:295-321 | Undisturbed, a pause stops an agent that is not paused, with its time, person and reason and no next run, and leaves a paused one as it is |
| TenantAgents.ResumeAlone | backend/apps/agents/control.py:66-101 | Undisturbed, a resume clears the pause and gives the first slot after its read, none to an agent that is off or manual, and leaves an agent that is not paused as it is |
| TenantAgents.CapLetsSwitchOn | backend/apps/agents/tenant_agents.py:256-292 | Once a cap is set an agent can be switched on, and not before |
| TenantAgents.StepExactly | backend/apps/agents/tasks.py:308-320 | Every change, pause read or written without a lock, cap and beat keeps the invariant below, and a resume keeps it exactly when it is harmless as it writes |
| TenantAgents.ReachableIsConsistent | backend/apps/agents/tenant_agents.py:144-186 | Throughout every run of events - a next run exactly when on, not paused and not manual; day and hour in normal form; on only under a cap; any two scheduled starts separated by a slot - exactly when every resume is harmless as it writes |
| TenantAgents.ResumeWriteExactly | backend/apps/agents/control.py:66-101 | In every such state a resume's write keeps all of it exactly when read and row want a run alike and, if they do, the run computed is a slot of the row and no slot of the schedule read lies between the read and the last take |
| TenantAgents.UnchangedIsHarmless | backend/apps/agents/control.py:66-101 | A schedule nobody changed and no take since the read is enough |
| TenantAgents.StaleResume | backend/apps/agents/control.py:66-101 | What an unlocked resume writes is consistent exactly when what it read and the row it writes over want a run alike |
| TenantAgents.StaleResumeBreaks | backend/apps/agents/control.py:66-101 | From an agent just added: switched off between a resume's read and its write, it is off and keeps a next run |
| TenantAgents.PauseWriteSays | backend/apps/agents/tenant_agents.py:295-321 | A pause's unlocked write pauses whatever it finds; an earlier pause survives it exactly when its own read had seen it, or it says the same |
| TenantAgents.SecondPauseWritesOver | backend/apps/agents/control.py:58-63 | Of two pauses that read one running agent, the second replaces the first one's time, person and reason |
| TenantAgents.StaleResumeSlot | backend/apps/agents/opener.py:150-154 | What a stale resume writes is a slot of the row ahead of every taken one exactly when what it computed is such a slot and none of the slots it read was taken since, whatever was changed meanwhile |
| TenantAgents.SameSlotTwice | backend/apps/agents/control.py:66-101 | Two resumes around a beat start two runs from one slot |
| Beats.OverlappingBeats | backend/apps/agents/tasks.py:152-190 | However beats overlap, die or are refused and however cadences change between listings: a run is its agent's only one since its own period began, and no beat starts more than its share |
| Beats.OncePerPeriod | backend/apps/agents/tasks.py:141-173 | So under one cadence an agent has no two scheduled runs on one UTC day, in one week from Monday, or in one month |
| Beats.SincesAre | backend/apps/agents/tasks.py:141-149 | A period starts at midnight UTC, and two instants share one start exactly when their days are one day, in one week from Monday, or in one month |
| Beats.DueMeans | backend/apps/agents/tasks.py:158-173 | An agent is not due exactly when it has a scheduled run in the period of now, or one at now or later |
| Beats.ClaimAloneExactly | backend/apps/agents/tasks.py:164-190 | A claim nobody disturbs starts the agent once, now, exactly when it has no run since the period began, and goes on with the next either way |
| Beats.BeatAlone | backend/apps/agents/tasks.py:177-190 | In the machine of overlapping beats, a beat alone opens exactly the runs of the due agents it has room for, in the order listed |
| Beats.DueByLastRun | backend/apps/agents/tasks.py:158-173 | The list's last run and the claim's search for a run since agree on who is due |
| Beats.LongestFirstExactly | backend/apps/agents/tasks.py:152-161 | As PostgreSQL orders the list, a beat takes the longest-waiting first, as the docstring promises, exactly when it reaches everybody or nobody, or all listed have run, or none has |
| Beats.NeverRunLeftOut | backend/apps/agents/tasks.py:152-161 | A reached state in which a beat with one place starts the agent that ran yesterday and leaves out the one that never ran |
| Beats.Platform.RunBeat | backend/apps/agents/tasks.py:177-190 | A beat alone starts exactly the agents with a version among its first places, in order |
| Beats.DueAfter | backend/apps/agents/tasks.py:152-161 | After a beat exactly those it started are no longer due in the period |
| Beats.BeatsCatchUp | backend/apps/agents/tasks.py:152-190 | With blocked due agents, each beat of the period starts at least its places less the blocked ones, in any order |
| Beats.AllStarted | backend/apps/agents/tasks.py:177-190 | When every due agent has a version, after ceil(N / K) beats of the period none is due, whatever the order |
| Beats.SeededAgentsStart | backend/apps/agents/tasks.py:177-190 | Agents shipped active always have a version to run, so ceil(N / K) beats start them all |
| Beats.PublishedMeans | backend/apps/agents/definitions.py:194-207 | The agents that can run are those with a published version and those that never had one |
| Beats.StartsNothing | backend/apps/agents/tasks.py:83-94 | A beat starts nothing exactly when no agent in its first places has a version |
| Filings.CountersMove | backend/apps/agents/runs.py:380-396 | Each filing moves its own counter alone, a sweep only for a source and a re-check only for a record not counted before |
| Filings.ClosedAccountIsExact | backend/apps/agents/runs.py:239-308 | Under every interleaving of locked filings, reports, stops and closes: a run closed by its key stores counters equal to what is filed under it, then and for ever |
| Filings.FinishedIsFrozen | backend/apps/agents/runs.py:331-353 | Nothing is filed under a finished run and no field of it changes, whoever goes on |
| Filings.LimitsHold | backend/apps/agents/runs.py:356-396 | No run files more re-checks, changes or proposals than its limits, and its count of distinct records is at most the re-checks it filed |
| Filings.FilesExactly | backend/apps/agents/runs.py:331-377 | Alone, a filing is stored exactly when the run is open and has one of its kind left, and moves nothing of the run's own account |
| Filings.ClosesExactly | backend/apps/agents/runs.py:273-308 | Alone, a close of an open run stores its status, the counts of what is filed and the run's own account, and keeps cost and tokens; of a finished run it changes nothing |
| Filings.RolledBackLeavesNothing | backend/apps/agents/runs.py:331-353 | A transaction that rolls back leaves nothing, whatever it had filed, reported or closed |
| Scope.MarketsOf | backend/apps/agents/scope.py:58-85 | The scope is the operating markets, the other watched ones and the remaining ancestors, and the walk ends on parent links that form a cycle |
| Scope.Climb | backend/apps/agents/scope.py:79-83 | Walking up from one more market reaches exactly what unbroken chains of active parents reach |
| Scope.ScopeHoldsExactly | backend/apps/agents/scope.py:58-85 | A jurisdiction is operating, watching or reaching in the scope exactly when the bank operates there, else watches it, else an unbroken chain leads to it |
| Scope.ActiveInOrder | backend/apps/agents/scope.py:65-68 | The active jurisdictions are those at exactly the active places of the table, in its order |
| Scope.GroupsKeepTableOrder | backend/apps/agents/scope.py:65-74 | Each group of the scope stands in the order of the table of jurisdictions |
| Scope.ListedKeepsOrder | backend/apps/agents/scope.py:70-74 | Each group stands in the order of the active jurisdictions it is drawn from |
| Scope.ScopeHasNoRepeats | backend/apps/agents/scope.py:58-85 | No jurisdiction is in the scope twice |
| Scope.ForRun | backend/apps/agents/scope.py:88-107 | Without a choice of its own the run gets the market scope; else exactly the chosen jurisdictions that are active, as chosen; the live terms; and every retired key noted in its own list, nothing else |
| Scope.KeptInOrder | backend/apps/agents/scope.py:96-106 | Kept keys are those at exactly the places of the live ones, in the order chosen |
| Scope.KeptAndDropped | backend/apps/agents/scope.py:88-107 | What was chosen is split between kept and dropped: none lost, none added |
| Definitions.Agent.PublishVersion | backend/apps/agents/definitions.py:121-157 | Refused as existing, not next or unreadable in that order, or one new version and the agent on it |
| Definitions.Agent.RetireVersion | backend/apps/agents/definitions.py:160-191 | Not found, answered as it is, refused as the last one of an active agent, or retired once |
| Definitions.SeededVersions | backend/apps/agents/seeds/__init__.py:55-99 | From the seed on, versions are numbered from the one the build shipped, 2 for one agent, in turn and without a gap, and the agent is on the last |
| Definitions.PublishedIsNext | backend/apps/agents/definitions.py:100-157 | From any first number: a publish goes through exactly for the next number as the build ships it for this agent, and that version is then the one to run; a number there is already exists, any other is not the next |
| Definitions.RetiredStops | backend/apps/agents/definitions.py:160-191 | A retirement goes through exactly for a version retired already or not the last of an active agent; no new run opens with it and every other version stays |
| Definitions.VersionsKept | backend/apps/agents/definitions.py:121-191 | Over any writes versions stay numbered in turn from the first one without gaps, and every version row stays as published but for one retirement |
| Definitions.ActiveCanRun | backend/apps/agents/definitions.py:194-207 | An active agent with a published version always has one to run, the highest published |
| Definitions.SeededCanRun | backend/apps/agents/definitions.py:160-207 | From the seed on, whatever is published and retired, an agent always has something to run if and only if it was shipped active |
| Cases.CaseBook.CreateCases | backend/apps/cases/creation.py:74-107 | The fan-out opens a case for each listed bank that has none, and nothing when the change is not there |
| Cases.FannedOnce | backend/apps/cases/creation.py:109-143 | A fan-out leaves every row as it was, adds only new cases of listed banks that had none, and afterwards every listed bank has one |
| Cases.NewCaseSuggests | backend/apps/cases/creation.py:109-143 | A new case carries the change's urgency and draft as unconfirmed suggestions, matches exactly where the footprint does not leave the change out, and is due by the bank's own triage hours |
| Cases.DeliversAlone | backend/apps/cases/creation.py:74-107 | Undisturbed, a delivery through the outbox batch fans out to exactly the banks active when it read the list, though the list changes meanwhile |
| Cases.FailureUndoes | backend/apps/cases/creation.py:74-107 | A delivery that fails part way leaves the batch as it found it, and one that names no change does nothing |
| Cases.ExactlyOneCase | backend/apps/cases/creation.py:74-143 | Under any replays, failed and lost deliveries each bank active when a completed delivery read the list has exactly one case for its change |
| Cases.CaseStays | backend/apps/cases/creation.py:139-143 | No fan-out, replay or failure touches a case already there: it stays exactly as it was until something else writes on it |
| Cases.BankKeepsItsWork | backend/apps/cases/creation.py:139-143 | What a bank last wrote on its case is what the case says, whatever is delivered around it |
| Licences.PartsShorten | scripts/check_licences.py:89-113 | Whenever a split finds more than one part, each is strictly shorter than the text, so the classifier's recursion ends |
| Licences.SplitLoop | scripts/check_licences.py:89-113 | The loop cuts at the operators found at depth 0 |
| Licences.WrapLoop | scripts/check_licences.py:146-155 | The loop says whether the opening parenthesis closes only at the end |
| LicenceTrees.TextHasTreeValue | scripts/check_licences.py:129-167 | Every text that spells an expression tree, whatever its spacing, classifies as the tree's own value: OR the best, AND the worst, WITH its licence, with the precedence of section D.4.5 of the SPDX Specification 2.3; a bare WITH anywhere stops it |
| LicenceTrees.PrintedHasTreeValue | scripts/check_licences.py:129-167 | So does every printed tree |
| LicenceTrees.BetterTermsNeverWorsen | scripts/check_licences.py:129-167 | On any text at all, reading the terms no worse never makes the whole worse |
| Licences.PackageIsItsBest | scripts/check_licences.py:169-172 | A package is as good as its best licence, stops the gate exactly when one of them does, and is unknown when it names none |
| Licences.BestAndWorst | scripts/check_licences.py:158-166 | Fine before weak before unknown before copyleft: the best of two is fine when either is, the worst copyleft when either is, and so on down the order |
| Licences.BlankIsUnknown | scripts/check_licences.py:129-133 | A text of nothing but white space is unknown |
| LicenceTrees.LeafAnswers | scripts/check_licences.py:142-143 | A text no parentheses wrap and neither OR nor AND divides is not answered exactly when every word of it is WITH |
| LicenceTrees.StopsExactlyOnBare | scripts/check_licences.py:129-143 | Of the texts that spell a tree, the gate stops on exactly those whose tree holds a bare WITH, in parentheses or beside other operands |
| LicenceTrees.WithAloneStops | scripts/check_licences.py:142-143 | So nothing but WITHs is never answered: an IndexError |
| RecordKeys.CollectsSimpleWalks | backend/scripts/compliance_check.py:299-355 | On every file a key is collected exactly when the value writes it itself or a walk that meets no name twice ends at it; the reading ends on cyclic bindings |
| RecordKeys.CollectsAllWalks | backend/scripts/compliance_check.py:299-355 | Where no name is bound in two scopes of one chain, the keys collected are exactly the reachable ones |
| RecordKeys.SimpleWalkExists | backend/scripts/compliance_check.py:319-336 | Every walk has a simple one to the same key |
| RecordKeys.CallsRead | backend/scripts/compliance_check.py:319-336 | `dict(...)` gives its own keyword names and what its arguments carry; any other call that is no helper of the module gives nothing |
| RecordKeys.AssignmentsInOrder | backend/scripts/compliance_check.py:338-355 | Keys of a later assignment come after those of an earlier one |
| RecordKeys.ItemsInOrder | backend/scripts/compliance_check.py:306-307 | Keys of a later item come after those of an earlier one |
| RecordKeys.TwoScopesHideAKey | backend/scripts/compliance_check.py:319-336 | One name in two scopes: a key the value carries is not collected |
| RecordKeys.Checker.Gather | backend/scripts/compliance_check.py:338-355 | The loop over a scope's assignments gives the keys a name picks up |
| RecordKeys.Checker.CheckRecord | backend/scripts/compliance_check.py:280-292 | The report grows by exactly the collected keys named like content, each place once and at its first sight, in the order read |
| RecordKeys.FirstSightsMean | backend/scripts/compliance_check.py:280-292 | First sights are content keys of the list, one for each of its places not reported before |
| ApiDocs.ReferencedIsLeastClosed | backend/scripts/api_docs_gate.py:497-512 | The search with its shared set returns exactly the least set of names that holds the node's own and is closed under references, cyclic schemas included |
| ApiDocs.Seen.Visit | backend/scripts/api_docs_gate.py:497-512 | The search that changes one set in place computes that set |
| ApiDocs.RefNameMeans | backend/scripts/api_docs_gate.py:497-512 | An object refers to a schema exactly when its `$ref` is text that starts with the components path, and then to the name after the last slash |
| ApiDocs.Resolve | backend/scripts/api_docs_gate.py:202-210 | A chain of references is followed to its end; it gives the empty object exactly when the chain never ends or ends there |
| ApiDocs.NextMeans | backend/scripts/api_docs_gate.py:202-210 | One hop goes by the `$ref` wherever it points, to the schema its last segment names, or to the empty object where no schema has that name |
| Ledger.PendingEntries | backend/scripts/api_docs_gate.py:515-529 | Reading keeps the last line of each owner |
| Ledger.WritePending | backend/scripts/api_docs_gate.py:532-572 | Writing puts one line an owner, keeping the rest recorded before |
| Ledger.Report | backend/scripts/api_docs_gate.py:575-610 | The gate passes exactly when no owner is outside the ledger and, where asked, no line is stale |
| Ledger.ParsesWhatWasPrinted | backend/scripts/api_docs_gate.py:515-529 | A printed line reads back as its owner and its rest |
| Ledger.ParsesExactly | backend/scripts/api_docs_gate.py:515-529 | A line is an entry exactly when, stripped, it is `schema` or `operation`, white space, a word, white space and something more: the word is its owner, that its rest |
| Ledger.LineEnds | backend/scripts/api_docs_gate.py:520-521 | A line ends at its line break, a carriage return and line feed being one, and what follows the last break is a line when there is any |
| Ledger.ReadsBackExactly | backend/scripts/api_docs_gate.py:515-572 | After a write the file reads back as exactly the owners with findings, with the reasons recorded before, if and only if every owner is a word |
| Ledger.PassesUntilOwnersChange | backend/scripts/api_docs_gate.py:532-610 | The gate passes right after a write, and on later findings exactly when the set of owners is unchanged |
| Ledger.WritingTwiceIsWritingOnce | backend/scripts/api_docs_gate.py:532-572 | Writing again on the same findings changes no character |
| SearchEval.RecallMeans | backend/scripts/search_eval.py:243-247 | Recall is a share, grows with k, and is 1 or 0 exactly when all or none of the expected keys are among the first k answers |
| SearchEval.RecallMoves | backend/scripts/search_eval.py:243-247 | Each expected key carries the same weight, once for every time it is expected |
| SearchEval.ReciprocalRank | backend/scripts/search_eval.py:250-257 | One over the place of the first expected answer, 0 when there is none |
| SearchEval.JaccardMeans | backend/scripts/search_eval.py:260-264 | A symmetric share, of all keys those in both; 1 exactly for equal sets and 0 exactly for sets apart |
| SearchEval.ScopeAccuracyMeans | backend/scripts/search_eval.py:267-292 | The scope score is a share, 1 exactly when no mirrored term was sent and every expected dimension is met |
| SearchEval.ScopeAccuracyMoves | backend/scripts/search_eval.py:267-292 | Each dimension carries the same weight, and a mirrored term takes everything away |
| SearchEval.MeanIsShare | backend/scripts/search_eval.py:295-296 | A mean of shares is a share |
| SearchEval.MeanMoves | backend/scripts/search_eval.py:295-296 | Each row carries the same weight, and the mean of none is 0 |
| SearchEval.Breakdown | backend/scripts/search_eval.py:356-360 | Every group with the means of its own rows |
| SearchEval.GroupsRecombine | backend/scripts/search_eval.py:356-360 | Weighted by group size the groups' means recombine to the overall mean |
| SearchEval.Decide | backend/scripts/search_eval.py:364-380 | A recorded track without a real evaluator fails; with one it fails exactly on the metrics under their floor, each once and in the gate's order |
| SearchEval.RecordKeepsValid | backend/scripts/search_eval.py:383-395 | Recording keeps a valid baseline valid, marks exactly the tracks scored or recorded before, and leaves the other track's scores alone |
| SearchEval.RecordSays | backend/scripts/search_eval.py:383-395 | Recording is refused exactly when nothing real was scored, and a recorded track says who scored it, on how many rows and when |
| SearchEval.RoundsToEven | backend/scripts/search_eval.py:383-395 | A recorded score is the multiple of 0.0001 nearest to it, of two as near the even one |
| SearchEval.SameScoresPass | backend/scripts/search_eval.py:364-395 | After recording, the same scores fail exactly where rounding rose by more than the tolerance, so never with a tolerance of at least 0.00005 |
| SearchEval.HalfUnitIsReached | backend/scripts/search_eval.py:383-395 | No smaller tolerance will do |

## Left out

- The cap protocol holds the bank's runs of one month; that months partition the runs is `Schedule.MonthsPartition`. Run ids are the order of the opens' commits.
- Two things are taken as they are: the database's row locks, advisory locks, unique constraints and read-committed visibility, and a clock that never goes back.
- Routes, schemas, permissions, step-up, row-level security, audit rows and the answers 404 to foreign ids: plumbing around the steps modelled.
- Runners, fetches, mail and the model itself: a runner is any sequence of reports `_validated` accepts.
- `runs.open_run` and its idempotent replay, the status map of a research request and `apply_finding`: one-branch checks that would add only easy members.
- Zones in which a local date is skipped or goes back, and Python's last date at the end of year 9999. That midnight is the first instant of its day is assumed for a bank's months only.
- A row of `tenant_agents.dfy` is one agent; the loop over agents of a beat is `Beats` for the platform and the beat's step here.
- Beats.AllStarted: takes each agent's cadence as it stands during one period; overlapping beats may each have read another.
- An agent the seed left without a version row, from a build older than the version table, runs with none until a version is published; `Definitions.Numbered` covers it.
- Beats.Platform.RunBeat: takes the list of due agents in the order the query gave, since the order is proved not to matter.
- Cases.CaseBook.CreateCases: takes the list of active banks; the footprint rule is the set of banks it leaves out.
- The content screen of the record rule, `classify_term` and the rules that produce findings: arbitrary functions of a key, a term or a document.
- A key's place is one number, not a line and a column; suppression comments are not modelled.
- Ledger.WritePending: takes the order of the owners, the header lines and the text of a new reason as given; the theorems hold for every order without repeats, every header of comments and every reason on one line.
- White space is ASCII white space and text is a sequence of characters.
- ApiDocs.Resolve: a reference that is not text raises in the source; the published contract holds none, and the model reads one as the end of the chain.
- Scores are exact reals: floating-point error in the means, and the printing of failures, are not modelled. The baseline file's three top keys are there by its type.
- A missing counter of a run's stats reads as zero, as its reader reads it.
