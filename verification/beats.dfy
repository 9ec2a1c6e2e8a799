// bleqq's beat: each due platform agent is started once per calendar period, at most so many a beat.
// First beats that overlap, one transaction an agent, then beats that follow one another.

module Beats {
  import opened Options
  import opened Schedule
  import Definitions

  const MICROS_PER_DAY := 86_400_000_000

  // The beat reads only agents with a schedule.
  type Repeating = cadence: Cadence | cadence != Manual witness Daily

  // A scheduled run, with the cadence its beat had read of the agent.
  datatype Run = Run(agent: nat, cadence: Repeating, startedAt: nat, beat: nat)

  // The first instant of the UTC period `now` is in; instants are microseconds from 1 January of year 1.
  function Since(cadence: Repeating, now: nat): (first: nat)
    ensures first <= now
  {
    (PeriodStart(cadence, now / MICROS_PER_DAY + 1) - 1) * MICROS_PER_DAY
  }

  // Two instants are in one period exactly when the later one's period has started by the earlier.
  lemma SincesInOrder(cadence: Repeating, a: nat, b: nat)
    requires a <= b
    ensures Since(cadence, a) <= Since(cadence, b)
    ensures Since(cadence, b) <= a <==> Since(cadence, a) == Since(cadence, b)
  {
    PeriodsInOrder(cadence, a / MICROS_PER_DAY + 1, b / MICROS_PER_DAY + 1);
  }

  // The UTC day of an instant.
  function UtcDay(now: nat): (day: nat)
    ensures 1 <= day && (day - 1) * MICROS_PER_DAY <= now < day * MICROS_PER_DAY
  {
    now / MICROS_PER_DAY + 1
  }

  // A period starts at midnight of its first day; two instants have one start exactly when their days
  // are one day, in one week from Monday, or in one month.
  lemma SincesAre(cadence: Repeating, a: nat, b: nat)
    ensures Since(cadence, a) == Since(cadence, b) <==> InOnePeriod(cadence, UtcDay(a), UtcDay(b))
    ensures Since(cadence, a) % MICROS_PER_DAY == 0
    ensures InOnePeriod(cadence, UtcDay(Since(cadence, a)), UtcDay(a))
  {
    PeriodsAre(cadence, UtcDay(a), UtcDay(b));
    Midnight(PeriodStart(cadence, UtcDay(a)));
  }

  lemma Midnight(day: nat)
    requires 1 <= day
    ensures ((day - 1) * MICROS_PER_DAY) % MICROS_PER_DAY == 0 && UtcDay((day - 1) * MICROS_PER_DAY) == day
  {
  }

  predicate RanSince(runs: seq<Run>, agent: nat, first: nat) {
    exists i :: 0 <= i < |runs| && runs[i].agent == agent && first <= runs[i].startedAt
  }

  // ---------------------------------------------------------------------------------------
  // Beats that overlap
  // ---------------------------------------------------------------------------------------

  // How far a beat is with the first agent it has left: its transaction holds the agent's lock from
  // `Locked` on, has found it still due in `Free`, and has written a run nobody else sees in `Written`.
  datatype Phase = Between | Locked | Free | Written(startedAt: nat)

  // An agent as a beat lists it: the cadence is read here, and the platform's settings may change it
  // before the claim.
  datatype Entry = Entry(agent: nat, cadence: Repeating)

  datatype Beat = Beat(now: nat, left: seq<Entry>, phase: Phase)

  // `runs` are the committed scheduled runs.
  datatype State = State(clock: nat, runs: seq<Run>, beats: map<nat, Beat>, begun: set<nat>)

  datatype Step =
    | Tick(micros: nat)
    | Begin(beat: nat, listed: seq<Entry>)
    | TryLock(beat: nat)
    | Recheck(beat: nat)
    | Write(beat: nat)
    | Commit(beat: nat)
    | Refuse(beat: nat)
    | Die(beat: nat)

  predicate Holds(st: State, beat: nat, agent: nat) {
    beat in st.beats && st.beats[beat].phase != Between && st.beats[beat].left != [] &&
      st.beats[beat].left[0].agent == agent
  }

  predicate Enabled(st: State, step: Step) {
    match step
    case Tick(_) => true
    // Whatever was listed as due, by whatever cadences: a beat claims each agent again.
    case Begin(b, _) => b !in st.begun
    case Die(b) => b in st.beats
    case TryLock(b) => b in st.beats && st.beats[b].left != [] && st.beats[b].phase == Between
    case Recheck(b) => b in st.beats && st.beats[b].left != [] && st.beats[b].phase == Locked
    case Write(b) => b in st.beats && st.beats[b].left != [] && st.beats[b].phase == Free
    case Refuse(b) => b in st.beats && st.beats[b].left != [] && st.beats[b].phase == Free
    case Commit(b) => b in st.beats && st.beats[b].left != [] && st.beats[b].phase.Written?
  }

  function Moved(st: State, b: nat, beat: Beat): State {
    st.(beats := st.beats[b := beat])
  }

  // On with the next agent; ending the transaction gives the lock back.
  function Next(beat: Beat): Beat
    requires beat.left != []
  {
    beat.(left := beat.left[1..], phase := Between)
  }

  function First<T>(listed: seq<T>, n: nat): seq<T> {
    if n < |listed| then listed[..n] else listed
  }

  function After(perBeat: nat, st: State, step: Step): State
    requires Enabled(st, step)
  {
    match step
    case Tick(micros) => st.(clock := st.clock + micros)
    case Begin(b, listed) => Moved(st, b, Beat(st.clock, First(listed, perBeat), Between)).(begun := st.begun + {b})
    case Die(b) => st.(beats := st.beats - {b})
    case TryLock(b) =>
      var beat := st.beats[b];
      if exists other :: other in st.beats && Holds(st, other, beat.left[0].agent) then Moved(st, b, Next(beat))
      else Moved(st, b, beat.(phase := Locked))
    case Recheck(b) =>
      var beat := st.beats[b];
      var entry := beat.left[0];
      if RanSince(st.runs, entry.agent, Since(entry.cadence, beat.now)) then Moved(st, b, Next(beat))
      else Moved(st, b, beat.(phase := Free))
    case Write(b) => Moved(st, b, st.beats[b].(phase := Written(st.clock)))
    case Refuse(b) => Moved(st, b, Next(st.beats[b]))
    case Commit(b) =>
      var beat := st.beats[b];
      Moved(st, b, Next(beat)).(runs := st.runs +
        [Run(beat.left[0].agent, beat.left[0].cadence, beat.phase.startedAt, b)])
  }

  const START := State(0, [], map[], {})

  // The state after these steps; one that is not enabled changes nothing.
  function Execute(perBeat: nat, steps: seq<Step>): State {
    if steps == [] then START
    else
      var before := Execute(perBeat, steps[..|steps| - 1]);
      if Enabled(before, steps[|steps| - 1]) then After(perBeat, before, steps[|steps| - 1]) else before
  }

  function StartedBy(runs: seq<Run>, beat: nat): nat {
    if runs == [] then 0 else StartedBy(runs[..|runs| - 1], beat) + if runs[|runs| - 1].beat == beat then 1 else 0
  }

  // When a run starts, its agent has had no other since the start of the run's own period.
  ghost predicate AloneInItsPeriod(runs: seq<Run>) {
    forall i, j :: 0 <= i < j < |runs| && runs[i].agent == runs[j].agent ==>
      runs[i].startedAt < Since(runs[j].cadence, runs[j].startedAt)
  }

  // So an agent whose cadence stays has no two runs on one day, in one week, or in one month.
  lemma OncePerPeriod(runs: seq<Run>, i: nat, j: nat)
    requires AloneInItsPeriod(runs) && i < j < |runs|
    requires runs[i].agent == runs[j].agent && runs[i].cadence == runs[j].cadence
    ensures Since(runs[i].cadence, runs[i].startedAt) < Since(runs[j].cadence, runs[j].startedAt)
    ensures !InOnePeriod(runs[i].cadence, UtcDay(runs[i].startedAt), UtcDay(runs[j].startedAt))
  {
    SincesAre(runs[i].cadence, runs[i].startedAt, runs[j].startedAt);
  }

  ghost predicate BeatIsSound(perBeat: nat, st: State, b: nat)
    requires b in st.beats
  {
    var beat := st.beats[b];
    && beat.now <= st.clock
    && StartedBy(st.runs, b) + |beat.left| <= perBeat
    && (beat.phase != Between ==> beat.left != [])
    && (beat.phase.Written? ==> beat.now <= beat.phase.startedAt <= st.clock)
    && (beat.phase.Free? || beat.phase.Written? ==>
          !RanSince(st.runs, beat.left[0].agent, Since(beat.left[0].cadence, beat.now)))
  }

  ghost predicate OneHolder(st: State) {
    forall a, b, agent :: Holds(st, a, agent) && Holds(st, b, agent) ==> a == b
  }

  ghost predicate Inv(perBeat: nat, st: State) {
    && AloneInItsPeriod(st.runs)
    && (forall i :: 0 <= i < |st.runs| ==> st.runs[i].startedAt <= st.clock && st.runs[i].beat in st.begun)
    && st.beats.Keys <= st.begun
    && OneHolder(st)
    && (forall b :: b in st.beats ==> BeatIsSound(perBeat, st, b))
    && (forall b :: StartedBy(st.runs, b) <= perBeat)
  }

  lemma {:induction false} NotBegunStartedNothing(runs: seq<Run>, beat: nat)
    requires forall i :: 0 <= i < |runs| ==> runs[i].beat != beat
    ensures StartedBy(runs, beat) == 0
  {
    if runs != [] {
      NotBegunStartedNothing(runs[..|runs| - 1], beat);
    }
  }

  lemma FewerHolders(st: State, next: State)
    requires OneHolder(st)
    requires forall b, agent :: Holds(next, b, agent) ==> Holds(st, b, agent)
    ensures OneHolder(next)
  {
    forall x, y, agent | Holds(next, x, agent) && Holds(next, y, agent)
      ensures x == y
    {
      assert Holds(st, x, agent) && Holds(st, y, agent);
    }
  }

  lemma MovedKeeps(perBeat: nat, st: State, b: nat, beat: Beat)
    requires Inv(perBeat, st) && b in st.beats
    requires var next := Moved(st, b, beat); BeatIsSound(perBeat, next, b) && OneHolder(next)
    ensures Inv(perBeat, Moved(st, b, beat))
  {
    var next := Moved(st, b, beat);
    forall other | other in next.beats
      ensures BeatIsSound(perBeat, next, other)
    {
      if other != b {
        assert BeatIsSound(perBeat, st, other);
      }
    }
  }

  lemma AloneStill(runs: seq<Run>, run: Run)
    requires AloneInItsPeriod(runs)
    requires forall i :: 0 <= i < |runs| && runs[i].agent == run.agent ==>
             runs[i].startedAt < Since(run.cadence, run.startedAt)
    ensures AloneInItsPeriod(runs + [run])
  {
  }

  lemma StartedByMore(runs: seq<Run>, run: Run)
    ensures forall beat :: StartedBy(runs + [run], beat) == StartedBy(runs, beat) + if beat == run.beat then 1 else 0
  {
    assert (runs + [run])[..|runs|] == runs;
  }

  // No one else has found the agent due, so nobody else's finding is disturbed.
  lemma CommitLeavesBeats(perBeat: nat, st: State, b: nat, other: nat)
    requires Inv(perBeat, st) && Enabled(st, Commit(b)) && other in st.beats
    ensures BeatIsSound(perBeat, After(perBeat, st, Commit(b)), other)
  {
    var entry := st.beats[b].left[0];
    assert BeatIsSound(perBeat, st, b) && Holds(st, b, entry.agent);
    StartedByMore(st.runs, Run(entry.agent, entry.cadence, st.beats[b].phase.startedAt, b));
    if other != b {
      assert BeatIsSound(perBeat, st, other);
      if st.beats[other].phase.Free? || st.beats[other].phase.Written? {
        assert Holds(st, other, st.beats[other].left[0].agent);
      }
    }
  }

  // The run a beat commits is its agent's only one since its period began.
  lemma CommitAloneInPeriod(perBeat: nat, st: State, b: nat)
    requires Inv(perBeat, st) && Enabled(st, Commit(b))
    ensures AloneInItsPeriod(After(perBeat, st, Commit(b)).runs)
  {
    var beat := st.beats[b];
    var Entry(agent, cadence) := beat.left[0];
    assert BeatIsSound(perBeat, st, b);
    SincesInOrder(cadence, beat.now, beat.phase.startedAt);
    assert forall i :: 0 <= i < |st.runs| && st.runs[i].agent == agent ==>
           st.runs[i].startedAt < Since(cadence, beat.now);
    AloneStill(st.runs, Run(agent, cadence, beat.phase.startedAt, b));
  }

  lemma CommitKeeps(perBeat: nat, st: State, b: nat)
    requires Inv(perBeat, st) && Enabled(st, Commit(b))
    ensures Inv(perBeat, After(perBeat, st, Commit(b)))
  {
    var next := After(perBeat, st, Commit(b));
    var entry := st.beats[b].left[0];
    assert BeatIsSound(perBeat, st, b);
    StartedByMore(st.runs, Run(entry.agent, entry.cadence, st.beats[b].phase.startedAt, b));
    CommitAloneInPeriod(perBeat, st, b);
    forall other | other in next.beats
      ensures BeatIsSound(perBeat, next, other)
    {
      CommitLeavesBeats(perBeat, st, b, other);
    }
    FewerHolders(st, next);
  }

  lemma BeginKeeps(perBeat: nat, st: State, b: nat, listed: seq<Entry>)
    requires Inv(perBeat, st) && Enabled(st, Begin(b, listed))
    ensures Inv(perBeat, After(perBeat, st, Begin(b, listed)))
  {
    var next := After(perBeat, st, Begin(b, listed));
    NotBegunStartedNothing(st.runs, b);
    forall other | other in next.beats
      ensures BeatIsSound(perBeat, next, other)
    {
      if other != b {
        assert BeatIsSound(perBeat, st, other);
      }
    }
    FewerHolders(st, next);
  }

  lemma NextKeeps(perBeat: nat, st: State, b: nat)
    requires Inv(perBeat, st) && b in st.beats && st.beats[b].left != []
    ensures Inv(perBeat, Moved(st, b, Next(st.beats[b])))
  {
    var next := Moved(st, b, Next(st.beats[b]));
    assert BeatIsSound(perBeat, st, b);
    FewerHolders(st, next);
    MovedKeeps(perBeat, st, b, Next(st.beats[b]));
  }

  lemma PhaseKeeps(perBeat: nat, st: State, b: nat, phase: Phase)
    requires Inv(perBeat, st) && b in st.beats && st.beats[b].left != [] && phase != Between
    requires var next := Moved(st, b, st.beats[b].(phase := phase)); BeatIsSound(perBeat, next, b)
    requires forall other :: other in st.beats && Holds(st, other, st.beats[b].left[0].agent) ==> other == b
    ensures Inv(perBeat, Moved(st, b, st.beats[b].(phase := phase)))
  {
    var next := Moved(st, b, st.beats[b].(phase := phase));
    forall x, y, a | Holds(next, x, a) && Holds(next, y, a)
      ensures x == y
    {
      assert x != b ==> Holds(st, x, a);
      assert y != b ==> Holds(st, y, a);
    }
    MovedKeeps(perBeat, st, b, st.beats[b].(phase := phase));
  }

  lemma DieKeeps(perBeat: nat, st: State, b: nat)
    requires Inv(perBeat, st) && b in st.beats
    ensures Inv(perBeat, After(perBeat, st, Die(b)))
  {
    var next := After(perBeat, st, Die(b));
    forall other | other in next.beats
      ensures BeatIsSound(perBeat, next, other)
    {
      assert BeatIsSound(perBeat, st, other);
    }
    FewerHolders(st, next);
  }

  lemma TickKeeps(perBeat: nat, st: State, micros: nat)
    requires Inv(perBeat, st)
    ensures Inv(perBeat, After(perBeat, st, Tick(micros)))
  {
    var next := After(perBeat, st, Tick(micros));
    forall b | b in next.beats
      ensures BeatIsSound(perBeat, next, b)
    {
      assert BeatIsSound(perBeat, st, b);
    }
    FewerHolders(st, next);
  }

  lemma StepKeeps(perBeat: nat, st: State, step: Step)
    requires Inv(perBeat, st) && Enabled(st, step)
    ensures Inv(perBeat, After(perBeat, st, step))
  {
    match step {
      case Tick(micros) => TickKeeps(perBeat, st, micros);
      case Begin(b, listed) => BeginKeeps(perBeat, st, b, listed);
      case Die(b) => DieKeeps(perBeat, st, b);
      case TryLock(b) =>
        if exists other :: other in st.beats && Holds(st, other, st.beats[b].left[0].agent) {
          NextKeeps(perBeat, st, b);
        } else {
          assert BeatIsSound(perBeat, st, b);
          PhaseKeeps(perBeat, st, b, Locked);
        }
      case Recheck(b) =>
        var entry := st.beats[b].left[0];
        if RanSince(st.runs, entry.agent, Since(entry.cadence, st.beats[b].now)) {
          NextKeeps(perBeat, st, b);
        } else {
          assert BeatIsSound(perBeat, st, b) && Holds(st, b, entry.agent);
          PhaseKeeps(perBeat, st, b, Free);
        }
      case Write(b) =>
        assert BeatIsSound(perBeat, st, b) && Holds(st, b, st.beats[b].left[0].agent);
        PhaseKeeps(perBeat, st, b, Written(st.clock));
      case Refuse(b) => NextKeeps(perBeat, st, b);
      case Commit(b) => CommitKeeps(perBeat, st, b);
    }
  }

  // However beats overlap, die or are refused, whatever each had listed as due and however cadences
  // change between a listing and the next: a run is its agent's only one since its own period began,
  // and no beat has started more than its share.
  lemma {:induction false} OverlappingBeats(perBeat: nat, steps: seq<Step>)
    ensures AloneInItsPeriod(Execute(perBeat, steps).runs)
    ensures forall beat :: StartedBy(Execute(perBeat, steps).runs, beat) <= perBeat
    ensures Inv(perBeat, Execute(perBeat, steps))
  {
    if steps != [] {
      var before := Execute(perBeat, steps[..|steps| - 1]);
      OverlappingBeats(perBeat, steps[..|steps| - 1]);
      if Enabled(before, steps[|steps| - 1]) {
        StepKeeps(perBeat, before, steps[|steps| - 1]);
      }
    }
  }

  // An agent is due exactly when none of its runs is in the period of `now`, or later.
  lemma DueMeans(runs: seq<Run>, agent: nat, cadence: Repeating, now: nat)
    ensures RanSince(runs, agent, Since(cadence, now)) <==>
            exists i :: 0 <= i < |runs| && runs[i].agent == agent &&
              (now <= runs[i].startedAt || InOnePeriod(cadence, UtcDay(runs[i].startedAt), UtcDay(now)))
  {
    forall i | 0 <= i < |runs|
      ensures Since(cadence, now) <= runs[i].startedAt <==>
              now <= runs[i].startedAt || InOnePeriod(cadence, UtcDay(runs[i].startedAt), UtcDay(now))
    {
      var started := runs[i].startedAt;
      SincesAre(cadence, started, now);
      if started <= now {
        SincesInOrder(cadence, started, now);
      }
    }
  }

  // A claim nobody disturbs starts the agent, now and by the cadence listed, exactly when the agent has
  // no run in the beat's period or later; either way the beat goes on with the next.
  lemma ClaimAloneExactly(perBeat: nat, st: State, b: nat)
    requires b in st.beats && st.beats[b].left != [] && st.beats[b].phase == Between
    requires forall other :: other in st.beats ==> !Holds(st, other, st.beats[b].left[0].agent)
    ensures var beat := st.beats[b];
            var entry := beat.left[0];
            var locked := After(perBeat, st, TryLock(b));
            && Enabled(locked, Recheck(b))
            && var checked := After(perBeat, locked, Recheck(b));
               if RanSince(st.runs, entry.agent, Since(entry.cadence, beat.now))
               then checked == Moved(st, b, beat.(left := beat.left[1..]))
               else
                 && Enabled(checked, Write(b)) && Enabled(After(perBeat, checked, Write(b)), Commit(b))
                 && var done := After(perBeat, After(perBeat, checked, Write(b)), Commit(b));
                    && done.runs == st.runs + [Run(entry.agent, entry.cadence, st.clock, b)]
                    && done.beats == st.beats[b := beat.(left := beat.left[1..])]
                    && done.clock == st.clock && done.begun == st.begun
  {
  }

  // An agent another beat holds is left out, one whose run is refused is passed over, and a beat that
  // dies is gone: no run is written, and everyone else stays as they were.
  lemma NothingStarted(perBeat: nat, st: State, b: nat, other: nat)
    requires b in st.beats
    ensures var beat := st.beats[b];
            && (Enabled(st, TryLock(b)) && other in st.beats && Holds(st, other, beat.left[0].agent) ==>
                  After(perBeat, st, TryLock(b)) == Moved(st, b, beat.(left := beat.left[1..])))
            && (Enabled(st, Refuse(b)) ==>
                  After(perBeat, st, Refuse(b)) == Moved(st, b, beat.(left := beat.left[1..], phase := Between)))
            && (Enabled(st, Refuse(b)) <==> Enabled(st, Write(b)))
            && b !in After(perBeat, st, Die(b)).beats
            && After(perBeat, st, Die(b)) == st.(beats := map u | u in st.beats && u != b :: st.beats[u])
  {
    assert st.beats - {b} == map u | u in st.beats && u != b :: st.beats[u];
  }

  // ---------------------------------------------------------------------------------------
  // Beats that follow one another
  // ---------------------------------------------------------------------------------------

  // The cadence of each agent while the beats of one period run, and how many runs one may start.
  datatype Settings = Settings(cadence: nat -> Repeating, perBeat: nat)

  // The agents with no scheduled run in the period `now` is in.
  function Due(s: Settings, agents: set<nat>, runs: seq<Run>, now: nat): set<nat> {
    set agent | agent in agents && !RanSince(runs, agent, Since(s.cadence(agent), now))
  }

  function Members(listed: seq<nat>): set<nat> {
    set agent | agent in listed
  }

  // The list in any order, each agent once.
  ghost predicate Lists(listed: seq<nat>, agents: set<nat>) {
    Members(listed) == agents && forall i, j :: 0 <= i < j < |listed| ==> listed[i] != listed[j]
  }

  // When an agent last started a scheduled run.
  function LastRun(runs: seq<Run>, agent: nat): Option<nat> {
    if runs == [] then None
    else
      var before := LastRun(runs[..|runs| - 1], agent);
      var run := runs[|runs| - 1];
      if run.agent != agent || (before.Some? && run.startedAt < before.value) then before else Some(run.startedAt)
  }

  // The list asks for the last run and the claim for any run since: they agree on who is due.
  lemma {:induction false} DueByLastRun(runs: seq<Run>, agent: nat, first: nat)
    ensures var last := LastRun(runs, agent); RanSince(runs, agent, first) <==> last.Some? && first <= last.value
  {
    if runs != [] {
      var n := |runs| - 1;
      DueByLastRun(runs[..n], agent, first);
      if RanSince(runs[..n], agent, first) {
        var i :| 0 <= i < n && runs[..n][i].agent == agent && first <= runs[..n][i].startedAt;
        assert runs[i].agent == agent;
      }
    }
  }

  // The order the database lists them in, the last run first and no run at all after every one.
  ghost predicate Queued(runs: seq<Run>, listed: seq<nat>) {
    forall i, j :: 0 <= i < j < |listed| && LastRun(runs, listed[j]).Some? ==>
      LastRun(runs, listed[i]).Some? && LastRun(runs, listed[i]).value <= LastRun(runs, listed[j]).value
  }

  // An agent that never ran has waited longest, then the one whose last run is furthest back.
  predicate WaitedLonger(runs: seq<Run>, a: nat, b: nat) {
    LastRun(runs, b).Some? && (LastRun(runs, a).None? || LastRun(runs, a).value < LastRun(runs, b).value)
  }

  // Nobody left out has waited longer than anybody reached.
  ghost predicate LongestWaitingFirst(runs: seq<Run>, listed: seq<nat>, places: nat) {
    forall i, j :: 0 <= i < |First(listed, places)| <= j < |listed| ==> !WaitedLonger(runs, listed[j], listed[i])
  }

  // As the database orders the list, a beat takes the longest-waiting first exactly when it reaches
  // everybody or nobody, or all listed have run, or none has.
  lemma LongestFirstExactly(runs: seq<Run>, listed: seq<nat>, places: nat)
    requires Queued(runs, listed)
    ensures LongestWaitingFirst(runs, listed, places) <==>
            || |listed| <= places || places == 0
            || (forall i :: 0 <= i < |listed| ==> LastRun(runs, listed[i]).Some?)
            || (forall i :: 0 <= i < |listed| ==> LastRun(runs, listed[i]).None?)
  {
    if 0 < places < |listed| {
      var last := |listed| - 1;
      if LastRun(runs, listed[0]).Some? && LastRun(runs, listed[last]).None? {
        assert WaitedLonger(runs, listed[last], listed[0]);
      }
    }
  }

  const DAILY_EACH := Settings(agent => Daily, 1)

  // One agent is started on the first day; on the next day a second one has been added.
  const FIRST_DAY := [Begin(0, [Entry(1, Daily)]), TryLock(0), Recheck(0), Write(0), Commit(0), Tick(MICROS_PER_DAY)]
  const RAN_ONCE := [Run(1, Daily, 0, 0)]

  // Both are due, and a beat with one place starts the agent that ran yesterday: the one that never
  // ran is left out.
  lemma NeverRunLeftOut()
    ensures Execute(1, FIRST_DAY).runs == RAN_ONCE && Execute(1, FIRST_DAY).clock == MICROS_PER_DAY
    ensures Due(DAILY_EACH, {1, 2}, RAN_ONCE, MICROS_PER_DAY) == {1, 2}
    ensures Lists([1, 2], {1, 2}) && Queued(RAN_ONCE, [1, 2]) && First([1, 2], 1) == [1]
    ensures LastRun(RAN_ONCE, 2).None? && !LongestWaitingFirst(RAN_ONCE, [1, 2], 1)
  {
    FirstDay();
    assert RAN_ONCE[..0] == [];
    assert LastRun(RAN_ONCE, 1) == Some(0) && LastRun(RAN_ONCE, 2) == None;
    assert Since(Daily, MICROS_PER_DAY) == MICROS_PER_DAY;
    assert !RanSince(RAN_ONCE, 1, MICROS_PER_DAY) && !RanSince(RAN_ONCE, 2, MICROS_PER_DAY);
    assert Members([1, 2]) == {1, 2};
    assert WaitedLonger(RAN_ONCE, [1, 2][1], [1, 2][0]);
  }

  function Alone(left: seq<Entry>, phase: Phase): State {
    State(0, [], map[0 := Beat(0, left, phase)], {0})
  }

  lemma FirstClaim()
    ensures Execute(1, FIRST_DAY[..3]) == Alone([Entry(1, Daily)], Free)
  {
    var entry := Entry(1, Daily);
    assert {} + {0} == {0} && First([entry], 1) == [entry];
    OneMoreStep(1, [], Begin(0, [entry]));
    OneMoreStep(1, [Begin(0, [entry])], TryLock(0));
    OneMoreStep(1, [Begin(0, [entry]), TryLock(0)], Recheck(0));
    assert After(1, START, Begin(0, [entry])) == Alone([entry], Between);
    assert After(1, Alone([entry], Between), TryLock(0)) == Alone([entry], Locked);
    assert [] + [Begin(0, [entry])] == [Begin(0, [entry])];
    assert [Begin(0, [entry])] + [TryLock(0)] == [Begin(0, [entry]), TryLock(0)];
    assert [Begin(0, [entry]), TryLock(0)] + [Recheck(0)] == FIRST_DAY[..3];
  }

  lemma FirstDay()
    ensures Execute(1, FIRST_DAY) == State(MICROS_PER_DAY, RAN_ONCE, map[0 := Beat(0, [], Between)], {0})
  {
    var entry := Entry(1, Daily);
    FirstClaim();
    OneMoreStep(1, FIRST_DAY[..3], Write(0));
    OneMoreStep(1, FIRST_DAY[..4], Commit(0));
    OneMoreStep(1, FIRST_DAY[..5], Tick(MICROS_PER_DAY));
    assert After(1, Alone([entry], Free), Write(0)) == Alone([entry], Written(0));
    assert [entry][1..] == [] && [] + RAN_ONCE == RAN_ONCE;
    assert FIRST_DAY[..3] + [Write(0)] == FIRST_DAY[..4] && FIRST_DAY[..4] + [Commit(0)] == FIRST_DAY[..5];
    assert FIRST_DAY[..5] + [Tick(MICROS_PER_DAY)] == FIRST_DAY;
  }

  lemma OneMoreStep(perBeat: nat, steps: seq<Step>, step: Step)
    ensures var before := Execute(perBeat, steps);
            Execute(perBeat, steps + [step]) == if Enabled(before, step) then After(perBeat, before, step) else before
  {
    assert (steps + [step])[..|steps|] == steps;
  }

  // A beat that starts at `now` and reaches its i-th agent at `at(i)`.
  datatype Turn = Turn(beat: nat, now: nat, listed: seq<nat>, at: nat -> nat)

  // The runs a beat opens for these agents: none for an agent whose run is refused because every
  // version of it is retired.
  function Starts(s: Settings, turn: Turn, agents: seq<nat>, published: set<nat>): seq<Run> {
    if agents == [] then []
    else
      var n := |agents| - 1;
      Starts(s, turn, agents[..n], published) + if agents[n] in published
        then [Run(agents[n], s.cadence(agents[n]), turn.at(n), turn.beat)] else []
  }

  class Platform {
    var runs: seq<Run>

    constructor ()
      ensures runs == []
    {
      runs := [];
    }

    // One beat with no other at work: the claim refuses none of the agents it listed.
    method RunBeat(s: Settings, agents: set<nat>, published: set<nat>, turn: Turn)
      requires Lists(turn.listed, Due(s, agents, runs, turn.now))
      modifies this
      ensures runs == old(runs) + Starts(s, turn, First(turn.listed, s.perBeat), published)
    {
      var due := First(turn.listed, s.perBeat);
      for i := 0 to |due|
        invariant runs == old(runs) + Starts(s, turn, due[..i], published)
      {
        var agent := due[i];
        assert due[..i + 1][..i] == due[..i];
        StartsOnly(s, turn, due[..i], published);
        assert agent in Members(turn.listed);
        assert !RanSince(runs, agent, Since(s.cadence(agent), turn.now));
        if RanSince(runs, agent, Since(s.cadence(agent), turn.now)) {
          continue;
        }
        if agent in published {
          runs := runs + [Run(agent, s.cadence(agent), turn.at(i), turn.beat)];
        }
      }
      assert due[..|due|] == due;
    }
  }

  lemma {:induction false} StartsOnly(s: Settings, turn: Turn, agents: seq<nat>, published: set<nat>)
    ensures forall run :: run in Starts(s, turn, agents, published) ==> run.agent in agents && run.agent in published
    ensures forall i :: 0 <= i < |agents| && agents[i] in published ==>
              Run(agents[i], s.cadence(agents[i]), turn.at(i), turn.beat) in Starts(s, turn, agents, published)
  {
    if agents != [] {
      StartsOnly(s, turn, agents[..|agents| - 1], published);
    }
  }

  function RunsAfter(s: Settings, published: set<nat>, runs: seq<Run>, turn: Turn): seq<Run> {
    runs + Starts(s, turn, First(turn.listed, s.perBeat), published)
  }

  // The same beat in the machine of overlapping beats: it begins, and claims each agent in turn.
  function Claims(b: nat, n: nat): seq<Step> {
    if n == 0 then [] else Claims(b, n - 1) + [TryLock(b)] + [Recheck(b)] + [Write(b)] + [Commit(b)]
  }

  function Entries(s: Settings, agents: seq<nat>): (entries: seq<Entry>)
    ensures |entries| == |agents|
    ensures forall i :: 0 <= i < |agents| ==> entries[i] == Entry(agents[i], s.cadence(agents[i]))
  {
    if agents == [] then []
    else Entries(s, agents[..|agents| - 1]) + [Entry(agents[|agents| - 1], s.cadence(agents[|agents| - 1]))]
  }

  lemma FourMoreSteps(perBeat: nat, steps: seq<Step>, a: Step, b: Step, c: Step, d: Step)
    requires var st := Execute(perBeat, steps);
             && Enabled(st, a) && Enabled(After(perBeat, st, a), b)
             && Enabled(After(perBeat, After(perBeat, st, a), b), c)
             && Enabled(After(perBeat, After(perBeat, After(perBeat, st, a), b), c), d)
    ensures Execute(perBeat, steps + [a] + [b] + [c] + [d]) ==
            After(perBeat, After(perBeat, After(perBeat, After(perBeat, Execute(perBeat, steps), a), b), c), d)
  {
    OneMoreStep(perBeat, steps, a);
    OneMoreStep(perBeat, steps + [a], b);
    OneMoreStep(perBeat, steps + [a] + [b], c);
    OneMoreStep(perBeat, steps + [a] + [b] + [c], d);
  }

  // A beat that reaches every agent at the instant it begins.
  function AtOnce(b: nat, now: nat, listed: seq<nat>): Turn {
    Turn(b, now, listed, _ => now)
  }

  // The beat has claimed the first `n` agents of its list.
  function Claimed(s: Settings, st: State, b: nat, due: seq<nat>, n: nat): State
    requires n <= |due|
  {
    st.(runs := st.runs + Starts(s, AtOnce(b, st.clock, due), due[..n], Members(due)),
        beats := map[b := Beat(st.clock, Entries(s, due)[n..], Between)])
  }

  ghost predicate AllDue(s: Settings, st: State, due: seq<nat>) {
    && (forall i, j :: 0 <= i < j < |due| ==> due[i] != due[j])
    && forall i :: 0 <= i < |due| ==> !RanSince(st.runs, due[i], Since(s.cadence(due[i]), st.clock))
  }

  lemma StillDue(s: Settings, st: State, b: nat, due: seq<nat>, n: nat)
    requires n < |due| && AllDue(s, st, due)
    ensures !RanSince(Claimed(s, st, b, due, n).runs, due[n], Since(s.cadence(due[n]), st.clock))
  {
    var starts := Starts(s, AtOnce(b, st.clock, due), due[..n], Members(due));
    StartsOnly(s, AtOnce(b, st.clock, due), due[..n], Members(due));
    forall i | 0 <= i < |starts|
      ensures starts[i].agent != due[n]
    {
      assert starts[i] in starts;
    }
  }

  lemma ClaimedMoves(s: Settings, st: State, b: nat, due: seq<nat>, n: nat)
    requires n < |due|
    ensures var claimed, next := Claimed(s, st, b, due, n), Claimed(s, st, b, due, n + 1);
            && next.runs == claimed.runs + [Run(due[n], s.cadence(due[n]), st.clock, b)]
            && next == claimed.(runs := next.runs,
                                beats := map[b := Beat(st.clock, claimed.beats[b].left[1..], Between)])
  {
    assert due[..n + 1][..n] == due[..n] && Entries(s, due)[n..][1..] == Entries(s, due)[n + 1..];
    assert due[n] in Members(due);
  }

  lemma OneMoreClaim(s: Settings, steps: seq<Step>, st: State, b: nat, due: seq<nat>, n: nat)
    requires n < |due| && AllDue(s, st, due) && Execute(s.perBeat, steps) == Claimed(s, st, b, due, n)
    ensures Execute(s.perBeat, steps + [TryLock(b)] + [Recheck(b)] + [Write(b)] + [Commit(b)]) ==
            Claimed(s, st, b, due, n + 1)
  {
    StillDue(s, st, b, due, n);
    ClaimedMoves(s, st, b, due, n);
    ClaimAloneExactly(s.perBeat, Claimed(s, st, b, due, n), b);
    FourMoreSteps(s.perBeat, steps, TryLock(b), Recheck(b), Write(b), Commit(b));
  }

  lemma ClaimsMore(steps: seq<Step>, b: nat, n: nat)
    requires 0 < n
    ensures steps + Claims(b, n) == steps + Claims(b, n - 1) + [TryLock(b)] + [Recheck(b)] + [Write(b)] + [Commit(b)]
  {
  }

  lemma {:induction false} ClaimsStart(s: Settings, steps: seq<Step>, st: State, b: nat, due: seq<nat>, n: nat)
    requires n <= |due| && AllDue(s, st, due) && Execute(s.perBeat, steps) == Claimed(s, st, b, due, 0)
    ensures Execute(s.perBeat, steps + Claims(b, n)) == Claimed(s, st, b, due, n)
  {
    if n == 0 {
      assert steps + Claims(b, 0) == steps;
    } else {
      ClaimsStart(s, steps, st, b, due, n - 1);
      OneMoreClaim(s, steps + Claims(b, n - 1), st, b, due, n - 1);
      ClaimsMore(steps, b, n);
    }
  }

  // Undisturbed, a beat of the machine opens what `RunBeat` opens: it starts the due agents it has room
  // for, now.
  lemma BeatAlone(s: Settings, steps: seq<Step>, agents: set<nat>, b: nat, listed: seq<nat>)
    requires var st := Execute(s.perBeat, steps);
             st.beats == map[] && b !in st.begun && Lists(listed, Due(s, agents, st.runs, st.clock))
    ensures var st := Execute(s.perBeat, steps);
            var due := First(listed, s.perBeat);
            Execute(s.perBeat, steps + [Begin(b, Entries(s, listed))] + Claims(b, |due|)).runs ==
            st.runs + Starts(s, AtOnce(b, st.clock, due), due, Members(due))
  {
    var st := Execute(s.perBeat, steps);
    var due := First(listed, s.perBeat);
    var begun := st.(begun := st.begun + {b});
    OneMoreStep(s.perBeat, steps, Begin(b, Entries(s, listed)));
    assert First(Entries(s, listed), s.perBeat) == Entries(s, due) == Entries(s, due)[0..];
    assert st.runs + [] == st.runs && due[..0] == [] && due[..|due|] == due;
    forall i | 0 <= i < |due|
      ensures !RanSince(st.runs, due[i], Since(s.cadence(due[i]), st.clock))
    {
      assert listed[i] in Members(listed);
    }
    ClaimsStart(s, steps + [Begin(b, Entries(s, listed))], begun, b, due, |due|);
  }

  // Both instants are in the same period of every agent; two instants of one UTC day are.
  ghost predicate OnePeriod(s: Settings, agents: set<nat>, a: nat, b: nat) {
    forall agent :: agent in agents ==> Since(s.cadence(agent), a) == Since(s.cadence(agent), b)
  }

  // After a beat, exactly those it reached that have a published version are no longer due.
  lemma DueAfter(s: Settings, agents: set<nat>, published: set<nat>, runs: seq<Run>, turn: Turn, later: nat)
    requires forall i :: turn.now <= turn.at(i)
    requires OnePeriod(s, agents, turn.now, later)
    ensures Due(s, agents, RunsAfter(s, published, runs, turn), later)
         == Due(s, agents, runs, turn.now) - Members(First(turn.listed, s.perBeat)) * published
  {
    var listed := First(turn.listed, s.perBeat);
    var starts := Starts(s, turn, listed, published);
    var next := RunsAfter(s, published, runs, turn);
    StartsOnly(s, turn, listed, published);
    forall agent | agent in agents
      ensures RanSince(next, agent, Since(s.cadence(agent), later))
          <==> RanSince(runs, agent, Since(s.cadence(agent), turn.now)) || (agent in listed && agent in published)
    {
      var first := Since(s.cadence(agent), turn.now);
      if RanSince(runs, agent, first) {
        var i :| 0 <= i < |runs| && runs[i].agent == agent && first <= runs[i].startedAt;
        assert next[i] == runs[i];
      }
      if agent in listed && agent in published {
        var i :| 0 <= i < |listed| && listed[i] == agent;
        var run := Run(agent, s.cadence(agent), turn.at(i), turn.beat);
        assert run in starts && first <= run.startedAt;
        var j :| 0 <= j < |starts| && starts[j] == run;
        assert next[|runs| + j] == run;
      }
      if RanSince(next, agent, first) {
        var i :| 0 <= i < |next| && next[i].agent == agent && first <= next[i].startedAt;
        if |runs| <= i {
          assert starts[i - |runs|] in starts;
        }
      }
    }
  }

  ghost predicate Follow(s: Settings, agents: set<nat>, published: set<nat>, runs: seq<Run>, turns: seq<Turn>, now: nat)
    decreases turns
  {
    turns == [] ||
    (&& Lists(turns[0].listed, Due(s, agents, runs, turns[0].now))
     && OnePeriod(s, agents, turns[0].now, now)
     && (forall i :: turns[0].now <= turns[0].at(i))
     && Follow(s, agents, published, RunsAfter(s, published, runs, turns[0]), turns[1..], now))
  }

  function RunsAfterAll(s: Settings, published: set<nat>, runs: seq<Run>, turns: seq<Turn>): seq<Run>
    decreases turns
  {
    if turns == [] then runs else RunsAfterAll(s, published, RunsAfter(s, published, runs, turns[0]), turns[1..])
  }

  lemma {:induction false} ListedOnce(listed: seq<nat>)
    requires forall i, j :: 0 <= i < j < |listed| ==> listed[i] != listed[j]
    ensures |Members(listed)| == |listed|
  {
    if listed != [] {
      var n := |listed| - 1;
      ListedOnce(listed[..n]);
      assert Members(listed) == Members(listed[..n]) + {listed[n]};
    }
  }

  // What a beat of `perBeat` places takes off those with a version, when `blocked` may take places too.
  lemma PlacesTaken(listed: seq<nat>, due: set<nat>, published: set<nat>, places: nat)
    requires Lists(listed, due)
    ensures var reached := Members(First(listed, places)) * published;
            |due * published - reached| + (places - |due - published|) <= |due * published|
            || due * published - reached == {}
  {
    var head := First(listed, places);
    ListedOnce(head);
    if |listed| <= places {
      assert due * published - Members(head) * published == {};
    } else {
      assert Members(head) <= due;
      Counts(due, published, Members(head));
    }
  }

  lemma Counts(due: set<nat>, published: set<nat>, head: set<nat>)
    requires head <= due
    ensures |due * published - head * published| + |head| <= |due * published| + |due - published|
  {
    Smaller(head - published, due - published);
    assert head == head * published + (head - published);
    assert due * published == (due * published - head * published) + head * published;
  }

  lemma {:induction false} Smaller(a: set<nat>, b: set<nat>)
    requires a <= b
    ensures |a| <= |b|
  {
    assert b == a + (b - a);
  }

  // When `blocked` due agents have no version to run, each beat of the period starts all but
  // `blocked` of its places from the others, in whatever order each beat lists them.
  lemma {:induction false} BeatsCatchUp(s: Settings, agents: set<nat>, published: set<nat>, runs: seq<Run>,
                                        turns: seq<Turn>, now: nat)
    requires Follow(s, agents, published, runs, turns, now)
    requires var due := Due(s, agents, runs, now); |due - published| < s.perBeat
    ensures var due := Due(s, agents, runs, now);
            var left := Due(s, agents, RunsAfterAll(s, published, runs, turns), now);
            && left - published == due - published
            && (left * published == {} ||
               |left * published| + |turns| * (s.perBeat - |due - published|) <= |due * published|)
    decreases turns
  {
    if turns != [] {
      var due := Due(s, agents, runs, now);
      var next := RunsAfter(s, published, runs, turns[0]);
      var after := Due(s, agents, next, now);
      OneBeat(s, agents, published, runs, turns[0], now);
      BeatsCatchUp(s, agents, published, next, turns[1..], now);
      Rounds(|turns[1..]|, s.perBeat - |due - published|);
      if after * published == {} {
        NoneLeft(s, agents, published, next, turns[1..], now);
      }
    }
  }

  lemma OneBeat(s: Settings, agents: set<nat>, published: set<nat>, runs: seq<Run>, turn: Turn, now: nat)
    requires Lists(turn.listed, Due(s, agents, runs, turn.now)) && OnePeriod(s, agents, turn.now, now)
    requires forall i :: turn.now <= turn.at(i)
    ensures var due := Due(s, agents, runs, now);
            var after := Due(s, agents, RunsAfter(s, published, runs, turn), now);
            && after - published == due - published
            && (after * published == {} || |after * published| + (s.perBeat - |due - published|) <= |due * published|)
  {
    var due := Due(s, agents, runs, now);
    SameDue(s, agents, runs, turn.now, now);
    DueAfter(s, agents, published, runs, turn, now);
    PlacesTaken(turn.listed, due, published, s.perBeat);
    Without(due, published, Members(First(turn.listed, s.perBeat)));
  }

  lemma SameDue(s: Settings, agents: set<nat>, runs: seq<Run>, a: nat, b: nat)
    requires OnePeriod(s, agents, a, b)
    ensures Due(s, agents, runs, a) == Due(s, agents, runs, b)
  {
  }

  lemma Without(due: set<nat>, published: set<nat>, head: set<nat>)
    ensures (due - head * published) - published == due - published
    ensures (due - head * published) * published == due * published - head * published
  {
  }

  // Once started, an agent stays started for the period.
  lemma {:induction false} NoneLeft(s: Settings, agents: set<nat>, published: set<nat>, runs: seq<Run>,
                                    turns: seq<Turn>, now: nat)
    requires Due(s, agents, runs, now) * published == {}
    ensures Due(s, agents, RunsAfterAll(s, published, runs, turns), now) * published == {}
    decreases turns
  {
    if turns != [] {
      var next := RunsAfter(s, published, runs, turns[0]);
      forall agent | agent in agents && RanSince(runs, agent, Since(s.cadence(agent), now))
        ensures RanSince(next, agent, Since(s.cadence(agent), now))
      {
        var i :| 0 <= i < |runs| && runs[i].agent == agent && Since(s.cadence(agent), now) <= runs[i].startedAt;
        assert next[i] == runs[i];
      }
      assert Due(s, agents, next, now) <= Due(s, agents, runs, now);
      NoneLeft(s, agents, published, next, turns[1..], now);
    }
  }

  lemma Rounds(n: nat, places: int)
    ensures (n + 1) * places == n * places + places
  {
  }

  // All due agents with a version: after ceil(N / perBeat) beats of the period none is due.
  lemma AllStarted(s: Settings, agents: set<nat>, published: set<nat>, runs: seq<Run>, turns: seq<Turn>, now: nat)
    requires Follow(s, agents, published, runs, turns, now)
    requires 0 < s.perBeat && Due(s, agents, runs, now) <= published
    requires (|Due(s, agents, runs, now)| + s.perBeat - 1) / s.perBeat <= |turns|
    ensures Due(s, agents, RunsAfterAll(s, published, runs, turns), now) == {}
  {
    var due := Due(s, agents, runs, now);
    var left := Due(s, agents, RunsAfterAll(s, published, runs, turns), now);
    NoneBlocked(due, published);
    BeatsCatchUp(s, agents, published, runs, turns, now);
    NoneBlocked(left, published);
    Ceiling(|due|, s.perBeat, |turns|, |left|);
  }

  lemma NoneBlocked(due: set<nat>, published: set<nat>)
    ensures due <= published <==> due - published == {}
    ensures due <= published ==> |due - published| == 0 && due * published == due
  {
    if due - published == {} {
      forall agent | agent in due
        ensures agent in published
      {
        assert agent !in due - published;
      }
    }
  }

  lemma Ceiling(n: nat, k: nat, turns: nat, left: nat)
    requires 0 < k && (n + k - 1) / k <= turns && (left == 0 || left + turns * k <= n)
    ensures left == 0
  {
    var q := (n + k - 1) / k;
    assert n <= q * k;
    assert q * k <= turns * k;
  }

  // An agent shipped active, whatever has been published and retired of it since.
  ghost predicate FromActiveSeed(row: Definitions.Row) {
    exists definition: Definitions.Shipped, now: int, writes: seq<Definitions.Write> ::
      definition.Definition? && definition.active &&
        row == Definitions.Live(Definitions.Seeded(definition, now), writes)
  }

  function Published(rows: map<nat, Definitions.Row>): set<nat> {
    set agent | agent in rows && Definitions.VersionToRun(rows[agent].versions).Runs?
  }

  // Everyone with a published version runs, and so does an agent that never had a version.
  lemma PublishedMeans(rows: map<nat, Definitions.Row>, agent: nat)
    ensures agent in Published(rows) <==>
            agent in rows && (rows[agent].versions == [] || Definitions.HasPublished(rows[agent].versions))
  {
    if agent in rows {
      Definitions.NewestIsNewest(rows[agent].versions);
    }
  }

  // The agents the beat lists are active, and every active agent of the seed has a version to run: so
  // none is refused, and ceil(N / perBeat) beats start them all.
  lemma SeededAgentsStart(s: Settings, agents: set<nat>, rows: map<nat, Definitions.Row>, runs: seq<Run>,
                          turns: seq<Turn>, now: nat)
    requires forall agent :: agent in agents ==> agent in rows && FromActiveSeed(rows[agent])
    requires Follow(s, agents, Published(rows), runs, turns, now)
    requires 0 < s.perBeat && (|Due(s, agents, runs, now)| + s.perBeat - 1) / s.perBeat <= |turns|
    ensures Due(s, agents, RunsAfterAll(s, Published(rows), runs, turns), now) == {}
  {
    AllPublished(agents, rows);
    AllStarted(s, agents, Published(rows), runs, turns, now);
  }

  lemma AllPublished(agents: set<nat>, rows: map<nat, Definitions.Row>)
    requires forall agent :: agent in agents ==> agent in rows && FromActiveSeed(rows[agent])
    ensures agents <= Published(rows)
  {
    forall agent | agent in agents
      ensures agent in Published(rows)
    {
      ActiveSeedRuns(rows[agent]);
    }
  }

  lemma ActiveSeedRuns(row: Definitions.Row)
    requires FromActiveSeed(row)
    ensures Definitions.VersionToRun(row.versions).Runs?
  {
    var definition: Definitions.Shipped, at: int, writes: seq<Definitions.Write> :|
      definition.Definition? && definition.active &&
        row == Definitions.Live(Definitions.Seeded(definition, at), writes);
    Definitions.SeededCanRun(definition, at);
    assert Definitions.VersionToRun(Definitions.Live(Definitions.Seeded(definition, at), writes).versions).Runs?;
  }

  lemma {:induction false} NoStarts(s: Settings, turn: Turn, agents: seq<nat>, published: set<nat>)
    requires Members(agents) !! published
    ensures Starts(s, turn, agents, published) == []
  {
    if agents != [] {
      var n := |agents| - 1;
      assert agents[n] in Members(agents);
      assert Members(agents[..n]) <= Members(agents);
      NoStarts(s, turn, agents[..n], published);
    }
  }

  // A beat starts nothing exactly when no agent in its first places has a version.
  lemma StartsNothing(s: Settings, published: set<nat>, runs: seq<Run>, turn: Turn)
    ensures RunsAfter(s, published, runs, turn) == runs <==> Members(First(turn.listed, s.perBeat)) !! published
  {
    var listed := First(turn.listed, s.perBeat);
    StartsOnly(s, turn, listed, published);
    var starts := Starts(s, turn, listed, published);
    if Members(listed) !! published {
      NoStarts(s, turn, listed, published);
    } else {
      var agent :| agent in Members(listed) && agent in published;
      var i :| 0 <= i < |listed| && listed[i] == agent;
      assert Run(agent, s.cadence(agent), turn.at(i), turn.beat) in starts;
      assert |runs + starts| > |runs|;
    }
  }
}
