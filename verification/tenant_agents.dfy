// A bank's own agents: their switch, cadence, pause and next run. `TenantAgent` is the row the app
// updates in place; the functions above it say what each update leaves, and the transition system
// below runs people, the banks' beat and the cap against one agent in any order.

module TenantAgents {
  import opened Options
  import opened Money
  import opened Calendar
  import opened Schedule

  datatype Row = Row(
    enabled: bool,
    cadence: Cadence,
    runWeekday: Option<nat>,
    runHour: Option<nat>,
    nextRunAt: Option<int>,
    pausedAt: Option<int>,
    pausedBy: Option<nat>,
    pauseReason: string)

  // `minCadence` is the most frequent cadence the plan allows, `defaultHour` the hour of a bank
  // that named none.
  datatype Settings = Settings(zone: Zone, minCadence: Cadence, defaultHour: nat)

  ghost predicate Sound(settings: Settings) {
    Admissible(settings.zone) && settings.defaultHour < 24
  }

  const CAP_REASON := "budget_cap"
  const PAUSED_BY_PERSON := "person"

  // Most frequent first.
  function Rank(cadence: Cadence): nat {
    match cadence case Daily => 0 case Weekly => 1 case Monthly => 2 case Manual => 3
  }

  predicate AbovePlan(cadence: Cadence, settings: Settings) {
    Rank(cadence) < Rank(settings.minCadence)
  }

  // What a body may send: None leaves a field; a weekday or hour can be sent as null.
  datatype Update = Update(
    enabled: Option<bool>,
    cadence: Option<Cadence>,
    runWeekday: Option<Option<nat>>,
    runHour: Option<Option<nat>>)

  // The schema's own bounds on what is sent.
  predicate Allowed(weekday: Option<nat>, hour: Option<nat>) {
    (weekday.Some? ==> 1 <= weekday.value <= 7) && (hour.Some? ==> hour.value < 24)
  }

  predicate AllowedUpdate(body: Update) {
    Allowed(if body.runWeekday.Some? then body.runWeekday.value
      else None, if body.runHour.Some? then body.runHour.value else None)
  }

  // ---------------------------------------------------------------------------------------
  // What each update leaves
  // ---------------------------------------------------------------------------------------

  predicate Runs(row: Row) {
    row.enabled && row.pausedAt.None?
  }

  function NextOf(row: Row, settings: Settings, now: int): Option<int> {
    NextRun(settings.zone, Runs(row), row.cadence, Weekday(row.runWeekday), Hour(row.runHour, settings.defaultHour),
      now)
  }

  // `_schedule`: keep the day and hour to what the cadence reads.
  function Scheduled(row: Row, defaultHour: nat): Row {
    if row.cadence == Manual then row.(runWeekday := None, runHour := None)
    else row.(
      runHour := Some(Hour(row.runHour, defaultHour)),
      runWeekday := if row.cadence == Daily then None else Some(Weekday(row.runWeekday)))
  }

  function Added(cadence: Cadence, weekday: Option<nat>, hour: Option<nat>, defaultHour: nat): Row {
    Scheduled(Row(false, cadence, weekday, hour, None, None, None, ""), defaultHour)
  }

  function Sent(row: Row, body: Update): Row {
    row.(
      cadence := if body.cadence.Some? then body.cadence.value else row.cadence,
      runWeekday := if body.runWeekday.Some? then body.runWeekday.value else row.runWeekday,
      runHour := if body.runHour.Some? then body.runHour.value else row.runHour,
      enabled := if body.enabled.Some? then body.enabled.value else row.enabled)
  }

  // Why an update is refused, in the order it is asked.
  function UpdateRefused(row: Row, body: Update, capSet: bool, settings: Settings): Option<string> {
    if body.cadence.Some? && AbovePlan(body.cadence.value, settings) then Some("above_plan_limit")
    else if body.enabled == Some(true) && !row.enabled && !capSet then Some("budget_cap_required")
    else None
  }

  function Updated(row: Row, body: Update, capSet: bool, settings: Settings, now: int): Row {
    if UpdateRefused(row, body, capSet, settings).Some? then row
    else
      var scheduled := Scheduled(Sent(row, body), settings.defaultHour);
      scheduled.(nextRunAt := NextOf(scheduled, settings, now))
  }

  // What a pause that read the agent unpaused writes over the row there is now.
  function PauseWrites(current: Row, reason: string, person: Option<nat>, now: int): Row {
    current.(pausedAt := Some(now), pausedBy := person, pauseReason := reason, nextRunAt := None)
  }

  function Paused(row: Row, reason: string, person: Option<nat>, now: int): Row {
    if row.pausedAt.Some? then row else PauseWrites(row, reason, person, now)
  }

  // A resume that read `read` at `now` and writes its pause and next run over the current row.
  function ResumeWrites(current: Row, read: Row, settings: Settings, now: int): Row {
    current.(
      pausedAt := None, pausedBy := None, pauseReason := "",
      nextRunAt := NextOf(read.(pausedAt := None), settings, now))
  }

  function Resumed(row: Row, settings: Settings, now: int): Row {
    if row.pausedAt.None? then row else ResumeWrites(row, row, settings, now)
  }

  predicate Due(row: Row, now: int) {
    Runs(row) && row.nextRunAt.Some? && row.nextRunAt.value <= now
  }

  function SlotTaken(row: Row, settings: Settings, now: int): Row {
    row.(nextRunAt := NextOf(row, settings, now))
  }

  // ---------------------------------------------------------------------------------------
  // The row as the app updates it
  // ---------------------------------------------------------------------------------------

  // The day and hour of a row are what its cadence reads, and nothing else.
  predicate NormalForm(row: Row) {
    match row.cadence
    case Manual => row.runWeekday.None? && row.runHour.None?
    case Daily => row.runWeekday.None? && row.runHour.Some? && row.runHour.value < 24
    case _ => row.runWeekday.Some? && 1 <= row.runWeekday.value <= 7 && row.runHour.Some? && row.runHour.value < 24
  }

  predicate Wants(row: Row) {
    row.enabled && row.cadence != Manual
  }

  predicate Consistent(row: Row) {
    NormalForm(row) && (row.nextRunAt.Some? <==> Wants(row) && row.pausedAt.None?)
  }

  lemma ScheduledIsNormal(row: Row, defaultHour: nat)
    requires defaultHour < 24 && Allowed(row.runWeekday, row.runHour)
    ensures NormalForm(Scheduled(row, defaultHour))
  {
  }

  lemma SentIsAllowed(row: Row, body: Update)
    requires NormalForm(row) && AllowedUpdate(body)
    ensures Allowed(Sent(row, body).runWeekday, Sent(row, body).runHour)
  {
  }

  // The plan's least cadence and everything less frequent is allowed.
  lemma AbovePlanMeans(cadence: Cadence, settings: Settings)
    ensures AbovePlan(cadence, settings) <==>
            match settings.minCadence
            case Daily => false
            case Weekly => cadence == Daily
            case Monthly => cadence == Daily || cadence == Weekly
            case Manual => cadence != Manual
  {
  }

  // What an update that goes through stores: each field as sent or else as it was, the day and hour
  // only where the cadence reads them, and the first run on the day and at the hour so named.
  lemma UpdateStores(row: Row, body: Update, capSet: bool, settings: Settings, now: int)
    requires Sound(settings) && NormalForm(row) && AllowedUpdate(body)
    requires UpdateRefused(row, body, capSet, settings).None?
    ensures var after := Updated(row, body, capSet, settings, now);
            var weekday := if body.runWeekday.Some? then body.runWeekday.value else row.runWeekday;
            var hour := if body.runHour.Some? then body.runHour.value else row.runHour;
            && after.enabled == (if body.enabled.Some? then body.enabled.value else row.enabled)
            && after.cadence == (if body.cadence.Some? then body.cadence.value else row.cadence)
            && after.runWeekday == (match after.cadence
                                    case Manual => None
                                    case Daily => None
                                    case _ => if weekday.Some? then weekday else Some(1))
            && after.runHour == (if after.cadence == Manual then None
                                 else if hour.Some? then hour else Some(settings.defaultHour))
            && (after.pausedAt, after.pausedBy, after.pauseReason) == (row.pausedAt, row.pausedBy, row.pauseReason)
            && (after.nextRunAt.Some? <==> after.enabled && after.pausedAt.None? && after.cadence != Manual)
            && (after.nextRunAt.Some? ==>
                  && now < after.nextRunAt.value
                  && OnNamedDay(after.cadence, after.runWeekday, settings.zone.date(after.nextRunAt.value)))
  {
    SentIsAllowed(row, body);
    var after := Updated(row, body, capSet, settings, now);
    if after.nextRunAt.Some? {
      UpcomingIsNamed(settings.zone, after.cadence, after.runWeekday, after.runHour, settings.defaultHour, now);
      UpcomingIsNextSlot(
        settings.zone, after.cadence, Weekday(after.runWeekday), Hour(after.runHour, settings.defaultHour), now);
    }
  }

  // An update is refused exactly for a cadence above the plan, or for switching on with no cap set.
  lemma UpdateRefusedExactly(row: Row, body: Update, capSet: bool, settings: Settings, now: int)
    ensures UpdateRefused(row, body, capSet, settings).None? <==>
            (body.cadence.None? || !AbovePlan(body.cadence.value, settings)) &&
            !(body.enabled == Some(true) && !row.enabled && !capSet)
    ensures UpdateRefused(row, body, capSet, settings).Some? ==> Updated(row, body, capSet, settings, now) == row
  {
  }

  class TenantAgent {
    var enabled: bool
    var cadence: Cadence
    var runWeekday: Option<nat>
    var runHour: Option<nat>
    var nextRunAt: Option<int>
    var pausedAt: Option<int>
    var pausedBy: Option<nat>
    var pauseReason: string

    ghost function View(): Row
      reads this
    {
      Row(enabled, cadence, runWeekday, runHour, nextRunAt, pausedAt, pausedBy, pauseReason)
    }

    constructor (cadence: Cadence, weekday: Option<nat>, hour: Option<nat>, defaultHour: nat)
      ensures View() == Added(cadence, weekday, hour, defaultHour)
    {
      this.enabled, this.cadence, this.runWeekday, this.runHour := false, cadence, weekday, hour;
      nextRunAt, pausedAt, pausedBy, pauseReason := None, None, None, "";
      new;
      KeepSchedule(defaultHour);
    }

    method KeepSchedule(defaultHour: nat)
      modifies this`runWeekday, this`runHour
      ensures View() == Scheduled(old(View()), defaultHour)
    {
      if cadence == Manual {
        runWeekday, runHour := None, None;
        return;
      }
      if runHour.None? {
        runHour := Some(defaultHour);
      }
      if cadence == Weekly || cadence == Monthly {
        runWeekday := Some(Weekday(runWeekday));
      } else {
        runWeekday := None;
      }
    }

    method Change(body: Update, capSet: bool, settings: Settings, now: int) returns (refused: Option<string>)
      requires Sound(settings) && AllowedUpdate(body) && NormalForm(View())
      modifies this
      ensures refused == UpdateRefused(old(View()), body, capSet, settings)
      ensures View() == Updated(old(View()), body, capSet, settings, now)
    {
      if body.cadence.Some? && AbovePlan(body.cadence.value, settings) {
        return Some("above_plan_limit");
      }
      if body.enabled == Some(true) && !enabled && !capSet {
        return Some("budget_cap_required");
      }
      if body.cadence.Some? {
        cadence := body.cadence.value;
      }
      if body.runWeekday.Some? {
        runWeekday := body.runWeekday.value;
      }
      if body.runHour.Some? {
        runHour := body.runHour.value;
      }
      if body.enabled.Some? {
        enabled := body.enabled.value;
      }
      assert View() == Sent(old(View()), body);
      SentIsAllowed(old(View()), body);
      KeepSchedule(settings.defaultHour);
      ScheduledIsNormal(Sent(old(View()), body), settings.defaultHour);
      TakeSlot(settings, now);
      return None;
    }

    method Pause(reason: string, person: Option<nat>, now: int)
      modifies this
      ensures View() == Paused(old(View()), reason, person, now)
    {
      if pausedAt.Some? {
        return;
      }
      pausedAt := Some(now);
      pausedBy := person;
      pauseReason := reason;
      nextRunAt := None;
    }

    method Resume(settings: Settings, now: int)
      requires Sound(settings) && NormalForm(View())
      modifies this
      ensures View() == Resumed(old(View()), settings, now)
    {
      if pausedAt.None? {
        return;
      }
      pausedAt := None;
      pausedBy := None;
      pauseReason := "";
      nextRunAt := NextRunAt(settings.zone, enabled, false, cadence, runWeekday, runHour, settings.defaultHour, now);
    }

    method TakeSlot(settings: Settings, now: int)
      requires Sound(settings) && NormalForm(View())
      modifies this`nextRunAt
      ensures View() == SlotTaken(old(View()), settings, now)
    {
      nextRunAt := NextRunAt(settings.zone, enabled, pausedAt.Some?, cadence, runWeekday, runHour,
        settings.defaultHour, now);
    }
  }

  class TenantAgentBudget {
    var monthlyCap: Option<nat>

    constructor ()
      ensures monthlyCap == None
    {
      monthlyCap := None;
    }

    predicate AtCap(spend: nat)
      reads this
    {
      monthlyCap.None? || monthlyCap.value <= spend
    }

    // Set the cap; at or below the month's spend it pauses every running agent at once.
    method Put(amount: nat, spend: nat, agents: seq<TenantAgent>, now: int)
      requires forall i, j :: 0 <= i < j < |agents| ==> agents[i] != agents[j]
      modifies this, agents
      ensures monthlyCap == Some(amount)
      ensures forall i :: 0 <= i < |agents| ==>
                agents[i].View() ==
                if amount <= spend && old(agents[i].enabled) then Paused(old(agents[i].View()), CAP_REASON, None, now)
                else old(agents[i].View())
    {
      monthlyCap := Some(amount);
      if !AtCap(spend) {
        return;
      }
      for k := 0 to |agents|
        invariant monthlyCap == Some(amount)
        invariant forall i :: 0 <= i < k ==>
                    agents[i].View() ==
                    if old(agents[i].enabled) then Paused(old(agents[i].View()), CAP_REASON, None, now)
                      else old(agents[i].View())
        invariant forall i :: k <= i < |agents| ==> agents[i].View() == old(agents[i].View())
      {
        assert agents[k].View() == old(agents[k].View());
        if agents[k].enabled && agents[k].pausedAt.None? {
          agents[k].Pause(CAP_REASON, None, now);
        }
      }
    }
  }

  // ---------------------------------------------------------------------------------------
  // One agent under everything that steps it
  // ---------------------------------------------------------------------------------------

  // A slot the beat took: the slot's instant and when it was taken.
  datatype Taken = Taken(slot: int, at: int)

  // A resume in flight: the row it read, without a lock, and when.
  datatype Reading = Reading(row: Row, at: int)

  // `pausing` are the pauses in flight that read the agent unpaused, without a lock either.
  datatype State = State(
    row: Row,
    capSet: bool,
    clock: int,
    taken: seq<Taken>,
    reading: map<nat, Reading>,
    pausing: set<nat>)

  datatype Action =
    | Change(body: Update)
    // A person's pause, and the pauses of a cap that is set or passed.
    | PauseRead(who: nat)
    | PauseWrite(who: nat, reason: string, person: Option<nat>)
    | SetCap
    | Beat(fits: bool)
    | ResumeRead(who: nat)
    | ResumeWrite(who: nat)

  // What happens next, and how much later.
  datatype Event = Event(action: Action, wait: nat)

  predicate Fair(event: Event) {
    event.action.Change? ==> AllowedUpdate(event.action.body)
  }

  // The banks' beat: a due agent's slot is taken first, whatever happens to its run; a run that
  // does not fit the cap pauses the agent.
  function Beaten(s: State, settings: Settings, fits: bool, now: int): State {
    if !Due(s.row, now) then s.(clock := now)
    else
      var moved := SlotTaken(s.row, settings, now);
      s.(clock := now,
         taken := s.taken + [Taken(s.row.nextRunAt.value, now)],
         row := if fits then moved else Paused(moved, CAP_REASON, None, now))
  }

  function Step(s: State, settings: Settings, event: Event): State {
    var now := s.clock + event.wait;
    match event.action
    case Change(body) => s.(clock := now, row := Updated(s.row, body, s.capSet, settings, now))
    case PauseRead(who) =>
      s.(clock := now, pausing := if s.row.pausedAt.None? then s.pausing + {who} else s.pausing - {who})
    case PauseWrite(who, reason, person) =>
      if who !in s.pausing then s.(clock := now)
      else s.(clock := now, pausing := s.pausing - {who}, row := PauseWrites(s.row, reason, person, now))
    case SetCap => s.(clock := now, capSet := true)
    case Beat(fits) => Beaten(s, settings, fits, now)
    case ResumeRead(who) =>
      if s.row.pausedAt.None? then s.(clock := now)
        else s.(clock := now, reading := s.reading[who := Reading(s.row, now)])
    case ResumeWrite(who) =>
      if who !in s.reading then s.(clock := now)
      else
        var read := s.reading[who];
        s.(clock := now, reading := s.reading - {who}, row := ResumeWrites(s.row, read.row, settings, read.at))
  }

  function After(s: State, settings: Settings, events: seq<Event>): State {
    if events == [] then s
    else Step(After(s, settings, events[..|events| - 1]), settings, events[|events| - 1])
  }

  // The upcoming run is a slot of the row's own cadence, later than every slot already taken.
  ghost predicate SlotAhead(row: Row, settings: Settings, taken: seq<Taken>) {
    row.nextRunAt.Some? ==>
      && Slot(settings.zone, row.cadence, Weekday(row.runWeekday), Hour(row.runHour, settings.defaultHour),
         row.nextRunAt.value)
      && forall i :: 0 <= i < |taken| ==> taken[i].at < row.nextRunAt.value
  }

  // Each slot taken lies after every earlier take and no later than its own.
  ghost predicate SlotsSeparate(taken: seq<Taken>) {
    && (forall i :: 0 <= i < |taken| ==> taken[i].slot <= taken[i].at)
    && (forall i, j :: 0 <= i < j < |taken| ==> taken[i].at < taken[j].slot)
  }

  ghost predicate Inv(s: State, settings: Settings) {
    && Consistent(s.row)
    && (s.row.enabled ==> s.capSet)
    && SlotAhead(s.row, settings, s.taken)
    && SlotsSeparate(s.taken)
    && (forall i :: 0 <= i < |s.taken| ==> s.taken[i].at <= s.clock)
    && (forall who :: who in s.reading ==> NormalForm(s.reading[who].row) && s.reading[who].row.pausedAt.Some?)
  }

  // A row's own slots.
  ghost predicate SlotOf(row: Row, settings: Settings, t: int) {
    Slot(settings.zone, row.cadence, Weekday(row.runWeekday), Hour(row.runHour, settings.defaultHour), t)
  }

  // No slot of the row lies between the two instants, the later one included.
  ghost predicate NoSlotIn(row: Row, settings: Settings, after: int, until: int) {
    forall t :: after < t <= until ==> !SlotOf(row, settings, t)
  }

  // What a resume may write back over the row there is now: what it read wants a run exactly when the
  // row does, and if they do, the run it computed is one of the row's own slots and the beat has
  // taken none of the slots it read since it read them.
  ghost predicate Harmless(s: State, settings: Settings, who: nat)
    requires who in s.reading
  {
    var read := s.reading[who];
    && (Wants(read.row) <==> Wants(s.row))
    && (Wants(s.row) ==>
          && SlotOf(s.row, settings, NextOf(read.row.(pausedAt := None), settings, read.at).value)
          && (s.taken != [] ==> NoSlotIn(read.row, settings, read.at, s.taken[|s.taken| - 1].at)))
  }

  // A schedule nobody changed and no slot taken since the read is enough.
  lemma UnchangedIsHarmless(s: State, settings: Settings, who: nat)
    requires Inv(s, settings) && Sound(settings) && who in s.reading
    requires var read := s.reading[who].row;
             (read.enabled, read.cadence, read.runWeekday, read.runHour) ==
               (s.row.enabled, s.row.cadence, s.row.runWeekday, s.row.runHour)
    requires s.taken == [] || s.taken[|s.taken| - 1].at <= s.reading[who].at
    ensures Harmless(s, settings, who)
  {
    if Wants(s.row) {
      ReadIsNextSlot(s.reading[who], settings);
    }
  }

  // The run a resume computes is the first slot after its read, by the schedule it read.
  lemma ReadIsNextSlot(read: Reading, settings: Settings)
    requires Sound(settings) && NormalForm(read.row) && Wants(read.row)
    ensures var next := NextOf(read.row.(pausedAt := None), settings, read.at);
            && next.Some? && read.at < next.value && SlotOf(read.row, settings, next.value)
            && forall t :: read.at < t < next.value ==> !SlotOf(read.row, settings, t)
  {
    UpcomingIsNextSlot(settings.zone, read.row.cadence, Weekday(read.row.runWeekday),
      Hour(read.row.runHour, settings.defaultHour), read.at);
  }

  // Whatever recomputes a normal row's next run leaves it consistent, with a slot after now.
  lemma Recomputed(row: Row, settings: Settings, now: int, taken: seq<Taken>)
    requires Sound(settings) && NormalForm(row)
    requires forall i :: 0 <= i < |taken| ==> taken[i].at <= now
    ensures var after := row.(nextRunAt := NextOf(row, settings, now));
            Consistent(after) && SlotAhead(after, settings, taken)
  {
    if Runs(row) && row.cadence != Manual {
      UpcomingIsNextSlot(settings.zone, row.cadence, Weekday(row.runWeekday), Hour(row.runHour, settings.defaultHour),
        now);
    }
  }

  lemma ChangeKeeps(s: State, settings: Settings, body: Update, now: int)
    requires Inv(s, settings) && Sound(settings) && AllowedUpdate(body) && s.clock <= now
    ensures var row := Updated(s.row, body, s.capSet, settings, now);
            Consistent(row) && (row.enabled ==> s.capSet) && SlotAhead(row, settings, s.taken)
  {
    if UpdateRefused(s.row, body, s.capSet, settings).None? {
      ScheduledIsNormal(Sent(s.row, body), settings.defaultHour);
      Recomputed(Scheduled(Sent(s.row, body), settings.defaultHour), settings, now, s.taken);
    }
  }

  // What was computed lies ahead of every slot taken exactly when no slot it read was taken since.
  lemma AheadOfTaken(s: State, settings: Settings, read: Reading)
    requires Inv(s, settings) && Sound(settings) && NormalForm(read.row) && Wants(read.row)
    ensures var next := NextOf(read.row.(pausedAt := None), settings, read.at);
            next.Some? && ((forall i :: 0 <= i < |s.taken| ==> s.taken[i].at < next.value) <==>
                           (s.taken != [] ==> NoSlotIn(read.row, settings, read.at, s.taken[|s.taken| - 1].at)))
  {
    ReadIsNextSlot(read, settings);
    var next := NextOf(read.row.(pausedAt := None), settings, read.at).value;
    if s.taken != [] {
      var last := s.taken[|s.taken| - 1].at;
      TakenInOrder(s.taken);
      if last < next {
        assert NoSlotIn(read.row, settings, read.at, last);
      }
    }
  }

  lemma TakenInOrder(taken: seq<Taken>)
    requires SlotsSeparate(taken) && taken != []
    ensures forall i :: 0 <= i < |taken| ==> taken[i].at <= taken[|taken| - 1].at
  {
    forall i | 0 <= i < |taken| - 1
      ensures taken[i].at <= taken[|taken| - 1].at
    {
      assert taken[i].at < taken[|taken| - 1].slot;
    }
  }

  // A step that changes the row alone keeps the invariant when the row it leaves does.
  lemma RowKeeps(s: State, s': State, settings: Settings)
    requires Inv(s, settings) && s.clock <= s'.clock && s'.taken == s.taken
    requires forall who :: who in s'.reading ==> who in s.reading && s'.reading[who] == s.reading[who]
    requires Consistent(s'.row) && (s'.row.enabled ==> s'.capSet) && SlotAhead(s'.row, settings, s.taken)
    ensures Inv(s', settings)
  {
  }

  lemma ChangeStepKeeps(s: State, settings: Settings, event: Event)
    requires Inv(s, settings) && Sound(settings) && Fair(event) && event.action.Change?
    ensures Inv(Step(s, settings, event), settings)
  {
    ChangeKeeps(s, settings, event.action.body, s.clock + event.wait);
    RowKeeps(s, Step(s, settings, event), settings);
  }

  // A resume's write keeps the invariant exactly when it is harmless.
  lemma ResumeWriteExactly(s: State, settings: Settings, event: Event)
    requires Inv(s, settings) && Sound(settings) && event.action.ResumeWrite?
    ensures Inv(Step(s, settings, event), settings) <==>
            (event.action.who in s.reading ==> Harmless(s, settings, event.action.who))
  {
    var who, s' := event.action.who, Step(s, settings, event);
    if who in s.reading {
      var read := s.reading[who];
      StaleResume(s.row, read.row, settings, read.at);
      StaleResumeSlot(s, settings, who);
      assert s'.row == ResumeWrites(s.row, read.row, settings, read.at);
      if Consistent(s'.row) && SlotAhead(s'.row, settings, s.taken) {
        RowKeeps(s, s', settings);
      }
    } else {
      RowKeeps(s, s', settings);
    }
  }

  lemma PauseStepKeeps(s: State, settings: Settings, event: Event)
    requires Inv(s, settings) && (event.action.PauseRead? || event.action.PauseWrite? || event.action.SetCap?)
    ensures Inv(Step(s, settings, event), settings)
  {
    RowKeeps(s, Step(s, settings, event), settings);
  }

  // A slot is taken no earlier than it lies, and after every earlier take.
  lemma TakenKeeps(s: State, s': State, settings: Settings, now: int)
    requires Inv(s, settings) && s.clock <= now && Due(s.row, now)
    requires s'.clock == now && s'.taken == s.taken + [Taken(s.row.nextRunAt.value, now)]
    requires s'.reading == s.reading && s'.capSet == s.capSet && s'.row.enabled == s.row.enabled
    requires Consistent(s'.row) && SlotAhead(s'.row, settings, s'.taken)
    ensures Inv(s', settings)
  {
  }

  lemma PausedIsConsistent(row: Row, settings: Settings, taken: seq<Taken>, reason: string, person: Option<nat>,
                           now: int)
    requires Consistent(row) && SlotAhead(row, settings, taken)
    ensures var paused := Paused(row, reason, person, now);
            Consistent(paused) && SlotAhead(paused, settings, taken) && paused.enabled == row.enabled
  {
  }

  // Whether its run fits or the agent is paused, what the beat leaves of the row is consistent and ahead.
  lemma SlotMoves(row: Row, settings: Settings, taken: seq<Taken>, now: int)
    requires Sound(settings) && NormalForm(row) && forall i :: 0 <= i < |taken| ==> taken[i].at <= now
    ensures var moved := SlotTaken(row, settings, now);
            var paused := Paused(moved, CAP_REASON, None, now);
            && Consistent(moved) && SlotAhead(moved, settings, taken) && moved.enabled == row.enabled
            && Consistent(paused) && SlotAhead(paused, settings, taken) && paused.enabled == row.enabled
  {
    Recomputed(row, settings, now, taken);
    PausedIsConsistent(SlotTaken(row, settings, now), settings, taken, CAP_REASON, None, now);
  }

  lemma BeatStepKeeps(s: State, settings: Settings, event: Event)
    requires Inv(s, settings) && Sound(settings) && event.action.Beat?
    ensures Inv(Step(s, settings, event), settings)
  {
    var now, s' := s.clock + event.wait, Step(s, settings, event);
    if Due(s.row, now) {
      var taken := s.taken + [Taken(s.row.nextRunAt.value, now)];
      SlotMoves(s.row, settings, taken, now);
      TakenKeeps(s, s', settings, now);
    } else {
      RowKeeps(s, s', settings);
    }
  }

  lemma ResumeReadStepKeeps(s: State, settings: Settings, event: Event)
    requires Inv(s, settings) && event.action.ResumeRead?
    ensures Inv(Step(s, settings, event), settings)
  {
    var s' := Step(s, settings, event);
    assert s'.row == s.row && s'.taken == s.taken && s'.capSet == s.capSet;
  }

  lemma StepKeeps(s: State, settings: Settings, event: Event)
    requires Inv(s, settings) && Sound(settings) && Fair(event)
    requires event.action.ResumeWrite? && event.action.who in s.reading ==> Harmless(s, settings, event.action.who)
    ensures Inv(Step(s, settings, event), settings)
  {
    if event.action.Change? {
      ChangeStepKeeps(s, settings, event);
    } else if event.action.Beat? {
      BeatStepKeeps(s, settings, event);
    } else if event.action.ResumeWrite? {
      ResumeWriteExactly(s, settings, event);
    } else if event.action.ResumeRead? {
      ResumeReadStepKeeps(s, settings, event);
    } else {
      PauseStepKeeps(s, settings, event);
    }
  }

  // The next run after `now`: the row's first slot since, and none for a row that wants no run.
  ghost predicate RunsNext(row: Row, settings: Settings, now: int) {
    && (row.nextRunAt.Some? <==> Wants(row))
    && (row.nextRunAt.Some? ==>
          && now < row.nextRunAt.value && SlotOf(row, settings, row.nextRunAt.value)
          && forall t :: now < t < row.nextRunAt.value ==> !SlotOf(row, settings, t))
  }

  // A beat takes a slot exactly when the agent is on, not paused, and its next run has come. Then the
  // next run is the first slot after the beat, however many were missed; a run that does not fit the cap
  // pauses the agent for it.
  lemma BeatExactly(s: State, settings: Settings, fits: bool, wait: nat)
    requires NormalForm(s.row) && Sound(settings)
    ensures var now, after := s.clock + wait, Step(s, settings, Event(Beat(fits), wait));
            if s.row.enabled && s.row.pausedAt == None && s.row.nextRunAt.Some? && s.row.nextRunAt.value <= now
            then
              && after == s.(clock := now, row := after.row, taken := s.taken + [Taken(s.row.nextRunAt.value, now)])
              && (fits ==> after.row == s.row.(nextRunAt := after.row.nextRunAt) && RunsNext(after.row, settings, now))
              && (!fits ==> after.row == s.row.(nextRunAt := None, pausedAt := Some(now), pausedBy := None,
                                                pauseReason := "budget_cap"))
            else after == s.(clock := now)
  {
    var now := s.clock + wait;
    assert Step(s, settings, Event(Beat(fits), wait)) == Beaten(s, settings, fits, now);
    if Due(s.row, now) {
      NextIsFirst(s.row, settings, now);
    }
  }

  lemma NextIsFirst(row: Row, settings: Settings, now: int)
    requires NormalForm(row) && Sound(settings) && row.pausedAt.None?
    ensures RunsNext(row.(nextRunAt := NextOf(row, settings, now)), settings, now)
  {
    if Wants(row) {
      UpcomingIsNextSlot(settings.zone, row.cadence, Weekday(row.runWeekday), Hour(row.runHour, settings.defaultHour),
        now);
    }
  }

  lemma ResumedRunsNext(row: Row, settings: Settings, now: int)
    requires NormalForm(row) && Sound(settings)
    ensures RunsNext(ResumeWrites(row, row, settings, now), settings, now)
  {
    var after := ResumeWrites(row, row, settings, now);
    if Wants(row) {
      UpcomingIsNextSlot(
        settings.zone, after.cadence, Weekday(after.runWeekday), Hour(after.runHour, settings.defaultHour), now);
    }
  }

  // Undisturbed, a resume of a paused agent clears the pause and gives the first slot after its read;
  // one that is not paused it leaves as it is.
  lemma ResumeAlone(s: State, settings: Settings, who: nat, wait: nat)
    requires Inv(s, settings) && Sound(settings) && who !in s.reading
    ensures var read := Step(s, settings, Event(ResumeRead(who), 0));
            var after := Step(read, settings, Event(ResumeWrite(who), wait));
            && after == s.(clock := s.clock + wait, row := after.row)
            && after.row == (if s.row.pausedAt.None? then s.row
                             else s.row.(pausedAt := None, pausedBy := None, pauseReason := "",
                                         nextRunAt := after.row.nextRunAt))
            && (s.row.pausedAt.Some? ==> RunsNext(after.row, settings, s.clock))
  {
    var read := Step(s, settings, Event(ResumeRead(who), 0));
    if s.row.pausedAt.Some? {
      var reading := s.reading[who := Reading(s.row, s.clock)];
      assert read == s.(reading := reading) && reading - {who} == s.reading;
      ResumedRunsNext(s.row, settings, s.clock);
    } else {
      assert read == s;
    }
  }

  // Undisturbed, a pause stops an agent that is not paused, in the person's name, and leaves it no next
  // run; one that is paused it leaves as it is.
  lemma PauseAlone(s: State, settings: Settings, who: nat, reason: string, person: Option<nat>, wait: nat)
    requires who !in s.pausing
    ensures var read := Step(s, settings, Event(PauseRead(who), 0));
            Step(read, settings, Event(PauseWrite(who, reason, person), wait)) ==
            s.(clock := s.clock + wait,
               row := if s.row.pausedAt.Some? then s.row
                      else s.row.(nextRunAt := None, pausedAt := Some(s.clock + wait), pausedBy := person,
                                  pauseReason := reason))
  {
    assert s.pausing + {who} - {who} == s.pausing;
  }

  // Once a cap is set an agent can be switched on, and not before.
  lemma CapLetsSwitchOn(s: State, settings: Settings)
    requires Inv(s, settings) && Sound(settings) && !s.row.enabled
    ensures Step(Step(s, settings, Event(SetCap, 0)), settings, Event(Change(ON), 0)).row.enabled
    ensures Step(s, settings, Event(Change(ON), 0)).row.enabled <==> s.capSet
  {
  }

  ghost predicate ResumeIsHarmless(s: State, settings: Settings, event: Event) {
    event.action.ResumeWrite? && event.action.who in s.reading ==> Harmless(s, settings, event.action.who)
  }

  ghost predicate EveryResumeIsHarmless(s: State, settings: Settings, events: seq<Event>) {
    forall k :: 0 <= k < |events| ==> ResumeIsHarmless(After(s, settings, events[..k]), settings, events[k])
  }

  ghost predicate InvThroughout(s: State, settings: Settings, events: seq<Event>) {
    forall k :: 0 <= k <= |events| ==> Inv(After(s, settings, events[..k]), settings)
  }

  function Start(cadence: Cadence, weekday: Option<nat>, hour: Option<nat>, settings: Settings, capSet: bool,
                 clock: int): State
  {
    State(Added(cadence, weekday, hour, settings.defaultHour), capSet, clock, [], map[], {})
  }

  // Through every run of events from an agent just added: it has a next run exactly when it is on,
  // not paused and not manual; its day and hour are in normal form; it is on only under a cap; and
  // any two scheduled starts are separated by a slot, so a slot starts at most one run and the slots
  // missed between two starts start none. It holds throughout exactly when every resume is harmless
  // as it writes.
  lemma {:induction false} ReachableIsConsistent(
    cadence: Cadence, weekday: Option<nat>, hour: Option<nat>, settings: Settings, capSet: bool, clock: int,
      events: seq<Event>)
    requires Sound(settings) && Allowed(weekday, hour)
    requires forall k :: 0 <= k < |events| ==> Fair(events[k])
    ensures var s := Start(cadence, weekday, hour, settings, capSet, clock);
            InvThroughout(s, settings, events) <==> EveryResumeIsHarmless(s, settings, events)
  {
    var s := Start(cadence, weekday, hour, settings, capSet, clock);
    ScheduledIsNormal(Row(false, cadence, weekday, hour, None, None, None, ""), settings.defaultHour);
    assert Inv(s, settings);
    ThroughoutExactly(s, settings, events);
  }

  lemma {:induction false} ThroughoutExactly(s: State, settings: Settings, events: seq<Event>)
    requires Inv(s, settings) && Sound(settings)
    requires forall k :: 0 <= k < |events| ==> Fair(events[k])
    ensures InvThroughout(s, settings, events) <==> EveryResumeIsHarmless(s, settings, events)
    decreases |events|
  {
    if events == [] {
      assert events[..0] == [];
    } else {
      var n := |events| - 1;
      ThroughoutExactly(s, settings, events[..n]);
      ThroughoutStep(s, settings, events);
      HarmlessStep(s, settings, events);
      if InvThroughout(s, settings, events[..n]) {
        HoldsAtTheEnd(s, settings, events[..n]);
        StepExactly(After(s, settings, events[..n]), settings, events[n]);
      }
    }
  }

  lemma HoldsAtTheEnd(s: State, settings: Settings, events: seq<Event>)
    requires InvThroughout(s, settings, events)
    ensures Inv(After(s, settings, events), settings)
  {
    assert events[..|events|] == events;
  }

  // A step keeps the invariant exactly when it is not a resume that does harm.
  lemma StepExactly(s: State, settings: Settings, event: Event)
    requires Inv(s, settings) && Sound(settings) && Fair(event)
    ensures Inv(Step(s, settings, event), settings) <==> ResumeIsHarmless(s, settings, event)
  {
    if event.action.ResumeWrite? {
      ResumeWriteExactly(s, settings, event);
    } else {
      StepKeeps(s, settings, event);
    }
  }

  lemma ThroughoutBefore(s: State, settings: Settings, events: seq<Event>, n: nat)
    requires InvThroughout(s, settings, events) && n <= |events|
    ensures InvThroughout(s, settings, events[..n])
  {
    forall k | 0 <= k <= n
      ensures Inv(After(s, settings, events[..n][..k]), settings)
    {
      assert events[..n][..k] == events[..k];
    }
  }

  lemma ThroughoutAfter(s: State, settings: Settings, events: seq<Event>)
    requires events != [] && InvThroughout(s, settings, events[..|events| - 1]) &&
             Inv(After(s, settings, events), settings)
    ensures InvThroughout(s, settings, events)
  {
    var n := |events| - 1;
    forall k | 0 <= k <= |events|
      ensures Inv(After(s, settings, events[..k]), settings)
    {
      if k <= n {
        assert events[..n][..k] == events[..k];
      } else {
        assert events[..k] == events;
      }
    }
  }

  lemma ThroughoutStep(s: State, settings: Settings, events: seq<Event>)
    requires events != []
    ensures InvThroughout(s, settings, events) <==>
            InvThroughout(s, settings, events[..|events| - 1]) && Inv(After(s, settings, events), settings)
  {
    if InvThroughout(s, settings, events) {
      ThroughoutBefore(s, settings, events, |events| - 1);
      HoldsAtTheEnd(s, settings, events);
    } else if InvThroughout(s, settings, events[..|events| - 1]) && Inv(After(s, settings, events), settings) {
      ThroughoutAfter(s, settings, events);
    }
  }

  lemma HarmlessStep(s: State, settings: Settings, events: seq<Event>)
    requires events != []
    ensures var n := |events| - 1;
            EveryResumeIsHarmless(s, settings, events) <==>
            EveryResumeIsHarmless(s, settings, events[..n]) &&
              ResumeIsHarmless(After(s, settings, events[..n]), settings, events[n])
  {
    var n := |events| - 1;
    assert forall k :: 0 <= k <= n ==> events[..n][..k] == events[..k];
  }

  // ---------------------------------------------------------------------------------------
  // What a stale resume breaks
  // ---------------------------------------------------------------------------------------

  // A resume reads the row without a lock. Over a consistent row, what it writes is consistent
  // exactly when what it read and the row it writes over want a run alike.
  lemma StaleResume(current: Row, read: Row, settings: Settings, now: int)
    requires Consistent(current)
    ensures Consistent(ResumeWrites(current, read, settings, now)) <==> (Wants(read) <==> Wants(current))
  {
  }

  const ON := Update(Some(true), None, None, None)
  const OFF := Update(Some(false), None, None, None)
  const STALE_RESUME := [
    Event(Change(ON), 0), Event(PauseRead(1), 0), Event(PauseWrite(1, PAUSED_BY_PERSON, Some(1)), 0),
    Event(ResumeRead(2), 0), Event(Change(OFF), 0), Event(ResumeWrite(2), 0)]

  lemma OneMoreEvent(s: State, settings: Settings, events: seq<Event>, event: Event)
    ensures After(s, settings, events + [event]) == Step(After(s, settings, events), settings, event)
  {
    assert (events + [event])[..|events|] == events;
  }

  const PAUSED_DAILY := Row(true, Daily, None, Some(6), None, None, Some(1), PAUSED_BY_PERSON)

  lemma SwitchedOn(s: State, settings: Settings)
    requires s.row == Row(false, Daily, None, Some(6), None, None, None, "") && s.capSet
    ensures var on := Step(s, settings, Event(Change(ON), 0));
            on == s.(row := on.row) && on.row == s.row.(enabled := true, nextRunAt := on.row.nextRunAt)
  {
  }

  lemma OnThenPaused(settings: Settings, clock: int)
    ensures var s := Start(Daily, None, Some(6), settings, true, clock);
            After(s, settings, STALE_RESUME[..3]) == s.(row := PAUSED_DAILY.(pausedAt := Some(clock)))
  {
    var s := Start(Daily, None, Some(6), settings, true, clock);
    SwitchedOn(s, settings);
    var on := Step(s, settings, Event(Change(ON), 0));
    PauseAlone(on, settings, 1, PAUSED_BY_PERSON, Some(1), 0);
    OneMoreEvent(s, settings, [], STALE_RESUME[0]);
    OneMoreEvent(s, settings, STALE_RESUME[..1], STALE_RESUME[1]);
    OneMoreEvent(s, settings, STALE_RESUME[..2], STALE_RESUME[2]);
    assert [] + [STALE_RESUME[0]] == STALE_RESUME[..1] && STALE_RESUME[..1] + [STALE_RESUME[1]] == STALE_RESUME[..2];
    assert STALE_RESUME[..2] + [STALE_RESUME[2]] == STALE_RESUME[..3];
  }

  // From an agent just added: switched on, paused, and switched off between a resume's read and its
  // write, it is off and has a next run.
  lemma StaleResumeBreaks(settings: Settings, clock: int)
    requires Sound(settings)
    ensures forall k :: 0 <= k < |STALE_RESUME| ==> Fair(STALE_RESUME[k])
    ensures var row := After(Start(Daily, None, Some(6), settings, true, clock), settings, STALE_RESUME).row;
            !row.enabled && row.nextRunAt.Some? && !Consistent(row)
  {
    var s := Start(Daily, None, Some(6), settings, true, clock);
    OnThenPaused(settings, clock);
    OneMoreEvent(s, settings, STALE_RESUME[..3], STALE_RESUME[3]);
    OneMoreEvent(s, settings, STALE_RESUME[..4], STALE_RESUME[4]);
    OneMoreEvent(s, settings, STALE_RESUME[..5], STALE_RESUME[5]);
    assert STALE_RESUME[..3] + [STALE_RESUME[3]] == STALE_RESUME[..4] &&
           STALE_RESUME[..4] + [STALE_RESUME[4]] == STALE_RESUME[..5];
    assert STALE_RESUME[..5] + [STALE_RESUME[5]] == STALE_RESUME;
  }

  // A pause's write leaves the agent paused exactly when it is in flight or the agent was paused; and
  // an earlier pause survives it exactly when its own read had seen that pause, or it says the same.
  lemma PauseWriteSays(s: State, settings: Settings, event: Event)
    requires Inv(s, settings) && event.action.PauseWrite?
    ensures var PauseWrite(who, reason, person) := event.action;
            var row := Step(s, settings, event).row;
            && (row.pausedAt.Some? <==> who in s.pausing || s.row.pausedAt.Some?)
            && (s.row.pausedAt.Some? ==>
                  (row == s.row <==>
                   (who !in s.pausing ||
                    (s.row.pausedAt, s.row.pausedBy, s.row.pauseReason) ==
                      (Some(s.clock + event.wait), person, reason))))
  {
  }

  // Two pauses read one running agent: the second to write replaces the first one's time, person and
  // reason.
  lemma SecondPauseWritesOver(s: State, settings: Settings, first: Event, second: Event)
    requires s.row.pausedAt.None? && first.action.PauseWrite? && second.action.PauseWrite?
    requires first.action.who != second.action.who
    ensures var read := Step(Step(s, settings, Event(PauseRead(first.action.who), 0)), settings,
            Event(PauseRead(second.action.who), 0));
            var row := Step(Step(read, settings, first), settings, second).row;
            row == PauseWrites(s.row, second.action.reason, second.action.person, s.clock + first.wait + second.wait)
  {
  }

  // What a resume writes lies ahead of every slot taken, on a slot of the row, exactly when what it
  // computed is such a slot and none of the slots it read was taken since.
  lemma StaleResumeSlot(s: State, settings: Settings, who: nat)
    requires Inv(s, settings) && Sound(settings) && who in s.reading
    ensures var read := s.reading[who];
            SlotAhead(ResumeWrites(s.row, read.row, settings, read.at), settings, s.taken) <==>
            (Wants(read.row) ==>
               && SlotOf(s.row, settings, NextOf(read.row.(pausedAt := None), settings, read.at).value)
               && (s.taken != [] ==> NoSlotIn(read.row, settings, read.at, s.taken[|s.taken| - 1].at)))
  {
    var read := s.reading[who];
    if Wants(read.row) {
      AheadOfTaken(s, settings, read);
    }
  }

  // Two people read one paused agent and the first of them resumes it.
  function TwoReadOneWrites(s: State, settings: Settings): State {
    Step(Step(Step(s, settings, Event(ResumeRead(1), 0)), settings, Event(ResumeRead(2), 0)), settings,
      Event(ResumeWrite(1), 0))
  }

  // The beat takes the slot, the second of them resumes the agent too, and the beat comes again.
  function BeatResumeBeat(s: State, settings: Settings, slot: int): State
    requires s.clock <= slot
  {
    var first := Step(s, settings, Event(Beat(true), slot - s.clock));
    Step(Step(first, settings, Event(ResumeWrite(2), 0)), settings, Event(Beat(true), 0))
  }

  lemma ResumedByFirst(s: State, settings: Settings)
    requires s.row.pausedAt.Some? && s.reading == map[]
    ensures TwoReadOneWrites(s, settings)
         == s.(row := ResumeWrites(s.row, s.row, settings, s.clock), reading := map[2 := Reading(s.row, s.clock)])
  {
    var read1 := Step(s, settings, Event(ResumeRead(1), 0));
    assert read1 == s.(reading := map[1 := Reading(s.row, s.clock)]);
    var read2 := Step(read1, settings, Event(ResumeRead(2), 0));
    assert read2 == s.(reading := map[1 := Reading(s.row, s.clock), 2 := Reading(s.row, s.clock)]);
    assert read2.reading - {1} == map[2 := Reading(s.row, s.clock)];
  }

  lemma TakenAgain(resumed: State, settings: Settings, slot: int, read: Reading)
    requires Runs(resumed.row) && resumed.row.nextRunAt == Some(slot) && resumed.clock <= slot
    requires resumed.taken == [] && resumed.reading == map[2 := read]
    requires NextOf(read.row.(pausedAt := None), settings, read.at) == Some(slot)
    ensures BeatResumeBeat(resumed, settings, slot).taken == [Taken(slot, slot), Taken(slot, slot)]
  {
    var first := Step(resumed, settings, Event(Beat(true), slot - resumed.clock));
    assert first.taken == [Taken(slot, slot)] && first.clock == slot && Runs(first.row.(pausedAt := None));
    var again := Step(first, settings, Event(ResumeWrite(2), 0));
    assert again.row.nextRunAt == Some(slot) && Runs(again.row) && again.clock == slot;
  }

  lemma SlotIsLater(row: Row, settings: Settings, now: int)
    requires NormalForm(row) && Sound(settings) && Wants(row)
    ensures NextOf(row.(pausedAt := None), settings, now).Some? &&
            now < NextOf(row.(pausedAt := None), settings, now).value
  {
    UpcomingIsNextSlot(settings.zone, row.cadence, Weekday(row.runWeekday), Hour(row.runHour, settings.defaultHour),
      now);
  }

  // Two people resume one paused agent; the beat takes the slot between their two writes, and the
  // second write gives the same slot out again.
  lemma SameSlotTwice(s: State, settings: Settings)
    requires NormalForm(s.row) && Sound(settings) && Wants(s.row) && s.row.pausedAt.Some? && s.taken == [] &&
             s.reading == map[]
    ensures NextOf(s.row.(pausedAt := None), settings, s.clock).Some?
    ensures var slot := NextOf(s.row.(pausedAt := None), settings, s.clock).value;
            && TwoReadOneWrites(s, settings).clock == s.clock < slot
            && BeatResumeBeat(TwoReadOneWrites(s, settings), settings, slot).taken ==
               [Taken(slot, slot), Taken(slot, slot)]
  {
    SlotIsLater(s.row, settings, s.clock);
    ResumedByFirst(s, settings);
    TakenAgain(TwoReadOneWrites(s, settings), settings, NextOf(s.row.(pausedAt := None), settings, s.clock).value,
      Reading(s.row, s.clock));
  }
}
