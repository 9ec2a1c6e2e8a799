// One run of an agent: the row, what a runner's event may do to it, how it is stopped and how its
// key closes it. `AgentRun` updates the row in place as the app does; the functions above it say
// what each update leaves behind, and the lemmas below say what holds after any sequence of them.

module AgentRuns {
  import opened Options

  datatype Status = Running | Succeeded | Failed | Interrupted

  // The counters the server counts from what was filed, and those that stay the run's own account.
  datatype Counted = Counted(sourcesChecked: int, recordsRechecked: int, changesRegistered: int,
    proposalsSubmitted: int)
  datatype Own = Own(modelCalls: int, fetches: int, outOfScope: int, correctionsProposed: int)
  datatype Stats = Stats(own: Own, counted: Counted)

  // `tenant` is None for one of bleqq's runs. Money is in 1/10000 EUR, instants in microseconds.
  datatype Row = Row(
    tenant: Option<nat>,
    status: Status,
    stats: Stats,
    outputRef: string,
    error: string,
    cost: Option<nat>,
    tokensIn: Option<nat>,
    tokensOut: Option<nat>,
    finishedAt: Option<int>,
    interruptedAt: Option<int>,
    interruptedBy: Option<nat>,
    session: string,
    limit: nat)

  const NO_STATS := Stats(Own(0, 0, 0, 0), Counted(0, 0, 0, 0))
  const START_FAILED := "The runner could not start this run."

  // ---------------------------------------------------------------------------------------
  // What a runner may say
  // ---------------------------------------------------------------------------------------

  // A decimal as a runner may send it: it can be a NaN or an infinity.
  datatype Amount = NotFinite | Finite(value: real)

  // `status` is None for text that is no run status.
  datatype Event = Event(
    status: Option<Status>,
    stats: map<string, int>,
    cost: Option<Amount>,
    tokensIn: Option<int>,
    tokensOut: Option<int>,
    error: string)

  const COUNTERS: set<string> := {
    "modelCalls", "fetches", "outOfScope", "correctionsProposed",
    "sourcesChecked", "recordsRechecked", "changesRegistered", "proposalsSubmitted"}
  // The counters whose schema refuses a negative number.
  const NOT_NEGATIVE: set<string> := {"outOfScope", "recordsRechecked", "correctionsProposed"}

  const COST_CEILING := 1000000.0
  const COST_UNITS := 10000.0
  const TOKENS_CEILING := 9223372036854775807
  const ERROR_MAX := 2000

  predicate StatsAllowed(stats: map<string, int>) {
    stats.Keys <= COUNTERS && forall key :: key in stats && key in NOT_NEGATIVE ==> 0 <= stats[key]
  }

  function Counter(stats: map<string, int>, key: string): int {
    if key in stats then stats[key] else 0
  }

  predicate CostAllowed(cost: Option<Amount>) {
    cost.None? ||
    (cost.value.Finite? &&
     var v := cost.value.value;
     0.0 <= v < COST_CEILING && (v * COST_UNITS).Floor as real == v * COST_UNITS)
  }

  function Units(cost: Option<Amount>): Option<nat>
    requires CostAllowed(cost)
  {
    if cost.None? then None else Some((cost.value.value * COST_UNITS).Floor)
  }

  predicate TokensAllowed(tokens: Option<int>) {
    tokens.None? || 0 <= tokens.value <= TOKENS_CEILING
  }

  function Tokens(tokens: Option<int>): Option<nat>
    requires TokensAllowed(tokens)
  {
    if tokens.None? then None else Some(tokens.value)
  }

  // A total so far is never lost and never lowered.
  predicate NotLess(stored: Option<nat>, reported: Option<nat>) {
    stored.None? || (reported.Some? && stored.value <= reported.value)
  }

  predicate EventAllowed(row: Row, event: Event) {
    && event.status.Some?
    && StatsAllowed(event.stats)
    && CostAllowed(event.cost)
    && TokensAllowed(event.tokensIn)
    && TokensAllowed(event.tokensOut)
    && NotLess(row.cost, Units(event.cost))
    && NotLess(row.tokensIn, Tokens(event.tokensIn))
    && NotLess(row.tokensOut, Tokens(event.tokensOut))
    && |event.error| <= ERROR_MAX
  }

  function ReportedStats(stats: map<string, int>): Stats {
    Stats(
      Own(Counter(stats, "modelCalls"), Counter(stats, "fetches"), Counter(stats, "outOfScope"),
        Counter(stats, "correctionsProposed")),
      Counted(Counter(stats, "sourcesChecked"), Counter(stats, "recordsRechecked"),
              Counter(stats, "changesRegistered"), Counter(stats, "proposalsSubmitted")))
  }

  // ---------------------------------------------------------------------------------------
  // What each update leaves behind
  // ---------------------------------------------------------------------------------------

  datatype Outcome = Done(row: Row) | Refused(code: string)

  // The row the opener records and hands to the runner; `session` is None when the runner
  // could not start it.
  function Opened(tenant: Option<nat>, limit: nat, session: Option<string>, now: int): Row {
    var row := Row(tenant, Running, NO_STATS, "", "", None, None, None, None, None, None, "", limit);
    if session.Some? then row.(session := session.value)
    else row.(status := Failed, error := START_FAILED, finishedAt := Some(now))
  }

  function Reported(row: Row, event: Event, now: int): Row
    requires EventAllowed(row, event)
  {
    var finished := if event.status.value == Running then row.finishedAt else Some(now);
    row.(
      status := event.status.value,
      stats := ReportedStats(event.stats),
      cost := Units(event.cost),
      tokensIn := Tokens(event.tokensIn),
      tokensOut := Tokens(event.tokensOut),
      error := event.error,
      finishedAt := finished,
      interruptedAt := if event.status.value == Interrupted then finished else row.interruptedAt)
  }

  function ApplyEvent(row: Row, zone: Option<nat>, event: Event, now: int): Outcome {
    if row.tenant != zone then Refused("wrong_zone")
    else if row.status != Running then Refused("run_finished")
    else if !EventAllowed(row, event) then Refused("invalid_runner_event")
    else Done(Reported(row, event, now))
  }

  function Stopped(row: Row, person: Option<nat>, now: int): Row {
    row.(status := Interrupted, finishedAt := Some(now), interruptedAt := Some(now), interruptedBy := person)
  }

  function Interrupt(row: Row, person: Option<nat>, now: int): Outcome {
    if row.status != Running then Refused("run_finished") else Done(Stopped(row, person, now))
  }

  // The body of a close: its status is succeeded or failed, by the schema.
  datatype CloseBody = CloseBody(succeeded: bool, own: Option<Own>, outputRef: string, error: string)

  function CloseStatus(body: CloseBody): Status {
    if body.succeeded then Succeeded else Failed
  }

  // `counted` is what the server counts as filed under the run as it closes.
  function Close(row: Row, body: CloseBody, counted: Counted, now: int): Outcome {
    var own := if body.own.Some? then body.own.value else row.stats.own;
    if row.status != Running then
      if (row.status, row.stats.own, row.outputRef, row.error) != (CloseStatus(body), own, body.outputRef, body.error)
      then Refused("invalid_transition")
      else Done(row)
    else
      Done(row.(
        status := CloseStatus(body),
        stats := Stats(own, counted),
        outputRef := body.outputRef,
        error := body.error,
        finishedAt := Some(now)))
  }

  // ---------------------------------------------------------------------------------------
  // The row as the app updates it
  // ---------------------------------------------------------------------------------------

  class AgentRun {
    const tenant: Option<nat>
    const limit: nat
    var status: Status
    var stats: Stats
    var outputRef: string
    var error: string
    var cost: Option<nat>
    var tokensIn: Option<nat>
    var tokensOut: Option<nat>
    var finishedAt: Option<int>
    var interruptedAt: Option<int>
    var interruptedBy: Option<nat>
    var session: string

    ghost function View(): Row
      reads this
    {
      Row(tenant, status, stats, outputRef, error, cost, tokensIn, tokensOut, finishedAt, interruptedAt,
        interruptedBy, session, limit)
    }

    // Record the run, then hand it to the runner.
    constructor (tenant: Option<nat>, limit: nat, started: Option<string>, now: int)
      ensures View() == Opened(tenant, limit, started, now)
    {
      this.tenant, this.limit := tenant, limit;
      status, stats, outputRef, error := Running, NO_STATS, "", "";
      cost, tokensIn, tokensOut := None, None, None;
      finishedAt, interruptedAt, interruptedBy, session := None, None, None, "";
      new;
      HandOver(started, now);
    }

    method HandOver(started: Option<string>, now: int)
      requires status == Running
      modifies this
      ensures View() == if started.Some? then old(View()).(session := started.value)
                        else old(View()).(status := Failed, error := START_FAILED, finishedAt := Some(now))
    {
      if started.None? {
        status := Failed;
        error := START_FAILED;
        finishedAt := Some(now);
        return;
      }
      session := started.value;
    }

    method TakeEvent(zone: Option<nat>, event: Event, now: int) returns (refused: Option<string>)
      modifies this
      ensures match ApplyEvent(old(View()), zone, event, now)
              case Done(row) => refused == None && View() == row
              case Refused(code) => refused == Some(code) && View() == old(View())
    {
      if tenant != zone {
        return Some("wrong_zone");
      }
      if status != Running {
        return Some("run_finished");
      }
      var current := Row(tenant, status, stats, outputRef, error, cost, tokensIn, tokensOut,
                         finishedAt, interruptedAt, interruptedBy, session, limit);
      if !EventAllowed(current, event) {
        return Some("invalid_runner_event");
      }
      status := event.status.value;
      stats := ReportedStats(event.stats);
      cost, tokensIn, tokensOut := Units(event.cost), Tokens(event.tokensIn), Tokens(event.tokensOut);
      error := event.error;
      if status != Running {
        finishedAt := Some(now);
      }
      if status == Interrupted {
        interruptedAt := finishedAt;
      }
      return None;
    }

    method Stop(person: Option<nat>, now: int)
      modifies this
      ensures View() == Stopped(old(View()), person, now)
    {
      status := Interrupted;
      finishedAt := Some(now);
      interruptedAt := finishedAt;
      interruptedBy := person;
    }

    method Finish(body: CloseBody, counted: Counted, now: int) returns (refused: Option<string>)
      modifies this
      ensures match Close(old(View()), body, counted, now)
              case Done(row) => refused == None && View() == row
              case Refused(code) => refused == Some(code) && View() == old(View())
    {
      var own := if body.own.Some? then body.own.value else stats.own;
      if status != Running {
        if (status, stats.own, outputRef, error) != (CloseStatus(body), own, body.outputRef, body.error) {
          return Some("invalid_transition");
        }
        return None;
      }
      status := CloseStatus(body);
      stats := Stats(own, counted);
      outputRef := body.outputRef;
      error := body.error;
      finishedAt := Some(now);
      return None;
    }
  }

  // ---------------------------------------------------------------------------------------
  // What a report may say, and what it stores
  // ---------------------------------------------------------------------------------------

  // The counter of that name.
  function CounterOf(stats: Stats, key: string): int
    requires key in COUNTERS
  {
    if key == "modelCalls" then stats.own.modelCalls
    else if key == "fetches" then stats.own.fetches
    else if key == "outOfScope" then stats.own.outOfScope
    else if key == "correctionsProposed" then stats.own.correctionsProposed
    else if key == "sourcesChecked" then stats.counted.sourcesChecked
    else if key == "recordsRechecked" then stats.counted.recordsRechecked
    else if key == "changesRegistered" then stats.counted.changesRegistered
    else stats.counted.proposalsSubmitted
  }

  // So many 1/10000 EUR, as a runner writes them.
  function Euros(units: nat): Amount {
    Finite(units as real / 10000.0)
  }

  // A cost is allowed exactly when it is a whole number of 1/10000 EUR under a million, and that number
  // is what is stored.
  lemma CostMeans(cost: Option<Amount>)
    ensures CostAllowed(cost) <==>
            cost == None || exists n: nat :: n < 10_000_000_000 && cost == Some(Euros(n))
    ensures CostAllowed(cost) && cost.Some? ==>
              Units(cost).Some? && cost == Some(Euros(Units(cost).value))
  {
    if CostAllowed(cost) && cost.Some? {
      var n := (cost.value.value * COST_UNITS).Floor;
      UnitsOf(cost.value.value, n);
      assert cost.value == Euros(n);
    }
    forall n: nat | n < 10_000_000_000 && cost == Some(Euros(n))
      ensures CostAllowed(cost)
    {
      UnitsOf(Euros(n).value, n);
    }
  }

  lemma UnitsOf(v: real, n: int)
    ensures v * COST_UNITS == n as real <==> v == n as real / 10000.0
    ensures v * COST_UNITS == n as real ==> (0.0 <= v <==> 0 <= n) && (v < COST_CEILING <==> n < 10_000_000_000)
  {
  }

  // When a report is taken, in the terms of its schema.
  lemma EventIsTaken(row: Row, zone: Option<nat>, event: Event, now: int)
    ensures ApplyEvent(row, zone, event, now) == Refused("wrong_zone") <==> row.tenant != zone
    ensures ApplyEvent(row, zone, event, now) == Refused("run_finished") <==>
            row.tenant == zone && row.status != Running
    ensures ApplyEvent(row, zone, event, now).Done? <==>
            && row.tenant == zone && row.status == Running && event.status.Some?
            && event.stats.Keys <= {"modelCalls", "fetches", "outOfScope", "correctionsProposed", "sourcesChecked",
                                    "recordsRechecked", "changesRegistered", "proposalsSubmitted"}
            && (forall key :: key in event.stats && key in {"outOfScope", "recordsRechecked", "correctionsProposed"} ==>
                  0 <= event.stats[key])
            && CostAllowed(event.cost)
            && (row.cost.Some? ==> Units(event.cost).Some? && row.cost.value <= Units(event.cost).value)
            && (event.tokensIn.Some? ==> 0 <= event.tokensIn.value < 0x8000_0000_0000_0000)
            && (event.tokensOut.Some? ==> 0 <= event.tokensOut.value < 0x8000_0000_0000_0000)
            && (row.tokensIn.Some? ==> event.tokensIn.Some? && row.tokensIn.value <= event.tokensIn.value)
            && (row.tokensOut.Some? ==> event.tokensOut.Some? && row.tokensOut.value <= event.tokensOut.value)
            && |event.error| <= 2000
  {
    if event.tokensIn.Some? && TokensAllowed(event.tokensIn) {
      assert Tokens(event.tokensIn) == Some(event.tokensIn.value);
    }
    if event.tokensOut.Some? && TokensAllowed(event.tokensOut) {
      assert Tokens(event.tokensOut) == Some(event.tokensOut.value);
    }
  }

  // And what it then stores: its status, each counter it names and zero for the others, its cost to the
  // 1/10000, its tokens and its error; the finish time as it ends, the interrupt time with it; nothing else.
  lemma EventStores(row: Row, zone: Option<nat>, event: Event, now: int)
    requires ApplyEvent(row, zone, event, now).Done?
    ensures var after := ApplyEvent(row, zone, event, now).row;
            && event.status == Some(after.status)
            && (forall key :: key in COUNTERS ==>
                  CounterOf(after.stats, key) == if key in event.stats then event.stats[key] else 0)
            && event.cost == (if after.cost.None? then None else Some(Euros(after.cost.value)))
            && event.tokensIn == (if after.tokensIn.None? then None else Some(after.tokensIn.value))
            && event.tokensOut == (if after.tokensOut.None? then None else Some(after.tokensOut.value))
            && after.error == event.error
            && after.finishedAt == (if after.status == Running then row.finishedAt else Some(now))
            && after.interruptedAt == (if after.status == Interrupted then Some(now) else row.interruptedAt)
            && (after.tenant, after.outputRef, after.interruptedBy, after.session, after.limit) ==
               (row.tenant, row.outputRef, row.interruptedBy, row.session, row.limit)
  {
    CostMeans(event.cost);
  }

  // ---------------------------------------------------------------------------------------
  // A run's life
  // ---------------------------------------------------------------------------------------

  // Everything that is ever done to an opened run, each with the instant it is done at.
  datatype Deed =
    | TakeEvent(zone: Option<nat>, event: Event, now: int)
    | InterruptBy(person: Option<nat>, now: int)
    | CloseWith(body: CloseBody, counted: Counted, now: int)

  function Do(row: Row, deed: Deed): Outcome {
    match deed
    case TakeEvent(zone, event, now) => ApplyEvent(row, zone, event, now)
    case InterruptBy(person, now) => Interrupt(row, person, now)
    case CloseWith(body, counted, now) => Close(row, body, counted, now)
  }

  // The row after every deed in order; a refused one stores nothing.
  function Live(row: Row, deeds: seq<Deed>): Row {
    if deeds == [] then row
    else
      var before := Live(row, deeds[..|deeds| - 1]);
      match Do(before, deeds[|deeds| - 1])
      case Done(after) => after
      case Refused(_) => before
  }

  predicate TimesAgree(row: Row) {
    && (row.finishedAt.Some? <==> row.status != Running)
    && (row.interruptedAt.Some? <==> row.status == Interrupted)
    && (row.interruptedBy.Some? ==> row.status == Interrupted)
    && (row.interruptedAt.Some? ==> row.interruptedAt == row.finishedAt)
  }

  lemma OpenedTimesAgree(tenant: Option<nat>, limit: nat, session: Option<string>, now: int)
    ensures TimesAgree(Opened(tenant, limit, session, now))
    ensures Opened(tenant, limit, session, now).status == if session.Some? then Running else Failed
  {
  }

  // After any deeds: the finish time is set exactly when the run is not running, the interrupt
  // time exactly when it was interrupted, and what was spent has neither fallen nor disappeared.
  lemma {:induction false} LifeKeeps(row: Row, deeds: seq<Deed>)
    requires TimesAgree(row)
    ensures TimesAgree(Live(row, deeds))
    ensures var later := Live(row, deeds);
            && NotLess(row.cost, later.cost)
            && NotLess(row.tokensIn, later.tokensIn)
            && NotLess(row.tokensOut, later.tokensOut)
            && later.tenant == row.tenant && later.limit == row.limit && later.session == row.session
  {
    if deeds != [] {
      LifeKeeps(row, deeds[..|deeds| - 1]);
    }
  }

  lemma {:induction false} LiveSplit(row: Row, first: seq<Deed>, more: seq<Deed>)
    ensures Live(row, first + more) == Live(Live(row, first), more)
  {
    if more == [] {
      assert first + more == first;
    } else {
      assert (first + more)[..|first + more| - 1] == first + more[..|more| - 1];
      LiveSplit(row, first, more[..|more| - 1]);
    }
  }

  // Each deed is done on what the ones before it left, and a refused one stores nothing; an interrupt is
  // refused exactly on a run that is not running, and else stops it in the person's name.
  lemma EachDeedIsDone(row: Row, deeds: seq<Deed>, deed: Deed)
    ensures var before := Live(row, deeds);
            Live(row, deeds + [deed]) == (if Do(before, deed).Done? then Do(before, deed).row else before)
    ensures deed.InterruptBy? ==>
              var before, after := Live(row, deeds), Live(row, deeds + [deed]);
              after == if before.status != Running then before
                       else before.(status := Interrupted, finishedAt := Some(deed.now),
                                    interruptedAt := Some(deed.now), interruptedBy := deed.person)
  {
    assert (deeds + [deed])[..|deeds|] == deeds;
  }

  // A finished account is final: whatever is done to it later, not one field of it moves.
  lemma {:induction false} FinishedStays(row: Row, first: seq<Deed>, more: seq<Deed>)
    requires Live(row, first).status != Running
    ensures Live(row, first + more) == Live(row, first)
  {
    LiveSplit(row, first, more);
    FinishedFrozen(Live(row, first), more);
  }

  lemma {:induction false} FinishedFrozen(row: Row, deeds: seq<Deed>)
    requires row.status != Running
    ensures Live(row, deeds) == row
  {
    if deeds != [] {
      FinishedFrozen(row, deeds[..|deeds| - 1]);
    }
  }

  // Repeating the close that closed a run answers it unchanged, whatever was counted meanwhile,
  // and a later close is refused exactly when a value of the run's own account differs.
  lemma CloseOnce(row: Row, body: CloseBody, counted: Counted, now: int, again: CloseBody, recount: Counted, later: int)
    requires row.status == Running
    ensures Close(row, body, counted, now).Done?
    ensures var closed := Close(row, body, counted, now).row;
            && closed.stats.counted == counted
            && Close(closed, body, recount, later) == Done(closed)
            && (Close(closed, again, recount, later) ==
                if again.succeeded == body.succeeded && again.outputRef == body.outputRef &&
                  again.error == body.error &&
                   (again.own.None? || again.own.value == closed.stats.own)
                then Done(closed) else Refused("invalid_transition"))
  {
  }
}
