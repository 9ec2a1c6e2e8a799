// A bank's own agents under its one monthly cap, as concurrent transactions of one database.

module CapProtocol {
  import opened Options
  import opened Money
  import opened AgentRuns

  // Every transaction takes its locks, reads committed rows, writes what only it can see and
  // commits, one step at a time, and the steps of all of them interleave freely. A run of the bank
  // opens after `fits_the_cap` under the bank's spend lock; a runner's event takes the run's row
  // lock, and the spend lock only when it leaves the run open; an interrupt, a terminal event and an
  // event that finds the bank's AI off close the run under the row lock alone.
  //
  // The rows are the bank's runs of one month, in the order their openers committed. Money is in
  // 1/10000 EUR.

  // `checked` is false for a run the research of a scope item opened: it is opened on `at_cap`
  // and never on `fits_the_cap`.
  datatype Entry = Entry(row: Row, checked: bool)

  // ---------------------------------------------------------------------------------------
  // What the month's runs come to
  // ---------------------------------------------------------------------------------------

  function Cost(entry: Entry): nat {
    if entry.row.cost.Some? then entry.row.cost.value else 0
  }

  function Max(a: nat, b: nat): nat {
    if a < b then b else a
  }

  function Min(a: nat, b: nat): nat {
    if a < b then a else b
  }

  // What a run has spent or may still spend: `budget.held`, before it is quantized.
  function Hold(entry: Entry): nat {
    if entry.row.status == Running then Max(Cost(entry), entry.row.limit) else Cost(entry)
  }

  // The part of a hold that its own limit covers, and the part that passes it.
  function Covered(entry: Entry): nat {
    if entry.row.status == Running then entry.row.limit else Min(Cost(entry), entry.row.limit)
  }

  function Overrun(entry: Entry): nat {
    if entry.row.limit < Cost(entry) then Cost(entry) - entry.row.limit else 0
  }

  function Promised(entry: Entry): nat {
    if entry.checked then Covered(entry) else 0
  }

  function Unpromised(entry: Entry): nat {
    if entry.checked then 0 else Covered(entry)
  }

  function Sum(part: Entry -> nat, runs: seq<Entry>): nat {
    if runs == [] then 0 else Sum(part, runs[..|runs| - 1]) + part(runs[|runs| - 1])
  }

  lemma SumAppend(part: Entry -> nat, runs: seq<Entry>, entry: Entry)
    ensures Sum(part, runs + [entry]) == Sum(part, runs) + part(entry)
  {
    assert (runs + [entry])[..|runs|] == runs;
  }

  lemma {:induction false} SumReplace(part: Entry -> nat, runs: seq<Entry>, i: nat, entry: Entry)
    requires i < |runs|
    ensures Sum(part, runs[i := entry]) == Sum(part, runs) - part(runs[i]) + part(entry)
  {
    var last := |runs| - 1;
    if i == last {
      assert runs[i := entry][..last] == runs[..last];
    } else {
      assert runs[i := entry][..last] == runs[..last][i := entry];
      SumReplace(part, runs[..last], i, entry);
    }
  }

  // What is held splits exactly into what the limits cover and what has passed them.
  lemma {:induction false} HoldSplits(runs: seq<Entry>)
    ensures Sum(Hold, runs) == Sum(Promised, runs) + Sum(Unpromised, runs) + Sum(Overrun, runs)
  {
    if runs != [] {
      HoldSplits(runs[..|runs| - 1]);
    }
  }

  // ---------------------------------------------------------------------------------------
  // Transactions
  // ---------------------------------------------------------------------------------------

  datatype Tx =
    // Opening a run, scheduled, now or on request: waiting for the spend lock, holding it, having
    // read that the run fits under `cap`, having written the row.
    | OpenWaiting(limit: nat)
    | OpenLocked(limit: nat)
    | OpenFits(limit: nat, cap: nat)
    | OpenWritten(row: Row, cap: nat)
    // An event that leaves its run open so far: row written, the bank's AI found on, spend lock held,
    // spend read as `seen`.
    | EventWritten(run: nat, row: Row)
    | EventWaiting(run: nat, row: Row)
    | EventLocked(run: nat, row: Row)
    | EventJudged(run: nat, row: Row, seen: nat, under: Option<nat>)
    // A write that finishes its run, under the row lock alone.
    | Closing(run: nat, row: Row)

  predicate HoldsSpend(tx: Tx) {
    tx.OpenLocked? || tx.OpenFits? || tx.OpenWritten? || tx.EventLocked? || tx.EventJudged?
  }

  predicate HasRow(tx: Tx) {
    tx.EventWritten? || tx.EventWaiting? || tx.EventLocked? || tx.EventJudged? || tx.Closing?
  }

  predicate LeavesOpen(tx: Tx) {
    tx.EventJudged? && tx.row.status == Running
  }

  // `runs`, `summaries` and `cap` are committed. `summaries` is what the month's drafted summaries
  // cost. The last three fields are history: the cap the latest committed check was made under,
  // what was committed past the spend lock since the spend was last judged, and how many commits
  // have left a run open since the spend passed the cap.
  datatype State = State(
    runs: seq<Entry>,
    summaries: nat,
    cap: Option<nat>,
    aiOn: bool,
    spendLock: Option<nat>,
    rowLocks: map<nat, nat>,
    txs: map<nat, Tx>,
    lastCap: Option<nat>,
    drift: nat,
    leftOpen: nat)

  function Spent(runs: seq<Entry>, summaries: nat): nat {
    Sum(Cost, runs) + summaries
  }

  // `budget.spend` over the committed rows.
  function Spend(s: State): nat {
    Quantize(Spent(s.runs, s.summaries))
  }

  predicate PassedCap(s: State, cap: nat) {
    cap < Spend(s)
  }

  // A transaction sees its own write over the committed rows.
  function WithOwn(runs: seq<Entry>, run: nat, row: Row): seq<Entry>
    requires run < |runs|
  {
    runs[run := runs[run].(row := row)]
  }

  function FreeRows(locks: map<nat, nat>, t: nat): map<nat, nat> {
    map r | r in locks && locks[r] != t :: locks[r]
  }

  function Released(s: State, t: nat): State {
    s.(txs := s.txs - {t},
       spendLock := if s.spendLock == Some(t) then None else s.spendLock,
       rowLocks := FreeRows(s.rowLocks, t))
  }

  // ---------------------------------------------------------------------------------------
  // The steps
  // ---------------------------------------------------------------------------------------

  datatype Action =
    | BeginOpen(t: nat, limit: nat)
    | TakeSpendLock(t: nat)
    | CheckFits(t: nat)
    | WriteRun(t: nat, tenant: nat, session: Option<string>, now: int)
    | CommitOpen(t: nat)
    | OpenResearch(tenant: nat, limit: nat, session: Option<string>, now: int)
    | BeginEvent(t: nat, run: nat, event: Event, now: int)
    | AskAi(t: nat, now: int)
    | Judge(t: nat, now: int)
    | BeginInterrupt(t: nat, run: nat, person: nat, now: int)
    | CommitRow(t: nat)
    | Abort(t: nat)
    | SetCap(amount: nat)
    | SwitchAi(on: bool)
    | DraftSummary(cents: nat)

  predicate RowFree(s: State, t: nat, run: nat) {
    t !in s.txs && run < |s.runs| && run !in s.rowLocks
  }

  predicate Enabled(s: State, a: Action) {
    match a
    case BeginOpen(t, limit) => t !in s.txs && s.aiOn && WholeCents(limit)
    case TakeSpendLock(t) => t in s.txs && s.spendLock == None && (s.txs[t].OpenWaiting? || s.txs[t].EventWaiting?)
    case CheckFits(t) => t in s.txs && s.txs[t].OpenLocked?
    case WriteRun(t, _, _, _) => t in s.txs && s.txs[t].OpenFits?
    case CommitOpen(t) => t in s.txs && s.txs[t].OpenWritten?
    case OpenResearch(_, limit, _, _) => s.aiOn && WholeCents(limit)
    case BeginEvent(t, run, event, now) =>
      RowFree(s, t, run) && ApplyEvent(s.runs[run].row, s.runs[run].row.tenant, event, now).Done?
    case AskAi(t, _) => t in s.txs && s.txs[t].EventWritten?
    case Judge(t, _) => t in s.txs && s.txs[t].EventLocked? && s.txs[t].run < |s.runs|
    case BeginInterrupt(t, run, _, _) => RowFree(s, t, run) && s.runs[run].row.status == Running
    case CommitRow(t) => t in s.txs && (s.txs[t].EventJudged? || s.txs[t].Closing?) && s.txs[t].run < |s.runs|
    case Abort(t) => t in s.txs
    case SetCap(amount) => WholeCents(amount)
    case SwitchAi(_) => true
    case DraftSummary(_) => true
  }

  // `fits_the_cap`: what is held, quantized, plus this run's limit is within the cap there is.
  predicate FitsTheCap(s: State, limit: nat) {
    s.cap.Some? && Quantize(Sum(Hold, s.runs)) + limit <= s.cap.value
  }

  function Written(s: State, t: nat, run: nat, row: Row): State {
    var tx := if row.status == Running then EventWritten(run, row) else Closing(run, row);
    s.(txs := s.txs[t := tx], rowLocks := s.rowLocks[run := t])
  }

  // `_hold_to_the_cap`: the spend as this transaction sees it decides whether the run stays open.
  function Judged(s: State, t: nat, now: int): State
    requires Enabled(s, Judge(t, now))
  {
    var EventLocked(run, row) := s.txs[t];
    var seen := Spent(WithOwn(s.runs, run, row), s.summaries);
    var kept := if s.cap.Some? && Quantize(seen) <= s.cap.value then row else Stopped(row, None, now);
    s.(txs := s.txs[t := EventJudged(run, kept, seen, s.cap)], drift := 0)
  }

  function CommittedRow(s: State, t: nat): State
    requires Enabled(s, CommitRow(t))
  {
    var tx := s.txs[t];
    var runs := WithOwn(s.runs, tx.run, tx.row);
    var grown := if Sum(Cost, s.runs) < Sum(Cost, runs) then Sum(Cost, runs) - Sum(Cost, s.runs) else 0;
    Released(s, t).(
      runs := runs,
      drift := if tx.Closing? then s.drift + grown else s.drift,
      leftOpen := if LeavesOpen(tx) && s.cap.Some? && PassedCap(s, s.cap.value) then s.leftOpen + 1 else s.leftOpen)
  }

  // A step that is not enabled waits: the state stays as it is.
  function Step(s: State, a: Action): State {
    if !Enabled(s, a) then s else
    match a
    case BeginOpen(t, limit) => s.(txs := s.txs[t := OpenWaiting(limit)])
    case TakeSpendLock(t) =>
      var tx := s.txs[t];
      s.(spendLock := Some(t),
         txs := s.txs[t := if tx.OpenWaiting? then OpenLocked(tx.limit) else EventLocked(tx.run, tx.row)])
    case CheckFits(t) =>
      var limit := s.txs[t].limit;
      if FitsTheCap(s, limit) then s.(txs := s.txs[t := OpenFits(limit, s.cap.value)]) else Released(s, t)
    case WriteRun(t, tenant, session, now) =>
      var tx := s.txs[t];
      s.(txs := s.txs[t := OpenWritten(Opened(Some(tenant), tx.limit, session, now), tx.cap)])
    case CommitOpen(t) =>
      var tx := s.txs[t];
      Released(s, t).(runs := s.runs + [Entry(tx.row, true)], lastCap := Some(tx.cap))
    case OpenResearch(tenant, limit, session, now) =>
      s.(runs := s.runs + [Entry(Opened(Some(tenant), limit, session, now), false)])
    case BeginEvent(t, run, event, now) =>
      Written(s, t, run, ApplyEvent(s.runs[run].row, s.runs[run].row.tenant, event, now).row)
    // The switch is asked once: it may be turned off while the event waits for the lock.
    case AskAi(t, now) =>
      var tx := s.txs[t];
      s.(txs := s.txs[t := if s.aiOn then EventWaiting(tx.run, tx.row)
        else Closing(tx.run, Stopped(tx.row, None, now))])
    case Judge(t, now) => Judged(s, t, now)
    case BeginInterrupt(t, run, person, now) => Written(s, t, run, Stopped(s.runs[run].row, Some(person), now))
    case CommitRow(t) => CommittedRow(s, t)
    case Abort(t) => Released(s, t)
    case SetCap(amount) => s.(cap := Some(amount))
    case SwitchAi(on) => s.(aiOn := on)
    case DraftSummary(cents) => s.(summaries := s.summaries + cents * CENT, drift := s.drift + cents * CENT)
  }

  // Any interleaving: the state after a sequence of steps.
  function After(s: State, steps: seq<Action>): State {
    if steps == [] then s else Step(After(s, steps[..|steps| - 1]), steps[|steps| - 1])
  }

  // ---------------------------------------------------------------------------------------
  // What every step keeps
  // ---------------------------------------------------------------------------------------

  ghost predicate LocksHeld(s: State) {
    && (forall t :: t in s.txs && HoldsSpend(s.txs[t]) ==> s.spendLock == Some(t))
    && (forall t :: t in s.txs && HasRow(s.txs[t]) ==>
          s.txs[t].run < |s.runs| && s.txs[t].run in s.rowLocks && s.rowLocks[s.txs[t].run] == t)
  }

  // A pending row is one event or one stop away from its committed row, which is still running.
  predicate NextOf(base: Row, row: Row) {
    base.status == Running && NotLess(base.cost, row.cost) && row.limit == base.limit
  }

  ghost predicate RowsPending(s: State)
    requires LocksHeld(s)
  {
    forall t :: t in s.txs && HasRow(s.txs[t]) ==>
      && NextOf(s.runs[s.txs[t].run].row, s.txs[t].row)
      && (s.txs[t].EventWritten? || s.txs[t].EventWaiting? || s.txs[t].EventLocked? ==> s.txs[t].row.status == Running)
      && (s.txs[t].Closing? ==> s.txs[t].row.status != Running)
  }

  // What a judged event read, and what was committed past the lock since, is the spend with its
  // own write.
  ghost predicate JudgedExactly(s: State)
    requires LocksHeld(s)
  {
    forall t :: t in s.txs && s.txs[t].EventJudged? ==>
      && Spent(WithOwn(s.runs, s.txs[t].run, s.txs[t].row), s.summaries) == s.txs[t].seen + s.drift
      && (LeavesOpen(s.txs[t]) ==> s.txs[t].under.Some? && Quantize(s.txs[t].seen) <= s.txs[t].under.value)
  }

  ghost predicate OpenersFit(s: State) {
    forall t :: t in s.txs ==>
      && (s.txs[t].OpenFits? ==> Sum(Promised, s.runs) + s.txs[t].limit <= s.txs[t].cap + 50)
      && (s.txs[t].OpenWritten? ==>
         s.txs[t].row.cost == None && Sum(Promised, s.runs) + Covered(Entry(s.txs[t].row, true)) <= s.txs[t].cap + 50)
  }

  ghost predicate Inv(s: State) {
    && LocksHeld(s)
    && RowsPending(s)
    && JudgedExactly(s)
    && OpenersFit(s)
    && (s.lastCap.Some? ==> Sum(Promised, s.runs) <= s.lastCap.value + 50)
  }

  // Before the first step nothing is in flight; the month's runs, summaries and cap are arbitrary.
  predicate Quiet(s: State) {
    s.txs == map[] && s.rowLocks == map[] && s.spendLock == None && s.lastCap == None && s.drift == 0 && s.leftOpen == 0
  }

  lemma FitReadsEnough(s: State, limit: nat)
    requires FitsTheCap(s, limit)
    ensures Sum(Promised, s.runs) + limit <= s.cap.value + 50
  {
    HoldSplits(s.runs);
    QuantizeIsNearest(Sum(Hold, s.runs), 0);
  }

  // Committing a row never lowers the spend and never raises what is promised.
  lemma CommitMoves(runs: seq<Entry>, run: nat, row: Row)
    requires run < |runs| && NextOf(runs[run].row, row)
    ensures Sum(Cost, WithOwn(runs, run, row)) >= Sum(Cost, runs)
    ensures Sum(Promised, WithOwn(runs, run, row)) <= Sum(Promised, runs)
  {
    SumReplace(Cost, runs, run, runs[run].(row := row));
    SumReplace(Promised, runs, run, runs[run].(row := row));
  }

  // Two writes to different rows add up in either order.
  lemma CommitsCommute(runs: seq<Entry>, a: nat, rowA: Row, b: nat, rowB: Row)
    requires a < |runs| && b < |runs| && a != b
    ensures Sum(Cost, WithOwn(WithOwn(runs, a, rowA), b, rowB)) ==
            Sum(Cost, WithOwn(runs, a, rowA)) + Sum(Cost, WithOwn(runs, b, rowB)) - Sum(Cost, runs)
  {
    SumReplace(Cost, runs, a, runs[a].(row := rowA));
    SumReplace(Cost, runs, b, runs[b].(row := rowB));
    SumReplace(Cost, WithOwn(runs, a, rowA), b, runs[b].(row := rowB));
  }

  lemma WrittenKeeps(s: State, t: nat, run: nat, row: Row)
    requires Inv(s) && RowFree(s, t, run) && NextOf(s.runs[run].row, row)
    ensures Inv(Written(s, t, run, row))
  {
    var s' := Written(s, t, run, row);
    assert forall u :: u in s'.txs && u != t ==> u in s.txs && s'.txs[u] == s.txs[u];
  }

  // A step that moves only transaction `t`, and no committed row.
  lemma TxMoveKeeps(s: State, s': State, t: nat)
    requires Inv(s)
    requires t in s'.txs && s'.runs == s.runs && s'.summaries == s.summaries && s'.drift == s.drift
    requires s'.rowLocks == s.rowLocks && s'.lastCap == s.lastCap
    requires forall u :: u in s'.txs && u != t ==> u in s.txs && s'.txs[u] == s.txs[u]
    requires s'.spendLock == s.spendLock || (s.spendLock == None && s'.spendLock == Some(t))
    requires HoldsSpend(s'.txs[t]) ==> s'.spendLock == Some(t)
    requires !s'.txs[t].EventJudged?
    requires HasRow(s'.txs[t]) ==>
      && t in s.txs && HasRow(s.txs[t]) && s'.txs[t].run == s.txs[t].run
      && NextOf(s.runs[s.txs[t].run].row, s'.txs[t].row)
      && (s'.txs[t].row.status == Running <==> !s'.txs[t].Closing?)
    requires s'.txs[t].OpenFits? ==> Sum(Promised, s.runs) + s'.txs[t].limit <= s'.txs[t].cap + 50
    requires s'.txs[t].OpenWritten? ==>
             s'.txs[t].row.cost == None &&
               Sum(Promised, s.runs) + Covered(Entry(s'.txs[t].row, true)) <= s'.txs[t].cap + 50
    ensures Inv(s')
  {
  }

  lemma ReleasedKeeps(s: State, t: nat)
    requires Inv(s)
    ensures Inv(Released(s, t))
  {
    var s' := Released(s, t);
    assert forall u :: u in s'.txs ==> u != t && u in s.txs && s'.txs[u] == s.txs[u];
  }

  // What a judged event read is the spend with its own write, whether its run stays open or not.
  lemma JudgedReads(s: State, t: nat, now: int)
    requires Inv(s) && Enabled(s, Judge(t, now))
    ensures var tx := Judged(s, t, now).txs[t];
            && tx.EventJudged? && tx.run == s.txs[t].run && NextOf(s.runs[tx.run].row, tx.row)
            && Spent(WithOwn(s.runs, tx.run, tx.row), s.summaries) == tx.seen
            && (LeavesOpen(tx) ==> tx.under.Some? && Quantize(tx.seen) <= tx.under.value)
  {
    var run, row := s.txs[t].run, s.txs[t].row;
    var kept := Judged(s, t, now).txs[t].row;
    SumReplace(Cost, s.runs, run, s.runs[run].(row := row));
    SumReplace(Cost, s.runs, run, s.runs[run].(row := kept));
  }

  // Judging replaces what an event read; nobody else can hold the spend lock, so nobody else is judged.
  lemma JudgedKeeps(s: State, t: nat, now: int)
    requires Inv(s) && Enabled(s, Judge(t, now))
    ensures Inv(Judged(s, t, now))
  {
    var s' := Judged(s, t, now);
    JudgedReads(s, t, now);
    forall u | u in s'.txs && u != t
      ensures u in s.txs && s'.txs[u] == s.txs[u] && !HoldsSpend(s.txs[u])
    {
    }
    assert LocksHeld(s');
    assert RowsPending(s');
    assert JudgedExactly(s');
    assert OpenersFit(s');
  }

  lemma CommittedRowKeeps(s: State, t: nat)
    requires Inv(s) && Enabled(s, CommitRow(t))
    ensures Inv(CommittedRow(s, t))
  {
    var s' := CommittedRow(s, t);
    var tx := s.txs[t];
    CommitMoves(s.runs, tx.run, tx.row);
    assert forall u :: u in s'.txs ==> u != t && u in s.txs && s'.txs[u] == s.txs[u];
    forall u | u in s'.txs && HasRow(s'.txs[u])
      ensures s'.txs[u].run != tx.run && s'.txs[u].run in s'.rowLocks && s'.rowLocks[s'.txs[u].run] == u
    {
    }
    forall u | u in s'.txs && s'.txs[u].EventJudged?
      ensures Spent(WithOwn(s'.runs, s'.txs[u].run, s'.txs[u].row), s'.summaries) == s'.txs[u].seen + s'.drift
    {
      CommitsCommute(s.runs, tx.run, tx.row, s.txs[u].run, s.txs[u].row);
    }
  }

  lemma AppendKeeps(s: State, s': State, entry: Entry)
    requires Inv(s)
    requires s'.runs == s.runs + [entry] && Cost(entry) == 0
    requires s'.summaries == s.summaries && s'.drift == s.drift
    requires forall t :: t in s'.txs ==> t in s.txs && s'.txs[t] == s.txs[t]
    requires forall t :: t in s'.txs && HoldsSpend(s'.txs[t]) ==> s'.spendLock == Some(t)
    requires forall r, t :: t in s'.txs && r in s.rowLocks && s.rowLocks[r] == t ==>
             r in s'.rowLocks && s'.rowLocks[r] == t
    requires entry.checked ==> forall t :: t in s'.txs ==> !HoldsSpend(s'.txs[t])
    requires s'.lastCap.Some? ==> Sum(Promised, s.runs) + Promised(entry) <= s'.lastCap.value + 50
    ensures Inv(s')
  {
    SumAppend(Promised, s.runs, entry);
    forall t | t in s'.txs && s'.txs[t].EventJudged?
      ensures Spent(WithOwn(s'.runs, s'.txs[t].run, s'.txs[t].row), s'.summaries) == s'.txs[t].seen + s'.drift
    {
      var run, row := s.txs[t].run, s.txs[t].row;
      assert WithOwn(s'.runs, run, row) == WithOwn(s.runs, run, row) + [entry];
      SumAppend(Cost, WithOwn(s.runs, run, row), entry);
    }
  }

  // What is committed outside any transaction moves no lock and no row.
  lemma AsideKeeps(s: State, cap: Option<nat>, aiOn: bool, cost: nat)
    requires Inv(s)
    ensures Inv(s.(cap := cap, aiOn := aiOn, summaries := s.summaries + cost, drift := s.drift + cost))
  {
  }

  predicate MovesOwnTx(a: Action) {
    a.BeginOpen? || a.TakeSpendLock? || a.CheckFits? || a.WriteRun? || a.AskAi?
  }

  lemma CheckFitsKeeps(s: State, t: nat)
    requires Inv(s) && Enabled(s, CheckFits(t))
    ensures Inv(Step(s, CheckFits(t)))
  {
    if FitsTheCap(s, s.txs[t].limit) {
      FitReadsEnough(s, s.txs[t].limit);
      TxMoveKeeps(s, Step(s, CheckFits(t)), t);
    } else {
      ReleasedKeeps(s, t);
    }
  }

  lemma OwnTxStepKeeps(s: State, a: Action)
    requires Inv(s) && Enabled(s, a) && MovesOwnTx(a)
    ensures Inv(Step(s, a))
  {
    if a.CheckFits? {
      CheckFitsKeeps(s, a.t);
    } else {
      TxMoveKeeps(s, Step(s, a), a.t);
    }
  }

  predicate StandsAside(a: Action) {
    a.SetCap? || a.SwitchAi? || a.DraftSummary?
  }

  lemma AsideStepKeeps(s: State, a: Action)
    requires Inv(s) && Enabled(s, a) && StandsAside(a)
    ensures Inv(Step(s, a))
  {
    match a {
      case SetCap(amount) => AsideKeeps(s, Some(amount), s.aiOn, 0);
      case SwitchAi(on) => AsideKeeps(s, s.cap, on, 0);
      case DraftSummary(cents) => AsideKeeps(s, s.cap, s.aiOn, cents * CENT);
    }
  }

  predicate WritesRow(a: Action) {
    a.BeginEvent? || a.BeginInterrupt?
  }

  lemma RowStepKeeps(s: State, a: Action)
    requires Inv(s) && Enabled(s, a) && WritesRow(a)
    ensures Inv(Step(s, a))
  {
    match a {
      case BeginEvent(t, run, event, now) =>
        WrittenKeeps(s, t, run, ApplyEvent(s.runs[run].row, s.runs[run].row.tenant, event, now).row);
      case BeginInterrupt(t, run, person, now) =>
        WrittenKeeps(s, t, run, Stopped(s.runs[run].row, Some(person), now));
    }
  }

  lemma CommittedStepKeeps(s: State, a: Action)
    requires Inv(s) && Enabled(s, a) && !MovesOwnTx(a) && !StandsAside(a) && !WritesRow(a)
    ensures Inv(Step(s, a))
  {
    match a {
      case CommitOpen(t) => CommitOpenKeeps(s, t);
      case OpenResearch(tenant, limit, session, now) =>
        AppendKeeps(s, Step(s, a), Entry(Opened(Some(tenant), limit, session, now), false));
      case Judge(t, now) => JudgedKeeps(s, t, now);
      case CommitRow(t) => CommittedRowKeeps(s, t);
      case Abort(t) => ReleasedKeeps(s, t);
    }
  }

  lemma StepKeeps(s: State, a: Action)
    requires Inv(s)
    ensures Inv(Step(s, a))
  {
    if Enabled(s, a) {
      if MovesOwnTx(a) {
        OwnTxStepKeeps(s, a);
      } else if StandsAside(a) {
        AsideStepKeeps(s, a);
      } else if WritesRow(a) {
        RowStepKeeps(s, a);
      } else {
        CommittedStepKeeps(s, a);
      }
    }
  }

  lemma CommitOpenKeeps(s: State, t: nat)
    requires Inv(s) && Enabled(s, CommitOpen(t))
    ensures Inv(Step(s, CommitOpen(t)))
  {
    var s' := Step(s, CommitOpen(t));
    assert forall u :: u in s'.txs ==> u != t && u in s.txs && s'.txs[u] == s.txs[u];
    AppendKeeps(s, s', Entry(s.txs[t].row, true));
  }

  lemma {:induction false} RunKeeps(s: State, steps: seq<Action>)
    requires Quiet(s)
    ensures Inv(After(s, steps))
  {
    if steps != [] {
      RunKeeps(s, steps[..|steps| - 1]);
      StepKeeps(After(s, steps[..|steps| - 1]), steps[|steps| - 1]);
    }
  }

  // ---------------------------------------------------------------------------------------
  // The cap before a run
  // ---------------------------------------------------------------------------------------

  // Under every interleaving, whatever the runners report and however the cap is moved: once a
  // checked open has committed, what is held is at most the cap that open was judged under, half a
  // cent, what runs have reported past their own limits, and what was opened unchecked.
  lemma HeldStaysUnderTheCap(s: State, steps: seq<Action>)
    requires Quiet(s)
    ensures var later := After(s, steps);
            later.lastCap.Some? ==>
              Sum(Hold, later.runs) <= later.lastCap.value + 50 + Sum(Overrun, later.runs) + Sum(Unpromised, later.runs)
  {
    RunKeeps(s, steps);
    HoldSplits(After(s, steps).runs);
  }

  predicate KeepsCap(a: Action) {
    !a.SetCap?
  }

  predicate KeepsToCap(a: Action) {
    !a.SetCap? && !a.OpenResearch?
  }

  ghost predicate AllUnder(s: State, cap: nat) {
    && s.cap == Some(cap)
    && (s.lastCap.Some? ==> s.lastCap.value == cap)
    && (forall t :: t in s.txs && (s.txs[t].OpenFits? || s.txs[t].OpenWritten?) ==> s.txs[t].cap == cap)
    && (forall t :: t in s.txs && s.txs[t].EventJudged? ==> s.txs[t].under == Some(cap))
  }

  lemma StepStaysUnder(s: State, a: Action, cap: nat)
    requires AllUnder(s, cap) && KeepsCap(a)
    ensures AllUnder(Step(s, a), cap)
  {
  }

  lemma {:induction false} RunStaysUnder(s: State, steps: seq<Action>, cap: nat)
    requires Quiet(s) && s.cap == Some(cap)
    requires forall i :: 0 <= i < |steps| ==> KeepsCap(steps[i])
    ensures AllUnder(After(s, steps), cap)
  {
    if steps != [] {
      RunStaysUnder(s, steps[..|steps| - 1], cap);
      StepStaysUnder(After(s, steps[..|steps| - 1]), steps[|steps| - 1], cap);
    }
  }

  predicate WithinLimits(runs: seq<Entry>) {
    forall i :: 0 <= i < |runs| ==> Overrun(runs[i]) == 0
  }

  predicate AllChecked(runs: seq<Entry>) {
    forall i :: 0 <= i < |runs| ==> runs[i].checked
  }

  lemma {:induction false} NothingExtra(runs: seq<Entry>)
    ensures WithinLimits(runs) ==> Sum(Overrun, runs) == 0
    ensures AllChecked(runs) ==> Sum(Unpromised, runs) == 0
  {
    if runs != [] {
      NothingExtra(runs[..|runs| - 1]);
    }
  }

  lemma {:induction false} StaysChecked(s: State, steps: seq<Action>)
    requires Quiet(s) && AllChecked(s.runs)
    requires forall i :: 0 <= i < |steps| ==> KeepsToCap(steps[i])
    ensures AllChecked(After(s, steps).runs)
  {
    if steps != [] {
      StaysChecked(s, steps[..|steps| - 1]);
    }
  }

  // One unchanged cap, no unchecked open, no run past its own limit: once an open has succeeded,
  // closed costs plus the larger of cost and limit of each open run stay at most half a cent over.
  lemma HeldUnderOneCap(s: State, steps: seq<Action>, cap: nat)
    requires Quiet(s) && s.cap == Some(cap) && AllChecked(s.runs)
    requires forall i :: 0 <= i < |steps| ==> KeepsToCap(steps[i])
    requires WithinLimits(After(s, steps).runs)
    ensures After(s, steps).lastCap.Some? ==> Sum(Hold, After(s, steps).runs) <= cap + 50
  {
    HeldStaysUnderTheCap(s, steps);
    RunStaysUnder(s, steps, cap);
    StaysChecked(s, steps);
    NothingExtra(After(s, steps).runs);
  }

  function Fresh(limit: nat): Entry {
    Entry(Opened(Some(0), limit, Some("runner"), 0), true)
  }

  // One open from the wait for the lock to the commit, and one event that finishes a run.
  function OpenSteps(limit: nat): seq<Action> {
    [BeginOpen(1, limit), TakeSpendLock(1), CheckFits(1), WriteRun(1, 0, Some("runner"), 0), CommitOpen(1)]
  }

  function LastEventSteps(t: nat, run: nat, event: Event): seq<Action> {
    [BeginEvent(t, run, event, 0), CommitRow(t)]
  }

  // No transaction is in flight.
  predicate Idle(s: State) {
    s.txs == map[] && s.rowLocks == map[] && s.spendLock == None
  }

  lemma {:induction false} AfterSplit(s: State, first: seq<Action>, more: seq<Action>)
    ensures After(s, first + more) == After(After(s, first), more)
  {
    if more == [] {
      assert first + more == first;
    } else {
      assert (first + more)[..|first + more| - 1] == first + more[..|more| - 1];
      AfterSplit(s, first, more[..|more| - 1]);
    }
  }

  lemma AfterTwo(s: State, a: Action, b: Action)
    ensures After(s, [a, b]) == Step(Step(s, a), b)
  {
    assert [a, b][..1] == [a] && [a][..0] == [];
    assert After(s, [a]) == Step(s, a);
  }

  lemma AfterFive(s: State, a: Action, b: Action, c: Action, d: Action, e: Action)
    ensures After(s, [a, b, c, d, e]) == Step(Step(Step(Step(Step(s, a), b), c), d), e)
  {
    AfterTwo(s, a, b);
    assert [a, b, c][..2] == [a, b] && [a, b, c, d][..3] == [a, b, c] && [a, b, c, d, e][..4] == [a, b, c, d];
    assert After(s, [a, b, c]) == Step(After(s, [a, b]), c);
    assert After(s, [a, b, c, d]) == Step(After(s, [a, b, c]), d);
  }

  lemma OpenReads(s: State, limit: nat)
    requires Idle(s) && s.aiOn && WholeCents(limit) && FitsTheCap(s, limit)
    ensures Step(Step(Step(s, BeginOpen(1, limit)), TakeSpendLock(1)), CheckFits(1))
         == s.(spendLock := Some(1), txs := map[1 := OpenFits(limit, s.cap.value)])
  {
    var begun := Step(s, BeginOpen(1, limit));
    assert begun == s.(txs := map[1 := OpenWaiting(limit)]);
    assert Step(begun, TakeSpendLock(1)) == s.(spendLock := Some(1), txs := map[1 := OpenLocked(limit)]);
  }

  lemma OpenWrites(s: State, limit: nat)
    requires Idle(s) && s.cap.Some?
    ensures var read := s.(spendLock := Some(1), txs := map[1 := OpenFits(limit, s.cap.value)]);
            Step(Step(read, WriteRun(1, 0, Some("runner"), 0)), CommitOpen(1)) ==
              s.(runs := s.runs + [Fresh(limit)], lastCap := s.cap)
  {
    var read := s.(spendLock := Some(1), txs := map[1 := OpenFits(limit, s.cap.value)]);
    var written := Step(read, WriteRun(1, 0, Some("runner"), 0));
    assert written == read.(txs := map[1 := OpenWritten(Fresh(limit).row, s.cap.value)]);
    assert written.txs - {1} == map[] && FreeRows(map[], 1) == map[];
  }

  // What is held in whole: finished runs at their cost, open ones at the larger of cost and limit.
  // Drafted summaries are no part of it.
  predicate HasRoom(s: State, limit: nat, cap: nat) {
    limit <= cap && Sum(Hold, s.runs) + limit <= cap + Slack(cap - limit)
  }

  lemma RoomIsExact(s: State, limit: nat, cap: nat)
    requires s.cap == Some(cap) && WholeCents(cap) && WholeCents(limit)
    ensures FitsTheCap(s, limit) <==> HasRoom(s, limit, cap)
  {
    if limit <= cap {
      QuantizeMeetsBound(Sum(Hold, s.runs), cap - limit);
    }
  }

  // The check lets an opener on exactly when the exact hold and its limit are within the cap, but for
  // what rounding to cents may lose, however much has been drafted; with no cap it lets nobody on.
  lemma CheckFitsExactly(s: State, t: nat)
    requires t in s.txs && s.txs[t].OpenLocked? && WholeCents(s.txs[t].limit)
    requires s.cap.Some? ==> WholeCents(s.cap.value)
    ensures var after := Step(s, CheckFits(t));
            && (t in after.txs <==> s.cap.Some? && HasRoom(s, s.txs[t].limit, s.cap.value))
            && (t in after.txs ==> after.txs[t] == OpenFits(s.txs[t].limit, s.cap.value))
            && after.runs == s.runs
  {
    if s.cap.Some? {
      RoomIsExact(s, s.txs[t].limit, s.cap.value);
    }
  }

  // Alone, an open that has room adds exactly its run, and so its limit to what is held.
  lemma OpenAloneHolds(s: State, limit: nat, cap: nat)
    requires Idle(s) && s.aiOn && WholeCents(limit) && s.cap == Some(cap) && WholeCents(cap) && HasRoom(s, limit, cap)
    ensures After(s, OpenSteps(limit)) == s.(runs := s.runs + [Fresh(limit)], lastCap := s.cap)
    ensures Sum(Hold, After(s, OpenSteps(limit)).runs) == Sum(Hold, s.runs) + limit
  {
    AfterFive(s, BeginOpen(1, limit), TakeSpendLock(1), CheckFits(1), WriteRun(1, 0, Some("runner"), 0), CommitOpen(1));
    RoomIsExact(s, limit, cap);
    OpenReads(s, limit);
    OpenWrites(s, limit);
    SumAppend(Hold, s.runs, Fresh(limit));
  }

  lemma OpenRefused(s: State, limit: nat)
    requires Idle(s) && WholeCents(limit) && !(s.aiOn && FitsTheCap(s, limit))
    ensures After(s, OpenSteps(limit)) == s
  {
    AfterFive(s, BeginOpen(1, limit), TakeSpendLock(1), CheckFits(1), WriteRun(1, 0, Some("runner"), 0), CommitOpen(1));
    if s.aiOn {
      var begun := Step(s, BeginOpen(1, limit));
      assert begun == s.(txs := map[1 := OpenWaiting(limit)]);
      var locked := Step(begun, TakeSpendLock(1));
      assert locked == s.(spendLock := Some(1), txs := map[1 := OpenLocked(limit)]);
      assert locked.txs - {1} == map[] && FreeRows(map[], 1) == map[];
      assert Step(locked, CheckFits(1)) == s;
    }
  }

  // So an open alone goes through exactly when the bank's AI is on, it has a cap, and there is room.
  lemma OpensExactly(s: State, limit: nat)
    requires Idle(s) && WholeCents(limit) && (s.cap.Some? ==> WholeCents(s.cap.value))
    ensures var after := After(s, OpenSteps(limit));
            if s.aiOn && s.cap.Some? && HasRoom(s, limit, s.cap.value)
            then after == s.(runs := s.runs + [Fresh(limit)], lastCap := s.cap)
            else after == s
  {
    if s.cap.Some? {
      RoomIsExact(s, limit, s.cap.value);
    }
    if s.aiOn && s.cap.Some? && HasRoom(s, limit, s.cap.value) {
      OpenAloneHolds(s, limit, s.cap.value);
    } else {
      OpenRefused(s, limit);
    }
  }

  // A run that has not been paid for in full is not refused for what was drafted: under a cap of 100
  // EUR with 50 EUR of summaries, a run of 60 EUR opens.
  lemma SummariesHoldNothing()
    ensures var s := EmptyMonth(1_000_000).(summaries := 500_000);
            After(s, OpenSteps(600_000)).runs == [Fresh(600_000)]
  {
    var s := EmptyMonth(1_000_000).(summaries := 500_000);
    assert HasRoom(s, 600_000, 1_000_000);
    OpensExactly(s, 600_000);
    assert [] + [Fresh(600_000)] == [Fresh(600_000)];
  }

  function Finished(limit: nat, cost: nat): Row {
    Fresh(limit).row.(status := Succeeded, cost := Some(cost), finishedAt := Some(0))
  }

  // The transaction knows nobody and no one holds the run's row.
  predicate Free(s: State, t: nat, run: nat) {
    RowFree(s, t, run) && s.spendLock != Some(t) && forall r :: r in s.rowLocks ==> s.rowLocks[r] != t
  }

  lemma LastEventBegins(s: State, t: nat, run: nat, event: Event, row: Row)
    requires Free(s, t, run) && row.status != Running
    requires ApplyEvent(s.runs[run].row, s.runs[run].row.tenant, event, 0) == Done(row)
    ensures Step(s, BeginEvent(t, run, event, 0)) ==
            s.(txs := s.txs[t := Closing(run, row)], rowLocks := s.rowLocks[run := t])
  {
  }

  lemma LastEventCommits(s: State, t: nat, run: nat, row: Row)
    requires Free(s, t, run) && NotLess(s.runs[run].row.cost, row.cost)
    ensures var begun := s.(txs := s.txs[t := Closing(run, row)], rowLocks := s.rowLocks[run := t]);
            Step(begun, CommitRow(t)) ==
            s.(runs := WithOwn(s.runs, run, row), drift := s.drift + Cost(s.runs[run].(row := row)) - Cost(s.runs[run]))
  {
    var begun := s.(txs := s.txs[t := Closing(run, row)], rowLocks := s.rowLocks[run := t]);
    SumReplace(Cost, s.runs, run, s.runs[run].(row := row));
    assert begun.txs - {t} == s.txs && FreeRows(begun.rowLocks, t) == s.rowLocks;
  }

  // A finishing event that waits for nobody leaves its row, and a drift of what the run has cost more.
  lemma LastEventAlone(s: State, t: nat, run: nat, event: Event, row: Row)
    requires Free(s, t, run) && row.status != Running && NotLess(s.runs[run].row.cost, row.cost)
    requires ApplyEvent(s.runs[run].row, s.runs[run].row.tenant, event, 0) == Done(row)
    ensures After(s, LastEventSteps(t, run, event)) ==
            s.(runs := WithOwn(s.runs, run, row), drift := s.drift + Cost(s.runs[run].(row := row)) - Cost(s.runs[run]))
  {
    AfterTwo(s, BeginEvent(t, run, event, 0), CommitRow(t));
    LastEventBegins(s, t, run, event, row);
    LastEventCommits(s, t, run, row);
  }

  // A bank's month before its first run, under its cap.
  function EmptyMonth(cap: nat): State {
    State([], 0, Some(cap), true, None, map[], map[], None, 0, 0)
  }

  const HALF_CENT := Event(Some(Succeeded), map[], Some(Finite(0.0050)), None, None, "")

  // A run of one cent, which reports half of it and is done; then a run of the whole cap.
  function HalfCentSteps(cap: nat): seq<Action> {
    OpenSteps(100) + LastEventSteps(1, 0, HALF_CENT) + OpenSteps(cap)
  }

  lemma OneRunHeld(limit: nat, cost: nat)
    ensures Sum(Hold, [Entry(Finished(limit, cost), true)]) == cost
  {
    SumAppend(Hold, [], Entry(Finished(limit, cost), true));
    assert [] + [Entry(Finished(limit, cost), true)] == [Entry(Finished(limit, cost), true)];
  }

  lemma FirstRunCostHalfACent(cap: nat)
    requires WholeCents(cap) && 100 <= cap
    ensures After(EmptyMonth(cap), OpenSteps(100) + LastEventSteps(1, 0, HALF_CENT))
         == EmptyMonth(cap).(runs := [Entry(Finished(100, 50), true)], lastCap := Some(cap), drift := 50)
  {
    var s := EmptyMonth(cap);
    assert Sum(Hold, []) == 0 && Quantize(0) == 0;
    OpenAloneHolds(s, 100, cap);
    assert [] + [Fresh(100)] == [Fresh(100)];
    var begun := s.(runs := [Fresh(100)], lastCap := Some(cap));
    assert (0.0050 * COST_UNITS).Floor == 50;
    assert ApplyEvent(Fresh(100).row, Some(0), HALF_CENT, 0) == Done(Finished(100, 50));
    LastEventAlone(begun, 1, 0, HALF_CENT, Finished(100, 50));
    assert WithOwn(begun.runs, 0, Finished(100, 50)) == [Entry(Finished(100, 50), true)];
    AfterSplit(s, OpenSteps(100), LastEventSteps(1, 0, HALF_CENT));
  }

  // The half cent of the cap theorem is reached, from an empty month and with every hypothesis of
  // the theorem met: the cap never moves, each open is checked, and no run passes its own limit.
  lemma HalfCentIsReached(cap: nat)
    requires WholeCents(cap) && 100 <= cap
    ensures Quiet(EmptyMonth(cap)) && forall i :: 0 <= i < |HalfCentSteps(cap)| ==> KeepsToCap(HalfCentSteps(cap)[i])
    ensures var later := After(EmptyMonth(cap), HalfCentSteps(cap));
            && later.runs == [Entry(Finished(100, 50), true), Fresh(cap)]
            && AllChecked(later.runs) && WithinLimits(later.runs)
            && later.lastCap == Some(cap) && Sum(Hold, later.runs) == cap + 50
  {
    var s := EmptyMonth(cap);
    var closed := s.(runs := [Entry(Finished(100, 50), true)], lastCap := Some(cap), drift := 50);
    FirstRunCostHalfACent(cap);
    OneRunHeld(100, 50);
    OpenAloneHolds(closed, cap, cap);
    AfterSplit(s, OpenSteps(100) + LastEventSteps(1, 0, HALF_CENT), OpenSteps(cap));
    assert closed.runs + [Fresh(cap)] == [Entry(Finished(100, 50), true), Fresh(cap)];
  }

  // ---------------------------------------------------------------------------------------
  // The cap after an event
  // ---------------------------------------------------------------------------------------

  lemma CommitOpenEvent(s: State, cap: nat, t: nat)
    requires Inv(s) && AllUnder(s, cap) && WholeCents(cap) && t in s.txs && LeavesOpen(s.txs[t])
    ensures var after := CommittedRow(s, t);
            && s.txs[t].run < |after.runs| && after.runs[s.txs[t].run].row == s.txs[t].row
            && s.txs[t].seen <= cap + Slack(cap)
            && (Spend(after) <= cap <==> s.drift <= cap + Slack(cap) - s.txs[t].seen)
  {
    QuantizeMeetsBound(s.txs[t].seen, cap);
    QuantizeMeetsBound(s.txs[t].seen + s.drift, cap);
  }

  // An event that leaves its run open was judged within the cap; at its commit the spend is within
  // the cap exactly when what was committed past the spend lock meanwhile still fits the room the
  // judgement left. Nothing meanwhile is enough.
  lemma OpenEventWithinCap(s: State, steps: seq<Action>, cap: nat, t: nat)
    requires Quiet(s) && s.cap == Some(cap) && WholeCents(cap)
    requires forall i :: 0 <= i < |steps| ==> KeepsCap(steps[i])
    requires t in After(s, steps).txs && LeavesOpen(After(s, steps).txs[t])
    ensures var before := After(s, steps);
            var after := Step(before, CommitRow(t));
            var tx := before.txs[t];
            && tx.run < |after.runs| && after.runs[tx.run].row == tx.row
            && tx.seen <= cap + Slack(cap)
            && (Spend(after) <= cap <==> before.drift <= cap + Slack(cap) - tx.seen)
            && (before.drift == 0 ==> Spend(after) <= cap)
  {
    RunKeeps(s, steps);
    RunStaysUnder(s, steps, cap);
    CommitOpenEvent(After(s, steps), cap, t);
  }

  // What a step commits past the spend lock: what a finishing row has cost more than its committed
  // one, and a drafted summary.
  function Slips(s: State, a: Action): nat
    requires Inv(s)
  {
    if !Enabled(s, a) then 0
    else match a
      case CommitRow(t) =>
        if s.txs[t].Closing? then Cost(s.runs[s.txs[t].run].(row := s.txs[t].row)) - Cost(s.runs[s.txs[t].run]) else 0
      case DraftSummary(cents) => cents * CENT
      case _ => 0
  }

  function Slipped(s: State, steps: seq<Action>): nat
    requires Inv(s)
  {
    if steps == [] then 0
    else
      StepsKeep(s, steps[..|steps| - 1]);
      Slipped(s, steps[..|steps| - 1]) + Slips(After(s, steps[..|steps| - 1]), steps[|steps| - 1])
  }

  lemma {:induction false} StepsKeep(s: State, steps: seq<Action>)
    requires Inv(s)
    ensures Inv(After(s, steps))
  {
    if steps != [] {
      StepsKeep(s, steps[..|steps| - 1]);
      StepKeeps(After(s, steps[..|steps| - 1]), steps[|steps| - 1]);
    }
  }

  // Every step but a judgement moves the drift by what it slips past.
  lemma SlipsAreDrift(s: State, a: Action)
    requires Inv(s) && !(a.Judge? && Enabled(s, a))
    ensures Step(s, a).drift == s.drift + Slips(s, a)
  {
    if a.CommitRow? && Enabled(s, a) {
      var tx := s.txs[a.t];
      SumReplace(Cost, s.runs, tx.run, s.runs[tx.run].(row := tx.row));
    }
  }

  // A judged event holds the spend lock until it commits or aborts, so nobody else is judged meanwhile.
  lemma JudgedAlone(s: State, a: Action, t: nat)
    requires Inv(s) && t in s.txs && s.txs[t].EventJudged? && a != CommitRow(t) && a != Abort(t)
    ensures !(a.Judge? && Enabled(s, a))
    ensures t in Step(s, a).txs && Step(s, a).txs[t] == s.txs[t]
  {
  }

  // So between a judgement and its commit the drift is exactly what the steps of others have slipped
  // past the lock: the cost rises of terminal commits, and the summaries.
  lemma {:induction false} DriftIsWhatSlipped(s: State, t: nat, now: int, steps: seq<Action>)
    requires Inv(s) && Enabled(s, Judge(t, now))
    requires forall i :: 0 <= i < |steps| ==> steps[i] != CommitRow(t) && steps[i] != Abort(t)
    ensures Inv(Judged(s, t, now))
    ensures var judged := Judged(s, t, now);
            var later := After(judged, steps);
            t in later.txs && later.txs[t] == judged.txs[t] && later.drift == Slipped(judged, steps)
  {
    JudgedKeeps(s, t, now);
    var judged := Judged(s, t, now);
    if steps != [] {
      var n := |steps| - 1;
      DriftIsWhatSlipped(s, t, now, steps[..n]);
      StepsKeep(judged, steps[..n]);
      SlipsStep(After(judged, steps[..n]), steps[n], t);
    }
  }

  lemma SlipsStep(s: State, a: Action, t: nat)
    requires Inv(s) && t in s.txs && s.txs[t].EventJudged? && a != CommitRow(t) && a != Abort(t)
    ensures t in Step(s, a).txs && Step(s, a).txs[t] == s.txs[t] && Step(s, a).drift == s.drift + Slips(s, a)
  {
    JudgedAlone(s, a, t);
    SlipsAreDrift(s, a);
  }

  const HALF_SPENT := Event(Some(Running), map[], Some(Finite(0.0060)), None, None, "")
  const OVERSPENT := Event(Some(Succeeded), map[], Some(Finite(0.0200)), None, None, "")
  const HALF_ROW := Fresh(100).row.(cost := Some(60))

  // Two cents of cap, two runs of one cent each opened under it; then the first run's event judged.
  const TWO_CENTS := EmptyMonth(200).(runs := [Fresh(100), Fresh(100)], lastCap := Some(200))
  const JUDGED := TWO_CENTS.(
    spendLock := Some(1),
    rowLocks := map[0 := 1],
    txs := map[1 := EventJudged(0, HALF_ROW, 60, Some(200))])
  // Then the second run's last event committed, and then the first one's.
  const SLIPPED := JUDGED.(runs := [Fresh(100), Entry(Finished(100, 200), true)], drift := 200)
  const PAST_THE_CAP := [Entry(HALF_ROW, true), Entry(Finished(100, 200), true)]

  const OPEN_TWO := OpenSteps(100) + OpenSteps(100)
  const JUDGE_FIRST := [BeginEvent(1, 0, HALF_SPENT, 0), AskAi(1, 0), TakeSpendLock(1), Judge(1, 0)]
  const SLIP_PAST := OPEN_TWO + JUDGE_FIRST + LastEventSteps(2, 1, OVERSPENT) + [CommitRow(1)]

  lemma TwoRunsSum(part: Entry -> nat, a: Entry, b: Entry)
    ensures Sum(part, [a, b]) == part(a) + part(b)
  {
    SumAppend(part, [a], b);
    SumAppend(part, [], a);
    assert [a] + [b] == [a, b] && [] + [a] == [a];
  }

  lemma ReachTwoCents()
    ensures After(EmptyMonth(200), OPEN_TWO) == TWO_CENTS
  {
    var s := EmptyMonth(200);
    assert Sum(Hold, []) == 0 && Quantize(0) == 0;
    OpenAloneHolds(s, 100, 200);
    assert [] + [Fresh(100)] == [Fresh(100)];
    var one := s.(runs := [Fresh(100)], lastCap := Some(200));
    assert Sum(Hold, one.runs) == 100 && Quantize(100) == 100;
    OpenAloneHolds(one, 100, 200);
    assert [Fresh(100)] + [Fresh(100)] == TWO_CENTS.runs;
    AfterSplit(s, OpenSteps(100), OpenSteps(100));
  }

  lemma ReportedRows()
    ensures ApplyEvent(Fresh(100).row, Some(0), HALF_SPENT, 0) == Done(HALF_ROW)
    ensures ApplyEvent(Fresh(100).row, Some(0), OVERSPENT, 0) == Done(Finished(100, 200))
  {
    assert (0.0060 * COST_UNITS).Floor == 60;
    assert (0.0200 * COST_UNITS).Floor == 200;
  }

  const WAITING := TWO_CENTS.(rowLocks := map[0 := 1], txs := map[1 := EventWaiting(0, HALF_ROW)])

  lemma ReachWaiting()
    ensures After(TWO_CENTS, [BeginEvent(1, 0, HALF_SPENT, 0), AskAi(1, 0)]) == WAITING
  {
    ReportedRows();
    var begun := Step(TWO_CENTS, BeginEvent(1, 0, HALF_SPENT, 0));
    assert begun == TWO_CENTS.(rowLocks := map[0 := 1], txs := map[1 := EventWritten(0, HALF_ROW)]);
    AfterTwo(TWO_CENTS, BeginEvent(1, 0, HALF_SPENT, 0), AskAi(1, 0));
  }

  lemma ReachJudged()
    ensures After(TWO_CENTS, JUDGE_FIRST) == JUDGED
  {
    ReachWaiting();
    var locked := Step(WAITING, TakeSpendLock(1));
    assert locked == WAITING.(spendLock := Some(1), txs := map[1 := EventLocked(0, HALF_ROW)]);
    assert WithOwn(locked.runs, 0, HALF_ROW) == [Entry(HALF_ROW, true), Fresh(100)];
    TwoRunsSum(Cost, Entry(HALF_ROW, true), Fresh(100));
    AfterTwo(WAITING, TakeSpendLock(1), Judge(1, 0));
    AfterSplit(TWO_CENTS, [BeginEvent(1, 0, HALF_SPENT, 0), AskAi(1, 0)], [TakeSpendLock(1), Judge(1, 0)]);
    assert [BeginEvent(1, 0, HALF_SPENT, 0), AskAi(1, 0)] + [TakeSpendLock(1), Judge(1, 0)] == JUDGE_FIRST;
  }

  lemma ReachSlipped()
    ensures After(JUDGED, LastEventSteps(2, 1, OVERSPENT)) == SLIPPED
  {
    ReportedRows();
    LastEventAlone(JUDGED, 2, 1, OVERSPENT, Finished(100, 200));
    assert WithOwn(JUDGED.runs, 1, Finished(100, 200)) == SLIPPED.runs;
  }

  lemma ReachPastTheCap()
    ensures After(SLIPPED, [CommitRow(1)]).runs == PAST_THE_CAP && Spend(After(SLIPPED, [CommitRow(1)])) == 300
  {
    assert [CommitRow(1)][..0] == [] && After(SLIPPED, []) == SLIPPED;
    assert WithOwn(SLIPPED.runs, 0, HALF_ROW) == PAST_THE_CAP;
    TwoRunsSum(Cost, PAST_THE_CAP[0], PAST_THE_CAP[1]);
    assert Quantize(260) == 300;
  }

  lemma SlipPastParts()
    ensures After(EmptyMonth(200), OPEN_TWO + JUDGE_FIRST) == JUDGED
    ensures After(EmptyMonth(200), SLIP_PAST) == After(SLIPPED, [CommitRow(1)])
  {
    var s := EmptyMonth(200);
    ReachTwoCents();
    ReachJudged();
    AfterSplit(s, OPEN_TWO, JUDGE_FIRST);
    ReachSlipped();
    AfterSplit(s, OPEN_TWO + JUDGE_FIRST, LastEventSteps(2, 1, OVERSPENT));
    AfterSplit(s, OPEN_TWO + JUDGE_FIRST + LastEventSteps(2, 1, OVERSPENT), [CommitRow(1)]);
  }

  // So the judgement cannot promise more: a terminal event takes no spend lock, and one that
  // commits between another event's judgement and its commit leaves that run open past the cap. From
  // an empty month, under one cap: the second run reports more than its own limit, and the first run
  // is still running at 0.0260 EUR spent under a cap of 0.02 EUR.
  lemma TerminalEventSlipsPast()
    ensures Quiet(EmptyMonth(200)) && forall i :: 0 <= i < |SLIP_PAST| ==> KeepsToCap(SLIP_PAST[i])
    ensures var judged := After(EmptyMonth(200), OPEN_TWO + JUDGE_FIRST);
            judged == JUDGED && LeavesOpen(judged.txs[1]) && Quantize(judged.txs[1].seen) <= 200
    ensures var later := After(EmptyMonth(200), SLIP_PAST);
            && later.cap == Some(200) && later.runs == PAST_THE_CAP
            && later.runs[0].row.status == Running && Spend(later) == 300
  {
    SlipPastParts();
    ReachPastTheCap();
    assert Quantize(60) <= 200;
  }

  // An event's judgement leaves its run open, and its row as reported, exactly when the exact spend
  // with its own write is within the cap and its slack: reaching the cap is not passing it. With no
  // cap, or past it, the run is interrupted.
  lemma JudgesExactly(s: State, t: nat, now: int)
    requires Inv(s) && Enabled(s, Judge(t, now)) && (s.cap.Some? ==> WholeCents(s.cap.value))
    ensures var EventLocked(run, row) := s.txs[t];
            var judged := Step(s, Judge(t, now)).txs[t];
            var within := s.cap.Some? &&
              Spent(WithOwn(s.runs, run, row), s.summaries) <= s.cap.value + Slack(s.cap.value);
            judged.row == if within then row else Stopped(row, None, now)
  {
    var EventLocked(run, row) := s.txs[t];
    if s.cap.Some? {
      QuantizeMeetsBound(Spent(WithOwn(s.runs, run, row), s.summaries), s.cap.value);
    }
  }

  // One event of a runner that goes on, from its report to the commit, and one interrupt.
  function EventSteps(run: nat, event: Event, now: int): seq<Action> {
    [BeginEvent(1, run, event, now), AskAi(1, now), TakeSpendLock(1), Judge(1, now), CommitRow(1)]
  }

  function InterruptSteps(run: nat, person: nat, now: int): seq<Action> {
    [BeginInterrupt(1, run, person, now), CommitRow(1)]
  }

  lemma RowCommits(s: State, run: nat, tx: Tx)
    requires Idle(s) && run < |s.runs| && (tx.EventJudged? || tx.Closing?) && tx.run == run
    requires NotLess(s.runs[run].row.cost, tx.row.cost)
    ensures var held := s.(rowLocks := map[run := 1], txs := map[1 := tx]);
            Step(held, CommitRow(1)).runs == WithOwn(s.runs, run, tx.row) &&
            Step(held.(spendLock := Some(1)), CommitRow(1)).runs == WithOwn(s.runs, run, tx.row)
  {
  }

  // Alone, an event that reports its run running leaves it so exactly when the bank's AI is on, it has
  // a cap, and what the month has then cost is within it; else the run is interrupted. What it
  // reported is stored either way.
  lemma EventAloneExactly(s: State, run: nat, event: Event, row: Row, now: int)
    requires Idle(s) && Inv(s) && run < |s.runs| && (s.cap.Some? ==> WholeCents(s.cap.value))
    requires ApplyEvent(s.runs[run].row, s.runs[run].row.tenant, event, now) == Done(row) && row.status == Running
    ensures var within := s.aiOn && s.cap.Some? &&
                          Spent(WithOwn(s.runs, run, row), s.summaries) <= s.cap.value + Slack(s.cap.value);
            After(s, EventSteps(run, event, now)).runs ==
            WithOwn(s.runs, run, if within then row else Stopped(row, None, now))
  {
    AfterFive(s, BeginEvent(1, run, event, now), AskAi(1, now), TakeSpendLock(1), Judge(1, now), CommitRow(1));
    EventAsked(s, run, event, row, now);
    if s.aiOn {
      JudgedAfterWaiting(s, run, row, now);
    } else {
      StoppedForAi(s, run, row, now);
    }
  }

  lemma EventAsked(s: State, run: nat, event: Event, row: Row, now: int)
    requires Idle(s) && run < |s.runs| && row.status == Running
    requires ApplyEvent(s.runs[run].row, s.runs[run].row.tenant, event, now) == Done(row)
    ensures var tx := if s.aiOn then EventWaiting(run, row) else Closing(run, Stopped(row, None, now));
            Step(Step(s, BeginEvent(1, run, event, now)), AskAi(1, now)) ==
              s.(rowLocks := map[run := 1], txs := map[1 := tx])
  {
    assert Step(s, BeginEvent(1, run, event, now)) ==
           s.(rowLocks := map[run := 1], txs := map[1 := EventWritten(run, row)]);
  }

  lemma StoppedForAi(s: State, run: nat, row: Row, now: int)
    requires Idle(s) && run < |s.runs| && NotLess(s.runs[run].row.cost, row.cost)
    ensures var closing := s.(rowLocks := map[run := 1], txs := map[1 := Closing(run, Stopped(row, None, now))]);
            Step(Step(Step(closing, TakeSpendLock(1)), Judge(1, now)), CommitRow(1)).runs ==
            WithOwn(s.runs, run, Stopped(row, None, now))
  {
    var closing := s.(rowLocks := map[run := 1], txs := map[1 := Closing(run, Stopped(row, None, now))]);
    assert Step(Step(closing, TakeSpendLock(1)), Judge(1, now)) == closing;
    RowCommits(s, run, Closing(run, Stopped(row, None, now)));
  }

  lemma JudgedAfterWaiting(s: State, run: nat, row: Row, now: int)
    requires Idle(s) && Inv(s) && run < |s.runs| && (s.cap.Some? ==> WholeCents(s.cap.value))
    requires NextOf(s.runs[run].row, row) && row.status == Running
    ensures var within := s.cap.Some? &&
            Spent(WithOwn(s.runs, run, row), s.summaries) <= s.cap.value + Slack(s.cap.value);
            var waiting := s.(rowLocks := map[run := 1], txs := map[1 := EventWaiting(run, row)]);
            Step(Step(Step(waiting, TakeSpendLock(1)), Judge(1, now)), CommitRow(1)).runs ==
            WithOwn(s.runs, run, if within then row else Stopped(row, None, now))
  {
    var waiting := s.(rowLocks := map[run := 1], txs := map[1 := EventWaiting(run, row)]);
    var locked := Step(waiting, TakeSpendLock(1));
    assert locked == waiting.(spendLock := Some(1), txs := map[1 := EventLocked(run, row)]);
    if s.cap.Some? {
      QuantizeMeetsBound(Spent(WithOwn(s.runs, run, row), s.summaries), s.cap.value);
    }
    var judged := Step(locked, Judge(1, now));
    assert judged == locked.(txs := map[1 := judged.txs[1]], drift := 0);
    RowCommits(s.(drift := 0), run, judged.txs[1]);
  }

  // Alone, an interrupt stops a running run in the person's name, and nothing else.
  lemma InterruptAlone(s: State, run: nat, person: nat, now: int)
    requires Idle(s) && run < |s.runs|
    ensures After(s, InterruptSteps(run, person, now)).runs ==
            if s.runs[run].row.status == Running then WithOwn(s.runs, run, Stopped(s.runs[run].row, Some(person), now))
            else s.runs
  {
    AfterTwo(s, BeginInterrupt(1, run, person, now), CommitRow(1));
    if s.runs[run].row.status == Running {
      var closing := Closing(run, Stopped(s.runs[run].row, Some(person), now));
      assert s.txs[1 := closing] == map[1 := closing] && s.rowLocks[run := 1] == map[run := 1];
      assert Step(s, BeginInterrupt(1, run, person, now)) == s.(rowLocks := map[run := 1], txs := map[1 := closing]);
      RowCommits(s, run, closing);
    } else {
      assert Step(s, BeginInterrupt(1, run, person, now)) == s;
    }
  }

  // Once the spend has passed the cap, judging an event stops its run.
  lemma PassedCapStops(s: State, t: nat, now: int)
    requires Inv(s) && s.cap.Some? && PassedCap(s, s.cap.value) && WholeCents(s.cap.value)
    requires Enabled(s, Judge(t, now))
    ensures Step(s, Judge(t, now)).txs[t].row.status == Interrupted
  {
    var EventLocked(run, row) := s.txs[t];
    CommitMoves(s.runs, run, row);
    QuantizeMeetsBound(Spent(s.runs, s.summaries), s.cap.value);
    QuantizeMeetsBound(Spent(WithOwn(s.runs, run, row), s.summaries), s.cap.value);
  }

  ghost predicate OneLeft(s: State, cap: nat) {
    if PassedCap(s, cap)
    then s.leftOpen <= 1 && (s.leftOpen == 1 ==> forall t :: t in s.txs ==> !LeavesOpen(s.txs[t]))
    else s.leftOpen == 0
  }

  // No step lowers the spend.
  lemma SpendGrows(s: State, a: Action)
    requires Inv(s)
    ensures Spent(s.runs, s.summaries) <= Spent(Step(s, a).runs, Step(s, a).summaries)
  {
    if Enabled(s, a) {
      match a {
        case CommitRow(t) => CommitMoves(s.runs, s.txs[t].run, s.txs[t].row);
        case CommitOpen(t) => SumAppend(Cost, s.runs, Entry(s.txs[t].row, true));
        case OpenResearch(tenant, limit, session, now) =>
          SumAppend(Cost, s.runs, Entry(Opened(Some(tenant), limit, session, now), false));
        case _ =>
      }
    }
  }

  // Only judging an event can leave a run open, and committing it is the end of its transaction.
  lemma LeavesOpenMoves(s: State, a: Action, t: nat)
    requires Inv(s)
    requires t in Step(s, a).txs && LeavesOpen(Step(s, a).txs[t])
    ensures (a.Judge? && a.t == t && Enabled(s, a)) ||
            (t in s.txs && LeavesOpen(s.txs[t]) && !(a.CommitRow? && a.t == t))
  {
  }

  lemma LeftOpenMoves(s: State, a: Action)
    ensures Step(s, a).leftOpen == s.leftOpen ||
            (a.CommitRow? && Enabled(s, a) && LeavesOpen(s.txs[a.t]) && s.cap.Some? && PassedCap(s, s.cap.value) &&
             Step(s, a).leftOpen == s.leftOpen + 1)
  {
  }

  lemma OneLeftKeeps(s: State, a: Action, cap: nat)
    requires Inv(s) && AllUnder(s, cap) && WholeCents(cap) && OneLeft(s, cap) && KeepsCap(a)
    ensures OneLeft(Step(s, a), cap)
  {
    var s' := Step(s, a);
    SpendGrows(s, a);
    LeftOpenMoves(s, a);
    QuantizeMeetsBound(Spent(s.runs, s.summaries), cap);
    QuantizeMeetsBound(Spent(s'.runs, s'.summaries), cap);
    forall t | t in s'.txs && LeavesOpen(s'.txs[t]) && PassedCap(s, cap)
      ensures t in s.txs && LeavesOpen(s.txs[t]) && !(a.CommitRow? && a.t == t)
    {
      LeavesOpenMoves(s, a, t);
      if a.Judge? && a.t == t && Enabled(s, a) {
        PassedCapStops(s, t, a.now);
      }
    }
  }

  // A commit that leaves its run running although the committed spend has passed the cap.
  predicate LeavesOpenLate(s: State, a: Action) {
    && a.CommitRow? && Enabled(s, a)
    && Step(s, a).runs[s.txs[a.t].run].row.status == Running
    && s.cap.Some? && s.cap.value < Spend(s)
  }

  function LateCommits(s: State, steps: seq<Action>): nat {
    if steps == [] then 0
    else
      var n := |steps| - 1;
      LateCommits(s, steps[..n]) + if LeavesOpenLate(After(s, steps[..n]), steps[n]) then 1 else 0
  }

  // The history counts exactly those commits.
  lemma {:induction false} LeftOpenCounts(s: State, steps: seq<Action>)
    requires Inv(s)
    ensures After(s, steps).leftOpen == s.leftOpen + LateCommits(s, steps)
  {
    if steps != [] {
      var n := |steps| - 1;
      LeftOpenCounts(s, steps[..n]);
      StepsKeep(s, steps[..n]);
      LateMoves(After(s, steps[..n]), steps[n]);
    }
  }

  lemma LateMoves(s: State, a: Action)
    requires Inv(s)
    ensures Step(s, a).leftOpen == s.leftOpen + if LeavesOpenLate(s, a) then 1 else 0
  {
  }

  // Under one unchanged cap, at most one event of the whole bank leaves a run open after the spend
  // has passed the cap: the one that was already judged. So each run still open takes at most that
  // one event, and its next one closes it (`PassedCapStops`).
  lemma AtMostOneLeftOpen(s: State, steps: seq<Action>, cap: nat)
    requires Quiet(s) && s.cap == Some(cap) && WholeCents(cap)
    requires forall i :: 0 <= i < |steps| ==> KeepsCap(steps[i])
    ensures LateCommits(s, steps) <= 1
  {
    RunKeeps(s, []);
    OneIsLeft(s, steps, cap);
    LeftOpenCounts(s, steps);
  }

  lemma {:induction false} OneIsLeft(s: State, steps: seq<Action>, cap: nat)
    requires Quiet(s) && s.cap == Some(cap) && WholeCents(cap)
    requires forall i :: 0 <= i < |steps| ==> KeepsCap(steps[i])
    ensures OneLeft(After(s, steps), cap)
  {
    if steps != [] {
      var before := steps[..|steps| - 1];
      OneIsLeft(s, before, cap);
      RunKeeps(s, before);
      RunStaysUnder(s, before, cap);
      OneLeftKeeps(After(s, before), steps[|steps| - 1], cap);
    }
  }

  // What stands beside the opens and events: the switch and the cap are as last set, a drafted summary
  // adds its cents to what is spent, and a research run opens unchecked, exactly while the AI is on.
  lemma AsideExactly(s: State, on: bool, amount: nat, cents: nat, tenant: nat, limit: nat, session: string, now: int)
    ensures Step(s, SwitchAi(on)) == s.(aiOn := on)
    ensures WholeCents(amount) ==> Step(s, SetCap(amount)) == s.(cap := Some(amount))
    ensures var after := Step(s, DraftSummary(cents));
            after == s.(summaries := s.summaries + 100 * cents, drift := after.drift)
    ensures WholeCents(limit) ==>
              Step(s, OpenResearch(tenant, limit, Some(session), now)) ==
              if s.aiOn then s.(runs := s.runs + [Entry(Opened(Some(tenant), limit, Some(session), now), false)]) else s
  {
  }

  // ---------------------------------------------------------------------------------------
  // What a transaction that does not commit leaves behind
  // ---------------------------------------------------------------------------------------

  predicate WorksAs(a: Action, t: nat) {
    match a
    case BeginOpen(u, _) => u == t
    case TakeSpendLock(u) => u == t
    case CheckFits(u) => u == t
    case WriteRun(u, _, _, _) => u == t
    case BeginEvent(u, _, _, _) => u == t
    case AskAi(u, _) => u == t
    case Judge(u, _) => u == t
    case BeginInterrupt(u, _, _, _) => u == t
    case Abort(u) => u == t
    case _ => false
  }

  // `later` differs from `s` only by what `t` alone holds, and by the history a judgement starts.
  ghost predicate OnlyHolds(s: State, later: State, t: nat) {
    && later == s.(txs := later.txs, spendLock := later.spendLock, rowLocks := later.rowLocks, drift := later.drift)
    && later.txs - {t} == s.txs && FreeRows(later.rowLocks, t) == s.rowLocks
    && (later.spendLock == s.spendLock || (s.spendLock == None && later.spendLock == Some(t)))
    && (t !in later.txs ==> later.spendLock == s.spendLock && later.rowLocks == s.rowLocks)
  }

  lemma OwnTxStays(s: State, later: State, t: nat, tx: Tx, lock: Option<nat>)
    requires t !in s.txs && OnlyHolds(s, later, t)
    requires lock == later.spendLock || (later.spendLock == None && lock == Some(t))
    ensures OnlyHolds(s, later.(txs := later.txs[t := tx], spendLock := lock), t)
  {
    assert later.txs[t := tx] - {t} == later.txs - {t};
  }

  lemma OwnRowStays(s: State, later: State, t: nat, tx: Tx, run: nat)
    requires t !in s.txs && OnlyHolds(s, later, t) && run !in later.rowLocks
    ensures OnlyHolds(s, later.(txs := later.txs[t := tx], rowLocks := later.rowLocks[run := t]), t)
  {
    TakenRow(later.rowLocks, run, t);
    assert later.txs[t := tx] - {t} == later.txs - {t};
  }

  lemma OwnLocksGo(s: State, later: State, t: nat)
    requires t !in s.txs && s.spendLock != Some(t) && OnlyHolds(s, later, t)
    ensures OnlyHolds(s, Released(later, t), t)
  {
    FreedTwice(later.rowLocks, t);
    assert later.txs - {t} - {t} == later.txs - {t};
  }

  lemma WorkIsItsOwn(s: State, later: State, a: Action, t: nat)
    requires t !in s.txs && s.spendLock != Some(t) && OnlyHolds(s, later, t) && WorksAs(a, t)
    ensures OnlyHolds(s, Step(later, a), t)
  {
    if Enabled(later, a) {
      var next := Step(later, a);
      if a.BeginEvent? || a.BeginInterrupt? {
        OwnRowStays(s, later, t, next.txs[t], a.run);
      } else if a.Abort? {
        OwnLocksGo(s, later, t);
      } else if a.CheckFits? {
        OwnLocksGo(s, later, t);
        OwnTxStays(
          s, later, t, OpenFits(later.txs[t].limit, if later.cap.Some? then later.cap.value else 0), later.spendLock);
      } else {
        OwnTxStays(s, later, t, next.txs[t], next.spendLock);
      }
    }
  }

  lemma TakenRow(locks: map<nat, nat>, run: nat, t: nat)
    requires run !in locks
    ensures FreeRows(locks[run := t], t) == FreeRows(locks, t)
  {
  }

  lemma FreedTwice(locks: map<nat, nat>, t: nat)
    ensures FreeRows(FreeRows(locks, t), t) == FreeRows(locks, t)
  {
  }

  lemma AbortEnds(s: State, later: State, t: nat)
    requires t !in s.txs && s.spendLock != Some(t) && OnlyHolds(s, later, t)
    ensures Step(later, Abort(t)) == s.(drift := later.drift)
  {
    if t !in later.txs {
      assert later.txs - {t} == later.txs;
    }
  }

  // A transaction that ends without a commit leaves runs, summaries, cap and locks as they were.
  lemma {:induction false} AbortedLeavesNothing(s: State, t: nat, work: seq<Action>)
    requires t !in s.txs && s.spendLock != Some(t) && forall r :: r in s.rowLocks ==> s.rowLocks[r] != t
    requires forall k :: 0 <= k < |work| ==> WorksAs(work[k], t)
    ensures OnlyHolds(s, After(s, work), t)
    ensures var after := After(s, work + [Abort(t)]); after == s.(drift := after.drift)
  {
    assert FreeRows(s.rowLocks, t) == s.rowLocks;
    if work != [] {
      var n := |work| - 1;
      AbortedLeavesNothing(s, t, work[..n]);
      WorkIsItsOwn(s, After(s, work[..n]), work[n], t);
    }
    AbortEnds(s, After(s, work), t);
    assert (work + [Abort(t)])[..|work|] == work;
  }
}
