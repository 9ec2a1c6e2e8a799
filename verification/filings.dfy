// Filing under one run while others file, report, stop and close: every writer locks the run's row
// first and keeps it until it commits. So what a key's close counts is all there will ever be.

module Filings {
  import opened AgentRuns
  import opened Options

  datatype Subject = Subject(kind: string, id: nat)

  datatype Filing =
    | Sweep(source: nat)
    | Recheck(source: nat, subject: Subject)
    | Change(change: nat)
    | Proposal(proposal: nat)

  // The most one run may file of each kind; sweeps have no limit.
  datatype Limits = Limits(rechecks: nat, changes: nat, proposals: nat)

  predicate SameKind(a: Filing, b: Filing) {
    a.Sweep? == b.Sweep? && a.Recheck? == b.Recheck? && a.Change? == b.Change?
  }

  function CountLike(filed: seq<Filing>, filing: Filing): nat {
    if filed == [] then 0
    else CountLike(filed[..|filed| - 1], filing) + if SameKind(filed[|filed| - 1], filing) then 1 else 0
  }

  predicate Fits(limits: Limits, filing: Filing, count: nat) {
    match filing
    case Sweep(_) => true
    case Recheck(_, _) => count <= limits.rechecks
    case Change(_) => count <= limits.changes
    case Proposal(_) => count <= limits.proposals
  }

  function Sources(filed: seq<Filing>): set<nat> {
    set filing | filing in filed && filing.Sweep? :: filing.source
  }

  function Subjects(filed: seq<Filing>): set<Subject> {
    set filing | filing in filed && filing.Recheck? :: filing.subject
  }

  // As the server counts a run: the sources it swept, the records it re-checked, each once, and the
  // changes and proposals it filed.
  function CountedOf(filed: seq<Filing>): Counted {
    Counted(|Sources(filed)|, |Subjects(filed)|, CountLike(filed, Change(0)), CountLike(filed, Proposal(0)))
  }

  // What the counters mean, one filing at a time: each moves its own counter alone, a sweep only for
  // a source not swept before and a re-check only for a record not re-checked before.
  lemma CountersMove(filed: seq<Filing>, filing: Filing)
    ensures CountedOf([]) == NO_STATS.counted
    ensures var was, now := CountedOf(filed), CountedOf(filed + [filing]);
            now == match filing
                  case Sweep(source) =>
                    was.(sourcesChecked := was.sourcesChecked +
                         if exists f :: f in filed && f.Sweep? && f.source == source then 0 else 1)
                  case Recheck(_, subject) =>
                    was.(recordsRechecked := was.recordsRechecked +
                         if exists f :: f in filed && f.Recheck? && f.subject == subject then 0 else 1)
                  case Change(_) => was.(changesRegistered := was.changesRegistered + 1)
                  case Proposal(_) => was.(proposalsSubmitted := was.proposalsSubmitted + 1)
  {
    var more := filed + [filing];
    assert more[..|filed|] == filed;
    assert Sources([]) == {} && Subjects([]) == {};
    SetsMove(filed, filing);
  }

  lemma SetsMove(filed: seq<Filing>, filing: Filing)
    ensures Sources(filed + [filing]) == Sources(filed) + if filing.Sweep? then {filing.source} else {}
    ensures Subjects(filed + [filing]) == Subjects(filed) + if filing.Recheck? then {filing.subject} else {}
  {
    assert forall f :: f in filed + [filing] <==> f in filed || f == filing;
  }

  // ---------------------------------------------------------------------------------------
  // Transactions on one run
  // ---------------------------------------------------------------------------------------

  // `row` and `pending` are what the transaction has read and written of the run, seen by nobody
  // else before it commits.
  datatype Tx = Waiting | Holding(row: Row, pending: seq<Filing>, closes: bool)

  // The committed run and filings, and whether its key closed it.
  datatype State = State(row: Row, filed: seq<Filing>, closedByKey: bool, txs: map<nat, Tx>)

  datatype Action =
    | Begin(tx: nat)
    | Lock(tx: nat)
    | File(tx: nat, filing: Filing)
    | Finish(tx: nat, body: CloseBody, now: int)
    | Report(tx: nat, zone: Option<nat>, event: Event, now: int)
    | Stop(tx: nat, person: Option<nat>, now: int)
    | Commit(tx: nat)
    | RollBack(tx: nat)

  predicate HoldsLock(st: State, tx: nat) {
    tx in st.txs && st.txs[tx].Holding?
  }

  // A row lock goes to one transaction at a time, and only its holder writes.
  predicate Enabled(st: State, action: Action) {
    match action
    case Begin(t) => t !in st.txs
    case Lock(t) => t in st.txs && st.txs[t].Waiting? && forall other :: other in st.txs ==> st.txs[other].Waiting?
    case RollBack(t) => t in st.txs
    case _ => HoldsLock(st, action.tx)
  }

  function With(st: State, t: nat, tx: Tx): State {
    st.(txs := st.txs[t := tx])
  }

  // A refusal raises: the transaction rolls back with whatever it had filed.
  function Gone(st: State, t: nat): State {
    st.(txs := st.txs - {t})
  }

  function Wrote(st: State, t: nat, outcome: Outcome): State
    requires HoldsLock(st, t)
  {
    match outcome
    case Done(row) => With(st, t, st.txs[t].(row := row))
    case Refused(_) => Gone(st, t)
  }

  function After(limits: Limits, st: State, action: Action): State
    requires Enabled(st, action)
  {
    var t := action.tx;
    match action
    case Begin(_) => With(st, t, Waiting)
    case Lock(_) => With(st, t, Holding(st.row, [], false))
    case RollBack(_) => Gone(st, t)
    case File(_, filing) =>
      var tx := st.txs[t];
      if tx.row.status == Running && Fits(limits, filing, CountLike(st.filed + tx.pending, filing) + 1)
      then With(st, t, tx.(pending := tx.pending + [filing]))
      else Gone(st, t)
    case Finish(_, body, now) =>
      var tx := st.txs[t];
      var closing := tx.row.status == Running;
      var next := Wrote(st, t, Close(tx.row, body, CountedOf(st.filed + tx.pending), now));
      if closing then With(next, t, next.txs[t].(closes := true)) else next
    case Report(_, zone, event, now) => Wrote(st, t, ApplyEvent(st.txs[t].row, zone, event, now))
    case Stop(_, person, now) => Wrote(st, t, Interrupt(st.txs[t].row, person, now))
    case Commit(_) =>
      var tx := st.txs[t];
      Gone(State(tx.row, st.filed + tx.pending, st.closedByKey || tx.closes, st.txs), t)
  }

  function Execute(limits: Limits, st: State, actions: seq<Action>): State {
    if actions == [] then st
    else
      var before := Execute(limits, st, actions[..|actions| - 1]);
      if Enabled(before, actions[|actions| - 1]) then After(limits, before, actions[|actions| - 1]) else before
  }

  // ---------------------------------------------------------------------------------------
  // What every action keeps
  // ---------------------------------------------------------------------------------------

  ghost predicate WithinLimits(limits: Limits, filed: seq<Filing>) {
    forall filing :: Fits(limits, filing, CountLike(filed, filing))
  }

  // What this run's account says is exactly what is filed under it.
  predicate Exact(row: Row, filed: seq<Filing>) {
    row.status != Running && row.stats.counted == CountedOf(filed)
  }

  ghost predicate TxIsSound(limits: Limits, st: State, tx: Tx) {
    tx.Holding? ==>
      && WithinLimits(limits, st.filed + tx.pending)
      && (st.row.status != Running ==> tx.row == st.row && tx.pending == [] && !tx.closes)
      && (tx.closes ==> Exact(tx.row, st.filed + tx.pending))
  }

  ghost predicate Inv(limits: Limits, st: State) {
    && WithinLimits(limits, st.filed)
    && (st.closedByKey ==> Exact(st.row, st.filed))
    && (forall a, b :: HoldsLock(st, a) && HoldsLock(st, b) ==> a == b)
    && forall t :: t in st.txs ==> TxIsSound(limits, st, st.txs[t])
  }

  lemma OneMore(limits: Limits, filed: seq<Filing>, filing: Filing)
    requires WithinLimits(limits, filed) && Fits(limits, filing, CountLike(filed, filing) + 1)
    ensures WithinLimits(limits, filed + [filing])
  {
    assert (filed + [filing])[..|filed|] == filed;
    forall other
      ensures Fits(limits, other, CountLike(filed + [filing], other))
    {
      if SameKind(filing, other) {
        LikeIsAlike(filed, filing, other);
      }
    }
  }

  lemma {:induction false} LikeIsAlike(filed: seq<Filing>, a: Filing, b: Filing)
    requires SameKind(a, b)
    ensures CountLike(filed, a) == CountLike(filed, b)
  {
    if filed != [] {
      LikeIsAlike(filed[..|filed| - 1], a, b);
    }
  }

  lemma OthersStay(limits: Limits, st: State, t: nat, tx: Tx)
    requires Inv(limits, st) && TxIsSound(limits, st, tx)
    requires tx.Holding? ==> forall other :: HoldsLock(st, other) ==> other == t
    ensures Inv(limits, With(st, t, tx))
  {
    var next := With(st, t, tx);
    assert forall other :: HoldsLock(next, other) ==> HoldsLock(st, other) || other == t;
    assert forall other :: other in next.txs ==>
           next.txs[other] == tx || (other in st.txs && next.txs[other] == st.txs[other]);
  }

  lemma GoneKeeps(limits: Limits, st: State, t: nat)
    requires Inv(limits, st)
    ensures Inv(limits, Gone(st, t))
  {
    assert forall other :: HoldsLock(Gone(st, t), other) ==> HoldsLock(st, other);
  }

  lemma FileKeeps(limits: Limits, st: State, t: nat, filing: Filing)
    requires Inv(limits, st) && HoldsLock(st, t)
    ensures Inv(limits, After(limits, st, File(t, filing)))
  {
    var tx := st.txs[t];
    assert TxIsSound(limits, st, tx);
    if tx.row.status == Running && Fits(limits, filing, CountLike(st.filed + tx.pending, filing) + 1) {
      OneMore(limits, st.filed + tx.pending, filing);
      assert st.filed + (tx.pending + [filing]) == st.filed + tx.pending + [filing];
      OthersStay(limits, st, t, tx.(pending := tx.pending + [filing]));
    } else {
      GoneKeeps(limits, st, t);
    }
  }

  lemma WroteKeeps(limits: Limits, st: State, t: nat, outcome: Outcome, closes: bool)
    requires Inv(limits, st) && HoldsLock(st, t)
    requires outcome.Done? ==> TxIsSound(limits, st, st.txs[t].(row := outcome.row, closes := closes))
    ensures var next := Wrote(st, t, outcome);
            Inv(limits, if outcome.Done? then With(next, t, next.txs[t].(closes := closes)) else next)
  {
    if outcome.Done? {
      OthersStay(limits, st, t, st.txs[t].(row := outcome.row, closes := closes));
      var next := Wrote(st, t, outcome);
      assert With(next, t, next.txs[t].(closes := closes)) ==
             With(st, t, st.txs[t].(row := outcome.row, closes := closes));
    } else {
      GoneKeeps(limits, st, t);
    }
  }

  lemma FinishKeeps(limits: Limits, st: State, t: nat, body: CloseBody, now: int)
    requires Inv(limits, st) && HoldsLock(st, t)
    ensures Inv(limits, After(limits, st, Finish(t, body, now)))
  {
    var tx := st.txs[t];
    assert TxIsSound(limits, st, tx);
    var outcome := Close(tx.row, body, CountedOf(st.filed + tx.pending), now);
    WroteKeeps(limits, st, t, outcome, tx.row.status == Running || tx.closes);
    var next := Wrote(st, t, outcome);
    if outcome.Done? && tx.row.status != Running {
      assert With(next, t, next.txs[t].(closes := tx.closes)) == next;
    }
  }

  // A deed on a finished run is refused, and one on a running run has not been closed by its key.
  lemma DeedKeeps(limits: Limits, st: State, t: nat, outcome: Outcome)
    requires Inv(limits, st) && HoldsLock(st, t)
    requires st.txs[t].row.status != Running ==> outcome.Refused?
    ensures Inv(limits, Wrote(st, t, outcome))
  {
    var tx := st.txs[t];
    assert TxIsSound(limits, st, tx);
    WroteKeeps(limits, st, t, outcome, tx.closes);
    var next := Wrote(st, t, outcome);
    if outcome.Done? {
      assert With(next, t, next.txs[t].(closes := tx.closes)) == next;
    }
  }

  lemma CommitKeeps(limits: Limits, st: State, t: nat)
    requires Inv(limits, st) && HoldsLock(st, t)
    ensures Inv(limits, After(limits, st, Commit(t)))
  {
    var tx := st.txs[t];
    var next := After(limits, st, Commit(t));
    assert TxIsSound(limits, st, tx);
    if st.row.status != Running {
      assert st.filed + tx.pending == st.filed;
    }
    forall other | other in next.txs
      ensures TxIsSound(limits, next, next.txs[other])
    {
      assert !HoldsLock(st, other);
    }
    assert forall other :: HoldsLock(next, other) ==> HoldsLock(st, other) && other != t;
  }

  lemma ActionKeeps(limits: Limits, st: State, action: Action)
    requires Inv(limits, st) && Enabled(st, action)
    ensures Inv(limits, After(limits, st, action))
  {
    var t := action.tx;
    match action {
      case Begin(_) => OthersStay(limits, st, t, Waiting);
      case Lock(_) =>
        assert st.filed + [] == st.filed;
        OthersStay(limits, st, t, Holding(st.row, [], false));
      case RollBack(_) => GoneKeeps(limits, st, t);
      case File(_, filing) => FileKeeps(limits, st, t, filing);
      case Finish(_, body, now) => FinishKeeps(limits, st, t, body, now);
      case Report(_, zone, event, now) => DeedKeeps(limits, st, t, ApplyEvent(st.txs[t].row, zone, event, now));
      case Stop(_, person, now) => DeedKeeps(limits, st, t, Interrupt(st.txs[t].row, person, now));
      case Commit(_) => CommitKeeps(limits, st, t);
    }
  }

  lemma {:induction false} RunKeeps(limits: Limits, st: State, actions: seq<Action>)
    requires Inv(limits, st)
    ensures Inv(limits, Execute(limits, st, actions))
  {
    if actions != [] {
      var before := Execute(limits, st, actions[..|actions| - 1]);
      RunKeeps(limits, st, actions[..|actions| - 1]);
      if Enabled(before, actions[|actions| - 1]) {
        ActionKeeps(limits, before, actions[|actions| - 1]);
      }
    }
  }

  // Nothing is filed under a finished run and no field of it changes, whoever goes on writing.
  lemma {:induction false} FinishedIsFrozen(limits: Limits, st: State, actions: seq<Action>)
    requires Inv(limits, st) && st.row.status != Running
    ensures Execute(limits, st, actions).row == st.row && Execute(limits, st, actions).filed == st.filed
  {
    if actions != [] {
      var before := Execute(limits, st, actions[..|actions| - 1]);
      var action := actions[|actions| - 1];
      FinishedIsFrozen(limits, st, actions[..|actions| - 1]);
      RunKeeps(limits, st, actions[..|actions| - 1]);
      if Enabled(before, action) && action.Commit? {
        assert TxIsSound(limits, before, before.txs[action.tx]);
        assert before.filed + [] == before.filed;
      }
    }
  }

  // ---------------------------------------------------------------------------------------
  // The account
  // ---------------------------------------------------------------------------------------

  function Fresh(row: Row): State {
    State(row, [], false, map[])
  }

  lemma FourSteps(limits: Limits, st: State, a: Action, b: Action, c: Action, d: Action)
    requires Enabled(st, a)
    requires var one := After(limits, st, a);
             Enabled(one, b) && Enabled(After(limits, one, b), c)
    ensures var three := After(limits, After(limits, After(limits, st, a), b), c);
            Execute(limits, st, [a, b, c, d]) == if Enabled(three, d) then After(limits, three, d) else three
  {
    assert [a][..0] == [] && [a, b][..1] == [a] && [a, b, c][..2] == [a, b] && [a, b, c, d][..3] == [a, b, c];
    assert Execute(limits, st, [a]) == After(limits, st, a);
    assert Execute(limits, st, [a, b]) == After(limits, After(limits, st, a), b);
  }

  // How many more of its kind a run may file.
  predicate HasLeft(limits: Limits, filed: seq<Filing>, filing: Filing) {
    match filing
    case Sweep(_) => true
    case Recheck(_, _) => CountLike(filed, filing) < limits.rechecks
    case Change(_) => CountLike(filed, filing) < limits.changes
    case Proposal(_) => CountLike(filed, filing) < limits.proposals
  }

  // Alone, a filing is stored exactly when the run is open and has one of its kind left; nothing of the
  // run's own account moves.
  lemma FilesExactly(limits: Limits, st: State, filing: Filing)
    requires st.txs == map[]
    ensures Execute(limits, st, [Begin(1), Lock(1), File(1, filing), Commit(1)]) ==
            if st.row.status == Running && HasLeft(limits, st.filed, filing)
            then st.(filed := st.filed + [filing])
            else st
  {
    FourSteps(limits, st, Begin(1), Lock(1), File(1, filing), Commit(1));
    assert After(limits, st, Begin(1)) == st.(txs := map[1 := Waiting]);
    var locked := st.(txs := map[1 := Holding(st.row, [], false)]);
    assert After(limits, st.(txs := map[1 := Waiting]), Lock(1)) == locked;
    assert st.filed + [] == st.filed;
    if st.row.status == Running && HasLeft(limits, st.filed, filing) {
      assert [] + [filing] == [filing];
      assert locked.txs[1 := Holding(st.row, [filing], false)] == map[1 := Holding(st.row, [filing], false)];
      assert After(limits, locked, File(1, filing)) == st.(txs := map[1 := Holding(st.row, [filing], false)]);
    }
    assert map[1 := locked.txs[1]] - {1} == map[];
  }

  // Alone, a close of an open run stores its status, what it says of itself and what is filed, and
  // marks the run closed by its key; of a finished run it changes nothing.
  lemma ClosesExactly(limits: Limits, st: State, body: CloseBody, now: int)
    requires st.txs == map[]
    ensures var after := Execute(limits, st, [Begin(1), Lock(1), Finish(1, body, now), Commit(1)]);
            if st.row.status != Running then after == st
            else
              && after.filed == st.filed && after.closedByKey && after.txs == map[]
              && after.row.status == (if body.succeeded then Succeeded else Failed)
              && after.row.stats.counted == CountedOf(st.filed)
              && after.row.stats.own == (if body.own.Some? then body.own.value else st.row.stats.own)
              && (after.row.outputRef, after.row.error, after.row.finishedAt) == (body.outputRef, body.error, Some(now))
              && (after.row.cost, after.row.tokensIn, after.row.tokensOut) ==
                 (st.row.cost, st.row.tokensIn, st.row.tokensOut)
  {
    FourSteps(limits, st, Begin(1), Lock(1), Finish(1, body, now), Commit(1));
    assert After(limits, st, Begin(1)) == st.(txs := map[1 := Waiting]);
    var locked := st.(txs := map[1 := Holding(st.row, [], false)]);
    assert After(limits, st.(txs := map[1 := Waiting]), Lock(1)) == locked;
    assert st.filed + [] == st.filed;
    assert map[1 := locked.txs[1]] - {1} == map[];
  }

  // Alone, a report or a stop stores the row it makes, and a refused one leaves everything as it was.
  lemma DeedAlone(limits: Limits, st: State, zone: Option<nat>, event: Event, person: Option<nat>, now: int)
    requires st.txs == map[]
    ensures Execute(limits, st, [Begin(1), Lock(1), Report(1, zone, event, now), Commit(1)]) ==
            Stored(st, ApplyEvent(st.row, zone, event, now))
    ensures Execute(limits, st, [Begin(1), Lock(1), Stop(1, person, now), Commit(1)]) ==
            Stored(st, Interrupt(st.row, person, now))
  {
    FourSteps(limits, st, Begin(1), Lock(1), Report(1, zone, event, now), Commit(1));
    FourSteps(limits, st, Begin(1), Lock(1), Stop(1, person, now), Commit(1));
    assert After(limits, st, Begin(1)) == st.(txs := map[1 := Waiting]);
    var locked := st.(txs := map[1 := Holding(st.row, [], false)]);
    assert After(limits, st.(txs := map[1 := Waiting]), Lock(1)) == locked;
    assert st.filed + [] == st.filed;
    assert map[1 := locked.txs[1]] - {1} == map[];
  }

  function Stored(st: State, outcome: Outcome): State {
    if outcome.Done? then st.(row := outcome.row) else st
  }

  // A transaction that rolls back leaves nothing, whatever it had filed, reported or closed.
  lemma {:induction false} RolledBackLeavesNothing(limits: Limits, st: State, t: nat, work: seq<Action>)
    requires t !in st.txs
    requires forall k :: 0 <= k < |work| ==> work[k].tx == t && !work[k].Commit?
    ensures Execute(limits, st, [Begin(t)] + work + [RollBack(t)]) == st
  {
    var all := [Begin(t)] + work + [RollBack(t)];
    assert all[..|all| - 1] == [Begin(t)] + work;
    WorkIsHidden(limits, st, t, work);
    var before := Execute(limits, st, [Begin(t)] + work);
    assert before.txs - {t} == st.txs;
  }

  lemma {:induction false} WorkIsHidden(limits: Limits, st: State, t: nat, work: seq<Action>)
    requires t !in st.txs
    requires forall k :: 0 <= k < |work| ==> work[k].tx == t && !work[k].Commit?
    ensures var inside := Execute(limits, st, [Begin(t)] + work);
            inside == st.(txs := inside.txs) && inside.txs - {t} == st.txs
  {
    var all := [Begin(t)] + work;
    if work == [] {
      assert all[..0] == [] && Execute(limits, st, all) == st.(txs := st.txs[t := Waiting]);
    } else {
      var n := |work| - 1;
      WorkIsHidden(limits, st, t, work[..n]);
      assert all[..|all| - 1] == [Begin(t)] + work[..n];
      var before := Execute(limits, st, [Begin(t)] + work[..n]);
      var inside := Execute(limits, st, all);
      assert inside.txs - {t} == before.txs - {t};
    }
  }

  // However filings, reports, stops and closes interleave: once its key has closed a run, the
  // counters it stores are what is filed under it, then and for ever.
  lemma ClosedAccountIsExact(limits: Limits, row: Row, first: seq<Action>, more: seq<Action>)
    requires row.status == Running
    requires Execute(limits, Fresh(row), first).closedByKey
    ensures var closed := Execute(limits, Fresh(row), first);
            var later := Execute(limits, closed, more);
            && later.row == closed.row && later.filed == closed.filed
            && later.row.stats.counted == CountedOf(later.filed)
  {
    FreshIsSound(limits, row);
    RunKeeps(limits, Fresh(row), first);
    FinishedIsFrozen(limits, Execute(limits, Fresh(row), first), more);
  }

  lemma FreshIsSound(limits: Limits, row: Row)
    ensures Inv(limits, Fresh(row))
  {
    forall filing: Filing
      ensures Fits(limits, filing, CountLike([], filing))
    {
    }
  }

  // And no run files more of a kind than its limit; nor do its counters exceed one.
  lemma LimitsHold(limits: Limits, row: Row, actions: seq<Action>)
    ensures var filed := Execute(limits, Fresh(row), actions).filed;
            && CountLike(filed, Change(0)) <= limits.changes
            && CountLike(filed, Proposal(0)) <= limits.proposals
            && |Subjects(filed)| <= CountLike(filed, Recheck(0, Subject("", 0))) <= limits.rechecks
  {
    FreshIsSound(limits, row);
    RunKeeps(limits, Fresh(row), actions);
    var filed := Execute(limits, Fresh(row), actions).filed;
    assert Fits(limits, Change(0), CountLike(filed, Change(0)));
    assert Fits(limits, Proposal(0), CountLike(filed, Proposal(0)));
    var recheck := Recheck(0, Subject("", 0));
    assert Fits(limits, recheck, CountLike(filed, recheck));
    SubjectsAreRechecks(filed, recheck);
  }

  lemma {:induction false} SubjectsAreRechecks(filed: seq<Filing>, recheck: Filing)
    requires recheck.Recheck?
    ensures |Subjects(filed)| <= CountLike(filed, recheck)
  {
    if filed == [] {
      assert Subjects(filed) == {};
    } else {
      var n := |filed| - 1;
      SubjectsAreRechecks(filed[..n], recheck);
      assert filed == filed[..n] + [filed[n]];
      SetsMove(filed[..n], filed[n]);
    }
  }
}
