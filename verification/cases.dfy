// One case per bank per change: a delivered registration opens a case in every active bank that has
// none, inside one outbox batch, while banks go on writing on the cases they have.

module Cases {
  import opened Options

  // What one registered change puts into every bank's case; `outside` are the banks whose footprint
  // leaves it out.
  datatype Facts = Facts(change: nat, urgency: nat, soWhat: string, outside: set<nat>)

  // `work` is everything the bank itself writes on its case.
  datatype Case = Case(
    status: string,
    urgency: nat,
    urgencyConfirmed: bool,
    footprintMatch: bool,
    soWhat: string,
    soWhatConfirmed: bool,
    triageDueAt: int,
    work: string)

  datatype Row = Row(bank: nat, change: nat, body: Case)

  const HOUR := 3_600_000_000

  // An active bank as the fan-out lists it, with its triage target in hours.
  datatype Bank = Bank(id: nat, triageHours: nat)

  function NewRow(facts: Facts, bank: Bank, now: int): Row {
    Row(bank.id, facts.change,
        Case("new", facts.urgency, false, bank.id !in facts.outside, facts.soWhat, false, now +
          bank.triageHours * HOUR, ""))
  }

  predicate Has(rows: seq<Row>, bank: nat, change: nat) {
    exists i :: 0 <= i < |rows| && rows[i].bank == bank && rows[i].change == change
  }

  // UNIQUE (tenant, change): a conflict leaves the table as it was.
  function Inserted(rows: seq<Row>, row: Row): seq<Row> {
    if Has(rows, row.bank, row.change) then rows else rows + [row]
  }

  // The whole fan-out, bank by bank; `at` is the instant each bank is reached.
  function Fanned(rows: seq<Row>, facts: Facts, banks: seq<Bank>, at: nat -> int): seq<Row> {
    if banks == [] then rows
    else
      var n := |banks| - 1;
      Inserted(Fanned(rows, facts, banks[..n], at), NewRow(facts, banks[n], at(n)))
  }

  // A new case carries the change's own urgency and draft as suggestions, both unconfirmed; it matches
  // exactly where the bank's footprint does not leave the change out; triage is due by the bank's own
  // target. Nothing of the bank's own work is on it.
  lemma NewCaseSuggests(facts: Facts, bank: Bank, now: int)
    ensures var row := NewRow(facts, bank, now);
            && row.bank == bank.id && row.change == facts.change && row.body.status == "new" && row.body.work == ""
            && (row.body.urgency, row.body.soWhat) == (facts.urgency, facts.soWhat)
            && !row.body.urgencyConfirmed && !row.body.soWhatConfirmed
            && (row.body.footprintMatch <==> bank.id !in facts.outside)
            && row.body.triageDueAt - now == 3_600_000_000 * bank.triageHours
  {
  }

  class CaseBook {
    var rows: seq<Row>

    constructor ()
      ensures rows == []
    {
      rows := [];
    }

    method CreateCase(facts: Facts, bank: Bank, now: int)
      modifies this
      ensures rows == Inserted(old(rows), NewRow(facts, bank, now))
    {
      if Has(rows, bank.id, facts.change) {
        return;
      }
      rows := rows + [NewRow(facts, bank, now)];
    }

    // No facts: the change the event named is not there, and nothing is fanned out.
    method CreateCases(facts: Option<Facts>, banks: seq<Bank>, at: nat -> int)
      modifies this
      ensures rows == if facts.Some? then Fanned(old(rows), facts.value, banks, at) else old(rows)
    {
      if facts.None? {
        return;
      }
      for i := 0 to |banks|
        invariant rows == Fanned(old(rows), facts.value, banks[..i], at)
      {
        assert banks[..i + 1][..i] == banks[..i];
        CreateCase(facts.value, banks[i], at(i));
      }
      assert banks[..|banks|] == banks;
    }
  }

  ghost predicate OneEach(rows: seq<Row>) {
    forall i, j :: 0 <= i < j < |rows| ==> rows[i].bank != rows[j].bank || rows[i].change != rows[j].change
  }

  function Count(rows: seq<Row>, bank: nat, change: nat): nat {
    if rows == [] then 0
    else Count(rows[..|rows| - 1], bank, change) + if rows[|rows| - 1].bank == bank &&
      rows[|rows| - 1].change == change then 1 else 0
  }

  lemma {:induction false} CountIsOne(rows: seq<Row>, bank: nat, change: nat)
    requires OneEach(rows)
    ensures Count(rows, bank, change) == if Has(rows, bank, change) then 1 else 0
  {
    if rows != [] {
      var n := |rows| - 1;
      CountIsOne(rows[..n], bank, change);
      if Has(rows[..n], bank, change) {
        var i :| 0 <= i < n && rows[..n][i].bank == bank && rows[..n][i].change == change;
        assert rows[i].bank == bank;
      }
    }
  }

  // A fan-out leaves every row as it was, adds at most one row a bank, and afterwards each bank it
  // listed has exactly one case for the change.
  lemma {:induction false} FannedOnce(rows: seq<Row>, facts: Facts, banks: seq<Bank>, at: nat -> int)
    requires OneEach(rows)
    ensures var after := Fanned(rows, facts, banks, at);
            && OneEach(after) && rows <= after
            && (forall bank :: bank in banks ==> Has(after, bank.id, facts.change))
            && (forall bank, change :: Has(after, bank, change) ==>
                  Has(rows, bank, change) || (change == facts.change && exists b :: b in banks && b.id == bank))
            && forall k :: |rows| <= k < |after| ==>
                 exists i :: 0 <= i < |banks| && after[k] == NewRow(facts, banks[i], at(i))
  {
    if banks != [] {
      var n := |banks| - 1;
      FannedOnce(rows, facts, banks[..n], at);
      InsertedHas(Fanned(rows, facts, banks[..n], at), NewRow(facts, banks[n], at(n)));
    }
  }

  lemma InsertedHas(rows: seq<Row>, row: Row)
    ensures var after := Inserted(rows, row);
            && rows <= after && (OneEach(rows) ==> OneEach(after))
            && forall bank, change :: Has(after, bank, change) <==>
               Has(rows, bank, change) || (bank == row.bank && change == row.change)
  {
    var after := Inserted(rows, row);
    forall bank, change
      ensures Has(after, bank, change) <==> Has(rows, bank, change) || (bank == row.bank && change == row.change)
    {
      if Has(rows, bank, change) {
        var i :| 0 <= i < |rows| && rows[i].bank == bank && rows[i].change == change;
        assert after[i] == rows[i];
      } else if bank == row.bank && change == row.change {
        assert after[|rows|] == row;
      }
    }
  }

  // ---------------------------------------------------------------------------------------
  // Deliveries, failures and the banks' own work, interleaved
  // ---------------------------------------------------------------------------------------

  // A delivery in progress: what is left of the list of active banks it read, and the batch's rows
  // as its savepoint found them.
  datatype Fan = Fan(facts: Facts, listed: seq<Bank>, left: seq<Bank>, savepoint: seq<Row>)

  datatype Delivered = Delivered(change: nat, banks: seq<Bank>)

  // One outbox batch is one transaction; the cursor's lock lets in one at a time.
  datatype Batch = Batch(written: seq<Row>, done: seq<Delivered>, fan: Option<Fan>)

  datatype State = State(rows: seq<Row>, active: seq<Bank>, batch: Option<Batch>, delivered: seq<Delivered>)

  datatype Step =
    | SetActive(banks: seq<Bank>)
    | BankWrites(i: nat, body: Case)                   // the bank's own work, or its recomputed verdict
    | BeginBatch
    | StartEvent(facts: Option<Facts>)
    | CreateOne(now: int)
    | EventFails
    | EventDone
    | CommitBatch
    | LoseBatch

  predicate Enabled(st: State, step: Step) {
    match step
    case SetActive(_) => true
    case BankWrites(i, _) => i < |st.rows|
    case BeginBatch => st.batch.None?
    case StartEvent(_) => st.batch.Some? && st.batch.value.fan.None?
    case CreateOne(_) => st.batch.Some? && st.batch.value.fan.Some? && st.batch.value.fan.value.left != []
    case EventFails => st.batch.Some? && st.batch.value.fan.Some?
    case EventDone => st.batch.Some? && st.batch.value.fan.Some? && st.batch.value.fan.value.left == []
    case CommitBatch => st.batch.Some? && st.batch.value.fan.None?
    case LoseBatch => st.batch.Some?
  }

  function InBatch(st: State, batch: Batch): State {
    st.(batch := Some(batch))
  }

  function After(st: State, step: Step): State
    requires Enabled(st, step)
  {
    match step
    case SetActive(banks) => st.(active := banks)
    case BankWrites(i, body) => st.(rows := st.rows[i := st.rows[i].(body := body)])
    case BeginBatch => InBatch(st, Batch([], [], None))
    case StartEvent(facts) =>
      var batch := st.batch.value;
      if facts.None? then st
        else InBatch(st, batch.(fan := Some(Fan(facts.value, st.active, st.active, batch.written))))
    case CreateOne(now) =>
      var batch := st.batch.value;
      var fan := batch.fan.value;
      var row := NewRow(fan.facts, fan.left[0], now);
      // The conflict is with any committed row or one this batch has written.
      InBatch(st, batch.(
        written := if Has(st.rows, row.bank, row.change) then batch.written else Inserted(batch.written, row),
        fan := Some(fan.(left := fan.left[1..]))))
    case EventFails => InBatch(st, st.batch.value.(written := st.batch.value.fan.value.savepoint, fan := None))
    case EventDone =>
      var batch := st.batch.value;
      InBatch(st, batch.(done := batch.done +
        [Delivered(batch.fan.value.facts.change, batch.fan.value.listed)], fan := None))
    case CommitBatch =>
      st.(rows := st.rows + st.batch.value.written, batch := None, delivered := st.delivered + st.batch.value.done)
    case LoseBatch => st.(batch := None)
  }

  function Execute(st: State, steps: seq<Step>): State {
    if steps == [] then st
    else
      var before := Execute(st, steps[..|steps| - 1]);
      if Enabled(before, steps[|steps| - 1]) then After(before, steps[|steps| - 1]) else before
  }

  const EMPTY := State([], [], None, [])

  ghost predicate Served(rows: seq<Row>, delivered: seq<Delivered>) {
    forall i, bank :: 0 <= i < |delivered| && bank in delivered[i].banks ==> Has(rows, bank.id, delivered[i].change)
  }

  ghost predicate Reached(rows: seq<Row>, fan: Fan) {
    forall bank :: bank in fan.listed ==> bank in fan.left || Has(rows, bank.id, fan.facts.change)
  }

  ghost predicate BatchIsSound(rows: seq<Row>, batch: Batch) {
    && OneEach(rows + batch.written)
    && Served(rows + if batch.fan.Some? then batch.fan.value.savepoint else batch.written, batch.done)
    && (batch.fan.Some? ==>
       batch.fan.value.savepoint <= batch.written && Reached(rows + batch.written, batch.fan.value))
  }

  ghost predicate Inv(st: State) {
    && OneEach(st.rows)
    && Served(st.rows, st.delivered)
    && (st.batch.Some? ==> BatchIsSound(st.rows, st.batch.value))
  }

  // The same banks and changes in the same places, whatever else the rows say, and maybe more.
  ghost predicate Covers(more: seq<Row>, rows: seq<Row>) {
    |rows| <= |more| && forall i :: 0 <= i < |rows| ==> more[i].bank == rows[i].bank && more[i].change == rows[i].change
  }

  lemma CoversHas(more: seq<Row>, rows: seq<Row>)
    requires Covers(more, rows)
    ensures forall bank, change :: Has(rows, bank, change) ==> Has(more, bank, change)
    ensures OneEach(more) ==> OneEach(rows)
    ensures |more| == |rows| && OneEach(rows) ==> OneEach(more)
    ensures forall delivered :: Served(rows, delivered) ==> Served(more, delivered)
    ensures forall fan :: Reached(rows, fan) ==> Reached(more, fan)
  {
    forall bank, change | Has(rows, bank, change)
      ensures Has(more, bank, change)
    {
      var i :| 0 <= i < |rows| && rows[i].bank == bank && rows[i].change == change;
      assert more[i].bank == bank && more[i].change == change;
    }
  }

  lemma BankWritesKeeps(st: State, i: nat, body: Case)
    requires Inv(st) && i < |st.rows|
    ensures Inv(After(st, BankWrites(i, body)))
  {
    var next := After(st, BankWrites(i, body));
    CoversHas(next.rows, st.rows);
    if st.batch.Some? {
      var batch := st.batch.value;
      CoversHas(next.rows + batch.written, st.rows + batch.written);
      if batch.fan.Some? {
        CoversHas(next.rows + batch.fan.value.savepoint, st.rows + batch.fan.value.savepoint);
      }
    }
  }

  lemma CreateKeeps(st: State, now: int)
    requires Inv(st) && Enabled(st, CreateOne(now))
    ensures Inv(After(st, CreateOne(now)))
  {
    var batch := st.batch.value;
    var fan := batch.fan.value;
    var row := NewRow(fan.facts, fan.left[0], now);
    var written := After(st, CreateOne(now)).batch.value.written;
    JoinedHas(st.rows, batch.written, row.bank, row.change);
    assert st.rows + written == Inserted(st.rows + batch.written, row);
    InsertedHas(st.rows + batch.written, row);
    assert batch.written <= written;
    assert fan.left == [fan.left[0]] + fan.left[1..];
  }

  lemma JoinedHas(a: seq<Row>, b: seq<Row>, bank: nat, change: nat)
    ensures Has(a + b, bank, change) <==> Has(a, bank, change) || Has(b, bank, change)
  {
    if Has(a, bank, change) {
      var i :| 0 <= i < |a| && a[i].bank == bank && a[i].change == change;
      assert (a + b)[i] == a[i];
    }
    if Has(b, bank, change) {
      var i :| 0 <= i < |b| && b[i].bank == bank && b[i].change == change;
      assert (a + b)[|a| + i] == b[i];
    }
  }

  lemma EventEndKeeps(st: State, step: Step)
    requires Inv(st) && Enabled(st, step) && (step == EventFails || step == EventDone)
    ensures Inv(After(st, step))
  {
    var batch := st.batch.value;
    var fan := batch.fan.value;
    CoversHas(st.rows + batch.written, st.rows + fan.savepoint);
  }

  lemma CommitKeeps(st: State)
    requires Inv(st) && Enabled(st, CommitBatch)
    ensures Inv(After(st, CommitBatch))
  {
    CoversHas(st.rows + st.batch.value.written, st.rows);
  }

  lemma StepKeeps(st: State, step: Step)
    requires Inv(st) && Enabled(st, step)
    ensures Inv(After(st, step))
  {
    match step {
      case BankWrites(i, body) => BankWritesKeeps(st, i, body);
      case CreateOne(now) => CreateKeeps(st, now);
      case EventFails => EventEndKeeps(st, step);
      case EventDone => EventEndKeeps(st, step);
      case CommitBatch => CommitKeeps(st);
      case BeginBatch => assert st.rows + [] == st.rows;
      case StartEvent(facts) =>
      case SetActive(_) =>
      case LoseBatch =>
    }
  }

  lemma {:induction false} RunKeeps(st: State, steps: seq<Step>)
    requires Inv(st)
    ensures Inv(Execute(st, steps))
  {
    if steps != [] {
      var before := Execute(st, steps[..|steps| - 1]);
      RunKeeps(st, steps[..|steps| - 1]);
      if Enabled(before, steps[|steps| - 1]) {
        StepKeeps(before, steps[|steps| - 1]);
      }
    }
  }

  // Under any replays, re-registrations, failed and lost deliveries: each bank that was active when
  // a delivery that completed read the list has exactly one case for its change.
  lemma ExactlyOneCase(steps: seq<Step>, i: nat, bank: Bank)
    requires var st := Execute(EMPTY, steps); i < |st.delivered| && bank in st.delivered[i].banks
    ensures var st := Execute(EMPTY, steps); Count(st.rows, bank.id, st.delivered[i].change) == 1
  {
    RunKeeps(EMPTY, steps);
    var st := Execute(EMPTY, steps);
    CountIsOne(st.rows, bank.id, st.delivered[i].change);
  }

  // No fan-out, replay or failure touches a case already there: it stays exactly as it was until
  // something else writes on it.
  lemma {:induction false} CaseStays(st: State, steps: seq<Step>, i: nat)
    requires i < |st.rows| && forall k :: 0 <= k < |steps| ==> !(steps[k].BankWrites? && steps[k].i == i)
    ensures i < |Execute(st, steps).rows| && Execute(st, steps).rows[i] == st.rows[i]
  {
    if steps != [] {
      CaseStays(st, steps[..|steps| - 1], i);
    }
  }

  lemma {:induction false} ExecuteJoins(st: State, a: seq<Step>, b: seq<Step>)
    ensures Execute(st, a + b) == Execute(Execute(st, a), b)
  {
    if b == [] {
      assert a + b == a;
    } else {
      ExecuteJoins(st, a, b[..|b| - 1]);
      assert (a + b)[..|a + b| - 1] == a + b[..|b| - 1];
    }
  }

  // What a bank last wrote on its case is what the case says, whatever is delivered around it.
  lemma BankKeepsItsWork(st: State, before: seq<Step>, i: nat, body: Case, more: seq<Step>)
    requires i < |Execute(st, before).rows|
    requires forall k :: 0 <= k < |more| ==> !(more[k].BankWrites? && more[k].i == i)
    ensures var rows := Execute(st, before + [BankWrites(i, body)] + more).rows;
            i < |rows| && rows[i] == Execute(st, before).rows[i].(body := body)
  {
    var wrote := before + [BankWrites(i, body)];
    assert wrote[..|wrote| - 1] == before;
    ExecuteJoins(st, wrote, more);
    CaseStays(Execute(st, wrote), more, i);
  }

  // ---------------------------------------------------------------------------------------
  // One delivery, from end to end
  // ---------------------------------------------------------------------------------------

  // Reaching the first `n` banks of a list, each at its own instant.
  function Creates(n: nat, at: nat -> int): seq<Step> {
    if n == 0 then [] else Creates(n - 1, at) + [CreateOne(at(n - 1))]
  }

  // `after` is `st` once its delivery has reached `n` more banks.
  ghost predicate HasReached(st: State, after: State, n: nat, at: nat -> int)
    requires st.batch.Some? && st.batch.value.fan.Some? && n <= |st.batch.value.fan.value.left|
  {
    var batch := st.batch.value;
    var fan := batch.fan.value;
    && after.batch.Some? && after == st.(batch := after.batch)
    && after.batch.value ==
       batch.(written := after.batch.value.written, fan := Some(fan.(left := fan.left[n..])))
    && st.rows + after.batch.value.written == Fanned(st.rows + batch.written, fan.facts, fan.left[..n], at)
  }

  lemma ReachesOneMore(st: State, before: State, n: nat, at: nat -> int)
    requires st.batch.Some? && st.batch.value.fan.Some? && n < |st.batch.value.fan.value.left|
    requires HasReached(st, before, n, at)
    ensures Enabled(before, CreateOne(at(n)))
    ensures HasReached(st, After(before, CreateOne(at(n))), n + 1, at)
  {
    var batch := before.batch.value;
    var left := st.batch.value.fan.value.left;
    var row := NewRow(st.batch.value.fan.value.facts, left[n], at(n));
    assert left[n..][1..] == left[n + 1..];
    assert left[..n + 1][..n] == left[..n];
    JoinedHas(st.rows, batch.written, row.bank, row.change);
    assert st.rows + After(before, CreateOne(at(n))).batch.value.written == Inserted(st.rows + batch.written, row);
  }

  lemma {:induction false} CreatesReach(st: State, n: nat, at: nat -> int)
    requires st.batch.Some? && st.batch.value.fan.Some? && n <= |st.batch.value.fan.value.left|
    ensures HasReached(st, Execute(st, Creates(n, at)), n, at)
  {
    if n > 0 {
      var steps := Creates(n, at);
      assert steps[..|steps| - 1] == Creates(n - 1, at);
      CreatesReach(st, n - 1, at);
      ReachesOneMore(st, Execute(st, Creates(n - 1, at)), n - 1, at);
    }
  }

  function Opens(facts: Facts, banks: seq<Bank>, later: seq<Bank>): seq<Step> {
    [SetActive(banks), BeginBatch, StartEvent(Some(facts)), SetActive(later)]
  }

  lemma OpensDelivery(st: State, facts: Facts, banks: seq<Bank>, later: seq<Bank>)
    requires st.batch.None?
    ensures Execute(st, Opens(facts, banks, later)) ==
            st.(active := later, batch := Some(Batch([], [], Some(Fan(facts, banks, banks, [])))))
  {
    var opens := Opens(facts, banks, later);
    assert opens[..3][..2][..1] == opens[..1] && opens[..3][..2] == opens[..2] && opens[..4][..3] == opens[..3];
    assert opens[..1][..0] == [] && opens[..2][..1] == opens[..1];
    assert Execute(st, opens[..1]) == st.(active := banks);
    assert Execute(st, opens[..2]) == st.(active := banks, batch := Some(Batch([], [], None)));
  }

  lemma EndsDelivery(st: State, facts: Facts, banks: seq<Bank>, written: seq<Row>)
    requires st.batch == Some(Batch(written, [], Some(Fan(facts, banks, [], []))))
    ensures Execute(st, [EventDone, CommitBatch]) ==
            State(st.rows + written, st.active, None, st.delivered + [Delivered(facts.change, banks)])
  {
    var one := [EventDone];
    assert one[..0] == [] && [EventDone, CommitBatch][..1] == one;
    var done := st.(batch := Some(Batch(written, [Delivered(facts.change, banks)], None)));
    assert [] + [Delivered(facts.change, banks)] == [Delivered(facts.change, banks)];
    assert Execute(st, one) == done;
  }

  lemma FansToAll(st: State, facts: Facts, banks: seq<Bank>, at: nat -> int) returns (written: seq<Row>)
    requires st.batch == Some(Batch([], [], Some(Fan(facts, banks, banks, []))))
    ensures Execute(st, Creates(|banks|, at)) == st.(batch := Some(Batch(written, [], Some(Fan(facts, banks, [], [])))))
    ensures st.rows + written == Fanned(st.rows, facts, banks, at)
  {
    CreatesReach(st, |banks|, at);
    assert banks[..|banks|] == banks && st.rows + [] == st.rows;
    written := Execute(st, Creates(|banks|, at)).batch.value.written;
  }

  lemma ThreeParts(st: State, a: seq<Step>, b: seq<Step>, c: seq<Step>)
    ensures Execute(st, a + b + c) == Execute(Execute(Execute(st, a), b), c)
  {
    ExecuteJoins(st, a, b);
    ExecuteJoins(st, a + b, c);
  }

  // Undisturbed, a delivery fans out to exactly the banks that were active when it read the list, though
  // the list changes while it is under way.
  lemma DeliversAlone(st: State, facts: Facts, banks: seq<Bank>, later: seq<Bank>, at: nat -> int)
    requires st.batch.None?
    ensures Execute(st, Opens(facts, banks, later) + Creates(|banks|, at) + [EventDone, CommitBatch]) ==
            State(Fanned(st.rows, facts, banks, at), later, None, st.delivered + [Delivered(facts.change, banks)])
  {
    var begun := st.(active := later, batch := Some(Batch([], [], Some(Fan(facts, banks, banks, [])))));
    var written := FansToAll(begun, facts, banks, at);
    var reached := begun.(batch := Some(Batch(written, [], Some(Fan(facts, banks, [], [])))));
    EndsDelivery(reached, facts, banks, written);
    OpensDelivery(st, facts, banks, later);
    ThreeParts(st, Opens(facts, banks, later), Creates(|banks|, at), [EventDone, CommitBatch]);
  }

  // A delivery that fails part way leaves the batch as it found it, one that names no change does nothing
  // at all, and no second batch begins beside the one under way.
  lemma FailureUndoes(st: State, facts: Facts, n: nat, at: nat -> int)
    requires st.batch.Some? && st.batch.value.fan.None? && n <= |st.active|
    ensures Execute(st, [StartEvent(Some(facts))] + Creates(n, at) + [EventFails]) == st
    ensures Execute(st, [StartEvent(None)]) == st && Execute(st, [BeginBatch]) == st
  {
    var begun := After(st, StartEvent(Some(facts)));
    assert Execute(st, [StartEvent(Some(facts))]) == begun;
    ExecuteJoins(st, [StartEvent(Some(facts))], Creates(n, at));
    CreatesReach(begun, n, at);
    var steps := [StartEvent(Some(facts))] + Creates(n, at) + [EventFails];
    assert steps[..|steps| - 1] == [StartEvent(Some(facts))] + Creates(n, at);
  }

  // And whatever a batch did, losing it leaves everything as it was.
  lemma {:induction false} LostBatchLeavesNothing(st: State, steps: seq<Step>)
    requires st.batch.None?
    requires forall k :: 0 <= k < |steps| ==>
               !(steps[k].SetActive? || steps[k].BankWrites? || steps[k].CommitBatch? || steps[k].LoseBatch?)
    ensures Execute(st, [BeginBatch] + steps + [LoseBatch]) == st
  {
    BatchIsHidden(st, steps);
    var all := [BeginBatch] + steps + [LoseBatch];
    assert all[..|all| - 1] == [BeginBatch] + steps;
  }

  lemma {:induction false} BatchIsHidden(st: State, steps: seq<Step>)
    requires st.batch.None?
    requires forall k :: 0 <= k < |steps| ==>
               !(steps[k].SetActive? || steps[k].BankWrites? || steps[k].CommitBatch? || steps[k].LoseBatch?)
    ensures var inside := Execute(st, [BeginBatch] + steps);
            inside.batch.Some? && inside.(batch := None) == st
  {
    var all := [BeginBatch] + steps;
    if steps == [] {
      assert all[..0] == [];
    } else {
      BatchIsHidden(st, steps[..|steps| - 1]);
      assert all[..|all| - 1] == [BeginBatch] + steps[..|steps| - 1];
    }
  }
}
