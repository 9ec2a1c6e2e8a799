// What one run of a bank's own agent looks at: the markets the bank operates in, then those it
// watches, then the jurisdictions whose rules reach them, or what the agent's own row names.

module Scope {
  import opened Options

  datatype Level = Operating | Watching | Reaching | Chosen
  datatype Jurisdiction = Jurisdiction(id: nat, key: string, parent: Option<nat>, active: bool)
  datatype Scoped = Scoped(key: string, level: Level)

  // The vocabulary in its own order: ids and keys are unique.
  ghost predicate Vocabulary(rows: seq<Jurisdiction>) {
    forall i, j :: 0 <= i < j < |rows| ==> rows[i].id != rows[j].id && rows[i].key != rows[j].key
  }

  function Active(rows: seq<Jurisdiction>): (ordered: seq<Jurisdiction>)
    ensures forall row :: row in ordered <==> row in rows && row.active
  {
    if rows == [] then []
    else (if rows[0].active then [rows[0]] else []) + Active(rows[1..])
  }

  lemma {:induction false} ActiveKeepsOrder(rows: seq<Jurisdiction>)
    requires Vocabulary(rows)
    ensures Vocabulary(Active(rows))
  {
    if rows != [] {
      ActiveKeepsOrder(rows[1..]);
    }
  }

  // The listed rows are those at these places of the table, in its order.
  predicate StandAt(rows: seq<Jurisdiction>, listed: seq<Jurisdiction>, places: seq<nat>) {
    && |places| == |listed|
    && (forall i, j :: 0 <= i < j < |places| ==> places[i] < places[j])
    && forall i :: 0 <= i < |places| ==> places[i] < |rows| && rows[places[i]] == listed[i]
  }

  // The active rows stand where they stood: at exactly the active places, in order.
  lemma {:induction false} ActiveInOrder(rows: seq<Jurisdiction>) returns (places: seq<nat>)
    ensures StandAt(rows, Active(rows), places)
    ensures forall k :: 0 <= k < |rows| ==> (k in places <==> rows[k].active)
  {
    if rows == [] {
      places := [];
    } else {
      var n := |rows| - 1;
      var before := ActiveInOrder(rows[..n]);
      ActiveLast(rows);
      places := before + if rows[n].active then [n] else [];
      StandStill(rows, Active(rows[..n]), before);
      PlacesMore(rows, before);
    }
  }

  lemma StandStill(rows: seq<Jurisdiction>, listed: seq<Jurisdiction>, places: seq<nat>)
    requires rows != [] && StandAt(rows[..|rows| - 1], listed, places)
    ensures var n := |rows| - 1;
            StandAt(rows, listed, places) && StandAt(rows, listed + [rows[n]], places + [n])
  {
  }

  lemma PlacesMore(rows: seq<Jurisdiction>, before: seq<nat>)
    requires rows != []
    requires forall i :: 0 <= i < |before| ==> before[i] < |rows| - 1
    requires forall k :: 0 <= k < |rows| - 1 ==> (k in before <==> rows[..|rows| - 1][k].active)
    ensures var places := before + if rows[|rows| - 1].active then [|rows| - 1] else [];
            forall k :: 0 <= k < |rows| ==> (k in places <==> rows[k].active)
  {
    var n := |rows| - 1;
    assert n !in before;
    var places := before + if rows[n].active then [n] else [];
    forall k | 0 <= k < n
      ensures k in places <==> rows[k].active
    {
      assert rows[..n][k] == rows[k];
    }
  }

  lemma {:induction false} ActiveLast(rows: seq<Jurisdiction>)
    requires rows != []
    ensures var n := |rows| - 1; Active(rows) == Active(rows[..n]) + if rows[n].active then [rows[n]] else []
  {
    if 1 < |rows| {
      ActiveLast(rows[1..]);
      assert rows[1..][..|rows| - 2] == rows[..|rows| - 1][1..];
    }
  }

  // The rows of `ids` outside `seen`, in the order they are listed in.
  function Listed(ordered: seq<Jurisdiction>, ids: set<nat>, seen: set<nat>, level: Level): seq<Scoped> {
    if ordered == [] then []
    else
      var n := |ordered| - 1;
      Listed(ordered[..n], ids, seen, level) +
      if ordered[n].id in ids && ordered[n].id !in seen then [Scoped(ordered[n].key, level)] else []
  }

  function Ids(ordered: seq<Jurisdiction>): set<nat> {
    set row | row in ordered :: row.id
  }

  ghost predicate ById(everyone: map<nat, Jurisdiction>, ordered: seq<Jurisdiction>) {
    && everyone.Keys == Ids(ordered)
    && forall id :: id in everyone ==> everyone[id] in ordered && everyone[id].id == id
  }

  // ---------------------------------------------------------------------------------------
  // The chain of parents
  // ---------------------------------------------------------------------------------------

  // The active parent of an active jurisdiction, when it has one.
  function ParentOf(everyone: map<nat, Jurisdiction>, id: nat): Option<nat> {
    if id in everyone && everyone[id].parent.Some? && everyone[id].parent.value in everyone then everyone[id].parent
      else None
  }

  function Up(everyone: map<nat, Jurisdiction>, market: nat, steps: nat): Option<nat> {
    if steps == 0 then Some(market)
    else
      var below := Up(everyone, market, steps - 1);
      if below.None? then None else ParentOf(everyone, below.value)
  }

  // An unbroken chain of active parents leads from the market to the ancestor.
  ghost predicate Reaches(everyone: map<nat, Jurisdiction>, ancestor: nat, market: nat) {
    exists steps: nat :: 0 < steps && Up(everyone, market, steps) == Some(ancestor)
  }

  ghost function Ancestors(everyone: map<nat, Jurisdiction>, markets: set<nat>): set<nat> {
    set id | id in everyone && exists market :: market in markets && Reaches(everyone, id, market)
  }

  // Whoever is in the set has its active parent there too, unless that is the one still to come.
  ghost predicate UpwardsBut(everyone: map<nat, Jurisdiction>, ids: set<nat>, next: Option<nat>) {
    forall id :: id in ids && ParentOf(everyone, id).Some? ==>
      ParentOf(everyone, id).value in ids || ParentOf(everyone, id) == next
  }

  lemma {:induction false} ClosedHoldsChain(everyone: map<nat, Jurisdiction>, ids: set<nat>, market: nat, steps: nat)
    requires UpwardsBut(everyone, ids, None) && 0 < steps && Up(everyone, market, steps).Some?
    requires ParentOf(everyone, market).Some? ==> ParentOf(everyone, market).value in ids
    ensures Up(everyone, market, steps).value in ids
  {
    if steps == 1 {
      assert Up(everyone, market, 0) == Some(market);
    } else {
      ClosedHoldsChain(everyone, ids, market, steps - 1);
    }
  }

  lemma OneUp(everyone: map<nat, Jurisdiction>, market: nat)
    requires ParentOf(everyone, market).Some?
    ensures Reaches(everyone, ParentOf(everyone, market).value, market)
  {
    assert Up(everyone, market, 0) == Some(market);
    assert Up(everyone, market, 1) == ParentOf(everyone, market);
  }

  lemma FurtherUp(everyone: map<nat, Jurisdiction>, ancestor: nat, market: nat)
    requires Reaches(everyone, ancestor, market) && ParentOf(everyone, ancestor).Some?
    ensures Reaches(everyone, ParentOf(everyone, ancestor).value, market)
  {
    var steps: nat :| 0 < steps && Up(everyone, market, steps) == Some(ancestor);
    assert Up(everyone, market, steps + 1) == ParentOf(everyone, ancestor);
  }

  // The walk has covered these markets: everything it holds is an ancestor of one, and it holds
  // each one's parent and whatever is above.
  ghost predicate Walked(everyone: map<nat, Jurisdiction>, markets: set<nat>, reaching: set<nat>) {
    && reaching <= Ancestors(everyone, markets)
    && UpwardsBut(everyone, reaching, None)
    && forall market :: market in markets && ParentOf(everyone, market).Some? ==>
       ParentOf(everyone, market).value in reaching
  }

  lemma WalkedIsAncestors(everyone: map<nat, Jurisdiction>, markets: set<nat>, reaching: set<nat>)
    requires Walked(everyone, markets, reaching)
    ensures reaching == Ancestors(everyone, markets)
  {
    forall id | id in Ancestors(everyone, markets)
      ensures id in reaching
    {
      var market :| market in markets && Reaches(everyone, id, market);
      var steps: nat :| 0 < steps && Up(everyone, market, steps) == Some(id);
      ClosedHoldsChain(everyone, reaching, market, steps);
    }
  }

  lemma ListedStep(ordered: seq<Jurisdiction>, i: nat, ids: set<nat>, seen: set<nat>, level: Level)
    requires Vocabulary(ordered) && i < |ordered|
    ensures Listed(ordered[..i + 1], ids, seen, level)
         == Listed(ordered[..i], ids, seen, level)
            + if ordered[i].id in ids && ordered[i].id !in seen then [Scoped(ordered[i].key, level)] else []
    ensures Ids(ordered[..i + 1]) == Ids(ordered[..i]) + {ordered[i].id}
    ensures ordered[i].id !in Ids(ordered[..i])
  {
    assert ordered[..i + 1][..i] == ordered[..i];
    assert ordered[..i + 1] == ordered[..i] + [ordered[i]];
  }

  // ---------------------------------------------------------------------------------------
  // Building the scope
  // ---------------------------------------------------------------------------------------

  class Markets {
    var scope: seq<Scoped>
    var seen: set<nat>

    constructor ()
      ensures scope == [] && seen == {}
    {
      scope, seen := [], {};
    }

    method Add(ordered: seq<Jurisdiction>, ids: set<nat>, level: Level)
      requires Vocabulary(ordered)
      modifies this
      ensures scope == old(scope) + Listed(ordered, ids, old(seen), level)
      ensures seen == old(seen) + ids * Ids(ordered)
    {
      for i := 0 to |ordered|
        invariant scope == old(scope) + Listed(ordered[..i], ids, old(seen), level)
        invariant seen == old(seen) + ids * Ids(ordered[..i])
      {
        var row := ordered[i];
        ListedStep(ordered, i, ids, old(seen), level);
        ghost var before := Listed(ordered[..i], ids, old(seen), level);
        if row.id in ids && row.id !in seen {
          seen := seen + {row.id};
          scope := scope + [Scoped(row.key, level)];
          assert scope == old(scope) + (before + [Scoped(row.key, level)]);
        } else {
          assert before + [] == before;
        }
      }
      assert ordered[..|ordered|] == ordered;
    }
  }

  // From one market up, adding each active parent not yet there. Parents in a cycle end it too.
  method Climb(everyone: map<nat, Jurisdiction>, market: nat, before: set<nat>, ghost markets: set<nat>)
    returns (reaching: set<nat>)
    requires market in everyone && Walked(everyone, markets, before)
    ensures Walked(everyone, markets + {market}, reaching)
  {
    reaching := before;
    var parent := everyone[market].parent;
    ghost var all := Ancestors(everyone, markets + {market});
    assert before <= all;
    assert parent.Some? && parent.value in everyone ==> ParentOf(everyone, market) == parent;
    if ParentOf(everyone, market).Some? {
      OneUp(everyone, market);
    }
    while parent.Some? && parent.value in everyone && parent.value !in reaching
      invariant before <= reaching <= all
      invariant parent.Some? && parent.value in everyone ==>
                parent.value in all && Reaches(everyone, parent.value, market)
      invariant UpwardsBut(everyone, reaching, parent)
      invariant ParentOf(everyone, market).Some? ==>
                ParentOf(everyone, market).value in reaching || ParentOf(everyone, market) == parent
      decreases everyone.Keys - reaching
    {
      ghost var here := parent.value;
      reaching := reaching + {parent.value};
      parent := everyone[parent.value].parent;
      if ParentOf(everyone, here).Some? {
        FurtherUp(everyone, here, market);
      }
    }
  }

  // Every active jurisdiction that reaches one of the markets, whatever order they are walked in.
  method ReachingThem(everyone: map<nat, Jurisdiction>, markets: set<nat>) returns (reaching: set<nat>)
    requires markets <= everyone.Keys
    ensures reaching == Ancestors(everyone, markets)
  {
    var todo := markets;
    ghost var covered: set<nat> := {};
    reaching := {};
    while todo != {}
      invariant covered + todo == markets
      invariant Walked(everyone, covered, reaching)
      decreases |todo|
    {
      var market :| market in todo;
      reaching := Climb(everyone, market, reaching, covered);
      covered, todo := covered + {market}, todo - {market};
    }
    WalkedIsAncestors(everyone, covered, reaching);
  }

  // The operating markets, the other watched ones, and whatever else reaches one of them.
  ghost function MarketScope(ordered: seq<Jurisdiction>, everyone: map<nat, Jurisdiction>, operating: set<nat>,
                             watched: set<nat>): seq<Scoped>
  {
    Listed(ordered, operating, {}, Operating)
    + Listed(ordered, watched, operating, Watching)
    + Listed(ordered, Ancestors(everyone, (operating + watched) * Ids(ordered)), operating + watched, Reaching)
  }

  // Operating, then watching, then reaching, each in the jurisdictions' own order, a market once.
  method MarketsOf(rows: seq<Jurisdiction>, everyone: map<nat, Jurisdiction>, operating: set<nat>, watched: set<nat>)
    returns (scope: seq<Scoped>)
    requires Vocabulary(rows) && ById(everyone, Active(rows))
    ensures scope == MarketScope(Active(rows), everyone, operating, watched)
  {
    ActiveKeepsOrder(rows);
    var ordered := Active(rows);
    var markets := new Markets();
    markets.Add(ordered, operating, Operating);
    ghost var first := markets.seen;
    markets.Add(ordered, watched, Watching);
    var both := markets.seen;
    var reaching := ReachingThem(everyone, both);
    markets.Add(ordered, reaching, Reaching);
    scope := markets.scope;
    AddedInTurn(ordered, everyone, operating, watched, first, both, reaching);
  }

  lemma AddedInTurn(ordered: seq<Jurisdiction>, everyone: map<nat, Jurisdiction>, operating: set<nat>,
                    watched: set<nat>,
                    first: set<nat>, both: set<nat>, reaching: set<nat>)
    requires first == {} + operating * Ids(ordered) && both == first + watched * Ids(ordered)
    requires reaching == Ancestors(everyone, both)
    ensures [] + Listed(ordered, operating, {}, Operating) + Listed(ordered, watched, first, Watching)
            + Listed(ordered, reaching, both, Reaching)
         == MarketScope(ordered, everyone, operating, watched)
  {
    SeenInTurn(ordered, operating, watched, first, both, reaching);
    NothingBefore([], Listed(ordered, operating, {}, Operating));
  }

  lemma NothingBefore(before: seq<Scoped>, more: seq<Scoped>)
    ensures before == [] ==> before + more == more
  {
  }

  lemma SeenInTurn(ordered: seq<Jurisdiction>, operating: set<nat>, watched: set<nat>, first: set<nat>,
                   both: set<nat>, reaching: set<nat>)
    requires first == {} + operating * Ids(ordered) && both == first + watched * Ids(ordered)
    ensures both == (operating + watched) * Ids(ordered)
    ensures Listed(ordered, watched, first, Watching) == Listed(ordered, watched, operating, Watching)
    ensures Listed(ordered, reaching, both, Reaching) == Listed(ordered, reaching, operating + watched, Reaching)
  {
    ListedSees(ordered, watched, operating, first, Watching);
    ListedSees(ordered, reaching, operating + watched, both, Reaching);
  }

  // Only what is listed matters of what was seen.
  lemma {:induction false} ListedSees(ordered: seq<Jurisdiction>, ids: set<nat>, seen: set<nat>, also: set<nat>,
                                      level: Level)
    requires forall row :: row in ordered ==> (row.id in seen <==> row.id in also)
    ensures Listed(ordered, ids, seen, level) == Listed(ordered, ids, also, level)
  {
    if ordered != [] {
      ListedSees(ordered[..|ordered| - 1], ids, seen, also, level);
    }
  }

  // ---------------------------------------------------------------------------------------
  // What the scope says
  // ---------------------------------------------------------------------------------------

  ghost predicate Precedes(ordered: seq<Jurisdiction>, first: string, second: string) {
    exists a, b :: 0 <= a < b < |ordered| && ordered[a].key == first && ordered[b].key == second
  }

  ghost predicate InOrder(ordered: seq<Jurisdiction>, scope: seq<Scoped>) {
    forall i, j :: 0 <= i < j < |scope| ==> Precedes(ordered, scope[i].key, scope[j].key)
  }

  lemma {:induction false} ListedHolds(ordered: seq<Jurisdiction>, ids: set<nat>, seen: set<nat>, level: Level)
    ensures forall s :: s in Listed(ordered, ids, seen, level) <==>
              s.level == level &&
              exists i :: 0 <= i < |ordered| && ordered[i].key == s.key && ordered[i].id in ids - seen
  {
    if ordered != [] {
      ListedHolds(ordered[..|ordered| - 1], ids, seen, level);
    }
  }

  lemma PrecedesStill(ordered: seq<Jurisdiction>, n: nat, first: string, second: string)
    requires n <= |ordered| && Precedes(ordered[..n], first, second)
    ensures Precedes(ordered, first, second)
  {
    var a, b :| 0 <= a < b < n && ordered[..n][a].key == first && ordered[..n][b].key == second;
    assert ordered[a].key == first && ordered[b].key == second;
  }

  // Each group stands in the jurisdictions' own order.
  lemma {:induction false} ListedKeepsOrder(ordered: seq<Jurisdiction>, ids: set<nat>, seen: set<nat>, level: Level)
    ensures InOrder(ordered, Listed(ordered, ids, seen, level))
  {
    if ordered != [] {
      var n := |ordered| - 1;
      var before := Listed(ordered[..n], ids, seen, level);
      var now := Listed(ordered, ids, seen, level);
      ListedKeepsOrder(ordered[..n], ids, seen, level);
      forall i, j | 0 <= i < j < |now|
        ensures Precedes(ordered, now[i].key, now[j].key)
      {
        if j < |before| {
          PrecedesStill(ordered, n, before[i].key, before[j].key);
        } else {
          ComesBeforeLast(ordered, ids, seen, level, before[i]);
        }
      }
    }
  }

  lemma ComesBeforeLast(ordered: seq<Jurisdiction>, ids: set<nat>, seen: set<nat>, level: Level, s: Scoped)
    requires ordered != [] && s in Listed(ordered[..|ordered| - 1], ids, seen, level)
    ensures Precedes(ordered, s.key, ordered[|ordered| - 1].key)
  {
    var n := |ordered| - 1;
    ListedHolds(ordered[..n], ids, seen, level);
    var a :| 0 <= a < n && ordered[..n][a].key == s.key;
    assert ordered[a].key == s.key;
  }

  // So each group stands in the order of the vocabulary itself, active or not.
  lemma GroupsKeepTableOrder(rows: seq<Jurisdiction>, ids: set<nat>, seen: set<nat>, level: Level)
    ensures InOrder(rows, Listed(Active(rows), ids, seen, level))
  {
    var places := ActiveInOrder(rows);
    var scope := Listed(Active(rows), ids, seen, level);
    ListedKeepsOrder(Active(rows), ids, seen, level);
    forall i, j | 0 <= i < j < |scope|
      ensures Precedes(rows, scope[i].key, scope[j].key)
    {
      var a, b :| 0 <= a < b < |Active(rows)| && Active(rows)[a].key == scope[i].key &&
        Active(rows)[b].key == scope[j].key;
      assert rows[places[a]].key == scope[i].key && rows[places[b]].key == scope[j].key;
    }
  }

  lemma InGroup(ordered: seq<Jurisdiction>, ids: set<nat>, seen: set<nat>, level: Level, row: Jurisdiction,
                asked: Level)
    requires Vocabulary(ordered) && row in ordered
    ensures Scoped(row.key, asked) in Listed(ordered, ids, seen, level) <==>
            asked == level && row.id in ids && row.id !in seen
  {
    ListedHolds(ordered, ids, seen, level);
  }

  // An active jurisdiction is in the scope as operating, watching or reaching exactly when the bank
  // operates there, else watches it, else an unbroken chain of active parents leads to it from an
  // active market.
  lemma ScopeHoldsExactly(ordered: seq<Jurisdiction>, everyone: map<nat, Jurisdiction>, operating: set<nat>,
                          watched: set<nat>, row: Jurisdiction)
    requires Vocabulary(ordered) && ById(everyone, ordered) && row in ordered
    ensures var scope := MarketScope(ordered, everyone, operating, watched);
            && (Scoped(row.key, Operating) in scope <==> row.id in operating)
            && (Scoped(row.key, Watching) in scope <==> row.id in watched - operating)
            && (Scoped(row.key, Reaching) in scope <==>
                (row.id !in operating + watched &&
                 exists market :: market in everyone && market in operating + watched &&
                   Reaches(everyone, row.id, market)))
            && Scoped(row.key, Chosen) !in scope
  {
    var reaching := Ancestors(everyone, (operating + watched) * Ids(ordered));
    InScopeAs(ordered, operating, watched, reaching, row, Operating);
    InScopeAs(ordered, operating, watched, reaching, row, Watching);
    InScopeAs(ordered, operating, watched, reaching, row, Reaching);
    InScopeAs(ordered, operating, watched, reaching, row, Chosen);
    assert everyone.Keys == Ids(ordered);
  }

  lemma InScopeAs(ordered: seq<Jurisdiction>, operating: set<nat>, watched: set<nat>, reaching: set<nat>,
                  row: Jurisdiction, asked: Level)
    requires Vocabulary(ordered) && row in ordered
    ensures Scoped(row.key, asked) in Listed(ordered, operating, {}, Operating)
                                      + Listed(ordered, watched, operating, Watching)
                                      + Listed(ordered, reaching, operating + watched, Reaching)
       <==> match asked
            case Operating => row.id in operating
            case Watching => row.id in watched - operating
            case Reaching => row.id in reaching - (operating + watched)
            case Chosen => false
  {
    InGroup(ordered, operating, {}, Operating, row, asked);
    InGroup(ordered, watched, operating, Watching, row, asked);
    InGroup(ordered, reaching, operating + watched, Reaching, row, asked);
  }

  // No jurisdiction is in the scope twice, whatever its groups.
  lemma ScopeHasNoRepeats(ordered: seq<Jurisdiction>, everyone: map<nat, Jurisdiction>, operating: set<nat>,
                          watched: set<nat>)
    requires Vocabulary(ordered)
    ensures NoRepeats(MarketScope(ordered, everyone, operating, watched))
  {
    var reaching := Ancestors(everyone, (operating + watched) * Ids(ordered));
    var first := Listed(ordered, operating, {}, Operating);
    var second := Listed(ordered, watched, operating, Watching);
    var third := Listed(ordered, reaching, operating + watched, Reaching);
    GroupHasNoRepeats(ordered, operating, {}, Operating);
    GroupHasNoRepeats(ordered, watched, operating, Watching);
    GroupHasNoRepeats(ordered, reaching, operating + watched, Reaching);
    GroupsAreApart(ordered, operating, {}, Operating, watched, operating, Watching);
    GroupsAreApart(ordered, operating, {}, Operating, reaching, operating + watched, Reaching);
    GroupsAreApart(ordered, watched, operating, Watching, reaching, operating + watched, Reaching);
    JoinedApart(first, second);
    JoinedApart(first + second, third);
  }

  ghost predicate NoRepeats(scope: seq<Scoped>) {
    forall i, j :: 0 <= i < j < |scope| ==> scope[i].key != scope[j].key
  }

  ghost predicate Apart(first: seq<Scoped>, second: seq<Scoped>) {
    forall s, t :: s in first && t in second ==> s.key != t.key
  }

  lemma GroupHasNoRepeats(ordered: seq<Jurisdiction>, ids: set<nat>, seen: set<nat>, level: Level)
    requires Vocabulary(ordered)
    ensures NoRepeats(Listed(ordered, ids, seen, level))
  {
    ListedKeepsOrder(ordered, ids, seen, level);
    var scope := Listed(ordered, ids, seen, level);
    forall i, j | 0 <= i < j < |scope|
      ensures scope[i].key != scope[j].key
    {
      assert Precedes(ordered, scope[i].key, scope[j].key);
    }
  }

  lemma GroupsAreApart(ordered: seq<Jurisdiction>, ids: set<nat>, seen: set<nat>, level: Level, more: set<nat>,
                       seenThen: set<nat>, next: Level)
    requires Vocabulary(ordered) && ids - seen <= seenThen
    ensures Apart(Listed(ordered, ids, seen, level), Listed(ordered, more, seenThen, next))
  {
    ListedHolds(ordered, ids, seen, level);
    ListedHolds(ordered, more, seenThen, next);
  }

  lemma JoinedApart(first: seq<Scoped>, second: seq<Scoped>)
    requires NoRepeats(first) && NoRepeats(second) && Apart(first, second)
    ensures NoRepeats(first + second)
  {
  }

  // ---------------------------------------------------------------------------------------
  // The scope a run starts with
  // ---------------------------------------------------------------------------------------

  datatype Dropped = JurisdictionKey(key: string) | TermKey(key: string)
  datatype RunScope = RunScope(fromMarkets: bool, jurisdictions: seq<Scoped>, terms: seq<string>, dropped: seq<Dropped>)

  function Keep(keys: seq<string>, live: set<string>): seq<string> {
    if keys == [] then [] else (if keys[0] in live then [keys[0]] else []) + Keep(keys[1..], live)
  }

  function Retired(keys: seq<string>, live: set<string>): seq<string> {
    if keys == [] then [] else (if keys[0] in live then [] else [keys[0]]) + Retired(keys[1..], live)
  }

  // What was chosen is split between what the run keeps and what it notes as dropped: no key is
  // lost and none is added.
  lemma {:induction false} KeptAndDropped(keys: seq<string>, live: set<string>)
    ensures multiset(Keep(keys, live)) + multiset(Retired(keys, live)) == multiset(keys)
    ensures forall key :: key in Keep(keys, live) <==> key in keys && key in live
    ensures forall key :: key in Retired(keys, live) <==> key in keys && key !in live
  {
    if keys != [] {
      KeptAndDropped(keys[1..], live);
      assert keys == [keys[0]] + keys[1..];
    }
  }

  // Kept keys stand where they were chosen: at exactly the places of the live ones, in order.
  lemma {:induction false} KeptInOrder(keys: seq<string>, live: set<string>) returns (places: seq<nat>)
    ensures |places| == |Keep(keys, live)|
    ensures forall i, j :: 0 <= i < j < |places| ==> places[i] < places[j]
    ensures forall i :: 0 <= i < |places| ==> places[i] < |keys| && keys[places[i]] == Keep(keys, live)[i]
    ensures forall k :: 0 <= k < |keys| ==> (k in places <==> keys[k] in live)
  {
    if keys == [] {
      places := [];
    } else {
      var n := |keys| - 1;
      var before := KeptInOrder(keys[..n], live);
      KeepLast(keys, live);
      places := before + if keys[n] in live then [n] else [];
    }
  }

  lemma {:induction false} KeepLast(keys: seq<string>, live: set<string>)
    requires keys != []
    ensures var n := |keys| - 1; Keep(keys, live) == Keep(keys[..n], live) + if keys[n] in live then [keys[n]] else []
  {
    if 1 < |keys| {
      KeepLast(keys[1..], live);
      assert keys[1..][..|keys| - 2] == keys[..|keys| - 1][1..];
    }
  }

  function Named(keys: seq<string>, level: Level): seq<Scoped> {
    seq(|keys|, i requires 0 <= i < |keys| => Scoped(keys[i], level))
  }

  predicate ChosenAndRetired(d: Dropped, jurisdictions: seq<string>, terms: seq<string>, active: set<string>,
                             liveTerms: set<string>)
  {
    match d
    case JurisdictionKey(key) => key in jurisdictions && key !in active
    case TermKey(key) => key in terms && key !in liveTerms
  }

  // `active` holds the keys of the active jurisdictions, `liveTerms` the taxonomy terms not retired.
  method ForRun(rows: seq<Jurisdiction>, everyone: map<nat, Jurisdiction>, operating: set<nat>, watched: set<nat>,
                jurisdictions: seq<string>, terms: seq<string>, active: set<string>, liveTerms: set<string>)
    returns (scope: RunScope)
    requires Vocabulary(rows) && ById(everyone, Active(rows))
    ensures scope.fromMarkets <==> jurisdictions == []
    ensures scope.fromMarkets ==> scope.jurisdictions == MarketScope(Active(rows), everyone, operating, watched)
    // Otherwise exactly the chosen ones that are active, where they were chosen (`KeptInOrder`).
    ensures !scope.fromMarkets ==> forall s :: s in scope.jurisdictions <==>
            s.level == Chosen && s.key in jurisdictions && s.key in active
    ensures !scope.fromMarkets ==> scope.jurisdictions == Named(Keep(jurisdictions, active), Chosen)
    ensures scope.terms == Keep(terms, liveTerms) && forall key :: key in scope.terms <==>
            key in terms && key in liveTerms
    // Whatever was chosen and is retired is noted in its own list, and nothing else is.
    ensures forall d :: d in scope.dropped <==> ChosenAndRetired(d, jurisdictions, terms, active, liveTerms)
    ensures scope.dropped == NotedJurisdictions(Retired(jurisdictions, active)) + NotedTerms(Retired(terms, liveTerms))
    ensures |scope.dropped| + |Keep(jurisdictions, active)| + |scope.terms| == |jurisdictions| + |terms|
  {
    KeptAndDropped(jurisdictions, active);
    KeptAndDropped(terms, liveTerms);
    Counted(jurisdictions, active);
    Counted(terms, liveTerms);
    var scoped: seq<Scoped>;
    if jurisdictions != [] {
      scoped := Named(Keep(jurisdictions, active), Chosen);
      NamedHolds(Keep(jurisdictions, active), Chosen);
    } else {
      scoped := MarketsOf(rows, everyone, operating, watched);
    }
    var retired, retiredTerms := Retired(jurisdictions, active), Retired(terms, liveTerms);
    NotedHolds(retired, retiredTerms);
    scope := RunScope(jurisdictions == [], scoped, Keep(terms, liveTerms),
                      NotedJurisdictions(retired) + NotedTerms(retiredTerms));
  }

  lemma {:induction false} Counted(keys: seq<string>, live: set<string>)
    ensures |Keep(keys, live)| + |Retired(keys, live)| == |keys|
  {
    if keys != [] {
      Counted(keys[1..], live);
    }
  }

  lemma NamedHolds(keys: seq<string>, level: Level)
    ensures forall s :: s in Named(keys, level) <==> s.level == level && s.key in keys
  {
    forall s: Scoped | s.level == level && s.key in keys
      ensures s in Named(keys, level)
    {
      var i :| 0 <= i < |keys| && keys[i] == s.key;
      assert Named(keys, level)[i] == s;
    }
  }

  lemma NotedHolds(jurisdictions: seq<string>, terms: seq<string>)
    ensures forall d :: d in NotedJurisdictions(jurisdictions) + NotedTerms(terms) <==>
              (d.JurisdictionKey? && d.key in jurisdictions) || (d.TermKey? && d.key in terms)
  {
    var noted, notedTerms := NotedJurisdictions(jurisdictions), NotedTerms(terms);
    forall d: Dropped | (d.JurisdictionKey? && d.key in jurisdictions) || (d.TermKey? && d.key in terms)
      ensures d in noted + notedTerms
    {
      if d.JurisdictionKey? {
        var i :| 0 <= i < |jurisdictions| && jurisdictions[i] == d.key;
        assert noted[i] == d;
      } else {
        var i :| 0 <= i < |terms| && terms[i] == d.key;
        assert notedTerms[i] == d;
      }
    }
  }

  function NotedJurisdictions(keys: seq<string>): seq<Dropped> {
    seq(|keys|, i requires 0 <= i < |keys| => JurisdictionKey(keys[i]))
  }

  function NotedTerms(keys: seq<string>): seq<Dropped> {
    seq(|keys|, i requires 0 <= i < |keys| => TermKey(keys[i]))
  }
}
