// A platform agent's definition and its versions: the first one seeded with the agent, the next ones
// published in turn from what the build ships, retired one at a time, and the one a new run opens
// with. Every write holds the agent's row lock.

module Definitions {
  import opened Options

  datatype Version = Version(
    number: nat,
    model: string,
    prompt: string,
    tools: seq<string>,
    note: string,
    publishedBy: Option<nat>,
    publishedAt: int,
    retiredAt: Option<int>)

  // What a version may never change of its agent.
  datatype Identity = Identity(key: string, kind: string, scope: string, tenantConfigurable: bool, writesTo: string)

  // The agent's row with its versions, in the order they were inserted.
  datatype Row = Row(identity: Identity, active: bool, currentVersion: nat, versions: seq<Version>)

  // What the reader finds in the build's folder of one version.
  datatype Shipped =
    | Missing
    | Invalid
    | Definition(identity: Identity, active: bool, version: nat, model: string, prompt: string, tools: seq<string>,
                 note: string, promptIsThere: bool)

  datatype Outcome = Done(row: Row) | Refused(code: string)

  // The agent and its first version as the reference seed creates them: the version the build ships
  // for it, whatever its number. Nothing changes `active` afterwards.
  function Seeded(definition: Shipped, now: int): Row
    requires definition.Definition?
  {
    Row(definition.identity, definition.active, definition.version,
        [Version(definition.version, definition.model, definition.prompt, definition.tools, definition.note, None,
          now, None)])
  }

  function Highest(versions: seq<Version>): nat {
    if versions == [] then 0
    else
      var before := Highest(versions[..|versions| - 1]);
      var number := versions[|versions| - 1].number;
      if before < number then number else before
  }

  predicate Readable(row: Row, number: nat, shipped: Shipped) {
    shipped.Definition? && shipped.identity == row.identity && shipped.version == number && shipped.promptIsThere
  }

  function Publish(row: Row, number: nat, shipped: Shipped, note: string, person: nat, now: int): Outcome {
    if exists i :: 0 <= i < |row.versions| && row.versions[i].number == number then Refused("version_exists")
    else if number != Highest(row.versions) + 1 then Refused("version_not_next")
    else if !Readable(row, number, shipped) then Refused("definition_unreadable")
    else
      var version := Version(number, shipped.model, shipped.prompt, shipped.tools, note, Some(person), now, None);
      Done(row.(versions := row.versions + [version], currentVersion := number))
  }

  // Whether a version other than the one at `i` is still published.
  predicate AnotherPublished(versions: seq<Version>, i: nat) {
    exists j :: 0 <= j < |versions| && j != i && versions[j].retiredAt.None?
  }

  function Position(versions: seq<Version>, number: nat): (i: nat)
    ensures i <= |versions| && (i < |versions| ==> versions[i].number == number)
    ensures i == |versions| ==> forall j :: 0 <= j < |versions| ==> versions[j].number != number
  {
    if versions == [] || versions[0].number == number then 0 else Position(versions[1..], number) + 1
  }

  function Retire(row: Row, number: nat, now: int): Outcome {
    var i := Position(row.versions, number);
    if i == |row.versions| then Refused("not_found")
    else if row.versions[i].retiredAt.Some? then Done(row)
    else if row.active && !AnotherPublished(row.versions, i) then Refused("last_version")
    else Done(row.(versions := row.versions[i := row.versions[i].(retiredAt := Some(now))]))
  }

  // The position of the published version with the highest number.
  function Newest(versions: seq<Version>): (newest: Option<nat>)
    ensures newest.Some? ==> newest.value < |versions|
  {
    if versions == [] then None
    else
      var n := |versions| - 1;
      var before := Newest(versions[..n]);
      if versions[n].retiredAt.Some? then before
      else if before.Some? && versions[n].number < versions[before.value].number then before
      else Some(n)
  }

  // `version` is None for a definition that never had a version row.
  datatype ToRun = Runs(version: Option<nat>) | CannotRun(code: string)

  function VersionToRun(versions: seq<Version>): ToRun {
    var newest := Newest(versions);
    if newest.None? && versions != [] then CannotRun("no_published_version") else Runs(newest)
  }

  // ---------------------------------------------------------------------------------------
  // The rows as they are written
  // ---------------------------------------------------------------------------------------

  class Agent {
    const identity: Identity
    const active: bool
    var currentVersion: nat
    var versions: seq<Version>

    ghost function View(): Row
      reads this
    {
      Row(identity, active, currentVersion, versions)
    }

    constructor (definition: Shipped, now: int)
      requires definition.Definition?
      ensures View() == Seeded(definition, now)
    {
      identity, active, currentVersion := definition.identity, definition.active, definition.version;
      versions := [Version(definition.version, definition.model, definition.prompt, definition.tools, definition.note,
        None, now, None)];
    }

    method PublishVersion(number: nat, shipped: Shipped, note: string, person: nat, now: int)
    returns (refused: Option<string>)
      modifies this
      ensures match Publish(old(View()), number, shipped, note, person, now)
              case Done(row) => refused == None && View() == row
              case Refused(code) => refused == Some(code) && View() == old(View())
    {
      var highest := 0;
      for i := 0 to |versions|
        invariant highest == Highest(versions[..i])
        invariant forall j :: 0 <= j < i ==> versions[j].number != number
      {
        assert versions[..i + 1][..i] == versions[..i];
        if versions[i].number == number {
          return Some("version_exists");
        }
        if highest < versions[i].number {
          highest := versions[i].number;
        }
      }
      assert versions[..|versions|] == versions;
      if number != highest + 1 {
        return Some("version_not_next");
      }
      if !shipped.Definition? || shipped.identity != identity || shipped.version != number || !shipped.promptIsThere {
        return Some("definition_unreadable");
      }
      versions := versions +
        [Version(number, shipped.model, shipped.prompt, shipped.tools, note, Some(person), now, None)];
      currentVersion := number;
      return None;
    }

    method RetireVersion(number: nat, now: int) returns (refused: Option<string>)
      modifies this
      ensures match Retire(old(View()), number, now)
              case Done(row) => refused == None && View() == row
              case Refused(code) => refused == Some(code) && View() == old(View())
    {
      var i := Position(versions, number);
      if i == |versions| {
        return Some("not_found");
      }
      if versions[i].retiredAt.Some? {
        return None;
      }
      if active {
        var another := exists j :: 0 <= j < |versions| && j != i && versions[j].retiredAt.None?;
        if !another {
          return Some("last_version");
        }
      }
      versions := versions[i := versions[i].(retiredAt := Some(now))];
      return None;
    }
  }

  // ---------------------------------------------------------------------------------------
  // Over any sequence of writes
  // ---------------------------------------------------------------------------------------

  datatype Write =
    | PublishOne(number: nat, shipped: Shipped, note: string, person: nat, now: int)
    | RetireOne(number: nat, now: int)

  function Do(row: Row, write: Write): Outcome {
    match write
    case PublishOne(number, shipped, note, person, now) => Publish(row, number, shipped, note, person, now)
    case RetireOne(number, now) => Retire(row, number, now)
  }

  function Live(row: Row, writes: seq<Write>): Row {
    if writes == [] then row
    else
      var before := Live(row, writes[..|writes| - 1]);
      match Do(before, writes[|writes| - 1])
      case Done(after) => after
      case Refused(_) => before
  }

  // The number of the first version: what the seed shipped, or 1 for an agent with no version row yet.
  function Base(row: Row): nat {
    if row.versions == [] then 1 else row.versions[0].number
  }

  // Versions in turn from the first one, without a gap, and the agent on the last of them.
  predicate Numbered(row: Row) {
    && (row.versions != [] ==> row.currentVersion == Base(row) + |row.versions| - 1)
    && forall i :: 0 <= i < |row.versions| ==> row.versions[i].number == Base(row) + i
  }

  predicate HasPublished(versions: seq<Version>) {
    exists i :: 0 <= i < |versions| && versions[i].retiredAt.None?
  }

  // Nothing of a version but its retirement ever changes, and that happens once.
  ghost predicate Kept(before: seq<Version>, after: seq<Version>) {
    && |before| <= |after|
    && forall i :: 0 <= i < |before| ==>
         after[i].(retiredAt := before[i].retiredAt) == before[i] &&
           (before[i].retiredAt.Some? ==> after[i] == before[i])
  }

  lemma {:induction false} HighestIsLast(versions: seq<Version>, base: nat)
    requires versions != [] && forall i :: 0 <= i < |versions| ==> versions[i].number == base + i
    ensures Highest(versions) == base + |versions| - 1
  {
    if 1 < |versions| {
      HighestIsLast(versions[..|versions| - 1], base);
    } else {
      assert Highest(versions[..0]) == 0;
    }
  }

  // The number to publish next.
  lemma NextNumber(row: Row)
    requires Numbered(row)
    ensures Highest(row.versions) + 1 == Base(row) + |row.versions|
  {
    if row.versions != [] {
      HighestIsLast(row.versions, Base(row));
    }
  }

  lemma WriteKeeps(row: Row, write: Write)
    requires Numbered(row) && Do(row, write).Done?
    ensures var after := Do(row, write).row;
            && Numbered(after) && Base(after) == Base(row) && Kept(row.versions, after.versions) &&
               after.active == row.active
            && (row.active && HasPublished(row.versions) ==> HasPublished(after.versions))
  {
    NextNumber(row);
    var after := Do(row, write).row;
    if row.active && HasPublished(row.versions) {
      if write.PublishOne? {
        assert after.versions[|row.versions|].retiredAt.None?;
      } else if after != row {
        var i := Position(row.versions, write.number);
        var j :| 0 <= j < |row.versions| && j != i && row.versions[j].retiredAt.None?;
        assert after.versions[j] == row.versions[j];
      }
    }
  }

  // Over any writes: versions stay numbered in turn from the first one without a gap, and every
  // version row stays as it was published but for being retired once, so a run's pinned version is
  // never changed under it.
  lemma {:induction false} VersionsKept(row: Row, writes: seq<Write>)
    requires Numbered(row)
    ensures Numbered(Live(row, writes)) && Base(Live(row, writes)) == Base(row)
    ensures Kept(row.versions, Live(row, writes).versions) && Live(row, writes).active == row.active
  {
    if writes != [] {
      var before := Live(row, writes[..|writes| - 1]);
      VersionsKept(row, writes[..|writes| - 1]);
      if Do(before, writes[|writes| - 1]).Done? {
        WriteKeeps(before, writes[|writes| - 1]);
      }
    }
  }

  lemma {:induction false} ActiveStays(row: Row, writes: seq<Write>)
    requires Numbered(row) && row.active && HasPublished(row.versions)
    ensures HasPublished(Live(row, writes).versions)
  {
    if writes != [] {
      var before := Live(row, writes[..|writes| - 1]);
      VersionsKept(row, writes[..|writes| - 1]);
      ActiveStays(row, writes[..|writes| - 1]);
      if Do(before, writes[|writes| - 1]).Done? {
        WriteKeeps(before, writes[|writes| - 1]);
      }
    }
  }

  // An active agent with a published version always has one to run: the published version of the
  // highest number.
  lemma ActiveCanRun(row: Row, writes: seq<Write>)
    requires Numbered(row) && row.active && HasPublished(row.versions)
    ensures var versions := Live(row, writes).versions;
            var toRun := VersionToRun(versions);
            && toRun.Runs? && toRun.version.Some? && toRun.version.value < |versions|
            && versions[toRun.version.value].retiredAt.None?
            && forall j :: 0 <= j < |versions| && versions[j].retiredAt.None? ==>
               versions[j].number <= versions[toRun.version.value].number
  {
    ActiveStays(row, writes);
    NewestIsNewest(Live(row, writes).versions);
  }

  // So from the seed on: an agent shipped at version 2 runs on 2, then 3, and never has a version 1.
  lemma SeededVersions(definition: Shipped, now: int, writes: seq<Write>)
    requires definition.Definition?
    ensures var row := Live(Seeded(definition, now), writes);
            && row.versions != [] && row.versions[0].number == definition.version
            && (forall i :: 0 <= i < |row.versions| ==> row.versions[i].number == definition.version + i)
            && row.currentVersion == definition.version + |row.versions| - 1
  {
    VersionsKept(Seeded(definition, now), writes);
  }

  // From the seed on, whatever is published and retired and whatever number the seed shipped: an
  // agent can never be left with nothing to run exactly when it was shipped active.
  lemma SeededCanRun(definition: Shipped, now: int)
    requires definition.Definition?
    ensures (forall writes :: VersionToRun(Live(Seeded(definition, now), writes).versions).Runs?) <==> definition.active
  {
    var row := Seeded(definition, now);
    assert row.versions[0].retiredAt.None?;
    if definition.active {
      forall writes
        ensures VersionToRun(Live(row, writes).versions).Runs?
      {
        ActiveCanRun(row, writes);
      }
    } else {
      var writes := [RetireOne(definition.version, now)];
      assert writes[..0] == [] && Live(row, []) == row;
      assert Position(row.versions, definition.version) == 0;
      NewestIsNewest(Live(row, writes).versions);
      assert VersionToRun(Live(row, writes).versions).CannotRun?;
    }
  }

  // `Newest` finds the published version of the highest number exactly when one is published.
  lemma {:induction false} NewestIsNewest(versions: seq<Version>)
    ensures var newest := Newest(versions);
            && (newest.Some? <==> HasPublished(versions))
            && (newest.Some? ==>
                  && versions[newest.value].retiredAt.None?
                  && forall j :: 0 <= j < |versions| && versions[j].retiredAt.None? ==>
                     versions[j].number <= versions[newest.value].number)
  {
    if versions != [] {
      var n := |versions| - 1;
      NewestIsNewest(versions[..n]);
      if versions[n].retiredAt.Some? {
        assert HasPublished(versions) <==> HasPublished(versions[..n]);
      }
    }
  }

  // A publish goes through exactly when it is the next number and the build ships it for this very
  // agent; the new version, as shipped, is then the one to run. A number published before exists,
  // and one before the first is not the next.
  lemma PublishedIsNext(row: Row, number: nat, shipped: Shipped, note: string, person: nat, now: int)
    requires Numbered(row)
    ensures var outcome := Publish(row, number, shipped, note, person, now);
            && (outcome.Done? <==> number == Base(row) + |row.versions| && Readable(row, number, shipped))
            && (Base(row) <= number < Base(row) + |row.versions| <==> outcome == Refused("version_exists"))
            && (number < Base(row) || Base(row) + |row.versions| < number <==> outcome == Refused("version_not_next"))
            && (outcome.Done? ==>
                  var versions := outcome.row.versions;
                  && VersionToRun(versions) == Runs(Some(|row.versions|)) && versions[|row.versions|].number == number
                  && (versions[|row.versions|].model, versions[|row.versions|].prompt,
                     versions[|row.versions|].tools) ==
                     (shipped.model, shipped.prompt, shipped.tools))
  {
    NextNumber(row);
    if Base(row) <= number < Base(row) + |row.versions| {
      assert row.versions[number - Base(row)].number == number;
    }
    var outcome := Publish(row, number, shipped, note, person, now);
    if outcome.Done? {
      AddedIsNewest(row.versions, outcome.row.versions[|row.versions|]);
    }
  }

  lemma AddedIsNewest(versions: seq<Version>, version: Version)
    requires version.retiredAt.None? && forall i :: 0 <= i < |versions| ==> versions[i].number < version.number
    ensures VersionToRun(versions + [version]) == Runs(Some(|versions|))
  {
    assert (versions + [version])[..|versions|] == versions;
    NewestIsNewest(versions);
  }

  // A retirement goes through exactly for a version there is that is retired already, or is not the
  // last one of an active agent; no new run then opens with it, and every other version stays.
  lemma RetiredStops(row: Row, number: nat, now: int)
    requires Numbered(row)
    ensures var outcome := Retire(row, number, now);
            var i := number - Base(row);
            && (outcome == Refused("not_found") <==> !(0 <= i < |row.versions|))
            && (0 <= i < |row.versions| ==>
                  (outcome.Done? <==>
                   (row.versions[i].retiredAt.Some? || !row.active || AnotherPublished(row.versions, i))))
            && (outcome.Done? ==>
                  var versions := outcome.row.versions;
                  && 0 <= i < |versions| == |row.versions| && versions[i].retiredAt.Some?
                  && VersionToRun(versions) != Runs(Some(i))
                  && forall j :: 0 <= j < |versions| && j != i ==> versions[j] == row.versions[j])
  {
    var i, at := number - Base(row), Position(row.versions, number);
    if 0 <= i < |row.versions| {
      assert row.versions[i].number == number;
      assert at < |row.versions| && row.versions[at].number == Base(row) + at;
    }
    var outcome := Retire(row, number, now);
    if outcome.Done? {
      NewestIsNewest(outcome.row.versions);
    }
  }
}
