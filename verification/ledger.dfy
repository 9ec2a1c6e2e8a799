// The ledger of the API documentation gate: the owners whose documentation is still owed, written to
// a text file one line each, read back, and compared with what the gate finds later.

module Ledger {
  import opened Options
  import opened Text

  datatype Finding = Finding(owner: string, rule: string)

  // ---------------------------------------------------------------------------------------
  // Reading
  // ---------------------------------------------------------------------------------------

  // A character a line ends at. All of them are white space.
  predicate Break(c: char) {
    c in "\n\r" || c == 11 as char || c == 12 as char
  }

  // A text without white space, as the owner's place in a line takes it.
  predicate Word(s: string) {
    s != "" && forall c :: c in s ==> !Space(c)
  }

  predicate OneLine(s: string) {
    forall c :: c in s ==> !Break(c)
  }

  function LineLength(text: string): (n: nat)
    ensures n <= |text| && OneLine(text[..n]) && (n < |text| ==> Break(text[n]))
  {
    if text == "" || Break(text[0]) then 0
    else
      var n := LineLength(text[1..]);
      assert text[..n + 1] == [text[0]] + text[1..][..n];
      n + 1
  }

  // A carriage return and the line feed after it end one line together.
  function Lines(text: string): seq<string> {
    if text == "" then []
    else
      var n := LineLength(text);
      var next := if n + 1 < |text| && text[n] == '\r' && text[n + 1] == '\n' then n + 2 else n + 1;
      [text[..n]] + if next <= |text| then Lines(text[next..]) else []
  }

  function WordLength(s: string): (n: nat)
    ensures n <= |s| && (forall i :: 0 <= i < n ==> !Space(s[i])) && (n < |s| ==> Space(s[n]))
  {
    if s == "" || Space(s[0]) then 0 else 1 + WordLength(s[1..])
  }

  datatype Entry = Entry(owner: string, rest: string)

  function AfterKind(line: string): string {
    if "schema" <= line then line[6..] else if "operation" <= line then line[9..] else ""
  }

  // The kind, white space, the owner, white space, and the rest of the line.
  function ParseLine(raw: string): (entry: Option<Entry>)
    ensures entry.Some? ==> Word(entry.value.owner)
  {
    var line := Strip(raw);
    var after := AfterKind(line);
    if line == "" || line[0] == '#' || after == "" || !Space(after[0]) then None
    else
      var s := StripLeft(after);
      var n := WordLength(s);
      if n == 0 || n == |s| then None else Some(Entry(s[..n], StripLeft(s[n..])))
  }

  function Taken(entries: map<string, string>, entry: Option<Entry>): map<string, string> {
    if entry.None? then entries else entries[entry.value.owner := entry.value.rest]
  }

  // The entries of a file; of two lines for one owner the later one counts.
  function Entries(lines: seq<string>): map<string, string> {
    if lines == [] then map[] else Taken(Entries(lines[..|lines| - 1]), ParseLine(lines[|lines| - 1]))
  }

  lemma EntriesStep(lines: seq<string>, line: string)
    ensures Entries(lines + [line]) == Taken(Entries(lines), ParseLine(line))
  {
    assert (lines + [line])[..|lines|] == lines;
  }

  method PendingEntries(text: string) returns (entries: map<string, string>)
    ensures entries == Entries(Lines(text))
  {
    var lines := Lines(text);
    entries := map[];
    for i := 0 to |lines|
      invariant entries == Entries(lines[..i])
    {
      assert lines[..i + 1] == lines[..i] + [lines[i]];
      EntriesStep(lines[..i], lines[i]);
      var entry := ParseLine(lines[i]);
      if entry.None? {
        continue;
      }
      entries := entries[entry.value.owner := entry.value.rest];
    }
    assert lines[..|lines|] == lines;
  }

  // ---------------------------------------------------------------------------------------
  // Writing
  // ---------------------------------------------------------------------------------------

  ghost function Owners(findings: seq<Finding>): set<string> {
    set finding | finding in findings :: finding.owner
  }

  function Of(findings: seq<Finding>, owner: string): seq<Finding> {
    if findings == [] then []
    else
      var n := |findings| - 1;
      Of(findings[..n], owner) + if findings[n].owner == owner then [findings[n]] else []
  }

  // What a new line says after its owner; `Reason` counts the owner's findings and names their rules.
  datatype Context = Context(operations: set<string>, app: map<string, string>, reason: seq<Finding> -> string)

  predicate Printable(c: Context, findings: seq<Finding>) {
    && (forall owner :: owner in c.app ==> OneLine(c.app[owner]))
    && forall f :: f in findings ==>
       var r := c.reason(Of(findings, f.owner)); OneLine(r) && r != "" && !Space(r[|r| - 1])
  }

  function Rest(owner: string, existing: map<string, string>, c: Context, found: seq<Finding>): string {
    if owner in existing then existing[owner]
    else "app " + (if owner in c.app then c.app[owner] else "unknown") + " " + c.reason(found)
  }

  function Line(owner: string, existing: map<string, string>, c: Context, found: seq<Finding>): string {
    (if owner in c.operations then "operation" else "schema") + " " + owner + " " + Rest(owner, existing, c, found)
  }

  function OwnerLines(owners: seq<string>, existing: map<string, string>, c: Context,
                      findings: seq<Finding>): seq<string>
  {
    if owners == [] then []
    else
      var n := |owners| - 1;
      OwnerLines(owners[..n], existing, c, findings) + [Line(owners[n], existing, c, Of(findings, owners[n]))]
  }

  function Join(lines: seq<string>): string {
    if lines == [] then "" else if |lines| == 1 then lines[0] else lines[0] + "\n" + Join(lines[1..])
  }

  // The order the owners are listed in: each once. The source sorts them.
  ghost predicate Lists(owners: seq<string>, findings: seq<Finding>) {
    && (forall i, j :: 0 <= i < j < |owners| ==> owners[i] != owners[j])
    && forall owner :: owner in owners <==> owner in Owners(findings)
  }

  // The lines before the entries, each blank or a comment.
  predicate Header(lines: seq<string>) {
    lines != [] && forall line :: line in lines ==> OneLine(line) && (line == "" || line[0] == '#')
  }

  function Written(header: seq<string>, owners: seq<string>, existing: map<string, string>, c: Context,
                   findings: seq<Finding>): string
  {
    Join(header + OwnerLines(owners, existing, c, findings)) + "\n"
  }

  function Filed(byOwner: map<string, seq<Finding>>, finding: Finding): map<string, seq<Finding>> {
    byOwner[finding.owner := (if finding.owner in byOwner then byOwner[finding.owner] else []) + [finding]]
  }

  ghost predicate Grouped(byOwner: map<string, seq<Finding>>, findings: seq<Finding>) {
    forall owner :: (owner in byOwner <==> owner in Owners(findings)) && Of(findings, owner) == if owner in byOwner
      then byOwner[owner] else []
  }

  lemma GroupedStep(byOwner: map<string, seq<Finding>>, findings: seq<Finding>, finding: Finding)
    requires Grouped(byOwner, findings)
    ensures Grouped(Filed(byOwner, finding), findings + [finding])
  {
    var more := findings + [finding];
    assert more[..|findings|] == findings;
    assert Owners(more) == Owners(findings) + {finding.owner} by {
      assert forall f :: f in more <==> f in findings || f == finding;
    }
  }

  method ByOwner(findings: seq<Finding>) returns (byOwner: map<string, seq<Finding>>)
    ensures byOwner.Keys == Owners(findings)
    ensures forall owner :: owner in byOwner ==> byOwner[owner] == Of(findings, owner)
  {
    byOwner := map[];
    for i := 0 to |findings|
      invariant Grouped(byOwner, findings[..i])
    {
      assert findings[..i + 1] == findings[..i] + [findings[i]];
      GroupedStep(byOwner, findings[..i], findings[i]);
      var owner := findings[i].owner;
      byOwner := byOwner[owner := (if owner in byOwner then byOwner[owner] else []) + [findings[i]]];
    }
    assert findings[..|findings|] == findings;
  }

  lemma OwnerLinesStep(header: seq<string>, owners: seq<string>, i: nat, existing: map<string, string>, c: Context,
                       findings: seq<Finding>)
    requires i < |owners|
    ensures header + OwnerLines(owners[..i + 1], existing, c, findings)
         == header + OwnerLines(owners[..i], existing, c, findings) +
           [Line(owners[i], existing, c, Of(findings, owners[i]))]
  {
    assert owners[..i + 1][..i] == owners[..i];
  }

  method WritePending(header: seq<string>, text: string, findings: seq<Finding>, owners: seq<string>, c: Context)
    returns (written: string)
    requires Lists(owners, findings)
    ensures written == Written(header, owners, Entries(Lines(text)), c, findings)
  {
    var existing := PendingEntries(text);
    var byOwner := ByOwner(findings);
    var lines := header;
    for i := 0 to |owners|
      invariant lines == header + OwnerLines(owners[..i], existing, c, findings)
    {
      var owner := owners[i];
      OwnerLinesStep(header, owners, i, existing, c, findings);
      var kind := if owner in c.operations then "operation" else "schema";
      var rest;
      if owner in existing {
        rest := existing[owner];
      } else {
        var app := if owner in c.app then c.app[owner] else "unknown";
        rest := "app " + app + " " + c.reason(byOwner[owner]);
      }
      lines := lines + [kind + " " + owner + " " + rest];
    }
    assert owners[..|owners|] == owners;
    written := Join(lines) + "\n";
  }

  // ---------------------------------------------------------------------------------------
  // Judging
  // ---------------------------------------------------------------------------------------

  // The gate's exit code is 0: no owner outside the ledger, and no line of it stale where asked.
  method Report(findings: seq<Finding>, pending: map<string, string>, reportStale: bool) returns (passes: bool)
    ensures passes <==> Owners(findings) <= pending.Keys && (reportStale ==> pending.Keys <= Owners(findings))
  {
    var byOwner := ByOwner(findings);
    var unexplained := set owner | owner in byOwner && owner !in pending;
    var stale := if reportStale then set owner | owner in pending && owner !in byOwner else {};
    assert unexplained == Owners(findings) - pending.Keys;
    assert reportStale ==> stale == pending.Keys - Owners(findings);
    NothingLeft(Owners(findings), pending.Keys);
    NothingLeft(pending.Keys, Owners(findings));
    passes := unexplained == {} && stale == {};
  }

  lemma NothingLeft(a: set<string>, b: set<string>)
    ensures a - b == {} <==> a <= b
  {
    if a - b == {} {
      forall x | x in a
        ensures x in b
      {
        assert x !in a - b;
      }
    }
  }

  // ---------------------------------------------------------------------------------------
  // The round trip
  // ---------------------------------------------------------------------------------------

  lemma {:induction false} LineLengthIs(line: string, more: string)
    requires OneLine(line) && (more != "" ==> Break(more[0]))
    ensures LineLength(line + more) == |line|
  {
    if line == "" {
      assert line + more == more;
    } else {
      assert line[0] in line;
      assert (line + more)[1..] == line[1..] + more;
      LineLengthIs(line[1..], more);
    }
  }

  predicate Ending(ending: string, more: string) {
    ending in {"\n", "\r\n", [11 as char], [12 as char]} || (ending == "\r" && (more == "" || more[0] != '\n'))
  }

  // A line ends at its line break, a carriage return with the line feed after it being one; what comes
  // after the last break is a line when there is any of it.
  lemma LineEnds(line: string, ending: string, more: string)
    requires OneLine(line) && Ending(ending, more)
    ensures Lines(line + ending + more) == [line] + Lines(more)
    ensures Lines(line) == if line == "" then [] else [line]
  {
    var text := line + ending + more;
    assert text == line + (ending + more) && line == line + "";
    LineLengthIs(line, ending + more);
    LineLengthIs(line, "");
    assert text[..|line|] == line && text[|line|] == ending[0] && line[..|line|] == line;
    assert text[|line| + |ending|..] == more;
    if more != "" {
      assert text[|line| + |ending|] == more[0];
    }
  }

  lemma LinesStep(line: string, more: string)
    requires OneLine(line)
    ensures Lines(line + "\n" + more) == [line] + Lines(more)
  {
    LineEnds(line, "\n", more);
  }

  lemma {:induction false} SplitsWhatWasJoined(lines: seq<string>)
    requires lines != [] && forall line :: line in lines ==> OneLine(line)
    ensures Lines(Join(lines) + "\n") == lines
  {
    assert lines[0] in lines;
    if |lines| == 1 {
      assert lines[0] + "\n" == lines[0] + "\n" + "";
      LinesStep(lines[0], "");
    } else {
      assert Join(lines) + "\n" == lines[0] + "\n" + (Join(lines[1..]) + "\n");
      LinesStep(lines[0], Join(lines[1..]) + "\n");
      SplitsWhatWasJoined(lines[1..]);
    }
  }

  lemma {:induction false} WordLengthIs(word: string, more: string)
    requires (forall c :: c in word ==> !Space(c)) && (more != "" ==> Space(more[0]))
    ensures WordLength(word + more) == |word|
  {
    if word == "" {
      assert word + more == more;
    } else {
      assert word[0] in word;
      assert (word + more)[1..] == word[1..] + more;
      WordLengthIs(word[1..], more);
    }
  }

  // A rest a line can carry and be read back with.
  predicate Carried(rest: string) {
    rest != "" && Trimmed(rest) && OneLine(rest)
  }

  lemma PrintedIsTrimmed(kind: string, owner: string, rest: string)
    requires kind == "schema" || kind == "operation"
    requires Word(owner) && Carried(rest)
    ensures var line := kind + " " + owner + " " + rest; Strip(line) == line && line[0] != '#' && OneLine(line)
  {
    var line := kind + " " + owner + " " + rest;
    assert line[0] == kind[0] && line[|line| - 1] == rest[|rest| - 1];
    StripTrimmed(line);
    assert OneLine(kind + " ") && OneLine(owner + " ") && OneLine(rest);
    assert line == (kind + " ") + (owner + " ") + rest;
  }

  // After the kind: the owner is the next word, and the rest follows it.
  lemma OwnerAndRest(owner: string, rest: string)
    requires Word(owner) && Carried(rest)
    ensures var s := StripLeft(" " + owner + " " + rest);
            var n := WordLength(s);
            0 < n < |s| && s[..n] == owner && StripLeft(s[n..]) == rest
  {
    var after := " " + owner + " " + rest;
    var s := owner + (" " + rest);
    assert after[1..] == s && owner[0] in owner && s[0] == owner[0];
    assert StripLeft(after) == StripLeft(s) == s;
    WordLengthIs(owner, " " + rest);
    assert s[..|owner|] == owner && s[|owner|..] == " " + rest;
    assert (" " + rest)[1..] == rest;
  }

  lemma ParsesWhatWasPrinted(kind: string, owner: string, rest: string)
    requires kind == "schema" || kind == "operation"
    requires Word(owner) && Carried(rest)
    ensures ParseLine(kind + " " + owner + " " + rest) == Some(Entry(owner, rest))
  {
    var line := kind + " " + owner + " " + rest;
    var after := " " + owner + " " + rest;
    PrintedIsTrimmed(kind, owner, rest);
    assert line == kind + after;
    KindIsCut(kind, after);
    OwnerAndRest(owner, rest);
  }

  lemma KindIsCut(kind: string, after: string)
    requires kind == "schema" || kind == "operation"
    ensures AfterKind(kind + after) == after
  {
    if kind == "schema" {
      assert (kind + after)[6..] == after;
    } else {
      assert (kind + after)[0] == 'o';
      assert (kind + after)[9..] == after;
    }
  }

  predicate Blank(s: string) {
    s != "" && forall c :: c in s ==> Space(c)
  }

  // A line of the ledger as the pattern takes it.
  predicate Reads(line: string, kind: string, gap: string, owner: string, space: string, rest: string) {
    && (kind == "schema" || kind == "operation") && Blank(gap) && Word(owner) && Blank(space)
    && rest != "" && !Space(rest[0])
    && line == kind + gap + owner + space + rest
  }

  lemma {:induction false} StripLeftSplits(s: string) returns (gap: string)
    ensures s == gap + StripLeft(s) && forall c :: c in gap ==> Space(c)
    ensures StripLeft(s) != "" ==> !Space(StripLeft(s)[0])
  {
    if s != "" && Space(s[0]) {
      var more := StripLeftSplits(s[1..]);
      gap := [s[0]] + more;
    } else {
      gap := "";
    }
  }

  lemma {:induction false} StripLeftSkips(gap: string, more: string)
    requires (forall c :: c in gap ==> Space(c)) && more != "" && !Space(more[0])
    ensures StripLeft(gap + more) == more
  {
    if gap == "" {
      assert gap + more == more;
    } else {
      assert gap[0] in gap && (gap + more)[1..] == gap[1..] + more;
      StripLeftSkips(gap[1..], more);
    }
  }

  // A line is an entry exactly when, stripped, it is `schema` or `operation`, white space, a word, white
  // space and something more: the word is then its owner and that its rest. Any other line is passed over.
  lemma ParsesExactly(raw: string, owner: string, rest: string)
    ensures ParseLine(raw) == Some(Entry(owner, rest)) <==>
            exists kind, gap, space :: Reads(Strip(raw), kind, gap, owner, space, rest)
  {
    if ParseLine(raw) == Some(Entry(owner, rest)) {
      var kind, gap, space := ParsedReads(raw, owner, rest);
    }
    forall kind, gap, space | Reads(Strip(raw), kind, gap, owner, space, rest)
      ensures ParseLine(raw) == Some(Entry(owner, rest))
    {
      ReadIsParsed(raw, kind, gap, owner, space, rest);
    }
  }

  lemma ParsedReads(raw: string, owner: string, rest: string) returns (kind: string, gap: string, space: string)
    requires ParseLine(raw) == Some(Entry(owner, rest))
    ensures Reads(Strip(raw), kind, gap, owner, space, rest)
  {
    StripTrims(raw);
    kind := KindThenMore(Strip(raw));
    gap, space := GapThenOwner(AfterKind(Strip(raw)), owner, rest);
    Reassociates(kind, gap, owner, space, rest);
  }

  lemma Reassociates(kind: string, gap: string, owner: string, space: string, rest: string)
    ensures kind + (gap + owner + space + rest) == kind + gap + owner + space + rest
  {
  }

  lemma KindThenMore(line: string) returns (kind: string)
    requires AfterKind(line) != ""
    ensures (kind == "schema" || kind == "operation") && line == kind + AfterKind(line)
    ensures AfterKind(line)[|AfterKind(line)| - 1] == line[|line| - 1]
  {
    kind := if "schema" <= line then "schema" else "operation";
  }

  lemma GapThenOwner(after: string, owner: string, rest: string) returns (gap: string, space: string)
    requires after != "" && Space(after[0]) && !Space(after[|after| - 1])
    requires var s := StripLeft(after);
             0 < WordLength(s) < |s| && s[..WordLength(s)] == owner && StripLeft(s[WordLength(s)..]) == rest
    ensures after == gap + owner + space + rest && Blank(gap) && Word(owner) && Blank(space)
    ensures rest != "" && !Space(rest[0])
  {
    gap := StripLeftSplits(after);
    var s := StripLeft(after);
    assert s[|s| - 1] == after[|after| - 1];
    space := OwnerThenRest(s, owner, rest);
    assert after == gap + (owner + space + rest);
  }

  lemma OwnerThenRest(s: string, owner: string, rest: string) returns (space: string)
    requires s != "" && !Space(s[|s| - 1]) && 0 < WordLength(s) < |s|
    requires s[..WordLength(s)] == owner && StripLeft(s[WordLength(s)..]) == rest
    ensures s == owner + space + rest && Word(owner) && Blank(space) && rest != "" && !Space(rest[0])
  {
    space := StripLeftSplits(s[WordLength(s)..]);
    RestIsThere(s, space, rest);
  }

  // The text is stripped, so what follows the owner does not end in white space.
  lemma RestIsThere(s: string, space: string, rest: string)
    requires s != "" && !Space(s[|s| - 1]) && WordLength(s) < |s| && s[WordLength(s)..] == space + rest
    requires (forall c :: c in space ==> Space(c)) && (rest != "" ==> !Space(rest[0]))
    ensures rest != "" && space != ""
  {
    var tail := s[WordLength(s)..];
    assert forall i :: 0 <= i < |space| ==> space[i] in space;
    assert tail[|tail| - 1] == s[|s| - 1] && Space(tail[0]);
  }

  lemma ReadIsParsed(raw: string, kind: string, gap: string, owner: string, space: string, rest: string)
    requires Reads(Strip(raw), kind, gap, owner, space, rest)
    ensures ParseLine(raw) == Some(Entry(owner, rest))
  {
    var line := Strip(raw);
    var s := owner + (space + rest);
    assert line == kind + (gap + s) && line[0] == kind[0];
    KindIsCut(kind, gap + s);
    assert gap[0] in gap && space[0] in space && owner[0] in owner;
    StripLeftSkips(gap, s);
    WordLengthIs(owner, space + rest);
    StripLeftSkips(space, rest);
    assert s[..|owner|] == owner && s[|owner|..] == space + rest;
  }

  lemma {:induction false} StripLeftIsSuffix(s: string)
    ensures forall c :: c in StripLeft(s) ==> c in s
    ensures s != "" && !Space(s[|s| - 1]) ==> StripLeft(s) != "" && StripLeft(s)[|StripLeft(s)| - 1] == s[|s| - 1]
  {
    if s != [] && Space(s[0]) {
      StripLeftIsSuffix(s[1..]);
    }
  }

  lemma {:induction false} StripRightIsPrefix(s: string)
    ensures forall c :: c in StripRight(s) ==> c in s
  {
    if s != [] && Space(s[|s| - 1]) {
      StripRightIsPrefix(s[..|s| - 1]);
    }
  }

  // What is read from a line is a rest a line can carry.
  lemma ParsedIsCarried(raw: string)
    requires OneLine(raw) && ParseLine(raw).Some?
    ensures Carried(ParseLine(raw).value.rest)
  {
    var line := Strip(raw);
    StripTrims(raw);
    StripLeftIsSuffix(raw);
    StripRightIsPrefix(StripLeft(raw));
    var after := AfterKind(line);
    assert forall c :: c in after ==> c in line;
    assert after[|after| - 1] == line[|line| - 1];
    StripLeftIsSuffix(after);
    var s := StripLeft(after);
    var tail := s[WordLength(s)..];
    assert forall c :: c in tail ==> c in s;
    assert tail[|tail| - 1] == s[|s| - 1];
    StripLeftIsSuffix(tail);
    StripLeftShortens(tail);
  }

  ghost predicate AllCarried(entries: map<string, string>) {
    forall owner :: owner in entries ==> Word(owner) && Carried(entries[owner])
  }

  lemma {:induction false} EntriesAreCarried(lines: seq<string>)
    requires forall line :: line in lines ==> OneLine(line)
    ensures AllCarried(Entries(lines))
  {
    if lines != [] {
      var n := |lines| - 1;
      EntriesAreCarried(lines[..n]);
      assert lines[n] in lines;
      if ParseLine(lines[n]).Some? {
        ParsedIsCarried(lines[n]);
      }
    }
  }

  lemma {:induction false} EveryLineIsOne(text: string)
    ensures forall line :: line in Lines(text) ==> OneLine(line)
  {
    if text != "" {
      var n := LineLength(text);
      var next := if n + 1 < |text| && text[n] == '\r' && text[n + 1] == '\n' then n + 2 else n + 1;
      if next <= |text| {
        EveryLineIsOne(text[next..]);
      }
    }
  }

  lemma {:induction false} HeaderSaysNothing(header: seq<string>)
    requires forall line :: line in header ==> line == "" || line[0] == '#'
    ensures Entries(header) == map[]
  {
    if header != [] {
      var n := |header| - 1;
      HeaderSaysNothing(header[..n]);
      var line := header[n];
      assert line in header;
      if line != "" {
        StripRightShortens(line);
        assert Strip(line) == StripRight(line);
        assert ParseLine(line) == None;
      }
    }
  }

  lemma RestIsCarried(owner: string, existing: map<string, string>, c: Context, findings: seq<Finding>)
    requires AllCarried(existing) && Printable(c, findings) && owner in Owners(findings)
    ensures Carried(Rest(owner, existing, c, Of(findings, owner)))
  {
    if owner !in existing {
      var app := if owner in c.app then c.app[owner] else "unknown";
      var reason := c.reason(Of(findings, owner));
      var rest := "app " + app + " " + reason;
      assert rest[0] == 'a' && rest[|rest| - 1] == reason[|reason| - 1];
    }
  }

  ghost function Recorded(owners: seq<string>, existing: map<string, string>, c: Context,
                          findings: seq<Finding>): map<string, string>
  {
    map owner | owner in owners :: Rest(owner, existing, c, Of(findings, owner))
  }

  lemma LineReadsBack(lines: seq<string>, owner: string, existing: map<string, string>, c: Context,
                      findings: seq<Finding>)
    requires AllCarried(existing) && Printable(c, findings) && owner in Owners(findings) && Word(owner)
    ensures var rest := Rest(owner, existing, c, Of(findings, owner));
            var line := Line(owner, existing, c, Of(findings, owner));
            OneLine(line) && Entries(lines + [line]) == Entries(lines)[owner := rest]
  {
    var kind := if owner in c.operations then "operation" else "schema";
    var rest := Rest(owner, existing, c, Of(findings, owner));
    RestIsCarried(owner, existing, c, findings);
    PrintedIsTrimmed(kind, owner, rest);
    ParsesWhatWasPrinted(kind, owner, rest);
    EntriesStep(lines, kind + " " + owner + " " + rest);
  }

  lemma {:induction false} OwnerLinesReadBack(header: seq<string>, owners: seq<string>, existing: map<string, string>,
                                              c: Context, findings: seq<Finding>)
    requires Header(header) && AllCarried(existing) && Printable(c, findings)
    requires forall owner :: owner in owners ==> owner in Owners(findings) && Word(owner)
    ensures Entries(header + OwnerLines(owners, existing, c, findings)) == Recorded(owners, existing, c, findings)
    ensures forall line :: line in OwnerLines(owners, existing, c, findings) ==> OneLine(line)
  {
    if owners == [] {
      assert header + [] == header;
      HeaderSaysNothing(header);
    } else {
      var n := |owners| - 1;
      var first := OwnerLines(owners[..n], existing, c, findings);
      OwnerLinesReadBack(header, owners[..n], existing, c, findings);
      LineReadsBack(header + first, owners[n], existing, c, findings);
      assert header + (first + [Line(owners[n], existing, c, Of(findings, owners[n]))])
          == header + first + [Line(owners[n], existing, c, Of(findings, owners[n]))];
      RecordedStep(owners, existing, c, findings);
    }
  }

  lemma RecordedStep(owners: seq<string>, existing: map<string, string>, c: Context, findings: seq<Finding>)
    requires owners != []
    ensures var n := |owners| - 1;
            Recorded(owners, existing, c, findings)
            == Recorded(owners[..n], existing, c, findings)[owners[n] :=
              Rest(owners[n], existing, c, Of(findings, owners[n]))]
  {
    assert owners == owners[..|owners| - 1] + [owners[|owners| - 1]];
  }

  // A written file's entries are words, and reading a file with words for owners gives each of them.
  lemma WrittenReadsBack(header: seq<string>, existing: map<string, string>, findings: seq<Finding>,
                         owners: seq<string>, c: Context)
    requires Header(header) && AllCarried(existing) && Printable(c, findings) && Lists(owners, findings)
    requires forall owner :: owner in Owners(findings) ==> Word(owner)
    ensures Entries(Lines(Written(header, owners, existing, c, findings))) == Recorded(owners, existing, c, findings)
  {
    OwnerLinesReadBack(header, owners, existing, c, findings);
    SplitsWhatWasJoined(header + OwnerLines(owners, existing, c, findings));
  }

  // Whatever the ledger held before: after a write it reads back as exactly the owners with
  // findings, each with the reason recorded for it before if there was one. The owners the reading
  // can give are words, so this holds exactly when every owner is one.
  lemma ReadsBackExactly(header: seq<string>, before: string, findings: seq<Finding>, owners: seq<string>, c: Context)
    requires Header(header) && Printable(c, findings) && Lists(owners, findings)
    ensures var existing := Entries(Lines(before));
            var after := Entries(Lines(Written(header, owners, existing, c, findings)));
            (after.Keys == Owners(findings) <==> forall owner :: owner in Owners(findings) ==> Word(owner)) &&
            (after.Keys == Owners(findings) ==>
              forall owner :: owner in after ==>
                after[owner] == if owner in existing then existing[owner]
                  else Rest(owner, map[], c, Of(findings, owner)))
  {
    var existing := Entries(Lines(before));
    EveryLineIsOne(before);
    EntriesAreCarried(Lines(before));
    var text := Written(header, owners, existing, c, findings);
    EveryLineIsOne(text);
    EntriesAreCarried(Lines(text));
    if forall owner :: owner in Owners(findings) ==> Word(owner) {
      WrittenReadsBack(header, existing, findings, owners, c);
      assert Recorded(owners, existing, c, findings).Keys == Owners(findings);
    }
  }

  // So the gate passes right after a write, and on later findings it passes exactly when the set of
  // owners is unchanged.
  lemma PassesUntilOwnersChange(header: seq<string>, before: string, findings: seq<Finding>, owners: seq<string>,
                                c: Context, later: seq<Finding>)
    requires Header(header) && Printable(c, findings) && Lists(owners, findings)
    requires forall finding :: finding in findings ==> Word(finding.owner)
    ensures var pending := Entries(Lines(Written(header, owners, Entries(Lines(before)), c, findings)));
            (Owners(later) <= pending.Keys && pending.Keys <= Owners(later)) <==> Owners(later) == Owners(findings)
  {
    ReadsBackExactly(header, before, findings, owners, c);
  }

  // Writing again on the same findings changes no character of the file.
  lemma WritingTwiceIsWritingOnce(header: seq<string>, before: string, findings: seq<Finding>, owners: seq<string>,
                                  c: Context)
    requires Header(header) && Printable(c, findings) && Lists(owners, findings)
    requires forall finding :: finding in findings ==> Word(finding.owner)
    ensures var once := Written(header, owners, Entries(Lines(before)), c, findings);
            Written(header, owners, Entries(Lines(once)), c, findings) == once
  {
    var existing := Entries(Lines(before));
    var once := Written(header, owners, existing, c, findings);
    ReadsBackExactly(header, before, findings, owners, c);
    SameLines(owners, existing, Entries(Lines(once)), c, findings);
  }

  lemma {:induction false} SameLines(owners: seq<string>, existing: map<string, string>, now: map<string, string>,
                                     c: Context, findings: seq<Finding>)
    requires forall owner :: owner in owners ==>
             owner in now && now[owner] == Rest(owner, existing, c, Of(findings, owner))
    ensures OwnerLines(owners, existing, c, findings) == OwnerLines(owners, now, c, findings)
  {
    if owners != [] {
      SameLines(owners[..|owners| - 1], existing, now, c, findings);
      assert owners[|owners| - 1] in owners;
    }
  }
}
