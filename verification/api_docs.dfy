// The API documentation gate: which component schemas an operation reaches, and where a chain of
// references leads.

module ApiDocs {
  import opened Options

  // ---------------------------------------------------------------------------------------
  // Reachable schemas
  // ---------------------------------------------------------------------------------------

  // A JSON value; an object's fields in order.
  datatype Json = Obj(fields: seq<Field>) | Arr(items: seq<Json>) | Str(text: string) | Atom
  datatype Field = Field(name: string, value: Json)

  const EMPTY := Obj([])
  const REF := "$ref"
  const SCHEMAS := "#/components/schemas/"

  function Get(fields: seq<Field>, name: string): Option<Json> {
    if fields == [] then None
    else if fields[0].name == name then Some(fields[0].value)
    else Get(fields[1..], name)
  }

  // The part of a reference after its last slash.
  function LastSegment(s: string): string {
    if s == "" || s[|s| - 1] == '/' then "" else LastSegment(s[..|s| - 1]) + [s[|s| - 1]]
  }

  // The schema an object refers to, when it does.
  function RefName(fields: seq<Field>): Option<string> {
    var ref := Get(fields, REF);
    if ref.Some? && ref.value.Str? && SCHEMAS <= ref.value.text then Some(LastSegment(ref.value.text)) else None
  }

  function Schema(schemas: map<string, Json>, name: string): Json {
    if name in schemas then schemas[name] else EMPTY
  }

  predicate NoSlash(name: string) {
    forall i :: 0 <= i < |name| ==> name[i] != '/'
  }

  lemma {:induction false} LastSegmentIs(before: string, name: string)
    requires NoSlash(name)
    ensures LastSegment(name) == name && LastSegment(before + "/" + name) == name
  {
    if name == "" {
      assert before + "/" + name == before + "/";
    } else {
      var n := |name| - 1;
      LastSegmentIs(before, name[..n]);
      assert (before + "/" + name)[..|before| + 1 + n] == before + "/" + name[..n];
      assert name == name[..n] + [name[n]];
    }
  }

  // The first `$ref` of an object decides: it refers to a component schema exactly when it is text that
  // says so, and then to the name after the last slash.
  lemma RefNameMeans(fields: seq<Field>, i: nat, name: string)
    requires i < |fields| && fields[i].name == "$ref" && forall j :: 0 <= j < i ==> fields[j].name != "$ref"
    requires NoSlash(name)
    ensures RefName(fields).Some? <==> fields[i].value.Str? && "#/components/schemas/" <= fields[i].value.text
    ensures fields[i].value == Str("#/components/schemas/" + name) ==> RefName(fields) == Some(name)
  {
    FirstIsGot(fields, "$ref", i);
    LastSegmentIs("#/components/schemas", name);
    assert "#/components/schemas" + "/" + name == "#/components/schemas/" + name;
  }

  lemma {:induction false} FirstIsGot(fields: seq<Field>, name: string, i: nat)
    requires i < |fields| && fields[i].name == name && forall j :: 0 <= j < i ==> fields[j].name != name
    ensures Get(fields, name) == Some(fields[i].value)
  {
    if 0 < i {
      FirstIsGot(fields[1..], name, i - 1);
    }
  }

  lemma {:induction false} NoneIsGot(fields: seq<Field>, name: string)
    requires forall j :: 0 <= j < |fields| ==> fields[j].name != name
    ensures Get(fields, name) == None
  {
    if fields != [] {
      NoneIsGot(fields[1..], name);
    }
  }

  lemma NoRef(fields: seq<Field>)
    requires forall j :: 0 <= j < |fields| ==> fields[j].name != "$ref"
    ensures RefName(fields) == None
  {
    NoneIsGot(fields, "$ref");
  }

  // The names a node refers to directly, at any depth.
  function Names(node: Json): set<string> {
    match node
    case Obj(fields) => (if RefName(fields).Some? then {RefName(fields).value} else {}) + NamesOfFields(fields)
    case Arr(items) => NamesOfItems(items)
    case _ => {}
  }

  function NamesOfFields(fields: seq<Field>): set<string> {
    if fields == [] then {} else Names(fields[0].value) + NamesOfFields(fields[1..])
  }

  function NamesOfItems(items: seq<Json>): set<string> {
    if items == [] then {} else Names(items[0]) + NamesOfItems(items[1..])
  }

  // Every name newly in `now` has all its own names there.
  ghost predicate Explored(schemas: map<string, Json>, before: set<string>, now: set<string>) {
    forall name :: name in now && name !in before ==> Names(Schema(schemas, name)) <= now
  }

  // Every name in the set has all its own names there.
  ghost predicate Closed(schemas: map<string, Json>, names: set<string>) {
    forall name :: name in names ==> Names(Schema(schemas, name)) <= names
  }

  // The search with the `seen` set handed on from branch to branch. A name no schema has reads as
  // the empty object, which refers to nothing.
  function Reach(node: Json, schemas: map<string, Json>, seen: set<string>): (now: set<string>)
    ensures seen + Names(node) <= now
    ensures Explored(schemas, seen, now)
    decreases schemas.Keys - seen, node
  {
    match node
    case Obj(fields) =>
      var name := RefName(fields);
      var entered :=
        if name.None? || name.value in seen then seen
        else if name.value in schemas then Reach(schemas[name.value], schemas, seen + {name.value})
        else seen + {name.value};
      ReachFields(fields, schemas, entered)
    case Arr(items) => ReachItems(items, schemas, seen)
    case _ => seen
  }

  function ReachFields(fields: seq<Field>, schemas: map<string, Json>, seen: set<string>): (now: set<string>)
    ensures seen + NamesOfFields(fields) <= now
    ensures Explored(schemas, seen, now)
    decreases schemas.Keys - seen, fields
  {
    if fields == [] then seen else ReachFields(fields[1..], schemas, Reach(fields[0].value, schemas, seen))
  }

  function ReachItems(items: seq<Json>, schemas: map<string, Json>, seen: set<string>): (now: set<string>)
    ensures seen + NamesOfItems(items) <= now
    ensures Explored(schemas, seen, now)
    decreases schemas.Keys - seen, items
  {
    if items == [] then seen else ReachItems(items[1..], schemas, Reach(items[0], schemas, seen))
  }

  // Whatever holds what was seen and the node's names, and is closed under references, holds it all.
  lemma {:induction false} ReachIsLeast(node: Json, schemas: map<string, Json>, seen: set<string>, names: set<string>)
    requires seen + Names(node) <= names && Closed(schemas, names)
    ensures Reach(node, schemas, seen) <= names
    decreases schemas.Keys - seen, node
  {
    match node {
      case Obj(fields) =>
        var name := RefName(fields);
        var entered := seen;
        if name.Some? && name.value !in seen {
          entered := seen + {name.value};
          if name.value in schemas {
            ReachIsLeast(schemas[name.value], schemas, seen + {name.value}, names);
            entered := Reach(schemas[name.value], schemas, seen + {name.value});
          }
        }
        ReachFieldsIsLeast(fields, schemas, entered, names);
      case Arr(items) => ReachItemsIsLeast(items, schemas, seen, names);
      case _ =>
    }
  }

  lemma {:induction false} ReachFieldsIsLeast(fields: seq<Field>, schemas: map<string, Json>, seen: set<string>,
                                              names: set<string>)
    requires seen + NamesOfFields(fields) <= names && Closed(schemas, names)
    ensures ReachFields(fields, schemas, seen) <= names
    decreases schemas.Keys - seen, fields
  {
    if fields != [] {
      ReachIsLeast(fields[0].value, schemas, seen, names);
      ReachFieldsIsLeast(fields[1..], schemas, Reach(fields[0].value, schemas, seen), names);
    }
  }

  lemma {:induction false} ReachItemsIsLeast(items: seq<Json>, schemas: map<string, Json>, seen: set<string>,
                                             names: set<string>)
    requires seen + NamesOfItems(items) <= names && Closed(schemas, names)
    ensures ReachItems(items, schemas, seen) <= names
    decreases schemas.Keys - seen, items
  {
    if items != [] {
      ReachIsLeast(items[0], schemas, seen, names);
      ReachItemsIsLeast(items[1..], schemas, Reach(items[0], schemas, seen), names);
    }
  }

  // From nothing seen, the search returns exactly the least set of names that holds the node's own
  // and is closed under references, on cyclic schemas too.
  lemma ReferencedIsLeastClosed(node: Json, schemas: map<string, Json>)
    ensures var names := Reach(node, schemas, {});
            && Names(node) <= names && Closed(schemas, names)
            && forall other: set<string> :: Names(node) <= other && Closed(schemas, other) ==> names <= other
  {
    forall other: set<string> | Names(node) <= other && Closed(schemas, other)
      ensures Reach(node, schemas, {}) <= other
    {
      ReachIsLeast(node, schemas, {}, other);
    }
  }

  // The set the search shares and changes.
  class Seen {
    var names: set<string>

    constructor ()
      ensures names == {}
    {
      names := {};
    }

    method Visit(node: Json, schemas: map<string, Json>)
      modifies this
      ensures names == Reach(node, schemas, old(names))
      decreases schemas.Keys - names, node, 1
    {
      match node {
        case Obj(fields) =>
          var name := RefName(fields);
          if name.Some? && name.value !in names {
            names := names + {name.value};
            if name.value in schemas {
              Visit(schemas[name.value], schemas);
            }
          }
          VisitFields(fields, schemas);
        case Arr(items) =>
          VisitItems(items, schemas);
        case _ =>
      }
    }

    method VisitFields(fields: seq<Field>, schemas: map<string, Json>)
      modifies this
      ensures names == ReachFields(fields, schemas, old(names))
      decreases schemas.Keys - names, fields, 0
    {
      for i := 0 to |fields|
        invariant old(names) <= names
        invariant ReachFields(fields[i..], schemas, names) == ReachFields(fields, schemas, old(names))
      {
        assert fields[i..][1..] == fields[i + 1..] && fields[i] in fields;
        Visit(fields[i].value, schemas);
      }
    }

    method VisitItems(items: seq<Json>, schemas: map<string, Json>)
      modifies this
      ensures names == ReachItems(items, schemas, old(names))
      decreases schemas.Keys - names, items, 0
    {
      for i := 0 to |items|
        invariant old(names) <= names
        invariant ReachItems(items[i..], schemas, names) == ReachItems(items, schemas, old(names))
      {
        assert items[i..][1..] == items[i + 1..] && items[i] in items;
        Visit(items[i], schemas);
      }
    }
  }

  // ---------------------------------------------------------------------------------------
  // Following a chain of references
  // ---------------------------------------------------------------------------------------

  // `resolve` reads the reference of an object without asking where it points; every reference of
  // the published contract is text.
  function Next(schema: Json, schemas: map<string, Json>): Option<Json> {
    if schema.Obj? && Get(schema.fields, REF).Some? && Get(schema.fields, REF).value.Str?
    then Some(Schema(schemas, LastSegment(Get(schema.fields, REF).value.text)))
    else None
  }

  function Hop(schema: Json, schemas: map<string, Json>): string
    requires Next(schema, schemas).Some?
  {
    LastSegment(Get(schema.fields, REF).value.text)
  }

  // What one hop is: the first `$ref` decides, wherever it points; its last segment names the schema,
  // and a name no schema has is the empty object. Without one, or with one that is no text, the chain
  // ends.
  lemma NextMeans(fields: seq<Field>, i: nat, before: string, name: string, schemas: map<string, Json>)
    requires i < |fields| && fields[i].name == "$ref" && forall j :: 0 <= j < i ==> fields[j].name != "$ref"
    requires NoSlash(name)
    ensures Next(Obj(fields), schemas).Some? <==> fields[i].value.Str?
    ensures fields[i].value == Str(name) || fields[i].value == Str(before + "/" + name) ==>
              && Hop(Obj(fields), schemas) == name
              && Next(Obj(fields), schemas) == Some(if name in schemas then schemas[name] else Obj([]))
  {
    FirstIsGot(fields, "$ref", i);
    LastSegmentIs(before, name);
  }

  lemma {:induction false} NothingNext(schema: Json, schemas: map<string, Json>)
    requires schema.Obj? ==> forall j :: 0 <= j < |schema.fields| ==> schema.fields[j].name != "$ref"
    ensures Next(schema, schemas) == None
  {
    if schema.Obj? {
      NoneIsGot(schema.fields, "$ref");
    }
  }

  function Follow(schema: Json, schemas: map<string, Json>, hops: nat): Json {
    if hops == 0 then schema
    else
      var before := Follow(schema, schemas, hops - 1);
      if Next(before, schemas).Some? then Next(before, schemas).value else before
  }

  ghost predicate Ends(start: Json, schemas: map<string, Json>, schema: Json) {
    exists hops: nat :: schema == Follow(start, schemas, hops)
  }

  ghost predicate NeverEnds(start: Json, schemas: map<string, Json>) {
    forall hops: nat :: Next(Follow(start, schemas, hops), schemas).Some?
  }

  // Each of the first `hops` places of the chain refers on.
  ghost predicate GoesOn(start: Json, schemas: map<string, Json>, hops: nat) {
    forall h: nat :: h < hops ==> Next(Follow(start, schemas, h), schemas).Some?
  }

  // `at` says after how many hops the chain stood at each name it has passed.
  ghost predicate Passed(start: Json, schemas: map<string, Json>, at: map<string, nat>, hops: nat) {
    forall name :: name in at ==> 0 < at[name] <= hops && Follow(start, schemas, at[name]) == Schema(schemas, name)
  }

  // Where the chain ends the method stands; a chain that comes back to a name never ends, and reads
  // as the empty object.
  method Resolve(start: Json, schemas: map<string, Json>) returns (schema: Json)
    ensures Next(schema, schemas).None?
    ensures if NeverEnds(start, schemas) then schema == EMPTY else Ends(start, schemas, schema)
  {
    schema := start;
    var seen: set<string> := {};
    ghost var hops: nat := 0;
    ghost var at: map<string, nat> := map[];
    while Next(schema, schemas).Some?
      invariant schema == Follow(start, schemas, hops)
      invariant at.Keys == seen && Passed(start, schemas, at, hops) && GoesOn(start, schemas, hops)
      decreases schemas.Keys - seen, Next(schema, schemas).Some?
    {
      var name := Hop(schema, schemas);
      OneHop(start, schemas, at, hops, name);
      if name in seen {
        return EMPTY;
      }
      seen := seen + {name};
      hops := hops + 1;
      at := at[name := hops];
      schema := Schema(schemas, name);
    }
    EndsHere(start, schemas, hops);
  }

  lemma EndsHere(start: Json, schemas: map<string, Json>, hops: nat)
    requires Next(Follow(start, schemas, hops), schemas).None?
    ensures !NeverEnds(start, schemas) && Ends(start, schemas, Follow(start, schemas, hops))
  {
  }

  // What one pass of the loop needs: the next place is the name's schema, a name passed before closes
  // a chain that never ends, and a name no schema has ends it.
  lemma OneHop(start: Json, schemas: map<string, Json>, at: map<string, nat>, hops: nat, name: string)
    requires Next(Follow(start, schemas, hops), schemas).Some? && name == Hop(Follow(start, schemas, hops), schemas)
    requires Passed(start, schemas, at, hops) && GoesOn(start, schemas, hops)
    ensures Follow(start, schemas, hops + 1) == Schema(schemas, name)
    ensures Passed(start, schemas, at[name := hops + 1], hops + 1) && GoesOn(start, schemas, hops + 1)
    ensures Next(EMPTY, schemas).None? && (name !in schemas ==> Next(Schema(schemas, name), schemas).None?)
    ensures name in at ==> NeverEnds(start, schemas)
  {
    HopFollows(start, schemas, hops, name);
    NothingFollows(schemas);
    if name in at {
      LoopsForEver(start, schemas, at[name], hops + 1);
    }
  }

  lemma HopFollows(start: Json, schemas: map<string, Json>, hops: nat, name: string)
    requires Next(Follow(start, schemas, hops), schemas).Some? && name == Hop(Follow(start, schemas, hops), schemas)
    requires GoesOn(start, schemas, hops)
    ensures Follow(start, schemas, hops + 1) == Schema(schemas, name)
    ensures GoesOn(start, schemas, hops + 1)
  {
  }

  lemma NothingFollows(schemas: map<string, Json>)
    ensures Next(EMPTY, schemas).None?
  {
  }

  lemma {:induction false} FollowAdds(start: Json, schemas: map<string, Json>, a: nat, b: nat)
    ensures Follow(start, schemas, a + b) == Follow(Follow(start, schemas, a), schemas, b)
  {
    if 0 < b {
      FollowAdds(start, schemas, a, b - 1);
    }
  }

  lemma LoopsForEver(start: Json, schemas: map<string, Json>, a: nat, b: nat)
    requires a < b && Follow(start, schemas, a) == Follow(start, schemas, b)
    requires GoesOn(start, schemas, b)
    ensures NeverEnds(start, schemas)
  {
    forall h: nat
      ensures Next(Follow(start, schemas, h), schemas).Some?
    {
      LoopAt(start, schemas, a, b, h);
    }
  }

  lemma {:induction false} LoopAt(start: Json, schemas: map<string, Json>, a: nat, b: nat, h: nat)
    requires a < b && Follow(start, schemas, a) == Follow(start, schemas, b)
    requires GoesOn(start, schemas, b)
    ensures Next(Follow(start, schemas, h), schemas).Some?
    decreases h
  {
    if b <= h {
      FollowAdds(start, schemas, a, h - b);
      FollowAdds(start, schemas, b, h - b);
      LoopAt(start, schemas, a, b, a + (h - b));
    }
  }
}
