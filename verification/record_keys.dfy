// The record-content rule of the compliance lint: which constant keys a value passed to `record()`
// can carry.

module RecordKeys {
  import opened Options

  // Keys are read through dicts, lists, conditionals, names bound in the same scope, subscript stores
  // and helpers of the same module. What is already being read is kept on a path-local `seen` set of
  // names and helpers, so the reading ends on cyclic bindings.

  // A constant string key and where it stands in the file.
  datatype Key = Key(text: string, at: nat)

  datatype Expr =
    | Dict(keys: seq<Option<Key>>, values: seq<Expr>)          // None: a key that is no constant string
    | Items(items: seq<Expr>)                                  // list, tuple, set, boolean operator
    | Each(elt: Expr)                                          // list or set comprehension, generator
    | EachPair(pairKey: Option<Key>, pairValue: Expr)          // dict comprehension
    | Choice(body: Expr, orelse: Expr)
    | Name(id: string)
    | Call(callee: Option<string>, args: seq<Expr>, names: seq<Option<Key>>, named: seq<Expr>)
    | Other

  datatype Target = ToName(id: string) | ToItem(id: string, key: Option<Key>) | ToOther

  datatype Binding = Binding(targets: seq<Target>, value: Expr)

  // What the walk over one function, or over the module, finds: its assignments and its returns.
  // A bare return is `Other`.
  datatype Scope = Scope(bindings: seq<Binding>, answers: seq<Expr>)

  // `functions` are the module's own, by name; `ids` is every identifier of the file.
  datatype Program = Program(scopes: map<nat, Scope>, functions: map<string, nat>, ids: set<string>)

  const DICT := "dict"

  // ---------------------------------------------------------------------------------------
  // What the file holds
  // ---------------------------------------------------------------------------------------

  predicate Knows(ids: set<string>, e: Expr) {
    match e
    case Dict(_, values) => KnowsAll(ids, values)
    case Items(items) => KnowsAll(ids, items)
    case Each(elt) => Knows(ids, elt)
    case EachPair(_, value) => Knows(ids, value)
    case Choice(body, orelse) => Knows(ids, body) && Knows(ids, orelse)
    case Name(id) => id in ids
    case Call(callee, args, _, named) => (callee.Some? ==> callee.value in ids) && KnowsAll(ids, args) &&
      KnowsAll(ids, named)
    case Other => true
  }

  predicate KnowsAll(ids: set<string>, es: seq<Expr>) {
    es == [] || (Knows(ids, es[0]) && KnowsAll(ids, es[1..]))
  }

  predicate KnowsBindings(ids: set<string>, bindings: seq<Binding>) {
    bindings == [] || (Knows(ids, bindings[0].value) && KnowsBindings(ids, bindings[1..]))
  }

  ghost predicate Parsed(p: Program) {
    && (forall s :: s in p.scopes ==>
       KnowsBindings(p.ids, p.scopes[s].bindings) && KnowsAll(p.ids, p.scopes[s].answers))
    && (forall f :: f in p.functions ==> p.functions[f] in p.scopes)
  }

  // ---------------------------------------------------------------------------------------
  // The reading
  // ---------------------------------------------------------------------------------------

  function Constants(keys: seq<Option<Key>>): seq<Key> {
    if keys == [] then []
    else if keys[0].Some? then [keys[0].value] + Constants(keys[1..])
    else Constants(keys[1..])
  }

  function ValueKeys(p: Program, e: Expr, scope: nat, seen: set<string>): seq<Key>
    requires Parsed(p) && scope in p.scopes && Knows(p.ids, e)
    decreases p.ids - seen, e
  {
    match e
    case Dict(keys, values) => Constants(keys) + AllKeys(p, values, scope, seen)
    case Items(items) => AllKeys(p, items, scope, seen)
    case Each(elt) => ValueKeys(p, elt, scope, seen)
    case EachPair(key, value) => Constants([key]) + ValueKeys(p, value, scope, seen)
    case Choice(body, orelse) => ValueKeys(p, body, scope, seen) + ValueKeys(p, orelse, scope, seen)
    case Name(id) =>
      if id in seen then [] else BoundKeys(p, id, p.scopes[scope].bindings, scope, seen + {id})
    case Call(callee, args, names, named) =>
      if callee == Some(DICT) then Constants(names) + AllKeys(p, args, scope, seen) + AllKeys(p, named, scope, seen)
      else if callee.Some? && callee.value in p.functions && callee.value !in seen then
        var helper := p.functions[callee.value];
        AllKeys(p, p.scopes[helper].answers, helper, seen + {callee.value})
      else []
    case Other => []
  }

  function AllKeys(p: Program, es: seq<Expr>, scope: nat, seen: set<string>): seq<Key>
    requires Parsed(p) && scope in p.scopes && KnowsAll(p.ids, es)
    decreases p.ids - seen, es
  {
    if es == [] then [] else ValueKeys(p, es[0], scope, seen) + AllKeys(p, es[1..], scope, seen)
  }

  // What one assignment gives the name: its value's keys once for each target that is the name or
  // an item of it, the item's own constant key first.
  function TargetKeys(targets: seq<Target>, name: string, bound: seq<Key>): seq<Key> {
    if targets == [] then []
    else
      (match targets[0]
       case ToName(id) => if id == name then bound else []
       case ToItem(id, key) => if id == name then Constants([key]) + bound else []
       case ToOther => [])
      + TargetKeys(targets[1..], name, bound)
  }

  function BoundKeys(p: Program, name: string, bindings: seq<Binding>, scope: nat, seen: set<string>): seq<Key>
    requires Parsed(p) && scope in p.scopes && KnowsBindings(p.ids, bindings)
    decreases p.ids - seen, bindings
  {
    if bindings == [] then []
    else
      TargetKeys(bindings[0].targets, name, ValueKeys(p, bindings[0].value, scope, seen))
      + BoundKeys(p, name, bindings[1..], scope, seen)
  }

  // ---------------------------------------------------------------------------------------
  // What a value holds: a graph of names and helpers
  // ---------------------------------------------------------------------------------------

  datatype Node = Variable(scope: nat, id: string) | Helper(callee: string)

  // What `seen` remembers of a node: its name alone.
  function Label(n: Node): string {
    match n case Variable(_, id) => id case Helper(callee) => callee
  }

  function KeySet(keys: seq<Key>): set<Key> {
    set k | k in keys
  }

  // The keys an expression itself writes, and the names and helpers it hands on to.
  function Direct(p: Program, e: Expr): set<Key> {
    match e
    case Dict(keys, values) => KeySet(Constants(keys)) + DirectAll(p, values)
    case Items(items) => DirectAll(p, items)
    case Each(elt) => Direct(p, elt)
    case EachPair(key, value) => KeySet(Constants([key])) + Direct(p, value)
    case Choice(body, orelse) => Direct(p, body) + Direct(p, orelse)
    case Name(_) => {}
    case Call(callee, args, names, named) =>
      if callee == Some(DICT) then KeySet(Constants(names)) + DirectAll(p, args) + DirectAll(p, named) else {}
    case Other => {}
  }

  function DirectAll(p: Program, es: seq<Expr>): set<Key> {
    if es == [] then {} else Direct(p, es[0]) + DirectAll(p, es[1..])
  }

  function Refs(p: Program, e: Expr, scope: nat): set<Node> {
    match e
    case Dict(_, values) => RefsAll(p, values, scope)
    case Items(items) => RefsAll(p, items, scope)
    case Each(elt) => Refs(p, elt, scope)
    case EachPair(_, value) => Refs(p, value, scope)
    case Choice(body, orelse) => Refs(p, body, scope) + Refs(p, orelse, scope)
    case Name(id) => {Variable(scope, id)}
    case Call(callee, args, _, named) =>
      if callee == Some(DICT) then RefsAll(p, args, scope) + RefsAll(p, named, scope)
      else if callee.Some? && callee.value in p.functions then {Helper(callee.value)}
      else {}
    case Other => {}
  }

  function RefsAll(p: Program, es: seq<Expr>, scope: nat): set<Node> {
    if es == [] then {} else Refs(p, es[0], scope) + RefsAll(p, es[1..], scope)
  }

  predicate Binds(targets: seq<Target>, name: string) {
    exists i :: 0 <= i < |targets| && (targets[i] == ToName(name) || (targets[i].ToItem? && targets[i].id == name))
  }

  // The constant keys subscript stores to the name write.
  function ItemKeys(targets: seq<Target>, name: string): set<Key> {
    set i | 0 <= i < |targets| && targets[i].ToItem? && targets[i].id == name &&
      targets[i].key.Some? :: targets[i].key.value
  }

  function BindingKeys(p: Program, name: string, bindings: seq<Binding>): set<Key> {
    if bindings == [] then {}
    else
      ItemKeys(bindings[0].targets, name)
      + (if Binds(bindings[0].targets, name) then Direct(p, bindings[0].value) else {})
      + BindingKeys(p, name, bindings[1..])
  }

  function BindingRefs(p: Program, name: string, bindings: seq<Binding>, scope: nat): set<Node> {
    if bindings == [] then {}
    else
      (if Binds(bindings[0].targets, name) then Refs(p, bindings[0].value, scope) else {})
      + BindingRefs(p, name, bindings[1..], scope)
  }

  predicate InProgram(p: Program, n: Node) {
    match n
    case Variable(scope, id) => scope in p.scopes && id in p.ids
    case Helper(callee) => callee in p.functions && callee in p.ids
  }

  function NodeKeys(p: Program, n: Node): set<Key>
    requires Parsed(p) && InProgram(p, n)
  {
    match n
    case Variable(scope, id) => BindingKeys(p, id, p.scopes[scope].bindings)
    case Helper(callee) => DirectAll(p, p.scopes[p.functions[callee]].answers)
  }

  function NodeRefs(p: Program, n: Node): set<Node>
    requires Parsed(p) && InProgram(p, n)
  {
    match n
    case Variable(scope, id) => BindingRefs(p, id, p.scopes[scope].bindings, scope)
    case Helper(callee) => RefsAll(p, p.scopes[p.functions[callee]].answers, p.functions[callee])
  }

  ghost predicate AllInProgram(p: Program, nodes: set<Node>) {
    forall n :: n in nodes ==> InProgram(p, n)
  }

  lemma {:induction false} RefsInProgram(p: Program, e: Expr, scope: nat)
    requires Parsed(p) && scope in p.scopes && Knows(p.ids, e)
    ensures AllInProgram(p, Refs(p, e, scope))
    decreases e
  {
    match e
    case Dict(_, values) => RefsAllInProgram(p, values, scope);
    case Items(items) => RefsAllInProgram(p, items, scope);
    case Each(elt) => RefsInProgram(p, elt, scope);
    case EachPair(_, value) => RefsInProgram(p, value, scope);
    case Choice(body, orelse) =>
      RefsInProgram(p, body, scope);
      RefsInProgram(p, orelse, scope);
    case Call(_, args, _, named) =>
      RefsAllInProgram(p, args, scope);
      RefsAllInProgram(p, named, scope);
    case _ =>
  }

  lemma {:induction false} RefsAllInProgram(p: Program, es: seq<Expr>, scope: nat)
    requires Parsed(p) && scope in p.scopes && KnowsAll(p.ids, es)
    ensures AllInProgram(p, RefsAll(p, es, scope))
    decreases es
  {
    if es != [] {
      RefsInProgram(p, es[0], scope);
      RefsAllInProgram(p, es[1..], scope);
    }
  }

  lemma {:induction false} BindingRefsInProgram(p: Program, name: string, bindings: seq<Binding>, scope: nat)
    requires Parsed(p) && scope in p.scopes && KnowsBindings(p.ids, bindings)
    ensures AllInProgram(p, BindingRefs(p, name, bindings, scope))
  {
    if bindings != [] {
      RefsInProgram(p, bindings[0].value, scope);
      BindingRefsInProgram(p, name, bindings[1..], scope);
    }
  }

  lemma NodeRefsInProgram(p: Program, n: Node)
    requires Parsed(p) && InProgram(p, n)
    ensures AllInProgram(p, NodeRefs(p, n))
  {
    match n
    case Variable(scope, id) => BindingRefsInProgram(p, id, p.scopes[scope].bindings, scope);
    case Helper(callee) => RefsAllInProgram(p, p.scopes[p.functions[callee]].answers, p.functions[callee]);
  }

  // ---------------------------------------------------------------------------------------
  // One node read with what is already seen
  // ---------------------------------------------------------------------------------------

  function Visit(p: Program, n: Node, seen: set<string>): seq<Key>
    requires Parsed(p) && InProgram(p, n)
  {
    match n
    case Variable(scope, id) => BoundKeys(p, id, p.scopes[scope].bindings, scope, seen)
    case Helper(callee) => AllKeys(p, p.scopes[p.functions[callee]].answers, p.functions[callee], seen)
  }

  // Some node among these, not yet seen, gives the key when it is read.
  ghost predicate Gives(p: Program, nodes: set<Node>, seen: set<string>, k: Key)
    requires Parsed(p) && AllInProgram(p, nodes)
  {
    exists n :: n in nodes && Label(n) !in seen && k in Visit(p, n, seen + {Label(n)})
  }

  lemma {:induction false} ConstantsMember(keys: seq<Option<Key>>, k: Key)
    ensures k in Constants(keys) <==> Some(k) in keys
  {
    if keys != [] {
      ConstantsMember(keys[1..], k);
      assert keys == [keys[0]] + keys[1..];
    }
  }

  // Reading an expression gives its own keys and what its unseen names and helpers give.
  lemma {:induction false} ReadExpr(p: Program, e: Expr, scope: nat, seen: set<string>, k: Key)
    requires Parsed(p) && scope in p.scopes && Knows(p.ids, e)
    requires AllInProgram(p, Refs(p, e, scope))
    ensures k in ValueKeys(p, e, scope, seen) <==> k in Direct(p, e) || Gives(p, Refs(p, e, scope), seen, k)
    decreases e
  {
    match e {
      case Dict(_, values) =>
        RefsAllInProgram(p, values, scope);
        ReadAll(p, values, scope, seen, k);
      case Items(items) =>
        RefsAllInProgram(p, items, scope);
        ReadAll(p, items, scope, seen, k);
      case Each(elt) => ReadExpr(p, elt, scope, seen, k);
      case EachPair(_, value) => ReadExpr(p, value, scope, seen, k);
      case Choice(body, orelse) =>
        ReadExpr(p, body, scope, seen, k);
        ReadExpr(p, orelse, scope, seen, k);
      case Name(id) => ReadName(p, id, scope, seen, k);
      case Call(callee, args, names, named) =>
        if callee == Some(DICT) {
          ReadAll(p, args, scope, seen, k);
          ReadAll(p, named, scope, seen, k);
        } else {
          ReadCall(p, callee, args, names, named, scope, seen, k);
        }
      case Other =>
    }
  }

  lemma ReadName(p: Program, id: string, scope: nat, seen: set<string>, k: Key)
    requires Parsed(p) && scope in p.scopes && id in p.ids
    ensures k in ValueKeys(p, Name(id), scope, seen) <==> Gives(p, {Variable(scope, id)}, seen, k)
  {
    assert InProgram(p, Variable(scope, id));
  }

  lemma ReadCall(p: Program, callee: Option<string>, args: seq<Expr>, names: seq<Option<Key>>, named: seq<Expr>,
                 scope: nat, seen: set<string>, k: Key)
    requires Parsed(p) && scope in p.scopes && Knows(p.ids, Call(callee, args, names, named)) && callee != Some(DICT)
    requires AllInProgram(p, Refs(p, Call(callee, args, names, named), scope))
    ensures k in ValueKeys(p, Call(callee, args, names, named), scope, seen) <==>
            Gives(p, Refs(p, Call(callee, args, names, named), scope), seen, k)
  {
    if callee.Some? && callee.value in p.functions {
      assert Refs(p, Call(callee, args, names, named), scope) == {Helper(callee.value)};
    }
  }

  lemma {:induction false} ReadAll(p: Program, es: seq<Expr>, scope: nat, seen: set<string>, k: Key)
    requires Parsed(p) && scope in p.scopes && KnowsAll(p.ids, es)
    requires AllInProgram(p, RefsAll(p, es, scope))
    ensures k in AllKeys(p, es, scope, seen) <==> k in DirectAll(p, es) || Gives(p, RefsAll(p, es, scope), seen, k)
    decreases es
  {
    if es != [] {
      ReadExpr(p, es[0], scope, seen, k);
      ReadAll(p, es[1..], scope, seen, k);
    }
  }

  lemma {:induction false} ReadTargets(targets: seq<Target>, name: string, bound: seq<Key>, k: Key)
    ensures k in TargetKeys(targets, name, bound) <==>
            k in ItemKeys(targets, name) || (Binds(targets, name) && k in bound)
  {
    if targets != [] {
      var rest := targets[1..];
      ReadTargets(rest, name, bound, k);
      assert forall i :: 0 <= i < |rest| ==> rest[i] == targets[i + 1];
      assert Binds(targets, name) <==>
             targets[0] == ToName(name) || (targets[0].ToItem? && targets[0].id == name) || Binds(rest, name) by {
        if Binds(rest, name) {
          var i :| 0 <= i < |rest| && (rest[i] == ToName(name) || (rest[i].ToItem? && rest[i].id == name));
          assert targets[i + 1] == rest[i];
        }
      }
      ItemKeysFirst(targets, name, k);
      if targets[0].ToItem? {
        ConstantsMember([targets[0].key], k);
      }
    }
  }

  lemma ItemKeysFirst(targets: seq<Target>, name: string, k: Key)
    requires targets != []
    ensures k in ItemKeys(targets, name) <==>
            (targets[0].ToItem? && targets[0].id == name && targets[0].key == Some(k)) ||
              k in ItemKeys(targets[1..], name)
  {
    var rest := targets[1..];
    if k in ItemKeys(rest, name) {
      var i :| 0 <= i < |rest| && rest[i].ToItem? && rest[i].id == name && rest[i].key == Some(k);
      assert targets[i + 1] == rest[i];
    }
    if k in ItemKeys(targets, name) {
      var i :| 0 <= i < |targets| && targets[i].ToItem? && targets[i].id == name && targets[i].key == Some(k);
      if 0 < i {
        assert rest[i - 1] == targets[i];
      }
    }
  }

  lemma {:induction false} ReadBindings(p: Program, name: string, bindings: seq<Binding>, scope: nat,
                                        seen: set<string>, k: Key)
    requires Parsed(p) && scope in p.scopes && KnowsBindings(p.ids, bindings)
    requires AllInProgram(p, BindingRefs(p, name, bindings, scope))
    ensures k in BoundKeys(p, name, bindings, scope, seen) <==>
            k in BindingKeys(p, name, bindings) || Gives(p, BindingRefs(p, name, bindings, scope), seen, k)
  {
    if bindings != [] {
      var value := bindings[0].value;
      RefsInProgram(p, value, scope);
      ReadExpr(p, value, scope, seen, k);
      ReadTargets(bindings[0].targets, name, ValueKeys(p, value, scope, seen), k);
      ReadBindings(p, name, bindings[1..], scope, seen, k);
    }
  }

  // So reading a node gives its own keys and what its unseen neighbours give.
  lemma ReadNode(p: Program, n: Node, seen: set<string>, k: Key)
    requires Parsed(p) && InProgram(p, n) && AllInProgram(p, NodeRefs(p, n))
    ensures k in Visit(p, n, seen) <==> k in NodeKeys(p, n) || Gives(p, NodeRefs(p, n), seen, k)
  {
    match n
    case Variable(scope, id) => ReadBindings(p, id, p.scopes[scope].bindings, scope, seen, k);
    case Helper(callee) => ReadAll(p, p.scopes[p.functions[callee]].answers, p.functions[callee], seen, k);
  }

  // Keys are read in the order they are met: a dict's own before those of its values, a body's before
  // its alternative's, and a later item, assignment or target after an earlier one.
  lemma {:induction false} ItemsInOrder(p: Program, a: seq<Expr>, b: seq<Expr>, scope: nat, seen: set<string>)
    requires Parsed(p) && scope in p.scopes && KnowsAll(p.ids, a) && KnowsAll(p.ids, b)
    ensures KnowsAll(p.ids, a + b)
    ensures ValueKeys(p, Items(a + b), scope, seen) ==
            ValueKeys(p, Items(a), scope, seen) + ValueKeys(p, Items(b), scope, seen)
  {
    if a == [] {
      assert a + b == b;
    } else {
      assert (a + b)[1..] == a[1..] + b;
      ItemsInOrder(p, a[1..], b, scope, seen);
    }
  }

  lemma {:induction false} ConstantsInOrder(a: seq<Option<Key>>, b: seq<Option<Key>>)
    ensures Constants(a + b) == Constants(a) + Constants(b)
  {
    if a == [] {
      assert a + b == b;
    } else {
      assert (a + b)[1..] == a[1..] + b;
      ConstantsInOrder(a[1..], b);
    }
  }

  lemma {:induction false} TargetsInOrder(a: seq<Target>, b: seq<Target>, name: string, bound: seq<Key>)
    ensures TargetKeys(a + b, name, bound) == TargetKeys(a, name, bound) + TargetKeys(b, name, bound)
  {
    if a == [] {
      assert a + b == b;
    } else {
      assert (a + b)[1..] == a[1..] + b;
      TargetsInOrder(a[1..], b, name, bound);
    }
  }

  lemma {:induction false} AssignmentsInOrder(p: Program, name: string, a: seq<Binding>, b: seq<Binding>, scope: nat,
                                              seen: set<string>)
    requires Parsed(p) && scope in p.scopes && KnowsBindings(p.ids, a) && KnowsBindings(p.ids, b)
    ensures KnowsBindings(p.ids, a + b)
    ensures BoundKeys(p, name, a + b, scope, seen) ==
            BoundKeys(p, name, a, scope, seen) + BoundKeys(p, name, b, scope, seen)
  {
    if a == [] {
      assert a + b == b;
    } else {
      assert (a + b)[1..] == a[1..] + b;
      AssignmentsInOrder(p, name, a[1..], b, scope, seen);
    }
  }

  lemma OwnKeysFirst(p: Program, e: Expr, scope: nat, seen: set<string>)
    requires Parsed(p) && scope in p.scopes && Knows(p.ids, e)
    ensures e.Dict? ==> Constants(e.keys) <= ValueKeys(p, e, scope, seen)
    ensures e.EachPair? ==> Constants([e.pairKey]) <= ValueKeys(p, e, scope, seen)
    ensures e.Choice? ==> ValueKeys(p, e.body, scope, seen) <= ValueKeys(p, e, scope, seen)
    ensures e.Call? && e.callee == Some("dict") ==>
              Constants(e.names) + AllKeys(p, e.args, scope, seen) <= ValueKeys(p, e, scope, seen)
    ensures forall name, key: Option<Key>, bound ::
              Constants([key]) <= TargetKeys([ToItem(name, key)], name, bound)
  {
  }

  // `dict(note=...)` writes the key itself; any other call carries only what a helper of the module
  // returns.
  lemma CallsRead(p: Program, callee: Option<string>, args: seq<Expr>, names: seq<Option<Key>>, named: seq<Expr>,
                  scope: nat, k: Key)
    requires Parsed(p) && scope in p.scopes && Knows(p.ids, Call(callee, args, names, named))
    ensures callee == Some("dict") && Some(k) in names ==>
              k in ValueKeys(p, Call(callee, args, names, named), scope, {})
    ensures callee == Some("dict") && k in AllKeys(p, args, scope, {}) + AllKeys(p, named, scope, {}) ==>
              k in ValueKeys(p, Call(callee, args, names, named), scope, {})
    ensures callee != Some("dict") && (callee.Some? ==> callee.value !in p.functions) ==>
              ValueKeys(p, Call(callee, args, names, named), scope, {}) == []
  {
    ConstantsMember(names, k);
  }

  // ---------------------------------------------------------------------------------------
  // Walks
  // ---------------------------------------------------------------------------------------

  // A walk through the graph, one hand-on after another.
  ghost predicate Walk(p: Program, nodes: set<Node>, path: seq<Node>)
    requires Parsed(p) && AllInProgram(p, nodes)
    decreases |path|
  {
    && path != [] && path[0] in nodes
    && (1 < |path| ==>
          AllInProgram(p, NodeRefs(p, path[0])) && Walk(p, NodeRefs(p, path[0]), path[1..]))
  }

  // A walk that meets no name twice and none already seen.
  predicate Simple(path: seq<Node>, seen: set<string>) {
    path == [] || (Label(path[0]) !in seen && Simple(path[1..], seen + {Label(path[0])}))
  }

  ghost predicate EndsWith(p: Program, path: seq<Node>, k: Key)
    requires Parsed(p)
  {
    path != [] && InProgram(p, path[|path| - 1]) && k in NodeKeys(p, path[|path| - 1])
  }

  lemma WalkOn(p: Program, nodes: set<Node>, seen: set<string>, n: Node, rest: seq<Node>, k: Key)
    requires Parsed(p) && AllInProgram(p, nodes) && n in nodes && Label(n) !in seen && AllInProgram(p, NodeRefs(p, n))
    requires Walk(p, NodeRefs(p, n), rest) && Simple(rest, seen + {Label(n)}) && EndsWith(p, rest, k)
    ensures Walk(p, nodes, [n] + rest) && Simple([n] + rest, seen) && EndsWith(p, [n] + rest, k)
  {
    var path := [n] + rest;
    assert path[1..] == rest && path[|path| - 1] == rest[|rest| - 1];
  }

  // What nodes give is what stands at the end of a simple walk from them.
  lemma {:induction false} GivesByWalk(p: Program, nodes: set<Node>, seen: set<string>, k: Key)
    returns (path: seq<Node>)
    requires Parsed(p) && AllInProgram(p, nodes) && Gives(p, nodes, seen, k)
    ensures Walk(p, nodes, path) && Simple(path, seen) && EndsWith(p, path, k)
    decreases p.ids - seen
  {
    var n :| n in nodes && Label(n) !in seen && k in Visit(p, n, seen + {Label(n)});
    NodeRefsInProgram(p, n);
    ReadNode(p, n, seen + {Label(n)}, k);
    if k in NodeKeys(p, n) {
      path := [n];
    } else {
      var rest := GivesByWalk(p, NodeRefs(p, n), seen + {Label(n)}, k);
      WalkOn(p, nodes, seen, n, rest, k);
      path := [n] + rest;
    }
  }

  lemma {:induction false} WalkGives(p: Program, nodes: set<Node>, path: seq<Node>, seen: set<string>, k: Key)
    requires Parsed(p) && AllInProgram(p, nodes)
    requires Walk(p, nodes, path) && Simple(path, seen) && EndsWith(p, path, k)
    ensures Gives(p, nodes, seen, k)
    decreases |path|
  {
    var n := path[0];
    NodeRefsInProgram(p, n);
    ReadNode(p, n, seen + {Label(n)}, k);
    if 1 < |path| {
      WalkGives(p, NodeRefs(p, n), path[1..], seen + {Label(n)}, k);
    }
  }

  // The reading, whatever the file: a key is collected exactly when the value writes it itself or a
  // walk that meets no name twice ends at it.
  lemma CollectsSimpleWalks(p: Program, e: Expr, scope: nat, k: Key)
    requires Parsed(p) && scope in p.scopes && Knows(p.ids, e)
    ensures AllInProgram(p, Refs(p, e, scope))
    ensures k in ValueKeys(p, e, scope, {}) <==>
            k in Direct(p, e) ||
            exists path :: Walk(p, Refs(p, e, scope), path) && Simple(path, {}) && EndsWith(p, path, k)
  {
    RefsInProgram(p, e, scope);
    ReadExpr(p, e, scope, {}, k);
    if Gives(p, Refs(p, e, scope), {}, k) {
      var path := GivesByWalk(p, Refs(p, e, scope), {}, k);
    }
    if exists path :: Walk(p, Refs(p, e, scope), path) && Simple(path, {}) && EndsWith(p, path, k) {
      var path :| Walk(p, Refs(p, e, scope), path) && Simple(path, {}) && EndsWith(p, path, k);
      WalkGives(p, Refs(p, e, scope), path, {}, k);
    }
  }

  // ---------------------------------------------------------------------------------------
  // From any walk to a simple one
  // ---------------------------------------------------------------------------------------

  // Something is bound to the name, or returned by the helper, that carries or hands on.
  predicate Bound(p: Program, n: Node)
    requires Parsed(p) && InProgram(p, n)
  {
    NodeKeys(p, n) != {} || NodeRefs(p, n) != {}
  }

  // No name is bound in two scopes of one chain, nor is both a name and a helper of one.
  ghost predicate OneScopeANames(p: Program, nodes: set<Node>)
    requires Parsed(p) && AllInProgram(p, nodes)
  {
    forall path, i, j ::
      (Walk(p, nodes, path) && 0 <= i < j < |path| && Label(path[i]) == Label(path[j]) && InProgram(p, path[j]) &&
        Bound(p, path[j]))
      ==> path[i] == path[j]
  }

  lemma {:induction false} WalkInProgram(p: Program, nodes: set<Node>, path: seq<Node>)
    requires Parsed(p) && AllInProgram(p, nodes) && Walk(p, nodes, path)
    ensures forall i :: 0 <= i < |path| ==> InProgram(p, path[i])
    ensures forall i :: 0 <= i < |path| - 1 ==> path[i + 1] in NodeRefs(p, path[i])
    decreases |path|
  {
    if 1 < |path| {
      WalkInProgram(p, NodeRefs(p, path[0]), path[1..]);
      forall i | 0 <= i < |path|
        ensures InProgram(p, path[i])
      {
        if 0 < i {
          assert path[i] == path[1..][i - 1];
        }
      }
      forall i | 0 <= i < |path| - 1
        ensures path[i + 1] in NodeRefs(p, path[i])
      {
        if 0 < i {
          assert path[i] == path[1..][i - 1] && path[i + 1] == path[1..][i];
        }
      }
    }
  }

  lemma {:induction false} StepsWalk(p: Program, nodes: set<Node>, path: seq<Node>)
    requires Parsed(p) && AllInProgram(p, nodes) && path != [] && path[0] in nodes
    requires forall i :: 0 <= i < |path| ==> InProgram(p, path[i])
    requires forall i :: 0 <= i < |path| - 1 ==> path[i + 1] in NodeRefs(p, path[i])
    ensures Walk(p, nodes, path)
    decreases |path|
  {
    if 1 < |path| {
      NodeRefsInProgram(p, path[0]);
      var rest := path[1..];
      assert forall i :: 0 <= i < |rest| ==> rest[i] == path[i + 1];
      StepsWalk(p, NodeRefs(p, path[0]), rest);
    }
  }

  // What is left of a walk is a walk from any nodes that hold its first one.
  lemma {:induction false} WalkTail(p: Program, nodes: set<Node>, path: seq<Node>, j: nat, from: set<Node>)
    requires Parsed(p) && AllInProgram(p, nodes) && Walk(p, nodes, path) && j < |path|
    requires AllInProgram(p, from) && path[j] in from
    ensures Walk(p, from, path[j..])
    decreases |path|
  {
    if 0 < j {
      WalkTail(p, NodeRefs(p, path[0]), path[1..], j - 1, from);
      assert path[1..][j - 1..] == path[j..];
    }
  }

  // A walk that comes back to a node leaves the loop out.
  lemma {:induction false} CutLoop(p: Program, nodes: set<Node>, path: seq<Node>, i: nat, j: nat)
    requires Parsed(p) && AllInProgram(p, nodes) && Walk(p, nodes, path) && i < j < |path| && path[i] == path[j]
    ensures Walk(p, nodes, path[..i] + path[j..])
    decreases |path|
  {
    if i == 0 {
      WalkTail(p, nodes, path, j, nodes);
      assert path[..i] + path[j..] == path[j..];
    } else {
      var rest := path[1..];
      CutLoop(p, NodeRefs(p, path[0]), rest, i - 1, j - 1);
      var cut := path[..i] + path[j..];
      assert cut[1..] == rest[..i - 1] + rest[j - 1..];
    }
  }

  // A path that is not simple meets a label twice.
  lemma {:induction false} MeetsTwice(path: seq<Node>, seen: set<string>)
    requires !Simple(path, seen)
    ensures (exists i :: 0 <= i < |path| && Label(path[i]) in seen) ||
            (exists i, j :: 0 <= i < j < |path| && Label(path[i]) == Label(path[j]))
  {
    if Label(path[0]) !in seen {
      var rest := path[1..];
      MeetsTwice(rest, seen + {Label(path[0])});
      if exists i :: 0 <= i < |rest| && Label(rest[i]) in seen + {Label(path[0])} {
        var i :| 0 <= i < |rest| && Label(rest[i]) in seen + {Label(path[0])};
        assert path[i + 1] == rest[i];
        assert Label(path[0]) == Label(path[i + 1]) || Label(path[i + 1]) in seen;
      } else {
        var i, j :| 0 <= i < j < |rest| && Label(rest[i]) == Label(rest[j]);
        assert path[i + 1] == rest[i] && path[j + 1] == rest[j];
      }
    }
  }

  // On a walk to a key, two nodes of one name are one node: the later is bound, since it hands on or
  // carries the key.
  lemma SameNode(p: Program, nodes: set<Node>, path: seq<Node>, i: nat, j: nat, k: Key)
    requires Parsed(p) && AllInProgram(p, nodes) && OneScopeANames(p, nodes)
    requires Walk(p, nodes, path) && EndsWith(p, path, k) && i < j < |path| && Label(path[i]) == Label(path[j])
    ensures path[i] == path[j]
  {
    WalkInProgram(p, nodes, path);
    assert j < |path| - 1 ==> path[j + 1] in NodeRefs(p, path[j]);
    assert Bound(p, path[j]);
  }

  lemma ShorterWalk(p: Program, nodes: set<Node>, path: seq<Node>, k: Key) returns (cut: seq<Node>)
    requires Parsed(p) && AllInProgram(p, nodes) && OneScopeANames(p, nodes)
    requires Walk(p, nodes, path) && EndsWith(p, path, k) && !Simple(path, {})
    ensures |cut| < |path| && Walk(p, nodes, cut) && EndsWith(p, cut, k)
  {
    MeetsTwice(path, {});
    var i, j :| 0 <= i < j < |path| && Label(path[i]) == Label(path[j]);
    SameNode(p, nodes, path, i, j, k);
    CutLoop(p, nodes, path, i, j);
    cut := path[..i] + path[j..];
    assert cut[|cut| - 1] == path[|path| - 1];
  }

  lemma {:induction false} SimpleWalkExists(p: Program, nodes: set<Node>, path: seq<Node>, k: Key)
    returns (simple: seq<Node>)
    requires Parsed(p) && AllInProgram(p, nodes) && OneScopeANames(p, nodes)
    requires Walk(p, nodes, path) && EndsWith(p, path, k)
    ensures Walk(p, nodes, simple) && Simple(simple, {}) && EndsWith(p, simple, k)
    decreases |path|
  {
    if Simple(path, {}) {
      simple := path;
    } else {
      var cut := ShorterWalk(p, nodes, path, k);
      simple := SimpleWalkExists(p, nodes, cut, k);
    }
  }

  ghost predicate OneScopeEach(p: Program, e: Expr, scope: nat)
    requires Parsed(p) && scope in p.scopes && Knows(p.ids, e)
  {
    RefsInProgram(p, e, scope);
    OneScopeANames(p, Refs(p, e, scope))
  }

  // Where no name is bound in two scopes of one chain, the keys collected are exactly those that
  // can be reached from the value, however its bindings cycle.
  lemma CollectsAllWalks(p: Program, e: Expr, scope: nat, k: Key)
    requires Parsed(p) && scope in p.scopes && Knows(p.ids, e) && OneScopeEach(p, e, scope)
    ensures AllInProgram(p, Refs(p, e, scope))
    ensures k in ValueKeys(p, e, scope, {}) <==>
            k in Direct(p, e) || exists path :: Walk(p, Refs(p, e, scope), path) && EndsWith(p, path, k)
  {
    CollectsSimpleWalks(p, e, scope, k);
    if exists path :: Walk(p, Refs(p, e, scope), path) && EndsWith(p, path, k) {
      var path :| Walk(p, Refs(p, e, scope), path) && EndsWith(p, path, k);
      var simple := SimpleWalkExists(p, Refs(p, e, scope), path, k);
    }
  }

  // ---------------------------------------------------------------------------------------
  // A name bound in two scopes hides a key
  // ---------------------------------------------------------------------------------------

  // A method's `before = build()`, with the module's `def build(): before = {"note": ...}; return
  // before`. (At module level the walk over the scope would meet both assignments.)
  const NOTE := Key("note", 7)
  const CALL_BUILD := Call(Some("build"), [], [], [])
  const NOTE_DICT := Dict([Some(NOTE)], [Other])
  const OUTER := Scope([Binding([ToName("before")], CALL_BUILD)], [])
  const INNER := Scope([Binding([ToName("before")], NOTE_DICT)], [Name("before")])
  const TWO_SCOPES := Program(map[0 := OUTER, 1 := INNER], map["build" := 1], {"before", "build"})

  lemma TwoScopesParsed()
    ensures Parsed(TWO_SCOPES)
  {
    var ids := TWO_SCOPES.ids;
    assert KnowsAll(ids, []) && KnowsBindings(ids, []);
    assert Knows(ids, CALL_BUILD);
    assert [Other][1..] == [] && KnowsAll(ids, [Other]) && Knows(ids, NOTE_DICT);
    assert OUTER.bindings[1..] == [] && KnowsBindings(ids, OUTER.bindings) && KnowsAll(ids, OUTER.answers);
    assert INNER.bindings[1..] == [] && KnowsBindings(ids, INNER.bindings);
    assert INNER.answers[1..] == [] && KnowsAll(ids, INNER.answers);
  }

  lemma OneTarget(name: string, bound: seq<Key>)
    ensures Binds([ToName(name)], name) && TargetKeys([ToName(name)], name, bound) == bound
  {
    assert [ToName(name)][0] == ToName(name) && [ToName(name)][1..] == [];
  }

  // The reading finds nothing: inside the helper the name is already seen.
  lemma TwoScopesReadNothing()
    requires Parsed(TWO_SCOPES)
    ensures ValueKeys(TWO_SCOPES, Name("before"), 0, {}) == []
  {
    var p := TWO_SCOPES;
    var seen := {} + {"before"};
    assert INNER.answers[1..] == [] && OUTER.bindings[1..] == [];
    assert ValueKeys(p, Name("before"), 1, seen + {"build"}) == [];
    assert AllKeys(p, INNER.answers, 1, seen + {"build"}) == [];
    assert ValueKeys(p, CALL_BUILD, 0, seen) == [];
    OneTarget("before", []);
    assert BoundKeys(p, "before", OUTER.bindings, 0, seen) == [];
  }

  lemma TwoScopesRefs()
    requires Parsed(TWO_SCOPES)
    ensures Helper("build") in NodeRefs(TWO_SCOPES, Variable(0, "before"))
    ensures Variable(1, "before") in NodeRefs(TWO_SCOPES, Helper("build"))
  {
    OneTarget("before", []);
    assert OUTER.bindings[1..] == [] && INNER.answers[1..] == [];
    assert Refs(TWO_SCOPES, CALL_BUILD, 0) == {Helper("build")};
    assert TWO_SCOPES.functions["build"] == 1 && TWO_SCOPES.scopes[1] == INNER;
    assert Refs(TWO_SCOPES, Name("before"), 1) == {Variable(1, "before")};
    assert INNER.answers == [Name("before")] && Variable(1, "before") in RefsAll(TWO_SCOPES, INNER.answers, 1);
  }

  lemma TwoScopesNote()
    requires Parsed(TWO_SCOPES)
    ensures NOTE in NodeKeys(TWO_SCOPES, Variable(1, "before"))
  {
    OneTarget("before", []);
    ConstantsMember([Some(NOTE)], NOTE);
    assert NOTE in Direct(TWO_SCOPES, NOTE_DICT);
    assert INNER.bindings[1..] == [];
  }

  // And yet the value carries the key.
  lemma TwoScopesHideAKey()
    ensures Parsed(TWO_SCOPES) && AllInProgram(TWO_SCOPES, Refs(TWO_SCOPES, Name("before"), 0))
    ensures ValueKeys(TWO_SCOPES, Name("before"), 0, {}) == []
    ensures var path := [Variable(0, "before"), Helper("build"), Variable(1, "before")];
            Walk(TWO_SCOPES, Refs(TWO_SCOPES, Name("before"), 0), path) && EndsWith(TWO_SCOPES, path, NOTE)
  {
    TwoScopesParsed();
    TwoScopesReadNothing();
    TwoScopesRefs();
    TwoScopesNote();
    StepsWalk(TWO_SCOPES, Refs(TWO_SCOPES, Name("before"), 0),
      [Variable(0, "before"), Helper("build"), Variable(1, "before")]);
  }

  // ---------------------------------------------------------------------------------------
  // The rule
  // ---------------------------------------------------------------------------------------

  function TargetGives(target: Target, name: string, bound: seq<Key>): seq<Key> {
    if target.ToName? && target.id == name then bound
    else if target.ToItem? && target.id == name then Constants([target.key]) + bound
    else []
  }

  lemma TargetKeysStep(keys: seq<Key>, targets: seq<Target>, j: nat, name: string, bound: seq<Key>)
    requires j < |targets|
    ensures keys + TargetKeys(targets[j..], name, bound) ==
            keys + TargetGives(targets[j], name, bound) + TargetKeys(targets[j + 1..], name, bound)
  {
    assert targets[j..][1..] == targets[j + 1..];
  }

  lemma BoundKeysStep(keys: seq<Key>, p: Program, name: string, bindings: seq<Binding>, i: nat, scope: nat,
                      seen: set<string>)
    requires Parsed(p) && scope in p.scopes && i < |bindings| && KnowsBindings(p.ids, bindings[i..])
    ensures KnowsBindings(p.ids, bindings[i + 1..]) && Knows(p.ids, bindings[i].value)
    ensures keys + BoundKeys(p, name, bindings[i..], scope, seen) ==
            keys + TargetKeys(bindings[i].targets, name, ValueKeys(p, bindings[i].value, scope, seen))
                 + BoundKeys(p, name, bindings[i + 1..], scope, seen)
  {
    assert bindings[i..][1..] == bindings[i + 1..];
  }

  // Where these keys name tenant content.
  function Places(keys: seq<Key>, content: string -> bool): set<nat> {
    set k | k in keys && content(k.text) :: k.at
  }

  // What a list of keys adds to the report.
  function FirstSights(keys: seq<Key>, content: string -> bool, reported: set<nat>): seq<Key> {
    if keys == [] then []
    else
      var n := |keys| - 1;
      FirstSights(keys[..n], content, reported) +
      if content(keys[n].text) && keys[n].at !in reported + Places(keys[..n], content) then [keys[n]] else []
  }

  lemma {:induction false} FirstSightsMean(keys: seq<Key>, content: string -> bool, reported: set<nat>)
    ensures var sights := FirstSights(keys, content, reported);
            && (forall s :: s in sights ==> s in keys && content(s.text))
            && Places(sights, content) == Places(keys, content) - reported
            && forall i, j :: 0 <= i < j < |sights| ==> sights[i].at != sights[j].at
  {
    if keys != [] {
      var n := |keys| - 1;
      FirstSightsMean(keys[..n], content, reported);
      assert keys == keys[..n] + [keys[n]];
      OneMoreSight(keys[..n], keys[n], content, reported, FirstSights(keys[..n], content, reported));
    }
  }

  lemma OneMoreSight(keys: seq<Key>, k: Key, content: string -> bool, reported: set<nat>, before: seq<Key>)
    requires forall s :: s in before ==> s in keys && content(s.text)
    requires Places(before, content) == Places(keys, content) - reported
    requires forall i, j :: 0 <= i < j < |before| ==> before[i].at != before[j].at
    ensures var sights := before + if content(k.text) && k.at !in reported + Places(keys, content) then [k] else [];
            && (forall s :: s in sights ==> s in keys + [k] && content(s.text))
            && Places(sights, content) == Places(keys + [k], content) - reported
            && forall i, j :: 0 <= i < j < |sights| ==> sights[i].at != sights[j].at
  {
    PlacesMove(keys, k, content);
    PlacesMove(before, k, content);
    assert forall i :: 0 <= i < |before| ==> before[i] in before && before[i].at in Places(before, content);
    assert before + [] == before;
  }

  lemma SightsStep(keys: seq<Key>, i: nat, content: string -> bool, reported: set<nat>)
    requires i < |keys|
    ensures Places(keys[..i + 1], content) ==
            Places(keys[..i], content) + if content(keys[i].text) then {keys[i].at} else {}
    ensures FirstSights(keys[..i + 1], content, reported) ==
            FirstSights(keys[..i], content, reported) +
            if content(keys[i].text) && keys[i].at !in reported + Places(keys[..i], content) then [keys[i]] else []
  {
    assert keys[..i + 1] == keys[..i] + [keys[i]] && keys[..i + 1][..i] == keys[..i];
    PlacesMove(keys[..i], keys[i], content);
  }

  lemma PlacesMove(keys: seq<Key>, k: Key, content: string -> bool)
    ensures Places(keys + [k], content) == Places(keys, content) + if content(k.text) then {k.at} else {}
  {
    assert forall key :: key in keys + [k] <==> key in keys || key == k;
  }

  // The lint's pass over one file: what it has reported, and where. `content` says which keys are
  // named like tenant content.
  class Checker {
    const program: Program
    const content: string -> bool
    var recordKeys: set<nat>
    var findings: seq<Key>

    constructor (program: Program, content: string -> bool)
      ensures this.program == program && this.content == content && recordKeys == {} && findings == []
    {
      this.program, this.content, recordKeys, findings := program, content, {}, [];
    }

    method GatherTargets(targets: seq<Target>, name: string, bound: seq<Key>) returns (keys: seq<Key>)
      ensures keys == TargetKeys(targets, name, bound)
    {
      keys := [];
      for j := 0 to |targets|
        invariant keys + TargetKeys(targets[j..], name, bound) == TargetKeys(targets, name, bound)
      {
        TargetKeysStep(keys, targets, j, name, bound);
        var more := [];
        if targets[j].ToName? && targets[j].id == name {
          more := bound;
        } else if targets[j].ToItem? && targets[j].id == name {
          more := Constants([targets[j].key]) + bound;
        }
        keys := keys + more;
      }
    }

    // The keys a name picks up in its scope, gathered as the walk meets the assignments.
    method Gather(name: string, scope: nat, seen: set<string>) returns (keys: seq<Key>)
      requires Parsed(program) && scope in program.scopes
      ensures keys == BoundKeys(program, name, program.scopes[scope].bindings, scope, seen)
    {
      var bindings := program.scopes[scope].bindings;
      keys := [];
      for i := 0 to |bindings|
        invariant KnowsBindings(program.ids, bindings[i..])
        invariant keys + BoundKeys(program, name, bindings[i..], scope, seen) ==
                  BoundKeys(program, name, bindings, scope, seen)
      {
        BoundKeysStep(keys, program, name, bindings, i, scope, seen);
        var more := GatherTargets(bindings[i].targets, name, ValueKeys(program, bindings[i].value, scope, seen));
        keys := keys + more;
      }
    }

    // One `before`, `after` or `payload` of one `record()` call: each place is reported once.
    method CheckRecord(value: Expr, scope: nat)
      requires Parsed(program) && scope in program.scopes && Knows(program.ids, value)
      modifies this
      ensures findings == old(findings) + FirstSights(ValueKeys(program, value, scope, {}), content, old(recordKeys))
      ensures recordKeys == old(recordKeys) + Places(ValueKeys(program, value, scope, {}), content)
    {
      var keys := ValueKeys(program, value, scope, {});
      for i := 0 to |keys|
        invariant findings == old(findings) + FirstSights(keys[..i], content, old(recordKeys))
        invariant recordKeys == old(recordKeys) + Places(keys[..i], content)
      {
        SightsStep(keys, i, content, old(recordKeys));
        if content(keys[i].text) && keys[i].at !in recordKeys {
          recordKeys := recordKeys + {keys[i].at};
          findings := findings + [keys[i]];
        }
      }
      assert keys[..|keys|] == keys;
    }
  }
}
