// The dependency licence gate's reading of an SPDX expression: text is split at its top-level
// operators, OR keeps the best alternative, AND the worst, and WITH keeps its licence.
//
// The main result is about text, not trees: whatever spacing and redundant parentheses a tree is
// written with, the class read from the text is the tree's own.

module Licences {
  import opened Options
  import opened Text

  datatype Class = Fine | Weak | Unknown | Copyleft

  function Rank(status: Class): nat {
    match status case Fine => 0 case Weak => 1 case Unknown => 2 case Copyleft => 3
  }

  function Best(a: Class, b: Class): Class {
    if Rank(b) < Rank(a) then b else a
  }

  function Worst(a: Class, b: Class): Class {
    if Rank(a) < Rank(b) then b else a
  }

  // ---------------------------------------------------------------------------------------
  // Text
  // ---------------------------------------------------------------------------------------

  datatype Kind = Blank | Paren | Letter

  function KindOf(c: char): Kind {
    if Space(c) then Blank
    else if c == '(' || c == ')' then Paren
    else Letter
  }

  // How many characters of this kind `s` starts with.
  function Leading(s: string, kind: Kind): (n: nat)
    ensures n <= |s|
    ensures forall i :: 0 <= i < n ==> KindOf(s[i]) == kind
    ensures n < |s| ==> KindOf(s[n]) != kind
  {
    if s == [] || KindOf(s[0]) != kind then 0 else 1 + Leading(s[1..], kind)
  }

  // The text cut before and after every parenthesis and run of white space, empty pieces left out.
  function Tokens(s: string): seq<string> {
    if s == [] then []
    else
      var n := if KindOf(s[0]) == Paren then 1 else Leading(s, KindOf(s[0]));
      [s[..n]] + Tokens(s[n..])
  }

  function Join(tokens: seq<string>): string {
    if tokens == [] then [] else tokens[0] + Join(tokens[1..])
  }

  function Depth(depth: int, token: string): int {
    if token == "(" then depth + 1 else if token == ")" then depth - 1 else depth
  }

  // The pieces of the text between the operators found at depth 0.
  function Pieces(tokens: seq<string>, operator: string, depth: int, current: string): seq<string> {
    if tokens == [] then [current]
    else
      var d := Depth(depth, tokens[0]);
      if d == 0 && Strip(tokens[0]) == operator then [current] + Pieces(tokens[1..], operator, d, "")
      else Pieces(tokens[1..], operator, d, current + tokens[0])
  }

  function Stripped(pieces: seq<string>): seq<string> {
    if pieces == [] then []
    else if Strip(pieces[0]) == "" then Stripped(pieces[1..])
    else [Strip(pieces[0])] + Stripped(pieces[1..])
  }

  function SplitTopLevel(expression: string, operator: string): seq<string> {
    Stripped(Pieces(Tokens(expression), operator, 0, ""))
  }

  // Whether the parenthesis the text opens with closes only at its end.
  function WrapFrom(s: string, depth: int): bool {
    if s == "" then depth == 0
    else
      var d := Depth(depth, s[..1]);
      if s[0] == ')' && d == 0 && 1 < |s| then false else WrapFrom(s[1..], d)
  }

  predicate Wrapped(expression: string) {
    && 2 <= |expression| && expression[0] == '(' && expression[|expression| - 1] == ')'
    && WrapFrom(expression, 0)
  }

  // ---------------------------------------------------------------------------------------
  // Classifying
  // ---------------------------------------------------------------------------------------

  function Total(parts: seq<string>): nat {
    if parts == [] then 0 else |parts[0]| + Total(parts[1..])
  }

  predicate NoneEmpty(parts: seq<string>) {
    forall i :: 0 <= i < |parts| ==> parts[i] != ""
  }

  lemma {:induction false} StrippedShortens(pieces: seq<string>)
    ensures Total(Stripped(pieces)) <= Total(pieces) && |Stripped(pieces)| <= |pieces|
    ensures NoneEmpty(Stripped(pieces))
  {
    if pieces != [] {
      StripShortens(pieces[0]);
      StrippedShortens(pieces[1..]);
    }
  }

  lemma {:induction false} TotalBoundsEach(parts: seq<string>, i: nat)
    requires i < |parts| && NoneEmpty(parts)
    ensures |parts[i]| + |parts| - 1 <= Total(parts)
  {
    if i == 0 {
      TotalBoundsCount(parts[1..]);
    } else {
      TotalBoundsEach(parts[1..], i - 1);
    }
  }

  lemma {:induction false} TotalBoundsCount(parts: seq<string>)
    requires NoneEmpty(parts)
    ensures |parts| <= Total(parts)
  {
    if parts != [] {
      TotalBoundsCount(parts[1..]);
    }
  }

  lemma {:induction false} JoinTokens(s: string)
    ensures Join(Tokens(s)) == s
  {
    if s != [] {
      var n := if KindOf(s[0]) == Paren then 1 else Leading(s, KindOf(s[0]));
      JoinTokens(s[n..]);
    }
  }

  lemma {:induction false} PiecesShorten(tokens: seq<string>, operator: string, depth: int, current: string)
    ensures Total(Pieces(tokens, operator, depth, current)) <= |current| + |Join(tokens)|
  {
    if tokens != [] {
      var d := Depth(depth, tokens[0]);
      if d == 0 && Strip(tokens[0]) == operator {
        PiecesShorten(tokens[1..], operator, d, "");
      } else {
        PiecesShorten(tokens[1..], operator, d, current + tokens[0]);
      }
    }
  }

  // Every part of a real split is strictly shorter than the text.
  lemma PartsShorten(expression: string, operator: string)
    ensures 1 < |SplitTopLevel(expression, operator)| ==>
      forall p :: p in SplitTopLevel(expression, operator) ==> |p| < |expression|
  {
    var pieces := Pieces(Tokens(expression), operator, 0, "");
    PiecesShorten(Tokens(expression), operator, 0, "");
    JoinTokens(expression);
    StrippedShortens(pieces);
    forall i | 0 <= i < |Stripped(pieces)| && 1 < |Stripped(pieces)|
      ensures |Stripped(pieces)[i]| < |expression|
    {
      TotalBoundsEach(Stripped(pieces), i);
    }
  }

  // None stands for the IndexError an expression of nothing but WITH raises.
  function ClassifyExpression(text: string, term: string -> Class): Option<Class>
    decreases |text|, 1, 0
  {
    StripShortens(text);
    var expression := Strip(text);
    if expression == "" then Some(Unknown)
    else if Wrapped(expression) then ClassifyExpression(expression[1..|expression| - 1], term)
    else
      var ors := SplitTopLevel(expression, "OR");
      PartsShorten(expression, "OR");
      if 1 < |ors| then BestOf(ors, |expression|, term)
      else
        var ands := SplitTopLevel(expression, "AND");
        PartsShorten(expression, "AND");
        if 1 < |ands| then WorstOf(ands, |expression|, term)
        else
          var withs := SplitTopLevel(expression, "WITH");
          if withs == [] then None else Some(term(withs[0]))
  }

  function Both(a: Option<Class>, b: Option<Class>, pick: (Class, Class) -> Class): Option<Class> {
    if a.Some? && b.Some? then Some(pick(a.value, b.value)) else None
  }

  function BestOf(parts: seq<string>, bound: nat, term: string -> Class): Option<Class>
    requires parts != [] && forall p :: p in parts ==> |p| < bound
    decreases bound, 0, |parts|
  {
    var first := ClassifyExpression(parts[0], term);
    if |parts| == 1 then first else Both(first, BestOf(parts[1..], bound, term), Best)
  }

  function WorstOf(parts: seq<string>, bound: nat, term: string -> Class): Option<Class>
    requires parts != [] && forall p :: p in parts ==> |p| < bound
    decreases bound, 0, |parts|
  {
    var first := ClassifyExpression(parts[0], term);
    if |parts| == 1 then first else Both(first, WorstOf(parts[1..], bound, term), Worst)
  }

  // A package's licences are alternatives; a package that names none is unknown.
  function ClassifyPackage(licences: seq<string>, term: string -> Class): Option<Class> {
    if licences == [] then Some(Unknown)
    else if |licences| == 1 then ClassifyExpression(licences[0], term)
    else Both(ClassifyExpression(licences[0], term), ClassifyPackage(licences[1..], term), Best)
  }

  // A text of white space alone names nothing: it is unknown, and so no reason to stop.
  lemma BlankIsUnknown(text: string, term: string -> Class)
    requires forall c :: c in text ==> Space(c)
    ensures ClassifyExpression(text, term) == Some(Unknown)
  {
    BlankStrips(text);
  }

  lemma {:induction false} BlankStrips(text: string)
    requires forall c :: c in text ==> Space(c)
    ensures StripLeft(text) == ""
  {
    if text != "" {
      BlankStrips(text[1..]);
    }
  }

  function ClassOf(term: string -> Class): string -> Option<Class> {
    text => ClassifyExpression(text, term)
  }

  function BestClass(texts: seq<string>, classOf: string -> Option<Class>): Option<Class>
    requires texts != []
  {
    if |texts| == 1 then classOf(texts[0]) else Both(classOf(texts[0]), BestClass(texts[1..], classOf), Best)
  }

  lemma {:induction false} BestClassIsBest(texts: seq<string>, classOf: string -> Option<Class>)
    requires texts != []
    ensures var best := BestClass(texts, classOf);
            && (best.Some? <==> forall i :: 0 <= i < |texts| ==> classOf(texts[i]).Some?)
            && (best.Some? ==>
                  && (exists i :: 0 <= i < |texts| && classOf(texts[i]) == best)
                  && forall i :: 0 <= i < |texts| ==> Rank(best.value) <= Rank(classOf(texts[i]).value))
  {
    if 1 < |texts| {
      var rest := texts[1..];
      BestClassIsBest(rest, classOf);
      assert forall i :: 0 <= i < |rest| ==> rest[i] == texts[i + 1];
      assert forall i :: 1 <= i < |texts| ==> texts[i] == rest[i - 1];
    }
  }

  // A package is as good as its best licence, and stops the gate exactly when one of them does; one
  // that names none is unknown.
  lemma {:induction false} PackageIsItsBest(licences: seq<string>, term: string -> Class)
    ensures licences == [] ==> ClassifyPackage(licences, term) == Some(Unknown)
    ensures licences != [] ==> ClassifyPackage(licences, term) == BestClass(licences, ClassOf(term))
    ensures var best := ClassifyPackage(licences, term);
            licences != [] ==>
            && (best.Some? <==> forall i :: 0 <= i < |licences| ==> ClassOf(term)(licences[i]).Some?)
            && (best.Some? ==>
                  && (exists i :: 0 <= i < |licences| && ClassOf(term)(licences[i]) == best)
                  && forall i :: 0 <= i < |licences| ==> Rank(best.value) <= Rank(ClassOf(term)(licences[i]).value))
  {
    if 1 < |licences| {
      PackageIsItsBest(licences[1..], term);
    }
    if licences != [] {
      BestClassIsBest(licences, ClassOf(term));
    }
  }

  // Fine before weak before unknown before copyleft.
  lemma BestAndWorst(a: Class, b: Class)
    ensures Best(a, b) == if a == Fine || b == Fine then Fine
                          else if a == Weak || b == Weak then Weak
                          else if a == Unknown || b == Unknown then Unknown
                          else Copyleft
    ensures Worst(a, b) == if a == Copyleft || b == Copyleft then Copyleft
                           else if a == Unknown || b == Unknown then Unknown
                           else if a == Weak || b == Weak then Weak
                           else Fine
  {
  }

  lemma PiecesStep(tokens: seq<string>, i: nat, operator: string, depth: int, current: string)
    requires i < |tokens|
    ensures Pieces(tokens[i..], operator, depth, current) ==
            var d := Depth(depth, tokens[i]);
            if d == 0 && Strip(tokens[i]) == operator then [current] + Pieces(tokens[i + 1..], operator, d, "")
            else Pieces(tokens[i + 1..], operator, d, current + tokens[i])
  {
    assert tokens[i..][1..] == tokens[i + 1..];
  }

  // The two loops as the gate runs them.
  method SplitLoop(expression: string, operator: string) returns (parts: seq<string>)
    ensures parts == SplitTopLevel(expression, operator)
  {
    var pieces: seq<string> := [];
    var depth := 0;
    var current := "";
    var tokens := Tokens(expression);
    var i := 0;
    while i < |tokens|
      invariant 0 <= i <= |tokens|
      invariant pieces + Pieces(tokens[i..], operator, depth, current) == Pieces(tokens, operator, 0, "")
    {
      var token := tokens[i];
      PiecesStep(tokens, i, operator, depth, current);
      if token == "(" {
        depth := depth + 1;
      } else if token == ")" {
        depth := depth - 1;
      }
      if depth == 0 && Strip(token) == operator {
        pieces := pieces + [current];
        current := "";
      } else {
        current := current + token;
      }
      i := i + 1;
    }
    parts := Stripped(pieces + [current]);
  }

  method WrapLoop(expression: string) returns (wrapped: bool)
    ensures wrapped == WrapFrom(expression, 0)
  {
    var depth := 0;
    for index := 0 to |expression|
      invariant WrapFrom(expression[index..], depth) == WrapFrom(expression, 0)
    {
      assert expression[index..][..1] == [expression[index]] && expression[index..][1..] == expression[index + 1..];
      if expression[index] == '(' {
        depth := depth + 1;
      } else if expression[index] == ')' {
        depth := depth - 1;
        if depth == 0 && index != |expression| - 1 {
          return false;
        }
      }
    }
    return depth == 0;
  }
}
