// SPDX expression trees and what the text gate makes of them (Annex D, section D.4.5 of the SPDX
// Specification 2.3: WITH binds first, then AND, then OR).
//
// A tree is spelled as a list of words; a text spells it when its words, white space aside, are
// those. Each thing the gate does to text - cutting, stripping, unwrapping, splitting - is first
// carried over to words, and then words are followed along the tree. The classes of the parts then
// come together as the tree's value, whatever spacing and redundant parentheses the text has.

module LicenceTrees {
  import opened Options
  import opened Text
  import opened Licences

  // `Group` is a pair of parentheses, needed or not. `Bare` is no expression of the specification: one
  // WITH, and maybe more, with no licence beside them.
  datatype Tree =
    | Licence(id: string)
    | With(id: string, exception: string)
    | Bare(more: nat)
    | Group(inner: Tree)
    | And(l: Tree, r: Tree)
    | Or(l: Tree, r: Tree)

  predicate Name(s: string) {
    s != "" && (forall i :: 0 <= i < |s| ==> KindOf(s[i]) == Letter) && s != "OR" && s != "AND" && s != "WITH"
  }

  // A tree as it can be written: an OR inside an AND stands in parentheses.
  predicate Written(tree: Tree) {
    match tree
    case Licence(id) => Name(id)
    case With(id, exception) => Name(id) && Name(exception)
    case Bare(_) => true
    case Group(inner) => Written(inner)
    case And(l, r) => Written(l) && Written(r) && !l.Or? && !r.Or?
    case Or(l, r) => Written(l) && Written(r)
  }

  // The tree's own class: OR takes the best, AND the worst, WITH its licence. None stands for the
  // IndexError a bare WITH raises.
  function Value(tree: Tree, term: string -> Class): Option<Class> {
    match tree
    case Licence(id) => Some(term(id))
    case With(id, _) => Some(term(id))
    case Bare(_) => None
    case Group(inner) => Value(inner, term)
    case And(l, r) => Both(Value(l, term), Value(r, term), Worst)
    case Or(l, r) => Both(Value(l, term), Value(r, term), Best)
  }

  predicate HoldsBare(tree: Tree) {
    match tree
    case Bare(_) => true
    case Group(inner) => HoldsBare(inner)
    case And(l, r) => HoldsBare(l) || HoldsBare(r)
    case Or(l, r) => HoldsBare(l) || HoldsBare(r)
    case _ => false
  }

  function Withs(n: nat): seq<string> {
    if n == 0 then [] else Withs(n - 1) + ["WITH"]
  }

  // The words of a tree, in writing order.
  function Spelled(tree: Tree): seq<string> {
    match tree
    case Licence(id) => [id]
    case With(id, exception) => [id, "WITH", exception]
    case Bare(more) => Withs(more + 1)
    case Group(inner) => ["("] + Spelled(inner) + [")"]
    case And(l, r) => Spelled(l) + ["AND"] + Spelled(r)
    case Or(l, r) => Spelled(l) + ["OR"] + Spelled(r)
  }

  function NoBlanks(tokens: seq<string>): seq<string> {
    if tokens == [] then []
    else if tokens[0] != "" && KindOf(tokens[0][0]) == Blank then NoBlanks(tokens[1..])
    else [tokens[0]] + NoBlanks(tokens[1..])
  }

  // The words of a text: its tokens without the white space.
  function Words(text: string): seq<string> {
    NoBlanks(Tokens(text))
  }

  function PrintedWiths(more: nat): string {
    if more == 0 then "WITH" else PrintedWiths(more - 1) + " WITH"
  }

  // The text of a tree with single spaces.
  function Printed(tree: Tree): string {
    match tree
    case Licence(id) => id
    case With(id, exception) => id + (" " + "WITH" + " ") + exception
    case Bare(more) => PrintedWiths(more)
    case Group(inner) => "(" + Printed(inner) + ")"
    case And(l, r) => Printed(l) + (" " + "AND" + " ") + Printed(r)
    case Or(l, r) => Printed(l) + (" " + "OR" + " ") + Printed(r)
  }

  // ---------------------------------------------------------------------------------------
  // Tokens of a text and of its slices
  // ---------------------------------------------------------------------------------------

  predicate Token(t: string) {
    && t != "" && (forall i :: 0 <= i < |t| ==> KindOf(t[i]) == KindOf(t[0]))
    && (KindOf(t[0]) == Paren ==> |t| == 1)
  }

  // Tokens that a text could be cut into: no two runs of one kind side by side.
  predicate Cut(tokens: seq<string>) {
    tokens == [] || (Token(tokens[0]) && Apart(tokens) && Cut(tokens[1..]))
  }

  predicate Apart(tokens: seq<string>)
    requires tokens != [] && tokens[0] != ""
  {
    |tokens| == 1 || tokens[1] == "" || KindOf(tokens[0][0]) == Paren || KindOf(tokens[1][0]) != KindOf(tokens[0][0])
  }

  lemma FirstToken(s: string)
    requires s != ""
    ensures Tokens(s) != [] && Token(Tokens(s)[0]) && Tokens(s)[0][0] == s[0]
  {
  }

  lemma {:induction false} TokensAreCut(s: string)
    ensures Cut(Tokens(s))
  {
    if s != [] {
      var n := if KindOf(s[0]) == Paren then 1 else Leading(s, KindOf(s[0]));
      TokensAreCut(s[n..]);
      FirstToken(s);
      if s[n..] != "" {
        FirstToken(s[n..]);
      }
    }
  }

  lemma {:induction false} LeadingOfRun(t: string, rest: string, kind: Kind)
    requires forall i :: 0 <= i < |t| ==> KindOf(t[i]) == kind
    requires rest != "" ==> KindOf(rest[0]) != kind
    ensures Leading(t + rest, kind) == |t|
  {
    if t == "" {
      assert t + rest == rest;
    } else {
      assert (t + rest)[1..] == t[1..] + rest;
      LeadingOfRun(t[1..], rest, kind);
    }
  }

  lemma JoinStarts(tokens: seq<string>)
    requires Cut(tokens) && tokens != []
    ensures Join(tokens) != "" && Join(tokens)[0] == tokens[0][0]
  {
  }

  lemma FirstCut(t: string, rest: string)
    requires Token(t) && (rest == "" || KindOf(t[0]) == Paren || KindOf(rest[0]) != KindOf(t[0]))
    ensures Tokens(t + rest) == [t] + Tokens(rest)
  {
    if KindOf(t[0]) != Paren {
      LeadingOfRun(t, rest, KindOf(t[0]));
    }
    assert (t + rest)[..|t|] == t && (t + rest)[|t|..] == rest;
  }

  // Cutting a joined text finds the same tokens again.
  lemma {:induction false} CutAgain(tokens: seq<string>)
    requires Cut(tokens)
    ensures Tokens(Join(tokens)) == tokens
  {
    if tokens != [] {
      CutAgain(tokens[1..]);
      if tokens[1..] != [] {
        JoinStarts(tokens[1..]);
      }
      FirstCut(tokens[0], Join(tokens[1..]));
    }
  }

  lemma {:induction false} JoinConcat(a: seq<string>, b: seq<string>)
    ensures Join(a + b) == Join(a) + Join(b)
  {
    if a == [] {
      assert a + b == b;
    } else {
      assert (a + b)[1..] == a[1..] + b;
      JoinConcat(a[1..], b);
      assert Join(a + b) == a[0] + (Join(a[1..]) + Join(b));
    }
  }

  lemma {:induction false} NoBlanksConcat(a: seq<string>, b: seq<string>)
    ensures NoBlanks(a + b) == NoBlanks(a) + NoBlanks(b)
  {
    if a == [] {
      assert a + b == b;
    } else {
      assert (a + b)[1..] == a[1..] + b;
      NoBlanksConcat(a[1..], b);
    }
  }

  // A slice of a cut is a cut.
  lemma {:induction false} CutSplits(a: seq<string>, b: seq<string>)
    requires Cut(a + b)
    ensures Cut(a) && Cut(b)
  {
    if a == [] {
      assert a + b == b;
    } else {
      assert (a + b)[1..] == a[1..] + b;
      CutSplits(a[1..], b);
    }
  }

  // So is a cut whose last token became a shorter one of its kind.
  lemma {:induction false} CutShorterLast(most: seq<string>, t: string, shorter: string)
    requires Cut(most + [t]) && Token(t) && Token(shorter) && KindOf(shorter[0]) == KindOf(t[0])
    ensures Cut(most + [shorter])
  {
    if most != [] {
      assert (most + [t])[1..] == most[1..] + [t];
      assert (most + [shorter])[1..] == most[1..] + [shorter];
      CutShorterLast(most[1..], t, shorter);
    }
  }

  function Kept(t: string): seq<string> {
    if t != "" && KindOf(t[0]) == Blank then [] else [t]
  }

  lemma JoinLast(most: seq<string>, t: string)
    ensures Join(most + [t]) == Join(most) + t
    ensures NoBlanks(most + [t]) == NoBlanks(most) + Kept(t)
  {
    JoinConcat(most, [t]);
    NoBlanksConcat(most, [t]);
    assert Join([t]) == t + Join([]) == t;
    assert NoBlanks([t]) == Kept(t);
  }

  lemma LastToken(s: string) returns (most: seq<string>, t: string)
    requires s != ""
    ensures Tokens(s) == most + [t] && Token(t) && Cut(most + [t]) && Cut(most)
    ensures s == Join(most) + t && Words(s) == NoBlanks(most) + Kept(t)
    ensures s[|s| - 1] == t[|t| - 1]
  {
    var ts := Tokens(s);
    FirstToken(s);
    TokensAreCut(s);
    JoinTokens(s);
    most, t := ts[..|ts| - 1], ts[|ts| - 1];
    assert ts == most + [t];
    CutSplits(most, [t]);
    CutOne(t);
    JoinLast(most, t);
  }

  lemma CutOne(t: string)
    requires Cut([t])
    ensures Token(t) && t != ""
  {
  }

  lemma ShorterRun(t: string)
    requires Token(t) && 2 <= |t|
    ensures Token(t[1..]) && KindOf(t[1..][0]) == KindOf(t[0])
    ensures Token(t[..|t| - 1]) && KindOf(t[..|t| - 1][0]) == KindOf(t[0])
  {
    var first, last := t[1..], t[..|t| - 1];
    assert forall i :: 0 <= i < |first| ==> first[i] == t[i + 1];
    assert forall i :: 0 <= i < |last| ==> last[i] == t[i];
  }

  // Taking the blank at either end of a text away takes no word away.
  lemma DropFirstBlank(s: string)
    requires s != "" && KindOf(s[0]) == Blank
    ensures Words(s[1..]) == Words(s)
  {
    var ts := Tokens(s);
    FirstToken(s);
    TokensAreCut(s);
    JoinTokens(s);
    var t := ts[0];
    if |t| == 1 {
      assert s[1..] == Join(ts[1..]);
      CutAgain(ts[1..]);
    } else {
      var shorter := [t[1..]] + ts[1..];
      ShorterRun(t);
      assert shorter[1..] == ts[1..];
      assert s[1..] == Join(shorter);
      CutAgain(shorter);
    }
  }

  lemma DropLastBlank(s: string)
    requires s != "" && KindOf(s[|s| - 1]) == Blank
    ensures Words(s[..|s| - 1]) == Words(s)
  {
    var most, t := LastToken(s);
    if |t| == 1 {
      assert s[..|s| - 1] == Join(most);
      CutAgain(most);
    } else {
      var shorter := t[..|t| - 1];
      ShorterRun(t);
      CutShorterLast(most, t, shorter);
      JoinLast(most, shorter);
      assert s[..|s| - 1] == Join(most + [shorter]);
      CutAgain(most + [shorter]);
    }
  }

  lemma {:induction false} StripLeftKeepsWords(s: string)
    ensures Words(StripLeft(s)) == Words(s)
  {
    if s != "" && KindOf(s[0]) == Blank {
      DropFirstBlank(s);
      StripLeftKeepsWords(s[1..]);
    }
  }

  lemma {:induction false} StripRightKeepsWords(s: string)
    ensures Words(StripRight(s)) == Words(s)
  {
    if s != "" && KindOf(s[|s| - 1]) == Blank {
      DropLastBlank(s);
      StripRightKeepsWords(s[..|s| - 1]);
    }
  }

  lemma StripKeepsWords(s: string)
    ensures Words(Strip(s)) == Words(s)
    ensures Trimmed(Strip(s))
    ensures Strip(s) == "" <==> Words(s) == []
  {
    StripLeftKeepsWords(s);
    StripRightKeepsWords(StripLeft(s));
    StripTrims(s);
    if Strip(s) != "" {
      FirstToken(Strip(s));
    }
  }

  // A trimmed text begins with its first word and ends with its last.
  lemma TrimmedEnds(s: string)
    requires Trimmed(s) && s != ""
    ensures Words(s) != [] && Words(s)[0] == Tokens(s)[0] && Words(s)[0] != "" && Words(s)[0][0] == s[0]
    ensures var last := Words(s)[|Words(s)| - 1]; last != "" && last[|last| - 1] == s[|s| - 1]
    ensures |Words(s)| == 1 ==> Words(s)[0] == s
  {
    FirstToken(s);
    var most, t := LastToken(s);
    if most != [] {
      assert Tokens(s)[0] == most[0];
      assert NoBlanks(most)[0] == most[0];
    }
  }

  // Between a parenthesis at either end lie the words between.
  lemma InsideWords(s: string)
    requires 2 <= |s| && s[0] == '(' && s[|s| - 1] == ')'
    ensures |Words(s)| >= 2 && Words(s[1..|s| - 1]) == Words(s)[1..|Words(s)| - 1]
  {
    FirstToken(s);
    var most, t := LastToken(s);
    assert t == ")";
    assert Tokens(s)[0] == "(";
    assert most != [] && most[0] == "(";
    var inner := most[1..];
    assert Join(most) == "(" + Join(inner);
    assert s[1..|s| - 1] == Join(inner);
    CutAgain(inner);
    assert NoBlanks(most) == ["("] + NoBlanks(inner);
  }

  // ---------------------------------------------------------------------------------------
  // Splitting, on words
  // ---------------------------------------------------------------------------------------

  predicate Operator(s: string) {
    s == "OR" || s == "AND" || s == "WITH"
  }

  function WordPieces(words: seq<string>, operator: string, depth: int, current: seq<string>): seq<seq<string>> {
    if words == [] then [current]
    else
      var d := Depth(depth, words[0]);
      if d == 0 && words[0] == operator then [current] + WordPieces(words[1..], operator, d, [])
      else WordPieces(words[1..], operator, d, current + [words[0]])
  }

  function JoinEach(pieces: seq<seq<string>>): seq<string> {
    if pieces == [] then [] else [Join(pieces[0])] + JoinEach(pieces[1..])
  }

  function UnblankEach(pieces: seq<seq<string>>): seq<seq<string>> {
    if pieces == [] then [] else [NoBlanks(pieces[0])] + UnblankEach(pieces[1..])
  }

  function WordsEach(parts: seq<string>): seq<seq<string>> {
    if parts == [] then [] else [Words(parts[0])] + WordsEach(parts[1..])
  }

  function NonEmpty(pieces: seq<seq<string>>): seq<seq<string>> {
    if pieces == [] then []
    else if pieces[0] == [] then NonEmpty(pieces[1..])
    else [pieces[0]] + NonEmpty(pieces[1..])
  }

  lemma {:induction false} StripToken(t: string)
    requires Token(t)
    ensures Strip(t) == if KindOf(t[0]) == Blank then "" else t
  {
    if KindOf(t[0]) == Blank {
      StripLeftRun(t);
    }
  }

  lemma {:induction false} StripLeftRun(t: string)
    requires forall i :: 0 <= i < |t| ==> KindOf(t[i]) == Blank
    ensures StripLeft(t) == ""
  {
    if t != "" {
      StripLeftRun(t[1..]);
    }
  }

  // The loop over tokens and the split of words make the same pieces.
  lemma {:induction false} PiecesOfTokens(tokens: seq<string>, operator: string, depth: int, current: seq<string>)
    requires Operator(operator) && Cut(tokens)
    ensures Pieces(tokens, operator, depth, Join(current)) == JoinEach(WordPieces(tokens, operator, depth, current))
  {
    if tokens != [] {
      StripToken(tokens[0]);
      var d := Depth(depth, tokens[0]);
      if d == 0 && tokens[0] == operator {
        PiecesOfTokens(tokens[1..], operator, d, []);
      } else {
        JoinLast(current, tokens[0]);
        PiecesOfTokens(tokens[1..], operator, d, current + [tokens[0]]);
      }
    }
  }

  lemma OneWord(word: string, rest: seq<string>, operator: string, depth: int, current: seq<string>)
    requires !(Depth(depth, word) == 0 && word == operator)
    ensures WordPieces([word] + rest, operator, depth, current) ==
            WordPieces(rest, operator, Depth(depth, word), current + [word])
  {
    assert ([word] + rest)[1..] == rest;
  }

  // Leaving out white space before or after the split is the same.
  lemma {:induction false} PiecesUnblanked(tokens: seq<string>, operator: string, depth: int, current: seq<string>)
    requires Operator(operator) && Cut(tokens)
    ensures UnblankEach(WordPieces(tokens, operator, depth, current)) ==
            WordPieces(NoBlanks(tokens), operator, depth, NoBlanks(current))
  {
    if tokens != [] {
      var t, d := tokens[0], Depth(depth, tokens[0]);
      JoinLast(current, t);
      if d == 0 && t == operator {
        PiecesUnblanked(tokens[1..], operator, d, []);
        assert NoBlanks(tokens)[1..] == NoBlanks(tokens[1..]);
      } else {
        PiecesUnblanked(tokens[1..], operator, d, current + [t]);
        if KindOf(t[0]) == Blank {
          assert NoBlanks(current) + [] == NoBlanks(current);
        } else {
          OneWord(t, NoBlanks(tokens[1..]), operator, depth, NoBlanks(current));
        }
      }
    }
  }

  ghost predicate AllCut(pieces: seq<seq<string>>) {
    forall i :: 0 <= i < |pieces| ==> Cut(pieces[i])
  }

  lemma {:induction false} PiecesAreCut(tokens: seq<string>, operator: string, depth: int, current: seq<string>)
    requires Cut(current + tokens)
    ensures AllCut(WordPieces(tokens, operator, depth, current))
  {
    CutSplits(current, tokens);
    if tokens != [] {
      var d := Depth(depth, tokens[0]);
      if d == 0 && tokens[0] == operator {
        assert [] + tokens[1..] == tokens[1..];
        PiecesAreCut(tokens[1..], operator, d, []);
      } else {
        assert current + [tokens[0]] + tokens[1..] == current + tokens;
        PiecesAreCut(tokens[1..], operator, d, current + [tokens[0]]);
      }
    }
  }

  lemma {:induction false} WordsOfPieces(pieces: seq<seq<string>>)
    requires AllCut(pieces)
    ensures WordsEach(Stripped(JoinEach(pieces))) == NonEmpty(UnblankEach(pieces))
  {
    if pieces != [] {
      WordsOfPieces(pieces[1..]);
      CutAgain(pieces[0]);
      StripKeepsWords(Join(pieces[0]));
    }
  }

  // The words of the parts are the parts of the words.
  lemma SplitOnWords(text: string, operator: string)
    requires Operator(operator)
    ensures WordsEach(SplitTopLevel(text, operator)) == NonEmpty(WordPieces(Words(text), operator, 0, []))
  {
    var tokens := Tokens(text);
    TokensAreCut(text);
    PiecesOfTokens(tokens, operator, 0, []);
    PiecesUnblanked(tokens, operator, 0, []);
    assert [] + tokens == tokens;
    PiecesAreCut(tokens, operator, 0, []);
    WordsOfPieces(WordPieces(tokens, operator, 0, []));
  }

  // ---------------------------------------------------------------------------------------
  // Splitting, on trees
  // ---------------------------------------------------------------------------------------

  // The trees an operator's chain holds, left to right.
  function Operands(tree: Tree, operator: string): (operands: seq<Tree>)
    ensures operands != []
  {
    match tree
    case Or(l, r) => if operator == "OR" then Operands(l, operator) + Operands(r, operator) else [tree]
    case And(l, r) => if operator == "AND" then Operands(l, operator) + Operands(r, operator) else [tree]
    case _ => [tree]
  }

  // No such operator stands outside parentheses.
  predicate NoTop(tree: Tree, operator: string) {
    match tree
    case Licence(_) => true
    case With(_, _) => operator != "WITH"
    case Bare(_) => operator != "WITH"
    case Group(_) => true
    case And(l, r) => operator != "AND" && NoTop(l, operator) && NoTop(r, operator)
    case Or(l, r) => operator != "OR" && NoTop(l, operator) && NoTop(r, operator)
  }

  function SpelledEach(trees: seq<Tree>): seq<seq<string>> {
    if trees == [] then [] else [Spelled(trees[0])] + SpelledEach(trees[1..])
  }

  lemma {:induction false} SpelledEachConcat(a: seq<Tree>, b: seq<Tree>)
    ensures SpelledEach(a + b) == SpelledEach(a) + SpelledEach(b)
  {
    if a == [] {
      assert a + b == b;
    } else {
      assert (a + b)[1..] == a[1..] + b;
      SpelledEachConcat(a[1..], b);
    }
  }

  lemma NameIsNoParen(s: string)
    requires Name(s)
    ensures s != "(" && s != ")"
  {
    assert KindOf(s[0]) == Letter;
  }

  lemma WithGoesThrough(id: string, exception: string, rest: seq<string>, operator: string, depth: nat,
                        current: seq<string>)
    requires Name(id) && Name(exception) && Operator(operator) && (depth == 0 ==> operator != "WITH")
    ensures WordPieces([id, "WITH", exception] + rest, operator, depth, current) ==
            WordPieces(rest, operator, depth, current + [id, "WITH", exception])
  {
    NameIsNoParen(id);
    NameIsNoParen(exception);
    assert [id, "WITH", exception] + rest == [id] + (["WITH"] + ([exception] + rest));
    OneWord(id, ["WITH"] + ([exception] + rest), operator, depth, current);
    OneWord("WITH", [exception] + rest, operator, depth, current + [id]);
    OneWord(exception, rest, operator, depth, current + [id] + ["WITH"]);
    assert current + [id] + ["WITH"] + [exception] == current + [id, "WITH", exception];
  }

  lemma {:induction false} WithsGoThrough(n: nat, rest: seq<string>, operator: string, depth: nat, current: seq<string>)
    requires Operator(operator) && (depth == 0 ==> operator != "WITH")
    ensures WordPieces(Withs(n) + rest, operator, depth, current) ==
            WordPieces(rest, operator, depth, current + Withs(n))
  {
    if n == 0 {
      assert [] + rest == rest && current + [] == current;
    } else {
      assert Withs(n) + rest == Withs(n - 1) + (["WITH"] + rest);
      WithsGoThrough(n - 1, ["WITH"] + rest, operator, depth, current);
      OneWord("WITH", rest, operator, depth, current + Withs(n - 1));
      assert current + Withs(n - 1) + ["WITH"] == current + Withs(n);
    }
  }

  // A tree with no such operator on top goes whole into the current piece.
  lemma {:induction false} GoesThrough(tree: Tree, rest: seq<string>, operator: string, depth: nat,
                                       current: seq<string>)
    requires Written(tree) && Operator(operator) && (depth == 0 ==> NoTop(tree, operator))
    ensures WordPieces(Spelled(tree) + rest, operator, depth, current) ==
            WordPieces(rest, operator, depth, current + Spelled(tree))
    decreases tree, 1
  {
    match tree {
      case Licence(id) =>
        NameIsNoParen(id);
        OneWord(id, rest, operator, depth, current);
      case With(id, exception) =>
        WithGoesThrough(id, exception, rest, operator, depth, current);
      case Bare(more) =>
        WithsGoThrough(more + 1, rest, operator, depth, current);
      case Group(inner) =>
        assert Spelled(tree) + rest == ["("] + (Spelled(inner) + ([")"] + rest));
        OneWord("(", Spelled(inner) + ([")"] + rest), operator, depth, current);
        GoesThrough(inner, [")"] + rest, operator, depth + 1, current + ["("]);
        OneWord(")", rest, operator, depth + 1, current + ["("] + Spelled(inner));
        assert current + ["("] + Spelled(inner) + [")"] == current + Spelled(tree);
      case And(l, r) =>
        ThroughBoth(tree, l, "AND", r, rest, operator, depth, current);
      case Or(l, r) =>
        ThroughBoth(tree, l, "OR", r, rest, operator, depth, current);
    }
  }

  lemma {:induction false} ThroughBoth(
    tree: Tree, l: Tree, middle: string, r: Tree, rest: seq<string>, operator: string, depth: nat, current: seq<string>)
    requires tree == And(l, r) || tree == Or(l, r)
    requires Written(l) && Written(r) && Operator(operator) && Operator(middle)
    requires depth == 0 ==> NoTop(l, operator) && NoTop(r, operator) && middle != operator
    ensures WordPieces(Spelled(l) + [middle] + Spelled(r) + rest, operator, depth, current) ==
            WordPieces(rest, operator, depth, current + (Spelled(l) + [middle] + Spelled(r)))
    decreases tree, 0
  {
    var left, right := Spelled(l), Spelled(r);
    assert left + [middle] + right + rest == left + ([middle] + (right + rest));
    GoesThrough(l, [middle] + (right + rest), operator, depth, current);
    OneWord(middle, right + rest, operator, depth, current + left);
    GoesThrough(r, rest, operator, depth, current + left + [middle]);
    assert current + left + [middle] + right == current + (left + [middle] + right);
  }

  predicate Chained(tree: Tree, operator: string) {
    Written(tree) && (operator == "OR" || (operator == "AND" && !tree.Or?))
  }

  lemma {:induction false} OperandsAre(tree: Tree, operator: string)
    requires Chained(tree, operator)
    ensures var ops := Operands(tree, operator);
            && ops != []
            && (|ops| == 1 <==> !(operator == "OR" && tree.Or?) && !(operator == "AND" && tree.And?))
            && (|ops| == 1 ==> ops == [tree])
            && forall i :: 0 <= i < |ops| ==> Written(ops[i]) && NoTop(ops[i], operator)
  {
    match tree {
      case Or(l, r) =>
        if operator == "OR" {
          OperandsAre(l, operator);
          OperandsAre(r, operator);
        }
      case And(l, r) =>
        if operator == "AND" {
          OperandsAre(l, operator);
          OperandsAre(r, operator);
        } else {
          NoOrUnderAnd(tree);
        }
      case _ =>
    }
  }

  lemma {:induction false} NoOrUnderAnd(tree: Tree)
    requires Written(tree) && !tree.Or?
    ensures NoTop(tree, "OR")
  {
    if tree.And? {
      NoOrUnderAnd(tree.l);
      NoOrUnderAnd(tree.r);
    }
  }

  // Splitting a chain's words gives its operands; what follows joins the last of them.
  ghost predicate SplitsInto(words: seq<string>, operands: seq<Tree>, operator: string, rest: seq<string>)
    requires operands != []
  {
    WordPieces(words + rest, operator, 0, []) ==
    SpelledEach(operands[..|operands| - 1]) + WordPieces(rest, operator, 0, Spelled(operands[|operands| - 1]))
  }

  lemma {:induction false} ChainSplits(tree: Tree, operator: string, rest: seq<string>)
    requires Chained(tree, operator)
    ensures SplitsInto(Spelled(tree), Operands(tree, operator), operator, rest)
    decreases Size(tree), 1
  {
    OperandsAre(tree, operator);
    if |Operands(tree, operator)| == 1 {
      assert Operands(tree, operator)[0] == tree && NoTop(Operands(tree, operator)[0], operator);
      GoesThrough(tree, rest, operator, 0, []);
      assert [] + Spelled(tree) == Spelled(tree);
      assert Operands(tree, operator)[..0] == [];
    } else {
      ChainSplitsBoth(operator, rest, tree.l, tree.r);
    }
  }

  lemma {:induction false} ChainSplitsBoth(operator: string, rest: seq<string>, l: Tree, r: Tree)
    requires Chained(l, operator) && Chained(r, operator)
    ensures SplitsInto(Spelled(l) + [operator] + Spelled(r), Operands(l, operator) +
            Operands(r, operator), operator, rest)
    decreases 1 + Size(l) + Size(r), 0
  {
    var left, right := Operands(l, operator), Operands(r, operator);
    ChainSplits(l, operator, [operator] + (Spelled(r) + rest));
    ChainSplits(r, operator, rest);
    var mid, end := SpelledEach(right[..|right| - 1]), WordPieces(rest, operator, 0, Spelled(right[|right| - 1]));
    ChainJoins(operator, Spelled(l), Spelled(r), rest, SpelledEach(left[..|left| - 1]), Spelled(left[|left| - 1]),
      mid, end);
    OperandsJoin(left, right);
  }

  lemma OperandsJoin(left: seq<Tree>, right: seq<Tree>)
    requires left != [] && right != []
    ensures var both := left + right;
            && both[|both| - 1] == right[|right| - 1]
            && SpelledEach(both[..|both| - 1]) ==
               SpelledEach(left[..|left| - 1]) + [Spelled(left[|left| - 1])] + SpelledEach(right[..|right| - 1])
  {
    assert (left + right)[..|left + right| - 1] == left + right[..|right| - 1];
    SpelledEachLast(left);
    SpelledEachConcat(left, right[..|right| - 1]);
  }

  lemma ChainJoins(operator: string, left: seq<string>, right: seq<string>, rest: seq<string>,
                   front: seq<seq<string>>, last: seq<string>, mid: seq<seq<string>>, end: seq<seq<string>>)
    requires Operator(operator)
    requires WordPieces(left + ([operator] + (right + rest)), operator, 0, []) ==
             front + WordPieces([operator] + (right + rest), operator, 0, last)
    requires WordPieces(right + rest, operator, 0, []) == mid + end
    ensures WordPieces(left + [operator] + right + rest, operator, 0, []) == front + [last] + mid + end
  {
    SplitsHere(operator, right + rest, last);
    Reassociate(left, [operator], right, rest);
    Reassociate(front, [last], mid, end);
  }

  lemma Reassociate<T>(a: seq<T>, b: seq<T>, c: seq<T>, d: seq<T>)
    ensures a + (b + (c + d)) == a + b + c + d
  {
    assert a + (b + (c + d)) == (a + b) + (c + d);
    assert (a + b) + (c + d) == ((a + b) + c) + d;
  }

  lemma SplitsHere(operator: string, tail: seq<string>, current: seq<string>)
    requires Operator(operator)
    ensures WordPieces([operator] + tail, operator, 0, current) == [current] + WordPieces(tail, operator, 0, [])
  {
    assert ([operator] + tail)[1..] == tail;
  }

  lemma {:induction false} SpelledEachLast(trees: seq<Tree>)
    requires trees != []
    ensures SpelledEach(trees) == SpelledEach(trees[..|trees| - 1]) + [Spelled(trees[|trees| - 1])]
  {
    if 1 < |trees| {
      SpelledEachLast(trees[1..]);
      assert trees[1..][..|trees| - 2] == trees[..|trees| - 1][1..];
    }
  }

  lemma {:induction false} SpelledIsNotEmpty(tree: Tree)
    ensures Spelled(tree) != []
  {
    if tree.And? || tree.Or? {
      SpelledIsNotEmpty(tree.l);
    }
  }

  lemma {:induction false} SpelledEachNonEmpty(trees: seq<Tree>)
    ensures NonEmpty(SpelledEach(trees)) == SpelledEach(trees)
    ensures |SpelledEach(trees)| == |trees|
  {
    if trees != [] {
      SpelledIsNotEmpty(trees[0]);
      SpelledEachNonEmpty(trees[1..]);
    }
  }

  // The parts of a chain's text spell its operands.
  lemma PartsSpellOperands(tree: Tree, text: string, operator: string)
    requires Chained(tree, operator) && Words(text) == Spelled(tree)
    ensures WordsEach(SplitTopLevel(text, operator)) == SpelledEach(Operands(tree, operator))
    ensures |SplitTopLevel(text, operator)| == |Operands(tree, operator)|
  {
    var ops := Operands(tree, operator);
    SplitOnWords(text, operator);
    assert Spelled(tree) + [] == Spelled(tree);
    ChainSplits(tree, operator, []);
    SpelledEachLast(ops);
    SpelledEachNonEmpty(ops);
    WordsEachLength(SplitTopLevel(text, operator));
  }

  lemma {:induction false} WordsEachLength(parts: seq<string>)
    ensures |WordsEach(parts)| == |parts|
  {
    if parts != [] {
      WordsEachLength(parts[1..]);
    }
  }

  // ---------------------------------------------------------------------------------------
  // The pair of parentheses around a text
  // ---------------------------------------------------------------------------------------

  function WrapWords(words: seq<string>, depth: int): bool {
    if words == [] then depth == 0
    else
      var d := Depth(depth, words[0]);
      if words[0] == ")" && d == 0 && 1 < |words| then false else WrapWords(words[1..], d)
  }

  lemma WrapSkips(word: string, rest: seq<string>, depth: int)
    requires word != "(" && word != ")"
    ensures WrapWords([word] + rest, depth) == WrapWords(rest, depth)
  {
    assert ([word] + rest)[1..] == rest;
  }

  // What is left of the first token, if anything is, is a token of its kind.
  lemma ShorterIsCut(t: string, rest: seq<string>)
    requires Cut([t] + rest) && KindOf(t[0]) == Letter && 2 <= |t|
    ensures Cut([t[1..]] + rest) && KindOf(t[1..][0]) == Letter
  {
    ShorterRun(t);
    assert ([t] + rest)[1..] == rest && ([t[1..]] + rest)[1..] == rest;
  }

  lemma ShorterTokens(t: string, rest: seq<string>)
    requires Cut([t] + rest) && KindOf(t[0]) == Letter && 2 <= |t|
    ensures Tokens(Join([t] + rest)[1..]) == [t[1..]] + rest
  {
    ShorterIsCut(t, rest);
    assert ([t] + rest)[1..] == rest && ([t[1..]] + rest)[1..] == rest;
    assert (t + Join(rest))[1..] == t[1..] + Join(rest);
    CutAgain([t[1..]] + rest);
  }

  // A text without its first letter has the same words but for the first, which is shorter or gone.
  lemma DropFirstLetter(s: string, depth: int)
    requires s != "" && KindOf(s[0]) == Letter
    ensures WrapWords(Words(s), depth) == WrapWords(Words(s[1..]), depth)
  {
    var ts := Tokens(s);
    FirstToken(s);
    TokensAreCut(s);
    JoinTokens(s);
    var t, rest := ts[0], NoBlanks(ts[1..]);
    assert t != "(" && t != ")";
    assert Words(s) == [t] + rest;
    WrapSkips(t, rest, depth);
    if |t| == 1 {
      assert s[1..] == Join(ts[1..]);
      CutAgain(ts[1..]);
    } else {
      assert ts == [t] + ts[1..];
      ShorterTokens(t, ts[1..]);
      ShorterIsCut(t, ts[1..]);
      assert ([t[1..]] + ts[1..])[1..] == ts[1..];
      WrapSkips(t[1..], rest, depth);
    }
  }

  lemma DropParen(s: string)
    requires s != "" && KindOf(s[0]) == Paren
    ensures Words(s) == [s[..1]] + Words(s[1..])
  {
    assert Tokens(s) == [s[..1]] + Tokens(s[1..]);
  }

  lemma WrapFirst(word: string, rest: seq<string>, depth: int)
    ensures WrapWords([word] + rest, depth) ==
            if word == ")" && Depth(depth, word) == 0 && rest != [] then false else WrapWords(rest, Depth(depth, word))
  {
    assert ([word] + rest)[1..] == rest;
  }

  lemma EndsInAWord(s: string)
    requires s != "" && s[|s| - 1] == ')'
    ensures Words(s) != []
  {
    var most, t := LastToken(s);
  }

  lemma WrapParen(s: string, depth: int, rest: seq<string>)
    requires s != "" && KindOf(s[0]) == Paren
    requires Words(s) == [s[..1]] + rest && (s[1..] == "" <==> rest == [])
    requires WrapFrom(s[1..], Depth(depth, s[..1])) == WrapWords(rest, Depth(depth, s[..1]))
    ensures WrapFrom(s, depth) == WrapWords(Words(s), depth)
  {
    WrapFirst(s[..1], rest, depth);
  }

  // The wrap read character by character is the wrap of the words.
  lemma {:induction false} WrapOnWords(s: string, depth: int)
    requires s != "" ==> s[|s| - 1] == ')'
    ensures WrapFrom(s, depth) == WrapWords(Words(s), depth)
  {
    if s != "" {
      WrapOnWords(s[1..], Depth(depth, s[..1]));
      if KindOf(s[0]) == Paren {
        DropParen(s);
        if s[1..] != "" {
          EndsInAWord(s[1..]);
        }
        WrapParen(s, depth, Words(s[1..]));
      } else {
        assert s[..1] != "(" && s[..1] != ")" && s[0] != ')';
        if KindOf(s[0]) == Blank {
          DropFirstBlank(s);
        } else {
          DropFirstLetter(s, depth);
        }
      }
    }
  }

  lemma {:induction false} WithsStayInside(n: nat, rest: seq<string>, depth: nat)
    ensures WrapWords(Withs(n) + rest, depth) == WrapWords(rest, depth)
  {
    if n == 0 {
      assert [] + rest == rest;
    } else {
      assert Withs(n) + rest == Withs(n - 1) + (["WITH"] + rest);
      WithsStayInside(n - 1, ["WITH"] + rest, depth);
      WrapFirst("WITH", rest, depth);
    }
  }

  lemma {:induction false} WithsAre(n: nat)
    ensures |Withs(n)| == n && forall i :: 0 <= i < n ==> Withs(n)[i] == "WITH"
  {
    if n != 0 {
      WithsAre(n - 1);
    }
  }

  // Inside an open parenthesis a tree closes what it opens.
  lemma {:induction false} StaysInside(tree: Tree, rest: seq<string>, depth: nat)
    requires Written(tree) && 1 <= depth
    ensures WrapWords(Spelled(tree) + rest, depth) == WrapWords(rest, depth)
    decreases tree, 1
  {
    match tree {
      case Licence(id) =>
        NameIsNoParen(id);
        WrapFirst(id, rest, depth);
      case With(id, exception) =>
        NameIsNoParen(id);
        NameIsNoParen(exception);
        assert Spelled(tree) + rest == [id] + (["WITH"] + ([exception] + rest));
        WrapFirst(id, ["WITH"] + ([exception] + rest), depth);
        WrapFirst("WITH", [exception] + rest, depth);
        WrapFirst(exception, rest, depth);
      case Bare(more) => WithsStayInside(more + 1, rest, depth);
      case Group(inner) =>
        assert Spelled(tree) + rest == ["("] + (Spelled(inner) + ([")"] + rest));
        WrapFirst("(", Spelled(inner) + ([")"] + rest), depth);
        StaysInside(inner, [")"] + rest, depth + 1);
        WrapFirst(")", rest, depth + 1);
      case And(l, r) => BothStayInside(tree, l, "AND", r, rest, depth);
      case Or(l, r) => BothStayInside(tree, l, "OR", r, rest, depth);
    }
  }

  lemma {:induction false} BothStayInside(tree: Tree, l: Tree, middle: string, r: Tree, rest: seq<string>, depth: nat)
    requires tree == And(l, r) || tree == Or(l, r)
    requires Written(l) && Written(r) && Operator(middle) && 1 <= depth
    ensures WrapWords(Spelled(l) + [middle] + Spelled(r) + rest, depth) == WrapWords(rest, depth)
    decreases tree, 0
  {
    assert Spelled(l) + [middle] + Spelled(r) + rest == Spelled(l) + ([middle] + (Spelled(r) + rest));
    StaysInside(l, [middle] + (Spelled(r) + rest), depth);
    WrapFirst(middle, Spelled(r) + rest, depth);
    StaysInside(r, rest, depth);
  }

  lemma GroupWraps(inner: Tree, rest: seq<string>)
    requires Written(inner)
    ensures WrapWords(Spelled(Group(inner)) + rest, 0) <==> rest == []
  {
    assert Spelled(Group(inner)) + rest == ["("] + (Spelled(inner) + ([")"] + rest));
    WrapFirst("(", Spelled(inner) + ([")"] + rest), 0);
    StaysInside(inner, [")"] + rest, 1);
    WrapFirst(")", rest, 1);
  }

  // A tree that opens with a parenthesis and goes on after it closes is not wrapped.
  lemma {:induction false} ChainIsNotWrapped(tree: Tree, rest: seq<string>)
    requires Written(tree) && Spelled(tree)[0] == "(" && rest != []
    ensures !WrapWords(Spelled(tree) + rest, 0)
  {
    match tree {
      case Licence(id) => NameIsNoParen(id);
      case With(id, _) => NameIsNoParen(id);
      case Bare(more) => WithsAre(more + 1);
      case Group(inner) => GroupWraps(inner, rest);
      case And(l, r) =>
        SpelledIsNotEmpty(l);
        assert Spelled(tree) + rest == Spelled(l) + (["AND"] + (Spelled(r) + rest));
        ChainIsNotWrapped(l, ["AND"] + (Spelled(r) + rest));
      case Or(l, r) =>
        SpelledIsNotEmpty(l);
        assert Spelled(tree) + rest == Spelled(l) + (["OR"] + (Spelled(r) + rest));
        ChainIsNotWrapped(l, ["OR"] + (Spelled(r) + rest));
    }
  }

  // A trimmed text is wrapped exactly when the tree it spells is a group.
  lemma WrappedIsGroup(tree: Tree, text: string)
    requires Written(tree) && Trimmed(text) && Words(text) == Spelled(tree)
    ensures Wrapped(text) <==> tree.Group?
  {
    SpelledIsNotEmpty(tree);
    assert text != "";
    TrimmedEnds(text);
    if tree.Group? {
      GroupWraps(tree.inner, []);
      assert Spelled(tree) + [] == Spelled(tree);
      GroupEnds(tree.inner, text);
      WrapOnWords(text, 0);
    } else if Wrapped(text) {
      WrapOnWords(text, 0);
      FirstToken(text);
      assert Spelled(tree)[0] == "(";
      NotWrapped(tree);
    }
  }

  lemma GroupEnds(inner: Tree, text: string)
    requires Trimmed(text) && text != "" && Words(text) == Spelled(Group(inner))
    ensures 2 <= |text| && text[0] == '(' && text[|text| - 1] == ')'
  {
    TrimmedEnds(text);
    var words := Words(text);
    assert words[0] == "(" && words[|words| - 1] == ")";
  }

  lemma NotWrapped(tree: Tree)
    requires Written(tree) && !tree.Group? && Spelled(tree) != [] && Spelled(tree)[0] == "("
    ensures !WrapWords(Spelled(tree), 0)
  {
    match tree {
      case Licence(id) => NameIsNoParen(id);
      case With(id, _) => NameIsNoParen(id);
      case Bare(more) => WithsAre(more + 1);
      case And(l, r) =>
        SpelledIsNotEmpty(l);
        assert Spelled(tree) == Spelled(l) + (["AND"] + Spelled(r));
        ChainIsNotWrapped(l, ["AND"] + Spelled(r));
      case Or(l, r) =>
        SpelledIsNotEmpty(l);
        assert Spelled(tree) == Spelled(l) + (["OR"] + Spelled(r));
        ChainIsNotWrapped(l, ["OR"] + Spelled(r));
    }
  }

  // ---------------------------------------------------------------------------------------
  // The class read from the text is the tree's own
  // ---------------------------------------------------------------------------------------

  function BestValue(trees: seq<Tree>, term: string -> Class): Option<Class>
    requires trees != []
  {
    if |trees| == 1 then Value(trees[0], term) else Both(Value(trees[0], term), BestValue(trees[1..], term), Best)
  }

  function WorstValue(trees: seq<Tree>, term: string -> Class): Option<Class>
    requires trees != []
  {
    if |trees| == 1 then Value(trees[0], term) else Both(Value(trees[0], term), WorstValue(trees[1..], term), Worst)
  }

  lemma {:induction false} BestConcat(a: seq<Tree>, b: seq<Tree>, term: string -> Class)
    requires a != [] && b != []
    ensures BestValue(a + b, term) == Both(BestValue(a, term), BestValue(b, term), Best)
    ensures WorstValue(a + b, term) == Both(WorstValue(a, term), WorstValue(b, term), Worst)
  {
    assert (a + b)[1..] == a[1..] + b;
    if |a| == 1 {
      assert a[1..] + b == b;
    } else {
      BestConcat(a[1..], b, term);
    }
  }

  lemma {:induction false} OperandsValue(tree: Tree, term: string -> Class)
    ensures BestValue(Operands(tree, "OR"), term) == Value(tree, term)
    ensures WorstValue(Operands(tree, "AND"), term) == Value(tree, term)
  {
    match tree {
      case Or(l, r) =>
        OperandsValue(l, term);
        OperandsValue(r, term);
        BestConcat(Operands(l, "OR"), Operands(r, "OR"), term);
      case And(l, r) =>
        OperandsValue(l, term);
        OperandsValue(r, term);
        BestConcat(Operands(l, "AND"), Operands(r, "AND"), term);
      case _ =>
    }
  }

  function Size(tree: Tree): nat {
    match tree
    case Licence(_) => 1
    case With(_, _) => 1
    case Bare(_) => 1
    case Group(inner) => 1 + Size(inner)
    case And(l, r) => 1 + Size(l) + Size(r)
    case Or(l, r) => 1 + Size(l) + Size(r)
  }

  lemma {:induction false} OperandsAreSmaller(tree: Tree, operator: string)
    ensures forall i :: 0 <= i < |Operands(tree, operator)| ==> Size(Operands(tree, operator)[i]) <= Size(tree)
    ensures |Operands(tree, operator)| != 1 ==>
      forall i :: 0 <= i < |Operands(tree, operator)| ==> Size(Operands(tree, operator)[i]) < Size(tree)
  {
    match tree {
      case Or(l, r) =>
        OperandsAreSmaller(l, operator);
        OperandsAreSmaller(r, operator);
      case And(l, r) =>
        OperandsAreSmaller(l, operator);
        OperandsAreSmaller(r, operator);
      case _ =>
    }
  }

  // Trees one by one beneath a size, and the texts that spell them.
  ghost predicate Beneath(trees: seq<Tree>, size: nat) {
    forall i :: 0 <= i < |trees| ==> Written(trees[i]) && Size(trees[i]) < size
  }

  // For every tree and every text that spells it, with whatever spacing and redundant parentheses,
  // classifying the text gives the tree's own value.
  lemma {:induction false} TextHasTreeValue(tree: Tree, text: string, term: string -> Class)
    requires Written(tree) && Words(text) == Spelled(tree)
    ensures ClassifyExpression(text, term) == Value(tree, term)
    decreases Size(tree), 2, 0
  {
    var expression := Strip(text);
    StripKeepsWords(text);
    StripShortens(text);
    SpelledIsNotEmpty(tree);
    WrappedIsGroup(tree, expression);
    if tree.Group? {
      InsideWords(expression);
      assert Spelled(tree)[1..|Spelled(tree)| - 1] == Spelled(tree.inner);
      TextHasTreeValue(tree.inner, expression[1..|expression| - 1], term);
    } else {
      if tree.Or? {
        OrTextHasTreeValue(tree, expression, term);
      } else if tree.And? {
        AndTextHasTreeValue(tree, expression, term);
      } else {
        LeafTextHasTreeValue(tree, expression, term);
      }
      StripTrimmed(expression);
      assert ClassifyExpression(text, term) == ClassifyExpression(expression, term);
    }
  }

  predicate Plain(expression: string) {
    Trimmed(expression) && expression != "" && !Wrapped(expression)
  }

  lemma {:induction false} OrTextHasTreeValue(tree: Tree, expression: string, term: string -> Class)
    requires Written(tree) && tree.Or? && Plain(expression) && Words(expression) == Spelled(tree)
    ensures ClassifyExpression(expression, term) == Value(tree, term)
    decreases Size(tree), 1, 0
  {
    PartsOfChain(tree, expression, "OR");
    OrText(expression, term);
    OperandsValue(tree, term);
    BestOfTexts(SplitTopLevel(expression, "OR"), Operands(tree, "OR"), |expression|, Size(tree), term);
  }

  lemma {:induction false} AndTextHasTreeValue(tree: Tree, expression: string, term: string -> Class)
    requires Written(tree) && tree.And? && Plain(expression) && Words(expression) == Spelled(tree)
    ensures ClassifyExpression(expression, term) == Value(tree, term)
    decreases Size(tree), 1, 0
  {
    PartsOfChain(tree, expression, "OR");
    PartsOfChain(tree, expression, "AND");
    AndText(expression, term);
    OperandsValue(tree, term);
    WorstOfTexts(SplitTopLevel(expression, "AND"), Operands(tree, "AND"), |expression|, Size(tree), term);
  }

  lemma LeafTextHasTreeValue(tree: Tree, expression: string, term: string -> Class)
    requires Written(tree) && (tree.Licence? || tree.With? || tree.Bare?) && Plain(expression) &&
             Words(expression) == Spelled(tree)
    ensures ClassifyExpression(expression, term) == Value(tree, term)
  {
    PartsOfChain(tree, expression, "OR");
    PartsOfChain(tree, expression, "AND");
    if tree.Bare? {
      WithsAre(tree.more + 1);
      LeafAnswers(expression, term);
    } else {
      LeafText(tree, expression);
      TermText(expression, term);
    }
  }

  // The pieces between WITHs are all empty exactly when the words are nothing but WITHs at depth 0.
  lemma {:induction false} OnlyWiths(words: seq<string>, depth: int, current: seq<string>)
    ensures NonEmpty(WordPieces(words, "WITH", depth, current)) == [] <==>
            current == [] && (words != [] ==> depth == 0) && forall i :: 0 <= i < |words| ==> words[i] == "WITH"
  {
    if words != [] {
      var d := Depth(depth, words[0]);
      if d == 0 && words[0] == "WITH" {
        OnlyWiths(words[1..], d, []);
        assert forall i :: 1 <= i < |words| ==> words[i] == words[1..][i - 1];
      } else {
        OnlyWiths(words[1..], d, current + [words[0]]);
      }
    }
  }

  // Where no parentheses wrap it and OR and AND find no more than one part, a text is not answered
  // exactly when every word of it is WITH: nothing is left to classify.
  lemma LeafAnswers(expression: string, term: string -> Class)
    requires Plain(expression) && |SplitTopLevel(expression, "OR")| <= 1 && |SplitTopLevel(expression, "AND")| <= 1
    ensures ClassifyExpression(expression, term) == None <==>
            forall i :: 0 <= i < |Words(expression)| ==> Words(expression)[i] == "WITH"
  {
    TermText(expression, term);
    SplitOnWords(expression, "WITH");
    WordsEachLength(SplitTopLevel(expression, "WITH"));
    OnlyWiths(Words(expression), 0, []);
  }

  lemma OrText(expression: string, term: string -> Class)
    requires Plain(expression) && 1 < |SplitTopLevel(expression, "OR")|
    requires forall p :: p in SplitTopLevel(expression, "OR") ==> |p| < |expression|
    ensures ClassifyExpression(expression, term) == BestOf(SplitTopLevel(expression, "OR"), |expression|, term)
  {
    StripTrimmed(expression);
  }

  lemma AndText(expression: string, term: string -> Class)
    requires Plain(expression) && |SplitTopLevel(expression, "OR")| <= 1 && 1 < |SplitTopLevel(expression, "AND")|
    requires forall p :: p in SplitTopLevel(expression, "AND") ==> |p| < |expression|
    ensures ClassifyExpression(expression, term) == WorstOf(SplitTopLevel(expression, "AND"), |expression|, term)
  {
    StripTrimmed(expression);
  }

  lemma TermText(expression: string, term: string -> Class)
    requires Plain(expression) && |SplitTopLevel(expression, "OR")| <= 1 && |SplitTopLevel(expression, "AND")| <= 1
    ensures var withs := SplitTopLevel(expression, "WITH");
            ClassifyExpression(expression, term) == if withs == [] then None else Some(term(withs[0]))
  {
    StripTrimmed(expression);
  }

  lemma PartsOfChain(tree: Tree, expression: string, operator: string)
    requires Chained(tree, operator) && Words(expression) == Spelled(tree)
    ensures var parts, ops := SplitTopLevel(expression, operator), Operands(tree, operator);
            && |parts| == |ops| && WordsEach(parts) == SpelledEach(ops)
            && (1 < |parts| <==> (operator == "OR" && tree.Or?) || (operator == "AND" && tree.And?))
            && (1 < |parts| ==> Beneath(ops, Size(tree)) && forall p :: p in parts ==> |p| < |expression|)
  {
    PartsSpellOperands(tree, expression, operator);
    OperandsAre(tree, operator);
    OperandsAreSmaller(tree, operator);
    PartsShorten(expression, operator);
  }

  // A leaf's text gives its licence, and WITH's exception is cut off.
  lemma LeafText(tree: Tree, expression: string)
    requires Written(tree) && (tree.Licence? || tree.With?) && Words(expression) == Spelled(tree)
    ensures SplitTopLevel(expression, "WITH") != [] && SplitTopLevel(expression, "WITH")[0] == tree.id
  {
    NameIsNoParen(tree.id);
    var withs := SplitTopLevel(expression, "WITH");
    SplitOnWords(expression, "WITH");
    LeafPieces(tree);
    assert WordsEach(withs)[0] == Words(withs[0]);
    PartsAreStripped(Pieces(Tokens(expression), "WITH", 0, ""));
    TrimmedEnds(withs[0]);
  }

  lemma LeafPieces(tree: Tree)
    requires Written(tree) && (tree.Licence? || tree.With?)
    ensures var pieces := NonEmpty(WordPieces(Spelled(tree), "WITH", 0, [])); pieces != [] && pieces[0] == [tree.id]
  {
    var rest := Spelled(tree)[1..];
    NameIsNoParen(tree.id);
    assert Spelled(tree) == [tree.id] + rest;
    OneWord(tree.id, rest, "WITH", 0, []);
    assert [] + [tree.id] == [tree.id];
    if tree.With? {
      assert rest == ["WITH"] + [tree.exception];
      SplitsHere("WITH", [tree.exception], [tree.id]);
    }
  }

  lemma {:induction false} PartsAreStripped(pieces: seq<string>)
    ensures forall i :: 0 <= i < |Stripped(pieces)| ==> Trimmed(Stripped(pieces)[i]) && Stripped(pieces)[i] != ""
  {
    if pieces != [] {
      StripKeepsWords(pieces[0]);
      PartsAreStripped(pieces[1..]);
    }
  }

  lemma EachHeads(parts: seq<string>, trees: seq<Tree>)
    requires parts != [] && trees != [] && WordsEach(parts) == SpelledEach(trees)
    ensures Words(parts[0]) == Spelled(trees[0]) && WordsEach(parts[1..]) == SpelledEach(trees[1..])
  {
    assert WordsEach(parts)[0] == Words(parts[0]) && SpelledEach(trees)[0] == Spelled(trees[0]);
    assert WordsEach(parts)[1..] == WordsEach(parts[1..]) && SpelledEach(trees)[1..] == SpelledEach(trees[1..]);
  }

  lemma {:induction false} BestOfTexts(parts: seq<string>, trees: seq<Tree>, bound: nat, size: nat,
                                       term: string -> Class)
    requires parts != [] && trees != [] && WordsEach(parts) == SpelledEach(trees) && Beneath(trees, size)
    requires |parts| == |trees| && forall p :: p in parts ==> |p| < bound
    ensures BestOf(parts, bound, term) == BestValue(trees, term)
    decreases size, 0, |trees|
  {
    EachHeads(parts, trees);
    TextHasTreeValue(trees[0], parts[0], term);
    if 1 < |parts| {
      BestOfTexts(parts[1..], trees[1..], bound, size, term);
    }
  }

  lemma {:induction false} WorstOfTexts(parts: seq<string>, trees: seq<Tree>, bound: nat, size: nat,
                                        term: string -> Class)
    requires parts != [] && trees != [] && WordsEach(parts) == SpelledEach(trees) && Beneath(trees, size)
    requires |parts| == |trees| && forall p :: p in parts ==> |p| < bound
    ensures WorstOf(parts, bound, term) == WorstValue(trees, term)
    decreases size, 0, |trees|
  {
    EachHeads(parts, trees);
    TextHasTreeValue(trees[0], parts[0], term);
    if 1 < |parts| {
      WorstOfTexts(parts[1..], trees[1..], bound, size, term);
    }
  }

  // The text of a tree with single spaces spells it, so it is classified as the tree.
  lemma PrintedHasTreeValue(tree: Tree, term: string -> Class)
    requires Written(tree)
    ensures ClassifyExpression(Printed(tree), term) == Value(tree, term)
  {
    PrintedSpells(tree);
    JoinTokens(Printed(tree));
    CutAgain(Spaced(tree));
    TextHasTreeValue(tree, Printed(tree), term);
  }

  function SpacedWiths(more: nat): seq<string> {
    if more == 0 then ["WITH"] else SpacedWiths(more - 1) + [" ", "WITH"]
  }

  // The tokens of a printed tree, spaces included.
  function Spaced(tree: Tree): seq<string> {
    match tree
    case Licence(id) => [id]
    case With(id, exception) => [id] + [" ", "WITH", " "] + [exception]
    case Bare(more) => SpacedWiths(more)
    case Group(inner) => ["("] + Spaced(inner) + [")"]
    case And(l, r) => Spaced(l) + [" ", "AND", " "] + Spaced(r)
    case Or(l, r) => Spaced(l) + [" ", "OR", " "] + Spaced(r)
  }

  predicate Solid(tokens: seq<string>) {
    && tokens != [] && Cut(tokens)
    && tokens[0] != "" && KindOf(tokens[0][0]) != Blank
    && tokens[|tokens| - 1] != "" && KindOf(tokens[|tokens| - 1][0]) != Blank
  }

  lemma {:induction false} CutConcat(a: seq<string>, b: seq<string>)
    requires a != [] && b != [] && Cut(a) && Cut(b) && a[|a| - 1] != ""
    requires KindOf(a[|a| - 1][0]) == Paren || KindOf(b[0][0]) != KindOf(a[|a| - 1][0])
    ensures Cut(a + b)
  {
    if |a| == 1 {
      assert (a + b)[1..] == b;
    } else {
      assert (a + b)[1..] == a[1..] + b;
      CutConcat(a[1..], b);
    }
  }

  lemma SpacedOperator(operator: string)
    requires Operator(operator)
    ensures Cut([" ", operator, " "]) && Join([" ", operator, " "]) == " " + operator + " "
    ensures NoBlanks([" ", operator, " "]) == [operator]
  {
    assert [" ", operator, " "][1..] == [operator, " "] && [operator, " "][1..] == [" "];
    assert Join([" "]) == " " && Join([operator, " "]) == operator + " ";
    assert NoBlanks([" "]) == [] && NoBlanks([operator, " "]) == [operator];
  }

  lemma SolidSpaced(l: seq<string>, operator: string)
    requires Solid(l) && Operator(operator)
    ensures Cut(l + [" ", operator, " "])
    ensures Join(l + [" ", operator, " "]) == Join(l) + (" " + operator + " ")
    ensures NoBlanks(l + [" ", operator, " "]) == NoBlanks(l) + [operator]
  {
    var mid := [" ", operator, " "];
    SpacedOperator(operator);
    CutConcat(l, mid);
    JoinConcat(l, mid);
    NoBlanksConcat(l, mid);
  }

  lemma SolidAfter(a: seq<string>, r: seq<string>)
    requires a != [] && Cut(a) && a[0] != "" && KindOf(a[0][0]) != Blank && a[|a| - 1] == " " && Solid(r)
    ensures Solid(a + r) && Join(a + r) == Join(a) + Join(r) && NoBlanks(a + r) == NoBlanks(a) + NoBlanks(r)
  {
    CutConcat(a, r);
    JoinConcat(a, r);
    NoBlanksConcat(a, r);
    assert (a + r)[0] == a[0] && (a + r)[|a + r| - 1] == r[|r| - 1];
  }

  lemma SolidJoins(l: seq<string>, operator: string, r: seq<string>)
    requires Solid(l) && Solid(r) && Operator(operator)
    ensures Solid(l + [" ", operator, " "] + r)
    ensures Join(l + [" ", operator, " "] + r) == Join(l) + (" " + operator + " ") + Join(r)
    ensures NoBlanks(l + [" ", operator, " "] + r) == NoBlanks(l) + [operator] + NoBlanks(r)
  {
    SolidSpaced(l, operator);
    SolidAfter(l + [" ", operator, " "], r);
  }

  lemma WithIsSolid()
    ensures Solid(["WITH"]) && Join(["WITH"]) == "WITH" && NoBlanks(["WITH"]) == ["WITH"]
  {
  }

  lemma SpaceAndWith()
    ensures Cut([" ", "WITH"]) && Join([" ", "WITH"]) == " WITH" && NoBlanks([" ", "WITH"]) == ["WITH"]
  {
    assert [" ", "WITH"][1..] == ["WITH"];
    WithIsSolid();
  }

  lemma SolidThenWith(l: seq<string>)
    requires Solid(l)
    ensures Solid(l + [" ", "WITH"]) && Join(l + [" ", "WITH"]) == Join(l) + " WITH"
    ensures NoBlanks(l + [" ", "WITH"]) == NoBlanks(l) + ["WITH"]
  {
    var end := [" ", "WITH"];
    SpaceAndWith();
    CutConcat(l, end);
    JoinConcat(l, end);
    NoBlanksConcat(l, end);
    assert (l + end)[0] == l[0] && (l + end)[|l + end| - 1] == "WITH";
  }

  lemma {:induction false} BareSpells(more: nat)
    ensures var tokens := SpacedWiths(more);
            Solid(tokens) && Join(tokens) == PrintedWiths(more) && NoBlanks(tokens) == Withs(more + 1)
  {
    if more == 0 {
      assert Withs(1) == [] + ["WITH"] == ["WITH"];
      WithIsSolid();
    } else {
      BareSpells(more - 1);
      SolidThenWith(SpacedWiths(more - 1));
    }
  }

  lemma NameIsSolid(id: string)
    requires Name(id)
    ensures Solid([id]) && Join([id]) == id && NoBlanks([id]) == [id]
  {
  }

  lemma SolidGroups(tokens: seq<string>)
    requires Solid(tokens)
    ensures Solid(["("] + tokens + [")"])
    ensures Join(["("] + tokens + [")"]) == "(" + Join(tokens) + ")"
    ensures NoBlanks(["("] + tokens + [")"]) == ["("] + NoBlanks(tokens) + [")"]
  {
    CutConcat(["("], tokens);
    CutConcat(["("] + tokens, [")"]);
    JoinConcat(["("], tokens);
    JoinLast(["("] + tokens, ")");
    NoBlanksConcat(["("], tokens);
    assert Join(["("]) == "(" && NoBlanks(["("]) == ["("];
  }

  lemma {:induction false} PrintedSpells(tree: Tree)
    requires Written(tree)
    ensures Solid(Spaced(tree)) && Join(Spaced(tree)) == Printed(tree) && NoBlanks(Spaced(tree)) == Spelled(tree)
  {
    match tree {
      case Licence(id) => NameIsSolid(id);
      case With(id, exception) =>
        NameIsSolid(id);
        NameIsSolid(exception);
        SolidJoins([id], "WITH", [exception]);
        assert [id] + ["WITH"] + [exception] == Spelled(tree);
      case Bare(more) => BareSpells(more);
      case Group(inner) =>
        PrintedSpells(inner);
        SolidGroups(Spaced(inner));
      case And(l, r) =>
        PrintedSpells(l);
        PrintedSpells(r);
        SolidJoins(Spaced(l), "AND", Spaced(r));
      case Or(l, r) =>
        PrintedSpells(l);
        PrintedSpells(r);
        SolidJoins(Spaced(l), "OR", Spaced(r));
    }
  }

  // ---------------------------------------------------------------------------------------
  // Bettering a term, on any text at all
  // ---------------------------------------------------------------------------------------

  predicate NoWorse(a: Option<Class>, b: Option<Class>) {
    (a.None? <==> b.None?) && (a.Some? ==> Rank(a.value) <= Rank(b.value))
  }

  // Whatever the text, reading its terms no worse never makes the whole read worse.
  lemma {:induction false} BetterTermsNeverWorsen(text: string, better: string -> Class, term: string -> Class)
    requires forall t :: Rank(better(t)) <= Rank(term(t))
    ensures NoWorse(ClassifyExpression(text, better), ClassifyExpression(text, term))
    decreases |text|, 1, 0
  {
    StripShortens(text);
    var expression := Strip(text);
    if expression != "" {
      if Wrapped(expression) {
        BetterTermsNeverWorsen(expression[1..|expression| - 1], better, term);
      } else {
        PartsShorten(expression, "OR");
        PartsShorten(expression, "AND");
        if 1 < |SplitTopLevel(expression, "OR")| {
          BetterPartsNeverWorsen(SplitTopLevel(expression, "OR"), |expression|, better, term);
        } else if 1 < |SplitTopLevel(expression, "AND")| {
          BetterPartsNeverWorsen(SplitTopLevel(expression, "AND"), |expression|, better, term);
        }
      }
    }
  }

  lemma {:induction false} BetterPartsNeverWorsen(parts: seq<string>, bound: nat, better: string -> Class,
                                                  term: string -> Class)
    requires forall t :: Rank(better(t)) <= Rank(term(t))
    requires parts != [] && forall p :: p in parts ==> |p| < bound
    ensures NoWorse(BestOf(parts, bound, better), BestOf(parts, bound, term))
    ensures NoWorse(WorstOf(parts, bound, better), WorstOf(parts, bound, term))
    decreases bound, 0, |parts|
  {
    BetterTermsNeverWorsen(parts[0], better, term);
    if 1 < |parts| {
      BetterPartsNeverWorsen(parts[1..], bound, better, term);
    }
  }

  // ---------------------------------------------------------------------------------------
  // When the gate stops
  // ---------------------------------------------------------------------------------------

  lemma {:induction false} BareHasNoValue(tree: Tree, term: string -> Class)
    ensures Value(tree, term) == None <==> HoldsBare(tree)
  {
    match tree {
      case Group(inner) => BareHasNoValue(inner, term);
      case And(l, r) =>
        BareHasNoValue(l, term);
        BareHasNoValue(r, term);
      case Or(l, r) =>
        BareHasNoValue(l, term);
        BareHasNoValue(r, term);
      case _ =>
    }
  }

  // Of every text that spells a tree, the gate stops on exactly those whose tree holds a bare WITH,
  // however deep in parentheses and beside whatever other operands.
  lemma StopsExactlyOnBare(tree: Tree, text: string, term: string -> Class)
    requires Written(tree) && Words(text) == Spelled(tree)
    ensures ClassifyExpression(text, term) == None <==> HoldsBare(tree)
  {
    TextHasTreeValue(tree, text, term);
    BareHasNoValue(tree, term);
  }

  // So nothing but WITHs is never answered.
  lemma WithAloneStops(text: string, term: string -> Class)
    requires Words(text) != [] && forall i :: 0 <= i < |Words(text)| ==> Words(text)[i] == "WITH"
    ensures ClassifyExpression(text, term) == None
  {
    WithsAre(|Words(text)|);
    assert Words(text) == Withs(|Words(text)|);
    StopsExactlyOnBare(Bare(|Words(text)| - 1), text, term);
  }
}
