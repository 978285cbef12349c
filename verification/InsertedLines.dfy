/**
 Where backend/scripts/migrate_blueprint_to_smorest.py puts its doc lines and what they say,
 by the positions of the input's lines, and what its patterns match.
 */
module InsertedLines {
  import opened Basics
  import opened Text
  import opened LineRewriter

  // ---------------------------------------------------------------- what the patterns match

  predicate Spaces(s: string) {
    forall i :: 0 <= i < |s| ==> IsSpace(s[i])
  }

  predicate Word(s: string) {
    s != "" && forall i :: 0 <= i < |s| ==> IsWord(s[i])
  }

  /** `^(\s*)@(\w+)_blp\.route\((.*)\)\s*$` */
  predicate RouteShape(line: string, indent: string, bp: string, args: string, tail: string) {
    Spaces(indent) && Word(bp) && Spaces(tail) && line == indent + ("@" + ((bp + "_blp") + (".route(" + args + ")" + tail)))
  }

  /** `^\s*def (\w+)\(` */
  predicate DefShape(line: string, indent: string, name: string, rest: string) {
    Spaces(indent) && Word(name) && line == indent + ("def " + (name + ("(" + rest)))
  }

  lemma {:induction false} StripRightSuffix(s: string)
    ensures StripRight(s) <= s && Spaces(s[|StripRight(s)|..])
  {
    if s != "" && IsSpace(s[|s| - 1]) {
      var front := s[..|s| - 1];
      StripRightSuffix(front);
      assert s[|StripRight(s)|..] == front[|StripRight(front)|..] + [s[|s| - 1]];
    }
  }

  lemma {:induction false} StripRightPadded(s: string, tail: string)
    requires s != "" && !IsSpace(s[|s| - 1]) && Spaces(tail)
    ensures StripRight(s + tail) == s
  {
    if tail == "" {
      assert s + tail == s;
    } else {
      var front := tail[..|tail| - 1];
      assert (s + tail)[..|s + tail| - 1] == s + front && (s + tail)[|s + tail| - 1] == tail[|tail| - 1];
      StripRightPadded(s, front);
    }
  }

  lemma {:induction false} ShapeIsRoute(line: string, indent: string, bp: string, args: string, tail: string)
    requires RouteShape(line, indent, bp, args, tail)
    ensures Route(line) == Some(bp) && Indent(line) == indent
  {
    var call := ".route(" + args + ")";
    var s := "@" + ((bp + "_blp") + (call + tail));
    assert ".route("[0] == '.';
    StripLeftIndented(indent, s);
    BlueprintRead(bp, call + tail);
    hide StripLeft, Blueprint;
    StripRightPadded(call, tail);
    assert ".route(" <= call + tail && call[|call| - 1..] == ")";
    assert line[..|indent|] == indent;
  }

  lemma {:induction false} BlueprintShape(s: string)
    requires Blueprint(s).Some?
    ensures var bp := Blueprint(s).value;
      Word(bp) && |s| >= 1 + |bp| + 4 && s == "@" + ((bp + "_blp") + s[1 + |bp| + 4..])
  {
    BlueprintIsWord(s);
    var rest := s[1..];
    var word := rest[..WordRun(rest)];
    var bp := word[..|word| - 4];
    assert word == bp + "_blp";
    assert s == "@" + (word + rest[|word|..]);
  }

  lemma {:induction false} CallShape(after: string) returns (args: string, tail: string)
    requires ".route(" <= after && EndsWith(StripRight(after), ")") && |StripRight(after)| >= 8
    ensures after == ".route(" + args + ")" + tail && Spaces(tail)
  {
    StripRightSuffix(after);
    var call := StripRight(after);
    hide StripRight;
    assert call[..7] == after[..7] == ".route(";
    args, tail := call[7..|call| - 1], after[|call|..];
    assert call == ".route(" + args + ")";
    assert after == call + tail;
  }

  lemma {:induction false} RouteHasShape(line: string) returns (args: string, tail: string)
    requires Route(line).Some?
    ensures RouteShape(line, Indent(line), Route(line).value, args, tail)
  {
    var s, bp := StripLeft(line), Route(line).value;
    StripLeftSuffix(line);
    BlueprintShape(s);
    var after := s[1 + |bp| + 4..];
    args, tail := CallShape(after);
    hide StripLeft, StripRight, Blueprint, EndsWith, Route;
  }

  /** A line is a route exactly when it has the pattern's shape, and only one blueprint and indent fit. */
  lemma {:induction false} RouteExactly(line: string, indent: string, bp: string)
    ensures (exists args, tail :: RouteShape(line, indent, bp, args, tail)) <==>
              Route(line) == Some(bp) && Indent(line) == indent
  {
    if args, tail :| RouteShape(line, indent, bp, args, tail) {
      ShapeIsRoute(line, indent, bp, args, tail);
    }
    hide RouteShape, Indent;
    if Route(line) == Some(bp) && Indent(line) == indent {
      var args, tail := RouteHasShape(line);
    }
  }

  lemma {:induction false} ShapeIsDef(line: string, indent: string, name: string, rest: string)
    requires DefShape(line, indent, name, rest)
    ensures Defined(line) == Some(name)
  {
    var s := "def " + (name + ("(" + rest));
    assert s[0] == "def "[0];
    StripLeftIndented(indent, s);
    RunEnds(name, "(" + rest);
    assert s[4..] == name + ("(" + rest);
    assert s[4..4 + |name|] == name && s[4 + |name|] == '(';
  }

  lemma {:induction false} DefHasShape(line: string) returns (indent: string, rest: string)
    requires Defined(line).Some?
    ensures DefShape(line, indent, Defined(line).value, rest)
  {
    var s, name := StripLeft(line), Defined(line).value;
    StripLeftSuffix(line);
    RunIsWord(s[4..]);
    hide StripLeft;
    indent, rest := line[..|line| - |s|], s[4 + |name| + 1..];
    assert s == "def " + (name + ("(" + rest));
  }

  /** A line starts the definition of `name` exactly when it has the pattern's shape. */
  lemma {:induction false} DefinedExactly(line: string, name: string)
    ensures (exists indent, rest :: DefShape(line, indent, name, rest)) <==> Defined(line) == Some(name)
  {
    if indent, rest :| DefShape(line, indent, name, rest) {
      ShapeIsDef(line, indent, name, rest);
    }
    hide DefShape;
    if Defined(line) == Some(name) {
      var indent, rest := DefHasShape(line);
    }
  }

  /** A line mentions the doc exactly when the text occurs in it. */
  lemma {:induction false} MentionsExactly(line: string)
    ensures MentionsDoc(line) <==> exists i :: 0 <= i <= |line| && "_blp.doc" <= line[i..]
  {
    if line == "" {
    } else {
      var rest := line[1..];
      MentionsExactly(rest);
      assert line[0..] == line;
      assert forall i :: 0 <= i <= |rest| ==> rest[i..] == line[i + 1..];
      if i :| 0 <= i <= |line| && "_blp.doc" <= line[i..] {
        if i > 0 {
          assert rest[i - 1..] == line[i..];
        }
      }
    }
  }

  // ---------------------------------------------------------------- where lines go

  predicate AllPlain(lines: seq<string>, i: int, j: int)
    requires 0 <= i && j <= |lines|
  {
    forall m :: i < m < j ==> PlainDecorator(lines[m])
  }

  /** A route that is not in the stack below an earlier route. */
  predicate Leads(lines: seq<string>, i: nat)
    requires i < |lines|
  {
    Route(lines[i]).Some? && Unstacked(lines, i)
  }

  predicate Unstacked(lines: seq<string>, i: nat)
    requires i < |lines|
  {
    forall r :: 0 <= r < i && Route(lines[r]).Some? ==> !AllPlain(lines, r, i + 1)
  }

  /** Line `j` starts the definition below the stack that the route on line `i` leads. */
  predicate Asks(lines: seq<string>, i: nat, j: nat) {
    && i < j < |lines| && Leads(lines, i) && AllPlain(lines, i, j)
    && !MentionsDoc(lines[i]) && Defined(lines[j]).Some?
  }

  function DocText(w: Wording, indent: string, bp: string, name: string): string {
    indent + ("@" + bp + "_blp.doc(summary=\"" + w.summary(name) + "\", operationId=\"" + w.operation(name) + "\")")
  }

  /** What goes in before line `j`. */
  ghost function Before(w: Wording, lines: seq<string>, j: nat): seq<string> {
    if exists i: nat :: Asks(lines, i, j) then
      var i: nat :| Asks(lines, i, j);
      [DocText(w, Indent(lines[i]), Route(lines[i]).value, Defined(lines[j]).value)]
    else []
  }

  /** The lines from `p` on with what goes in before each of them. */
  ghost function Woven(w: Wording, lines: seq<string>, p: nat): seq<string>
    requires p <= |lines|
    decreases |lines| - p
  {
    if p == |lines| then [] else Before(w, lines, p) + [lines[p]] + Woven(w, lines, p + 1)
  }

  lemma {:induction false} DefIsNoDecorator(line: string)
    requires IsDecorator(line)
    ensures Defined(line).None?
  {
    hide StripLeft;
    assert "def "[0] == 'd';
  }

  lemma {:induction false} NotStacked(lines: seq<string>, i: nat, p: nat, j: nat)
    requires i < p < j <= |lines| && Unstacked(lines, p) && Route(lines[i]).Some?
    ensures !AllPlain(lines, i, j)
  {
    hide Route, PlainDecorator;
    assert !AllPlain(lines, i, p + 1);
  }

  lemma {:induction false} OneAsker(lines: seq<string>, i: nat, i': nat, j: nat)
    requires Asks(lines, i, j)
    ensures Asks(lines, i', j) ==> i == i'
  {
    hide Route, MentionsDoc, Defined, AllPlain, Unstacked;
    if i < i' < j && Leads(lines, i') {
      NotStacked(lines, i, i', j);
    } else if i' < i && Leads(lines, i') {
      NotStacked(lines, i', i, j);
    }
  }

  lemma {:induction false} BeforeIs(w: Wording, lines: seq<string>, i: nat, j: nat)
    requires Asks(lines, i, j)
    ensures Before(w, lines, j) == [DocText(w, Indent(lines[i]), Route(lines[i]).value, Defined(lines[j]).value)]
  {
    hide Route, MentionsDoc, Defined, PlainDecorator, Indent, DocText;
    forall i': nat
      ensures Asks(lines, i', j) ==> i == i'
    {
      OneAsker(lines, i, i', j);
    }
    hide Asks;
  }

  /** Nothing goes in behind a line that is no route and in no stack. */
  lemma {:induction false} NothingBehind(w: Wording, lines: seq<string>, p: nat)
    requires p < |lines| && Unstacked(lines, p) && Route(lines[p]).None?
    ensures p + 1 < |lines| ==> Unstacked(lines, p + 1)
    ensures Before(w, lines, p + 1) == []
  {
    hide Route, MentionsDoc, Defined, PlainDecorator, Indent, DocText;
    forall r: nat | r < p && Route(lines[r]).Some? && p + 2 <= |lines|
      ensures !AllPlain(lines, r, p + 2)
    {
      NotStacked(lines, r, p, p + 2);
    }
    var n := p + 1;
    forall i: nat
      ensures !Asks(lines, i, n)
    {
      if i < p && p + 1 <= |lines| && Route(lines[i]).Some? {
        NotStacked(lines, i, p, p + 1);
      }
    }
  }

  /** Decorators go on as they are. */
  lemma {:induction false} WovenStack(w: Wording, lines: seq<string>, p: nat, j: nat)
    requires p <= j <= |lines| && forall m :: p <= m < j ==> PlainDecorator(lines[m])
    ensures Woven(w, lines, p) == lines[p..j] + Woven(w, lines, j)
    decreases j - p
  {
    if p < j {
      NothingBefore(w, lines, p);
      WovenAlone(w, lines, p);
      hide Before, Woven, PlainDecorator;
      WovenStack(w, lines, p + 1, j);
      assert [lines[p]] + lines[p + 1..j] == lines[p..j];
    }
  }

  lemma {:induction false} WovenAlone(w: Wording, lines: seq<string>, p: nat)
    requires p < |lines| && Before(w, lines, p) == []
    ensures Woven(w, lines, p) == [lines[p]] + Woven(w, lines, p + 1)
  {
    hide Before;
  }

  lemma {:induction false} NothingBefore(w: Wording, lines: seq<string>, p: nat)
    requires p < |lines| && PlainDecorator(lines[p])
    ensures Before(w, lines, p) == []
  {
    DefIsNoDecorator(lines[p]);
    hide Route, MentionsDoc, Defined, Indent;
  }

  /** Behind a leading route goes its stack, then what the rewriter adds, then the rest. */
  lemma {:induction false} BehindRoute(w: Wording, lines: seq<string>, p: nat)
    requires p < |lines| && Leads(lines, p)
    ensures var j := p + 1 + Stack(lines[p + 1..]);
      && j <= |lines| && AllPlain(lines, p, j)
      && (j < |lines| ==> Unstacked(lines, j))
      && Before(w, lines, j) == Doc(w, lines[p], lines[j..])
  {
    var rest := lines[p + 1..];
    var j := p + 1 + Stack(rest);
    StackMeans(rest);
    assert forall m :: p < m < j ==> lines[m] == rest[m - p - 1];
    assert j < |lines| ==> lines[j] == rest[Stack(rest)] && lines[j..][0] == lines[j];
    hide Route, MentionsDoc, Defined, PlainDecorator, Indent, Stack, Unstacked;
    if j < |lines| && !MentionsDoc(lines[p]) && Defined(lines[j]).Some? {
      assert Asks(lines, p, j);
      BeforeIs(w, lines, p, j);
      SameText(w, Indent(lines[p]), Route(lines[p]).value, Defined(lines[j]).value);
    } else {
      forall i: nat
        ensures !Asks(lines, i, j)
      {
        NoOtherAsker(lines, i, p, j);
      }
    }
    if j < |lines| {
      StackEndsThere(lines, j);
    }
  }

  lemma {:induction false} StackEndsThere(lines: seq<string>, j: nat)
    requires j < |lines| && !PlainDecorator(lines[j])
    ensures Unstacked(lines, j)
  {
  }

  /** Only the route that leads the stack can ask for a line below it. */
  lemma {:induction false} NoOtherAsker(lines: seq<string>, i: nat, p: nat, j: nat)
    requires p < j <= |lines| && Leads(lines, p) && AllPlain(lines, p, j)
    ensures Asks(lines, i, j) ==> i == p
  {
    hide Route, MentionsDoc, Defined, AllPlain, Unstacked;
    if i < p && Route(lines[i]).Some? {
      NotStacked(lines, i, p, j);
    } else if p < i < j && Leads(lines, i) {
      NotStacked(lines, p, i, j);
    }
  }

  lemma {:induction false} SameText(w: Wording, indent: string, bp: string, name: string)
    ensures DocText(w, indent, bp, name) == DocLine(w, indent, bp, name)
  {
    DocParts(w, indent, bp, name);
    var tail := DocTail(w, name);
    assert ".doc(summary=\"" == ".doc(" + "summary=\"";
    assert "@" + bp + "_blp.doc(summary=\"" + w.summary(name) + "\", operationId=\"" + w.operation(name) + "\")"
        == "@" + ((bp + "_blp") + tail);
  }

  /** From a line that is in no stack on, the rewriter's output is the lines with what goes in before them. */
  lemma {:induction false} WovenFrom(w: Wording, lines: seq<string>, p: nat)
    requires p <= |lines| && (p < |lines| ==> Unstacked(lines, p))
    ensures Before(w, lines, p) + Output(w, lines[p..]) == Woven(w, lines, p)
    decreases |lines| - p
  {
    hide *;
    if p == |lines| {
      EndOfLines(w, lines);
    } else if Route(lines[p]).None? {
      NothingBehind(w, lines, p);
      WovenFrom(w, lines, p + 1);
      OtherLine(w, lines, p);
    } else {
      RouteLeads(lines, p);
      BehindRoute(w, lines, p);
      WovenFrom(w, lines, p + 1 + Stack(lines[p + 1..]));
      RouteLine(w, lines, p);
    }
  }

  lemma {:induction false} RouteLeads(lines: seq<string>, p: nat)
    requires p < |lines| && Unstacked(lines, p) && !Route(lines[p]).None?
    ensures Leads(lines, p)
  {
  }

  lemma {:induction false} EndOfLines(w: Wording, lines: seq<string>)
    ensures Before(w, lines, |lines|) + Output(w, lines[|lines|..]) == Woven(w, lines, |lines|)
  {
    assert lines[|lines|..] == [];
    OutputOfNothing(w);
    forall i: nat
      ensures !Asks(lines, i, |lines|)
    {
      hide Route, MentionsDoc, Defined;
    }
  }

  lemma {:induction false} OtherLine(w: Wording, lines: seq<string>, p: nat)
    requires p < |lines| && Route(lines[p]).None? && Before(w, lines, p + 1) == []
    requires Before(w, lines, p + 1) + Output(w, lines[p + 1..]) == Woven(w, lines, p + 1)
    ensures Before(w, lines, p) + Output(w, lines[p..]) == Woven(w, lines, p)
  {
    hide Before, Output, Route;
    assert lines[p..][1..] == lines[p + 1..] && lines[p..][0] == lines[p];
    OutputBlock(w, lines[p..]);
  }

  lemma {:induction false} RouteLine(w: Wording, lines: seq<string>, p: nat)
    requires p < |lines| && Route(lines[p]).Some?
    requires var j := p + 1 + Stack(lines[p + 1..]);
      && j <= |lines| && AllPlain(lines, p, j) && Before(w, lines, j) == Doc(w, lines[p], lines[j..])
      && Before(w, lines, j) + Output(w, lines[j..]) == Woven(w, lines, j)
    ensures Before(w, lines, p) + Output(w, lines[p..]) == Woven(w, lines, p)
  {
    hide Before, Output, Route, Stack, PlainDecorator, Doc;
    var j, rest := p + 1 + Stack(lines[p + 1..]), lines[p..];
    assert rest[1..] == lines[p + 1..] && rest[0] == lines[p] && rest[..j - p] == lines[p..j] && rest[j - p..] == lines[j..];
    OutputBlock(w, rest);
    WovenStack(w, lines, p + 1, j);
    assert [lines[p]] + lines[p + 1..j] == lines[p..j];
    Joined(Before(w, lines, p), lines[p], lines[p + 1..j], Woven(w, lines, j));
    Joined(Before(w, lines, p), lines[p], lines[p + 1..j], Before(w, lines, j) + Output(w, lines[j..]));
    assert Output(w, rest) == lines[p..j] + (Before(w, lines, j) + Output(w, lines[j..]));
  }

  lemma {:induction false} Joined(a: seq<string>, x: string, b: seq<string>, c: seq<string>)
    ensures a + [x] + (b + c) == a + (([x] + b) + c)
  {
  }

  /**
   The rewriter's output is the input with, before line `j`, one line exactly when some route
   leads a stack of plain decorators that ends at `j`, does not mention the doc, and line `j`
   starts a definition; the line has the route's indent and blueprint and the function's name.
   */
  lemma {:induction false} InsertedExactly(w: Wording, lines: seq<string>)
    ensures Output(w, lines) == Woven(w, lines, 0)
  {
    assert lines[0..] == lines;
    assert forall i: nat :: !Asks(lines, i, 0);
    WovenFrom(w, lines, 0);
  }

  /** Where no route mentions the doc, it need not be asked which route leads the stack. */
  lemma {:induction false} AnyRouteAsks(lines: seq<string>, j: nat)
    requires j < |lines| && forall r :: 0 <= r < j && Route(lines[r]).Some? ==> !MentionsDoc(lines[r])
    ensures (exists i: nat :: Asks(lines, i, j)) <==>
              Defined(lines[j]).Some? && exists r: nat :: r < j && Route(lines[r]).Some? && AllPlain(lines, r, j)
  {
    hide Route, MentionsDoc, Defined, PlainDecorator;
    if r: nat :| r < j && Route(lines[r]).Some? && AllPlain(lines, r, j) {
      var i := Leader(lines, r, j);
      assert Defined(lines[j]).Some? ==> Asks(lines, i, j);
    }
  }

  lemma {:induction false} Leader(lines: seq<string>, r: nat, j: nat) returns (i: nat)
    requires r < j <= |lines| && Route(lines[r]).Some? && AllPlain(lines, r, j)
    ensures i <= r && Leads(lines, i) && AllPlain(lines, i, j)
  {
    hide Route, PlainDecorator;
    if Unstacked(lines, r) {
      i := r;
    } else {
      var r' :| 0 <= r' < r && Route(lines[r']).Some? && AllPlain(lines, r', r + 1);
      i := Leader(lines, r', j);
    }
  }

  /** A route below one that mentions the doc gets no line: the first passes over it with its stack. */
  lemma {:induction false} PassedOver(w: Wording, first: string, second: string, def: string)
    requires Route(first).Some? && MentionsDoc(first) && Route(second).Some? && !MentionsDoc(second)
    requires Defined(def).Some?
    ensures Output(w, [first, second, def]) == [first, second, def]
  {
    var lines := [first, second, def];
    InsertedExactly(w, lines);
    assert PlainDecorator(second) by {
      hide MentionsDoc;
    }
    hide Route, MentionsDoc, Defined, PlainDecorator, Indent;
    assert AllPlain(lines, 0, 2);
    assert forall i: nat, j: nat :: !Asks(lines, i, j);
    assert Woven(w, lines, 3) == [] && Woven(w, lines, 2) == [def] && Woven(w, lines, 1) == [second, def];
  }
}
