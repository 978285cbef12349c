/**
 The line loop of `process_file` in backend/scripts/migrate_blueprint_to_smorest.py: it puts a
 doc decorator between a stack of route decorators and the function below it. How a function
 name becomes a summary and an operation id is left open.
 */
module LineRewriter {
  import opened Basics
  import opened Text

  datatype Wording = Wording(summary: string -> string, operation: string -> string)

  // ---------------------------------------------------------------- what a line is

  predicate IsWord(c: char) {
    'a' <= c <= 'z' || 'A' <= c <= 'Z' || '0' <= c <= '9' || c == '_'
  }

  /** The length of the run of word characters that `s` starts with. */
  function WordRun(s: string): (n: nat)
    ensures n <= |s|
  {
    if s != "" && IsWord(s[0]) then 1 + WordRun(s[1..]) else 0
  }

  predicate EndsWith(s: string, t: string) {
    |s| >= |t| && s[|s| - |t|..] == t
  }

  function Indent(line: string): string {
    StripLeftSuffix(line);
    line[..|line| - |StripLeft(line)|]
  }

  /** `\w+` and then `_blp`, right after the at sign. */
  function Blueprint(s: string): Option<string> {
    if s == "" || s[0] != '@' then None
    else
      var word := s[1..][..WordRun(s[1..])];
      if |word| > 4 && EndsWith(word, "_blp") then Some(word[..|word| - 4]) else None
  }

  /** The blueprint of a route decorator that fills the line. */
  function Route(line: string): Option<string> {
    var s := StripLeft(line);
    var bp := Blueprint(s);
    if bp.None? then None
    else
      var after := s[1 + |bp.value| + 4..];
      if ".route(" <= after && EndsWith(StripRight(after), ")") && |StripRight(after)| >= 8 then bp else None
  }

  predicate IsDecorator(line: string) {
    var s := StripLeft(line);
    s != "" && s[0] == '@'
  }

  predicate MentionsDoc(line: string) {
    "_blp.doc" <= line || (line != "" && MentionsDoc(line[1..]))
  }

  /** The name of the function whose definition starts on the line. */
  function Defined(line: string): Option<string> {
    var s := StripLeft(line);
    if "def " <= s then
      var n := WordRun(s[4..]);
      if n > 0 && 4 + n < |s| && s[4 + n] == '(' then Some(s[4..4 + n]) else None
    else None
  }

  function DocLine(w: Wording, indent: string, bp: string, name: string): string {
    indent + "@" + bp + "_blp.doc(" + "summary=\"" + w.summary(name) + "\", operationId=\"" + w.operation(name) + "\")"
  }

  lemma {:induction false} StripLeftSuffix(s: string)
    ensures |StripLeft(s)| <= |s| && s == s[..|s| - |StripLeft(s)|] + StripLeft(s)
    ensures forall i :: 0 <= i < |s| - |StripLeft(s)| ==> IsSpace(s[i])
  {
    if s != "" && IsSpace(s[0]) {
      StripLeftSuffix(s[1..]);
      assert s == [s[0]] + s[1..];
    }
  }

  // ---------------------------------------------------------------- the rewriting

  datatype Tagged = Kept(line: string) | Added(line: string)

  function KeepAll(lines: seq<string>): seq<Tagged> {
    if lines == [] then [] else [Kept(lines[0])] + KeepAll(lines[1..])
  }

  function Lines(out: seq<Tagged>): seq<string> {
    if out == [] then [] else [out[0].line] + Lines(out[1..])
  }

  /** The lines that come from the input. */
  function Erased(out: seq<Tagged>): seq<string> {
    if out == [] then []
    else (if out[0].Kept? then [out[0].line] else []) + Erased(out[1..])
  }

  predicate PlainDecorator(line: string) {
    IsDecorator(line) && !MentionsDoc(line)
  }

  /** How many plain decorators the lines start with. */
  function Stack(lines: seq<string>): (n: nat)
    ensures n <= |lines|
  {
    if lines != [] && PlainDecorator(lines[0]) then 1 + Stack(lines[1..]) else 0
  }

  /** The doc line that a route line gets when the line after its stack is `next`. */
  function Doc(w: Wording, route: string, rest: seq<string>): seq<string>
    requires Route(route).Some?
  {
    if rest != [] && !MentionsDoc(route) && Defined(rest[0]).Some? then
      [DocLine(w, Indent(route), Route(route).value, Defined(rest[0]).value)]
    else []
  }

  function Rewritten(w: Wording, lines: seq<string>): seq<Tagged>
    decreases |lines|
  {
    if lines == [] then []
    else if Route(lines[0]).None? then [Kept(lines[0])] + Rewritten(w, lines[1..])
    else
      var d := 1 + Stack(lines[1..]);
      var doc := Doc(w, lines[0], lines[d..]);
      KeepAll(lines[..d]) + (if doc == [] then [] else [Added(doc[0])]) + Rewritten(w, lines[d..])
  }

  lemma {:induction false} KeepAllConcat(a: seq<string>, b: seq<string>)
    ensures KeepAll(a + b) == KeepAll(a) + KeepAll(b)
  {
    if a == [] {
      assert a + b == b;
    } else {
      assert (a + b)[1..] == a[1..] + b;
      KeepAllConcat(a[1..], b);
    }
  }

  lemma {:induction false} LinesConcat(a: seq<Tagged>, b: seq<Tagged>)
    ensures Lines(a + b) == Lines(a) + Lines(b)
  {
    if a == [] {
      assert a + b == b;
    } else {
      assert (a + b)[1..] == a[1..] + b;
      LinesConcat(a[1..], b);
    }
  }

  lemma {:induction false} LinesKept(lines: seq<string>)
    ensures Lines(KeepAll(lines)) == lines
  {
    if lines != [] {
      LinesKept(lines[1..]);
    }
  }

  /** The output lines of the rewriting. */
  function Output(w: Wording, lines: seq<string>): seq<string> {
    Lines(Rewritten(w, lines))
  }

  /** The output block by block. */
  lemma {:induction false} OutputBlock(w: Wording, lines: seq<string>)
    requires lines != []
    ensures Route(lines[0]).None? ==> Output(w, lines) == [lines[0]] + Output(w, lines[1..])
    ensures Route(lines[0]).Some? ==>
              var d := 1 + Stack(lines[1..]);
              Output(w, lines) == lines[..d] + Doc(w, lines[0], lines[d..]) + Output(w, lines[d..])
  {
    if Route(lines[0]).Some? {
      var d := 1 + Stack(lines[1..]);
      var doc := Doc(w, lines[0], lines[d..]);
      var added := if doc == [] then [] else [Added(doc[0])];
      assert Lines(added) == doc;
      LinesKept(lines[..d]);
      LinesConcat(KeepAll(lines[..d]), added);
      LinesConcat(KeepAll(lines[..d]) + added, Rewritten(w, lines[d..]));
    } else {
      assert ([Kept(lines[0])] + Rewritten(w, lines[1..]))[1..] == Rewritten(w, lines[1..]);
    }
  }

  /** The two-index loop: `j` runs over the stack, and `i` goes on from where it stopped. */
  method Rewrite(w: Wording, lines: seq<string>) returns (out: seq<string>)
    ensures out == Output(w, lines)
  {
    out := [];
    var i := 0;
    hide Output, Route, MentionsDoc, Defined, DocLine, Indent, IsDecorator, Stack;
    while i < |lines|
      invariant 0 <= i <= |lines|
      invariant out + Output(w, lines[i..]) == Output(w, lines)
    {
      var line := lines[i];
      ghost var before := out;
      OutputBlock(w, lines[i..]);
      assert lines[i..][1..] == lines[i + 1..];
      out := out + [line];
      var m := Route(line);
      if m.Some? {
        var j;
        out, j := CopyStack(lines, i, out);
        assert lines[i..][..j - i] == lines[i..j] && lines[i..][j - i..] == lines[j..];
        if j < |lines| && !MentionsDoc(line) {
          var fn := Defined(lines[j]);
          if fn.Some? {
            out := out + [DocLine(w, Indent(line), m.value, fn.value)];
          }
        }
        assert out == before + (lines[i..j] + Doc(w, line, lines[j..]));
        i := if j > i + 1 then j - 1 else i;
      }
      i := i + 1;
    }
    assert lines[i..] == [];
    OutputOfNothing(w);
  }

  /** The inner loop over the decorators below line `i`. */
  method CopyStack(lines: seq<string>, i: nat, start: seq<string>) returns (out: seq<string>, j: nat)
    requires i < |lines|
    ensures j == i + 1 + Stack(lines[i + 1..]) <= |lines|
    ensures start != [] && start[|start| - 1] == lines[i] ==> out == start[..|start| - 1] + lines[i..j]
  {
    out, j := start, i + 1;
    while j < |lines| && IsDecorator(lines[j])
      invariant i + 1 <= j <= |lines|
      invariant out == start + lines[i + 1..j]
      invariant Stack(lines[i + 1..]) == j - i - 1 + Stack(lines[j..])
    {
      assert lines[j..][1..] == lines[j + 1..];
      if MentionsDoc(lines[j]) {
        break;
      }
      assert lines[i + 1..j + 1] == lines[i + 1..j] + [lines[j]];
      out := out + [lines[j]];
      j := j + 1;
    }
    assert Stack(lines[j..]) == 0;
    assert [lines[i]] + lines[i + 1..j] == lines[i..j];
  }

  lemma {:induction false} OutputOfNothing(w: Wording)
    ensures Output(w, []) == []
  {
  }

  // ---------------------------------------------------------------- nothing is lost

  lemma {:induction false} ErasedConcat(a: seq<Tagged>, b: seq<Tagged>)
    ensures Erased(a + b) == Erased(a) + Erased(b)
  {
    if a == [] {
      assert a + b == b;
    } else {
      assert (a + b)[1..] == a[1..] + b;
      ErasedConcat(a[1..], b);
    }
  }

  lemma {:induction false} ErasedKept(lines: seq<string>)
    ensures Erased(KeepAll(lines)) == lines
  {
    if lines != [] {
      ErasedKept(lines[1..]);
    }
  }

  /** Deleting the inserted lines gives back the input, line for line. */
  lemma {:induction false} ErasingRestores(w: Wording, lines: seq<string>)
    ensures Erased(Rewritten(w, lines)) == lines
    decreases |lines|
  {
    if lines != [] {
      if Route(lines[0]).None? {
        ErasingRestores(w, lines[1..]);
        assert Rewritten(w, lines)[1..] == Rewritten(w, lines[1..]);
      } else {
        var d := 1 + Stack(lines[1..]);
        var doc := Doc(w, lines[0], lines[d..]);
        var added := if doc == [] then [] else [Added(doc[0])];
        ErasingRestores(w, lines[d..]);
        ErasedKept(lines[..d]);
        assert Erased(added) == [];
        ErasedConcat(KeepAll(lines[..d]), added);
        ErasedConcat(KeepAll(lines[..d]) + added, Rewritten(w, lines[d..]));
      }
    }
  }

  // ---------------------------------------------------------------- a second run

  lemma {:induction false} StripLeftIndented(indent: string, s: string)
    requires (forall i :: 0 <= i < |indent| ==> IsSpace(indent[i])) && s != "" && !IsSpace(s[0])
    ensures StripLeft(indent + s) == s
  {
    if indent == "" {
      assert indent + s == s;
    } else {
      assert (indent + s)[1..] == indent[1..] + s && (indent + s)[0] == indent[0];
      StripLeftIndented(indent[1..], s);
    }
  }

  lemma {:induction false} RunEnds(word: string, rest: string)
    requires (forall i :: 0 <= i < |word| ==> IsWord(word[i])) && (rest == "" || !IsWord(rest[0]))
    ensures WordRun(word + rest) == |word|
  {
    if word == "" {
      assert word + rest == rest;
    } else {
      assert (word + rest)[1..] == word[1..] + rest && (word + rest)[0] == word[0];
      RunEnds(word[1..], rest);
    }
  }

  lemma {:induction false} RunIsWord(s: string)
    ensures forall i :: 0 <= i < WordRun(s) ==> IsWord(s[i])
  {
    if s != "" && IsWord(s[0]) {
      RunIsWord(s[1..]);
      assert forall i :: 0 < i < |s| ==> s[i] == s[1..][i - 1];
    }
  }

  lemma {:induction false} BlueprintIsWord(s: string)
    requires Blueprint(s).Some?
    ensures Blueprint(s).value != "" && forall i :: 0 <= i < |Blueprint(s).value| ==> IsWord(Blueprint(s).value[i])
  {
    RunIsWord(s[1..]);
  }

  /** The blueprint is read off a decorator whose name part is followed by something else. */
  lemma {:induction false} BlueprintRead(bp: string, tail: string)
    requires bp != "" && (forall i :: 0 <= i < |bp| ==> IsWord(bp[i])) && (tail == "" || !IsWord(tail[0]))
    ensures Blueprint("@" + ((bp + "_blp") + tail)) == Some(bp)
    ensures ("@" + ((bp + "_blp") + tail))[1 + |bp| + 4..] == tail
  {
    var word := bp + "_blp";
    var s := "@" + (word + tail);
    assert s[1..] == word + tail;
    RunEnds(word, tail);
    assert (word + tail)[..|word|] == word;
    assert word[..|word| - 4] == bp && word[|word| - 4..] == "_blp";
  }

  /** Such a decorator is no route when the name part is followed by `.d`, and never a definition. */
  lemma {:induction false} OtherDecorator(line: string, bp: string, tail: string)
    requires bp != "" && (forall i :: 0 <= i < |bp| ==> IsWord(bp[i])) && ".d" <= tail
    requires StripLeft(line) == "@" + ((bp + "_blp") + tail)
    ensures IsDecorator(line) && Route(line).None? && Defined(line).None?
  {
    BlueprintRead(bp, tail);
    hide Blueprint, StripLeft;
    assert tail[1] == ".d"[1];
    assert ".route("[1] == 'r';
    assert "def "[0] == 'd' && StripLeft(line)[0] == '@';
  }

  /** An inserted line is a decorator that mentions the doc, and neither a route nor a definition. */
  lemma {:induction false} DocLineIs(w: Wording, route: string, name: string)
    requires Route(route).Some?
    ensures var line := DocLine(w, Indent(route), Route(route).value, name);
      IsDecorator(line) && MentionsDoc(line) && Route(line).None? && Defined(line).None?
  {
    var indent, bp := Indent(route), Route(route).value;
    var line := DocLine(w, indent, bp, name);
    StripLeftSuffix(route);
    BlueprintIsWord(StripLeft(route));
    DocParts(w, indent, bp, name);
    hide StripLeft, Blueprint, DocLine, IsDecorator, MentionsDoc, Defined;
    var tail := DocTail(w, name);
    hide Route, DocTail;
    MentionsLater(indent + "@" + bp, "_blp" + tail);
    StripLeftIndented(indent, "@" + ((bp + "_blp") + tail));
    OtherDecorator(line, bp, tail);
  }

  function DocTail(w: Wording, name: string): string {
    ".doc(" + "summary=\"" + w.summary(name) + "\", operationId=\"" + w.operation(name) + "\")"
  }

  lemma {:induction false} DocParts(w: Wording, indent: string, bp: string, name: string)
    ensures var tail := DocTail(w, name);
      && ".d" <= tail
      && DocLine(w, indent, bp, name) == indent + ("@" + ((bp + "_blp") + tail))
      && DocLine(w, indent, bp, name) == (indent + "@" + bp) + ("_blp" + tail)
      && "_blp.doc" <= "_blp" + tail
  {
    var front, start, more := indent + "@" + bp, ".doc(" + "summary=\"", "\", operationId=\"" + w.operation(name) + "\")";
    var tail := DocTail(w, name);
    assert "_blp.doc(" == "_blp" + ".doc(";
    assert tail == start + (w.summary(name) + more);
    assert DocLine(w, indent, bp, name) == (front + ("_blp" + start)) + (w.summary(name) + more);
    hide DocTail, DocLine;
    Regroup(front, "_blp", start, w.summary(name) + more);
    Regroup(indent + "@", bp, "_blp", tail);
    assert indent + ("@" + ((bp + "_blp") + tail)) == (indent + "@") + ((bp + "_blp") + tail);
  }

  lemma {:induction false} Regroup(a: string, b: string, c: string, d: string)
    ensures (a + (b + c)) + d == a + (b + (c + d))
    ensures (a + b) + (c + d) == a + ((b + c) + d)
  {
  }

  lemma {:induction false} MentionsLater(front: string, s: string)
    requires "_blp.doc" <= s
    ensures MentionsDoc(front + s)
  {
    if front == "" {
      assert front + s == s;
    } else {
      assert (front + s)[1..] == front[1..] + s;
      MentionsLater(front[1..], s);
    }
  }

  lemma {:induction false} OutputStarts(w: Wording, lines: seq<string>)
    requires lines != []
    ensures Output(w, lines) != [] && Output(w, lines)[0] == lines[0]
  {
    OutputBlock(w, lines);
  }

  /** A stack in front of something that does not prolong it. */
  lemma {:induction false} StackEnds(block: seq<string>, rest: seq<string>)
    requires (forall i :: 0 <= i < |block| ==> PlainDecorator(block[i])) && (rest == [] || !PlainDecorator(rest[0]))
    ensures Stack(block + rest) == |block|
  {
    if block == [] {
      assert block + rest == rest;
    } else {
      assert (block + rest)[1..] == block[1..] + rest && (block + rest)[0] == block[0];
      StackEnds(block[1..], rest);
    }
  }

  lemma {:induction false} StackMeans(lines: seq<string>)
    ensures forall i :: 0 <= i < Stack(lines) ==> PlainDecorator(lines[i])
    ensures Stack(lines) < |lines| ==> !PlainDecorator(lines[Stack(lines)])
  {
    if lines != [] && PlainDecorator(lines[0]) {
      StackMeans(lines[1..]);
      assert forall i :: 0 < i < |lines| ==> lines[i] == lines[1..][i - 1];
    }
  }

  /** Running the rewriter on its own output inserts nothing. */
  lemma {:induction false} SecondRunInsertsNothing(w: Wording, lines: seq<string>)
    ensures Rewritten(w, Output(w, lines)) == KeepAll(Output(w, lines))
    decreases |lines|
  {
    if lines == [] {
    } else if Route(lines[0]).None? {
      SecondRunInsertsNothing(w, lines[1..]);
      OutputBlock(w, lines);
      assert Output(w, lines)[1..] == Output(w, lines[1..]);
    } else {
      var d := 1 + Stack(lines[1..]);
      SecondRunInsertsNothing(w, lines[d..]);
      RouteBlockSettles(w, lines, d);
    }
  }

  /** A route line with its stack, in front of settled lines that do not prolong it, is settled. */
  lemma {:induction false} SettleBlock(w: Wording, block: seq<string>, more: seq<string>)
    requires block != [] && Route(block[0]).Some? && forall i :: 1 <= i < |block| ==> PlainDecorator(block[i])
    requires (more == [] || !PlainDecorator(more[0])) && Doc(w, block[0], more) == []
             && Rewritten(w, more) == KeepAll(more)
    ensures Rewritten(w, block + more) == KeepAll(block + more)
  {
    hide Rewritten, Route, Doc, PlainDecorator, Stack, KeepAll;
    var all := block + more;
    StackEnds(block[1..], more);
    assert all[1..] == block[1..] + more && all[0] == block[0];
    assert all[..|block|] == block && all[|block|..] == more;
    KeepAllConcat(block, more);
    SettledRoute(w, all, |block|);
  }

  /** The stack of a route line and what follows it, in the output. */
  lemma {:induction false} RouteBlockSettles(w: Wording, lines: seq<string>, d: nat)
    requires lines != [] && Route(lines[0]).Some? && d == 1 + Stack(lines[1..])
    requires Rewritten(w, Output(w, lines[d..])) == KeepAll(Output(w, lines[d..]))
    ensures Rewritten(w, Output(w, lines)) == KeepAll(Output(w, lines))
  {
    hide *;
    var block, more := lines[..d], Doc(w, lines[0], lines[d..]) + Output(w, lines[d..]);
    OutputBlock(w, lines);
    assert Output(w, lines) == block + more;
    StackMeans(lines[1..]);
    forall i | 1 <= i < d
      ensures PlainDecorator(block[i])
    {
      assert block[i] == lines[1..][i - 1];
    }
    MoreIs(w, lines, d);
    SettleBlock(w, block, more);
  }

  lemma {:induction false} SettledRoute(w: Wording, lines: seq<string>, d: nat)
    requires lines != [] && Route(lines[0]).Some? && 1 + Stack(lines[1..]) == d && Doc(w, lines[0], lines[d..]) == []
    ensures Rewritten(w, lines) == KeepAll(lines[..d]) + Rewritten(w, lines[d..])
  {
  }

  /** What follows the stack does not prolong it, gets no doc line, and is settled itself. */
  lemma {:induction false} MoreIs(w: Wording, lines: seq<string>, d: nat)
    requires lines != [] && Route(lines[0]).Some? && d == 1 + Stack(lines[1..])
    requires Rewritten(w, Output(w, lines[d..])) == KeepAll(Output(w, lines[d..]))
    ensures var more := Doc(w, lines[0], lines[d..]) + Output(w, lines[d..]);
      && (more == [] || !PlainDecorator(more[0]))
      && Doc(w, lines[0], more) == []
      && Rewritten(w, more) == KeepAll(more)
  {
    var rest, doc := lines[d..], Doc(w, lines[0], lines[d..]);
    var more := doc + Output(w, rest);
    StackMeans(lines[1..]);
    assert rest != [] ==> rest[0] == lines[1..][d - 1];
    if doc != [] {
      DocLineIs(w, lines[0], Defined(rest[0]).value);
      assert more[1..] == Output(w, rest) && more[0] == doc[0];
      hide Route, Defined, MentionsDoc, IsDecorator, Output, DocLine, Indent, Stack;
    } else {
      assert more == Output(w, rest);
      if rest != [] {
        OutputStarts(w, rest);
      }
    }
  }

  /** The output is a fixed point. */
  lemma {:induction false} RewritingSettles(w: Wording, lines: seq<string>)
    ensures Output(w, Output(w, lines)) == Output(w, lines)
  {
    SecondRunInsertsNothing(w, lines);
    LinesKept(Output(w, lines));
  }
}
