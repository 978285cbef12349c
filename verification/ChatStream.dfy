/**
 The chat stream of backend/app/routes/ai_chat.py: the events of `chat_message_stream`, with
 the one-shot recovery of `_stream_llm_with_recovery`. What the database, the billing and the
 model do is a script; the events that a run emits are recorded together with what was
 committed when each was emitted, which is what a client that hangs up there leaves behind.
 */
module ChatStream {
  import opened Text

  datatype Event =
    | Accepted
    | Meta
    | Delta(text: string)
    | Replace(text: string)
    | Warning
    | Done(recovered: bool, truncated: bool)
    | Error

  datatype Charge = ChargeRaises | Refused | Paid

  /** How the model's stream ends: by itself, or with an error. */
  datatype Ending = Completes | Breaks(finishReason: string, retryable: bool)

  datatype Recovery = CallFails | Returns(text: string)

  datatype Script = Script(openFails: bool, charge: Charge, prepareFails: bool, deltas: seq<string>, ending: Ending,
                           recovery: Recovery, storeFails: bool, closeFails: bool)

  datatype Message = FromUser | Assistant(text: string)

  datatype Emitted = Emitted(event: Event, committed: seq<Message>)

  function NoAnswer(): string {
    "The model did not return a usable answer."
  }

  // ---------------------------------------------------------------- the recovering stream

  function Deltas(texts: seq<string>): seq<Event> {
    if texts == [] then [] else Deltas(texts[..|texts| - 1]) + [Delta(texts[|texts| - 1])]
  }

  predicate HasPartial(texts: seq<string>) {
    exists i :: 0 <= i < |texts| && texts[i] != ""
  }

  predicate CutShort(sc: Script) {
    sc.ending.Breaks? && sc.ending.finishReason == "length" && HasPartial(sc.deltas)
  }

  /** The stream broke in a way that is tried once more. */
  predicate Regenerates(sc: Script) {
    sc.ending.Breaks? && !CutShort(sc) && sc.ending.retryable
  }

  predicate Recovers(sc: Script) {
    Regenerates(sc) && sc.recovery.Returns? && Strip(sc.recovery.text) != ""
  }

  predicate StreamOk(sc: Script) {
    sc.ending.Completes? || CutShort(sc) || Recovers(sc)
  }

  function StreamEvents(sc: Script): seq<Event> {
    Deltas(sc.deltas)
    + (if CutShort(sc) then [Warning] else if Recovers(sc) then [Replace(Strip(sc.recovery.text))] else [])
  }

  method StreamWithRecovery(sc: Script) returns (events: seq<Event>, ok: bool, calls: nat)
    ensures events == StreamEvents(sc) && ok == StreamOk(sc) && calls == if Regenerates(sc) then 1 else 0
  {
    events, calls := [], 0;
    var hasPartial := false;
    for i := 0 to |sc.deltas|
      invariant events == Deltas(sc.deltas[..i]) && hasPartial == HasPartial(sc.deltas[..i])
    {
      assert sc.deltas[..i + 1] == sc.deltas[..i] + [sc.deltas[i]];
      PartialSnoc(sc.deltas[..i], sc.deltas[i]);
      hasPartial := hasPartial || sc.deltas[i] != "";
      events := events + [Delta(sc.deltas[i])];
    }
    assert sc.deltas[..|sc.deltas|] == sc.deltas;
    if sc.ending.Completes? {
      return events, true, calls;
    }
    if sc.ending.finishReason == "length" && hasPartial {
      events := events + [Warning];
      return events, true, calls;
    }
    if !sc.ending.retryable {
      return events, false, calls;
    }
    calls := calls + 1;
    if sc.recovery.CallFails? {
      return events, false, calls;
    }
    var recovered := Strip(sc.recovery.text);
    if recovered == "" {
      return events, false, calls;
    }
    events := events + [Replace(recovered)];
    return events, true, calls;
  }

  lemma {:induction false} PartialSnoc(texts: seq<string>, t: string)
    ensures HasPartial(texts + [t]) <==> HasPartial(texts) || t != ""
  {
    var all := texts + [t];
    if t != "" {
      assert all[|texts|] == t;
    }
    if HasPartial(texts) {
      var i :| 0 <= i < |texts| && texts[i] != "";
      assert all[i] == texts[i];
    }
  }

  // ---------------------------------------------------------------- the endpoint

  /** What a client shows: it appends deltas and lets a replacement overwrite. */
  function Shown(events: seq<Event>): string {
    if events == [] then ""
    else
      var before := Shown(events[..|events| - 1]);
      match events[|events| - 1]
      case Delta(t) => before + t
      case Replace(t) => t
      case _ => before
  }

  function Answer(text: string): string {
    if Strip(text) == "" then NoAnswer() else Strip(text)
  }

  predicate Streams(sc: Script) {
    !sc.openFails && sc.charge.Paid? && !sc.prepareFails
  }

  predicate Stores(sc: Script) {
    Streams(sc) && StreamOk(sc) && !sc.storeFails
  }

  function Trace(sc: Script): seq<Event> {
    if sc.openFails then [Error]
    else if !Streams(sc) then [Accepted, Error]
    else
      [Accepted, Meta] + StreamEvents(sc)
      + [if Stores(sc) && !sc.closeFails then Done(Recovers(sc), CutShort(sc)) else Error]
  }

  /** The messages committed by a run, in order. */
  function Committed(sc: Script): seq<Message> {
    if sc.openFails then []
    else if !Stores(sc) then [FromUser]
    else [FromUser, Assistant(Answer(Shown(StreamEvents(sc))))]
  }

  class Conversation {
    var messages: seq<Message>

    constructor ()
      ensures messages == []
    {
      messages := [];
    }

    method Generate(sc: Script) returns (trace: seq<Emitted>, regenerations: nat)
      modifies this
      ensures messages == old(messages) + Committed(sc)
      ensures Events(trace) == Trace(sc)
      ensures forall i :: 0 <= i < |trace| - 1 ==>
                trace[i].committed == old(messages) + if sc.openFails then [] else [FromUser]
      ensures trace[|trace| - 1].committed == messages
      ensures regenerations == if Streams(sc) && Regenerates(sc) then 1 else 0
    {
      trace, regenerations := [], 0;
      if sc.openFails {
        trace := Emit(trace, Error);
        return;
      }
      messages := messages + [FromUser];
      trace := Emit(trace, Accepted);
      if !sc.charge.Paid? || sc.prepareFails {
        trace := Emit(trace, Error);
        return;
      }
      trace := Emit(trace, Meta);
      assert Events(trace) == [Accepted, Meta];
      hide Shown, StreamEvents, StreamOk, CutShort, Recovers, Regenerates, Strip, Join, Events, NoAnswer;
      var events, ok;
      events, ok, regenerations := StreamWithRecovery(sc);
      var chunks, recovered, truncated;
      trace, chunks, recovered, truncated := Relay(trace, events);
      FlagsMean(sc);
      if !ok || sc.storeFails {
        trace := Emit(trace, Error);
        return;
      }
      var answer := Strip(Join(chunks));
      if answer == "" {
        answer := NoAnswer();
      }
      messages := messages + [Assistant(answer)];
      assert messages == old(messages) + Committed(sc);
      if sc.closeFails {
        trace := Emit(trace, Error);
        return;
      }
      trace := Emit(trace, Done(recovered, truncated));
    }

    /** The loop over the stream's events: collect the text and pass the event on. */
    method Relay(start: seq<Emitted>, events: seq<Event>)
      returns (trace: seq<Emitted>, chunks: seq<string>, recovered: bool, truncated: bool)
      requires forall j :: 0 <= j < |start| ==> start[j].committed == messages
      ensures Events(trace) == Events(start) + events
      ensures forall j :: 0 <= j < |trace| ==> trace[j].committed == messages
      ensures Join(chunks) == Shown(events) && recovered == Replaced(events) && truncated == Warned(events)
    {
      trace, chunks, recovered, truncated := start, [], false, false;
      EmptyStart(events);
      hide Shown, Replaced, Warned, Join, Events;
      for i := 0 to |events|
        invariant Events(trace) == Events(start) + events[..i]
        invariant forall j :: 0 <= j < |trace| ==> trace[j].committed == messages
        invariant Join(chunks) == Shown(events[..i])
        invariant recovered == Replaced(events[..i]) && truncated == Warned(events[..i])
      {
        var e := events[i];
        OneMore(Events(start), events, i);
        EventSnoc(events[..i], e);
        match e {
          case Replace(t) =>
            JoinOne(t);
            chunks := [t];
            recovered := true;
          case Warning => truncated := true;
          case Delta(t) =>
            JoinSnoc(chunks, t);
            chunks := chunks + [t];
          case _ =>
        }
        trace := Emit(trace, e);
      }
      assert events[..|events|] == events;
    }

    lemma {:induction false} EmptyStart(events: seq<Event>)
      ensures events[..0] == [] && Join([]) == Shown(events[..0]) && !Replaced(events[..0]) && !Warned(events[..0])
    {
    }

    lemma {:induction false} OneMore(before: seq<Event>, events: seq<Event>, i: nat)
      requires i < |events|
      ensures events[..i + 1] == events[..i] + [events[i]]
              && before + events[..i + 1] == before + events[..i] + [events[i]]
    {
    }

    function Emit(trace: seq<Emitted>, e: Event): (r: seq<Emitted>)
      reads this
      ensures Events(r) == Events(trace) + [e] && r == trace + [Emitted(e, messages)]
    {
      assert (trace + [Emitted(e, messages)])[..|trace|] == trace;
      trace + [Emitted(e, messages)]
    }
  }

  function Events(trace: seq<Emitted>): seq<Event> {
    if trace == [] then [] else Events(trace[..|trace| - 1]) + [trace[|trace| - 1].event]
  }

  function Join(chunks: seq<string>): string {
    if chunks == [] then "" else Join(chunks[..|chunks| - 1]) + chunks[|chunks| - 1]
  }

  lemma {:induction false} DeltasAre(texts: seq<string>)
    ensures |Deltas(texts)| == |texts| && forall i :: 0 <= i < |texts| ==> Deltas(texts)[i] == Delta(texts[i])
  {
    if texts != [] {
      DeltasAre(texts[..|texts| - 1]);
    }
  }

  ghost predicate Replaced(events: seq<Event>) {
    exists e :: e in events && e.Replace?
  }

  ghost predicate Warned(events: seq<Event>) {
    Warning in events
  }

  lemma {:induction false} EventSnoc(events: seq<Event>, e: Event)
    ensures Replaced(events + [e]) <==> Replaced(events) || e.Replace?
    ensures Warned(events + [e]) <==> Warned(events) || e.Warning?
    ensures Shown(events + [e]) == match e case Delta(t) => Shown(events) + t case Replace(t) => t case _ => Shown(events)
  {
    assert (events + [e])[..|events|] == events;
    if Replaced(events) {
      var x :| x in events && x.Replace?;
      assert x in events + [e];
    }
    assert e in events + [e];
  }

  lemma {:induction false} JoinOne(t: string)
    ensures Join([t]) == t
  {
    assert [t][..0] == [];
  }

  lemma {:induction false} JoinSnoc(chunks: seq<string>, t: string)
    ensures Join(chunks + [t]) == Join(chunks) + t
  {
    assert (chunks + [t])[..|chunks|] == chunks;
  }

  /** The stream replaced the text exactly when it recovered, and warned exactly when it was cut short. */
  lemma {:induction false} FlagsMean(sc: Script)
    ensures Replaced(StreamEvents(sc)) <==> Recovers(sc)
    ensures Warned(StreamEvents(sc)) <==> CutShort(sc)
  {
    DeltasAre(sc.deltas);
    var events, n := StreamEvents(sc), |sc.deltas|;
    assert forall j :: 0 <= j < n ==> events[j].Delta?;
    if CutShort(sc) || Recovers(sc) {
      assert events[n] in events;
    }
  }

  // ---------------------------------------------------------------- the grammar

  datatype Phase = Start | Waiting | Streaming(partial: bool) | Overwritten | Truncated | Finished | Wrong

  /** The grammar of event traces, as an automaton. */
  function Next(p: Phase, e: Event): Phase {
    match (p, e)
    case (Start, Accepted) => Waiting
    case (Start, Error) => Finished
    case (Waiting, Meta) => Streaming(false)
    case (Waiting, Error) => Finished
    case (Streaming(partial), Delta(t)) => Streaming(partial || t != "")
    case (Streaming(_), Replace(t)) => if t != "" && Stripped(t) then Overwritten else Wrong
    case (Streaming(partial), Warning) => if partial then Truncated else Wrong
    case (Streaming(_), Done(recovered, truncated)) => if !recovered && !truncated then Finished else Wrong
    case (Overwritten, Done(recovered, truncated)) => if recovered && !truncated then Finished else Wrong
    case (Truncated, Done(recovered, truncated)) => if !recovered && truncated then Finished else Wrong
    case (Streaming(_), Error) => Finished
    case (Overwritten, Error) => Finished
    case (Truncated, Error) => Finished
    case (_, _) => Wrong
  }

  function After(p: Phase, events: seq<Event>): Phase
    decreases |events|
  {
    if events == [] then p else After(Next(p, events[0]), events[1..])
  }

  lemma {:induction false} AfterConcat(p: Phase, a: seq<Event>, b: seq<Event>)
    ensures After(p, a + b) == After(After(p, a), b)
    decreases |a|
  {
    if a == [] {
      assert a + b == b;
    } else {
      assert (a + b)[1..] == a[1..] + b && (a + b)[0] == a[0];
      AfterConcat(Next(p, a[0]), a[1..], b);
    }
  }

  lemma {:induction false} AfterOne(p: Phase, e: Event)
    ensures After(p, [e]) == Next(p, e)
  {
    assert [e][1..] == [];
  }

  lemma {:induction false} AfterDeltas(texts: seq<string>)
    ensures After(Streaming(false), Deltas(texts)) == Streaming(HasPartial(texts))
  {
    if texts != [] {
      var front, t := texts[..|texts| - 1], texts[|texts| - 1];
      assert texts == front + [t];
      AfterDeltas(front);
      PartialSnoc(front, t);
      AfterConcat(Streaming(false), Deltas(front), [Delta(t)]);
      AfterOne(Streaming(HasPartial(front)), Delta(t));
    }
  }

  lemma {:induction false} AfterStream(sc: Script)
    ensures After(Streaming(false), StreamEvents(sc)) ==
              if CutShort(sc) then Truncated else if Recovers(sc) then Overwritten else Streaming(HasPartial(sc.deltas))
  {
    AfterDeltas(sc.deltas);
    var tail := StreamEvents(sc)[|Deltas(sc.deltas)|..];
    AfterConcat(Streaming(false), Deltas(sc.deltas), tail);
    assert StreamEvents(sc) == Deltas(sc.deltas) + tail;
    if CutShort(sc) {
      assert tail == [Warning];
      AfterOne(Streaming(true), Warning);
    } else if Recovers(sc) {
      var t := Strip(sc.recovery.text);
      StripMeans(sc.recovery.text);
      assert tail == [Replace(t)];
      AfterOne(Streaming(HasPartial(sc.deltas)), Replace(t));
    } else {
      assert tail == [];
    }
  }

  lemma {:induction false} AfterHead()
    ensures After(Start, [Accepted, Meta]) == Streaming(false)
  {
    assert [Accepted, Meta][1..] == [Meta];
    AfterOne(Waiting, Meta);
  }

  /** How a run that streams ends. */
  function Last(sc: Script): Event {
    if Stores(sc) && !sc.closeFails then Done(Recovers(sc), CutShort(sc)) else Error
  }

  lemma {:induction false} EndingFits(sc: Script)
    requires Streams(sc)
    ensures Next(After(Streaming(false), StreamEvents(sc)), Last(sc)) == Finished
  {
    AfterStream(sc);
    hide StreamEvents, After, HasPartial, Strip;
  }

  /** Every trace fits the grammar. */
  lemma {:induction false} TracesFit(sc: Script)
    ensures After(Start, Trace(sc)) == Finished
  {
    if !Streams(sc) {
      AfterOne(Start, Error);
      assert [Accepted, Error][1..] == [Error];
      AfterOne(Waiting, Error);
    } else {
      var head, mid, last := [Accepted, Meta], StreamEvents(sc), Last(sc);
      assert Trace(sc) == head + mid + [last];
      hide Trace, StreamEvents, After, Next, Last;
      EndingFits(sc);
      AfterHead();
      assert head + mid + [last] == head + (mid + [last]);
      AfterConcat(Start, head, mid + [last]);
      AfterConcat(Streaming(false), mid, [last]);
      AfterOne(After(Streaming(false), mid), last);
    }
  }

  lemma {:induction false} DeltasCons(t: string, texts: seq<string>)
    ensures Deltas([t] + texts) == [Delta(t)] + Deltas(texts)
  {
    if texts == [] {
      assert [t] + texts == [t] && [t][..0] == [];
    } else {
      assert ([t] + texts)[..|texts|] == [t] + texts[..|texts| - 1];
      DeltasCons(t, texts[..|texts| - 1]);
    }
  }

  /** The rest of an accepted trace, from the streaming phase: deltas, at most one notice, one ending. */
  ghost predicate Splits(events: seq<Event>, texts: seq<string>, notice: seq<Event>, last: Event) {
    && events == Deltas(texts) + notice + [last]
    && (notice == [] || notice == [Warning] || (|notice| == 1 && notice[0].Replace?))
    && (last == Error || last == Done(notice != [] && notice[0].Replace?, notice == [Warning]))
  }

  lemma {:induction false} SplitStreaming(partial: bool, events: seq<Event>) returns (texts: seq<string>,
          notice: seq<Event>, last: Event)
    requires After(Streaming(partial), events) == Finished
    ensures Splits(events, texts, notice, last)
    ensures notice == [Warning] ==> partial || HasPartial(texts)
    ensures forall t :: notice == [Replace(t)] ==> t != "" && Stripped(t)
    decreases |events|
  {
    var e, rest := events[0], events[1..];
    assert events == [e] + rest;
    var p := Next(Streaming(partial), e);
    assert After(p, rest) == Finished;
    hide After, HasPartial, Deltas;
    WrongStays(rest);
    if e.Delta? {
      texts, notice, last := SplitStreaming(partial || e.text != "", rest);
      SplitsCons(e.text, rest, texts, notice, last);
      texts := [e.text] + texts;
    } else if p.Finished? {
      OnlyEmptyFinishes(rest);
      texts, notice, last := [], [], e;
      NoDeltas([], e);
    } else {
      last := SplitLast(p, rest);
      texts, notice := [], [e];
      NoDeltas([e], last);
    }
  }

  lemma {:induction false} NoDeltas(notice: seq<Event>, last: Event)
    ensures Deltas([]) + notice + [last] == notice + [last]
  {
  }

  lemma {:induction false} SplitsCons(t: string, rest: seq<Event>, texts: seq<string>, notice: seq<Event>, last: Event)
    requires Splits(rest, texts, notice, last)
    ensures Splits([Delta(t)] + rest, [t] + texts, notice, last)
    ensures HasPartial([t] + texts) <==> t != "" || HasPartial(texts)
  {
    DeltasCons(t, texts);
    PartialCons(t, texts);
    hide Deltas, HasPartial;
    assert [Delta(t)] + (Deltas(texts) + notice + [last]) == [Delta(t)] + Deltas(texts) + notice + [last];
  }

  lemma {:induction false} WrongStays(events: seq<Event>)
    ensures After(Wrong, events) == Wrong
  {
    if events != [] {
      WrongStays(events[1..]);
    }
  }

  lemma {:induction false} OnlyEmptyFinishes(events: seq<Event>)
    ensures After(Finished, events) == Finished <==> events == []
  {
    if events != [] {
      WrongStays(events[1..]);
    }
  }

  lemma {:induction false} SplitLast(p: Phase, events: seq<Event>) returns (last: Event)
    requires (p.Overwritten? || p.Truncated?) && After(p, events) == Finished
    ensures events == [last] && (last == Error || last == Done(p.Overwritten?, p.Truncated?))
  {
    last := events[0];
    OnlyEmptyFinishes(events[1..]);
    WrongStays(events[1..]);
    assert events == [last] + events[1..];
  }

  lemma {:induction false} PartialCons(t: string, texts: seq<string>)
    ensures HasPartial([t] + texts) <==> t != "" || HasPartial(texts)
  {
    var all := [t] + texts;
    if t != "" {
      assert all[0] != "";
    }
    if HasPartial(texts) {
      var i :| 0 <= i < |texts| && texts[i] != "";
      assert all[i + 1] != "";
    }
  }

  function Plain(deltas: seq<string>): Script {
    Script(false, Paid, false, deltas, Completes, CallFails, false, false)
  }

  /** A script for the rest of a trace. */
  lemma {:induction false} Realize(texts: seq<string>, notice: seq<Event>, last: Event) returns (sc: Script)
    requires Splits(Deltas(texts) + notice + [last], texts, notice, last)
    requires notice == [Warning] ==> HasPartial(texts)
    requires forall t :: notice == [Replace(t)] ==> t != "" && Stripped(t)
    ensures Trace(sc) == [Accepted, Meta] + (Deltas(texts) + notice + [last])
  {
    sc := Plain(texts).(storeFails := last == Error);
    if notice == [Warning] {
      sc := sc.(ending := Breaks("length", false));
    } else if notice != [] {
      var t := notice[0].text;
      assert notice == [Replace(t)];
      StripMeans(t);
      sc := sc.(ending := Breaks("", true), recovery := Returns(t));
    }
    assert StreamEvents(sc) == Deltas(texts) + notice;
    assert Trace(sc) == [Accepted, Meta] + StreamEvents(sc) + [last];
  }

  /** The grammar is exact: the finished traces it accepts are those that some run emits. */
  lemma {:induction false} GrammarIsExact(events: seq<Event>)
    ensures After(Start, events) == Finished <==> exists sc :: Trace(sc) == events
  {
    if After(Start, events) == Finished {
      var sc := RealizeTrace(events);
    }
    if exists sc :: Trace(sc) == events {
      var sc :| Trace(sc) == events;
      TracesFit(sc);
    }
  }

  lemma {:induction false} RealizeTrace(events: seq<Event>) returns (sc: Script)
    requires After(Start, events) == Finished
    ensures Trace(sc) == events
  {
    var first, rest := events[0], events[1..];
    assert events == [first] + rest;
    WrongStays(rest);
    if first == Error {
      OnlyEmptyFinishes(rest);
      sc := Plain([]).(openFails := true);
    } else {
      var second, tail := rest[0], rest[1..];
      assert rest == [second] + tail;
      WrongStays(tail);
      if second == Error {
        OnlyEmptyFinishes(tail);
        sc := Plain([]).(charge := Refused);
      } else {
        var texts, notice, last := SplitStreaming(false, tail);
        sc := Realize(texts, notice, last);
        assert events == [Accepted, Meta] + tail;
      }
    }
  }

  // ---------------------------------------------------------------- agreement

  /** Whatever the client has when it hangs up is the start of a trace that fits the grammar so far. */
  lemma {:induction false} HangUpFits(sc: Script, n: nat)
    requires n <= |Trace(sc)|
    ensures After(Start, Trace(sc)[..n]) != Wrong
    ensures n < |Trace(sc)| ==> After(Start, Trace(sc)[..n]) != Finished
  {
    TracesFit(sc);
    var a, b := Trace(sc)[..n], Trace(sc)[n..];
    assert Trace(sc) == a + b;
    AfterConcat(Start, a, b);
    WrongStays(b);
    if n < |Trace(sc)| {
      OnlyEmptyFinishes(b);
    }
  }

  lemma {:induction false} ShownSkips(a: seq<Event>, b: seq<Event>)
    requires Shown(a) == ""
    ensures Shown(a + b) == Shown(b)
  {
    if b == [] {
      assert a + b == a;
    } else {
      assert (a + b)[..|a + b| - 1] == a + b[..|b| - 1];
      ShownSkips(a, b[..|b| - 1]);
    }
  }

  /**
   The client agrees with the store: after `done`, the text that appending deltas and
   overwriting by `replace` gives is, stripped, the one assistant message that was committed
   (or the fixed sentence when nothing is left of it).
   */
  lemma {:induction false} ClientAgreesWithStore(sc: Script)
    requires Trace(sc)[|Trace(sc)| - 1].Done?
    ensures Committed(sc) == [FromUser, Assistant(Answer(Shown(Trace(sc))))]
  {
    var head, mid, trace := [Accepted, Meta], StreamEvents(sc), Trace(sc);
    var last := trace[|trace| - 1];
    assert trace == (head + mid) + [last];
    EventSnoc(head + mid, last);
    assert head == [] + [Accepted] + [Meta];
    EventSnoc([], Accepted);
    EventSnoc([] + [Accepted], Meta);
    ShownSkips(head, mid);
  }

  /** A recovered answer is what the reliable path returned, and nothing of the broken stream. */
  lemma {:induction false} RecoveredAnswer(sc: Script)
    requires Stores(sc) && Recovers(sc)
    ensures Committed(sc) == [FromUser, Assistant(Strip(sc.recovery.text))]
  {
    StripTwice(sc.recovery.text);
    EventSnoc(Deltas(sc.deltas), Replace(Strip(sc.recovery.text)));
  }

  // ---------------------------------------------------------------- by the script's fields

  lemma {:induction false} DeltasOnly(texts: seq<string>)
    ensures forall e :: e in Deltas(texts) ==> e.Delta?
  {
    if texts != [] {
      DeltasOnly(texts[..|texts| - 1]);
    }
  }

  /**
   When a stream warns and when it is replaced: it warns exactly when it breaks off with finish
   reason "length" after some text; it is replaced, by the stripped text of the second call, exactly
   when it breaks off otherwise in a way worth a retry and that text is not blank.
   */
  lemma {:induction false} WarnsAndReplacesExactly(sc: Script, text: string)
    ensures var (partial, events) := (exists i :: 0 <= i < |sc.deltas| && sc.deltas[i] != "", StreamEvents(sc));
      var cut := sc.ending.Breaks? && sc.ending.finishReason == "length" && partial;
      && (Warning in events <==> cut)
      && (Replace(text) in events <==>
            && sc.ending.Breaks? && sc.ending.retryable && !cut
            && sc.recovery.Returns? && Strip(sc.recovery.text) == text && text != "")
  {
    DeltasOnly(sc.deltas);
    hide Deltas, Strip;
  }

  /** The last event of a run says whether the stored answer was recovered and whether it was cut short. */
  lemma {:induction false} LastEventExactly(sc: Script)
    ensures var (trace, events) := (Trace(sc), StreamEvents(sc));
      var ok := !sc.openFails && sc.charge.Paid? && !sc.prepareFails && !sc.storeFails && !sc.closeFails
                && (sc.ending.Completes? || Warning in events || exists t :: Replace(t) in events);
      && trace != []
      && trace[|trace| - 1] == if ok then Done(exists t :: Replace(t) in events, Warning in events) else Error
  {
    DeltasOnly(sc.deltas);
    hide Deltas, Strip;
    if Recovers(sc) {
      assert Replace(Strip(sc.recovery.text)) in StreamEvents(sc);
    }
  }
}
