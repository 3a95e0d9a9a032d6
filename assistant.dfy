/** The main loop `run_jaadu` and the AI client `get_ai_response`, over an assistant
    object that owns the conversation history. Speech input is a sequence of
    utterances (a failed recognition is the empty string), the AI endpoint a sequence
    of replies, and the encyclopedia a sequence of call outcomes; every other handler
    is recorded as the call it would make. */
module Jaadu {
  import opened TextOps
  import opened Dispatch
  import opened Conversation

  /** The fixed prompt of the joke handler. */
  const JokePrompt := "Tell me a short funny joke"

  /** What one command makes the assistant do. `LookupError` is an exception raised by
      the encyclopedia call, which nothing in `run_jaadu` catches. */
  datatype Effect =
    | PlaySong(song: string)
    | Control(action: string)
    | WeatherReport(city: string)
    | SendEmail(receiver: string, subject: string, body: string)
    | AskAi(query: string, prompt: string, answer: string)
    | Summary(query: string)
    | LookupError(query: string)
    | TellTime
    | Farewell

  /** `listen()`: the next utterance, lower-cased; once the utterances run out the
      microphone hears nothing and yields "". */
  function Listen(inputs: seq<string>, pos: nat): string {
    if pos < |inputs| then Lower(inputs[pos]) else ""
  }

  /** The endpoint's reply to the `n`-th AI call; a call past the last reply fails. */
  function ReplyAt(replies: seq<Reply>, n: nat): Reply {
    if n < |replies| then replies[n] else Failure
  }

  /** How one `wikipedia.summary` call ends: with a summary, or with an exception (an
      ambiguous or missing title, a network error). */
  datatype Lookup = Found | Raises

  /** The outcome of the `n`-th encyclopedia call; a call past the last outcome finds
      its summary. */
  function LookupAt(lookups: seq<Lookup>, n: nat): Lookup {
    if n < |lookups| then lookups[n] else Found
  }

  /** The loop's state between commands: the next utterance to hear, the history, the
      number of AI calls and the number of encyclopedia calls made so far. */
  datatype Session = Session(pos: nat, history: seq<Record>, calls: nat, summaries: nat)

  datatype Outcome = Outcome(effect: Effect, after: Session)

  /** One AI exchange on `query`, after hearing up to `next`. */
  function AiStep(replies: seq<Reply>, s: Session, query: string, next: nat): Outcome {
    var reply := ReplyAt(replies, s.calls);
    Outcome(AskAi(query, Prompt(s.history + [Record(User, query)]), Answer(reply)),
            s.(pos := next, history := Exchanged(s.history, query, reply), calls := s.calls + 1))
  }

  /** One encyclopedia call on the query taken from `command`, after hearing up to
      `next`. */
  function LookupStep(lookups: seq<Lookup>, s: Session, command: string, next: nat): Outcome {
    var query := WikipediaQuery(command);
    var after := s.(pos := next, summaries := s.summaries + 1);
    if LookupAt(lookups, s.summaries) == Raises then Outcome(LookupError(query), after)
    else Outcome(Summary(query), after)
  }

  /** The handler `action` selects for `command`, heard at `s.pos`. The e-mail handler
      hears three more utterances. */
  function Handle(inputs: seq<string>, replies: seq<Reply>, lookups: seq<Lookup>, s: Session,
                  command: string, action: Action): (o: Outcome)
    ensures s.pos < o.after.pos <= s.pos + 4
  {
    var next := s.pos + 1;
    match action
    case Play => Outcome(PlaySong(SongName(command)), s.(pos := next))
    case Next => Outcome(Control(ControlAction(Next)), s.(pos := next))
    case Previous => Outcome(Control(ControlAction(Previous)), s.(pos := next))
    case Stop => Outcome(Control(ControlAction(Stop)), s.(pos := next))
    case Weather => Outcome(WeatherReport(City(command)), s.(pos := next))
    case Email =>
      Outcome(SendEmail(Receiver(Listen(inputs, next)), Listen(inputs, next + 1), Listen(inputs, next + 2)),
              s.(pos := next + 3))
    case Joke => AiStep(replies, s, JokePrompt, next)
    case Wikipedia => LookupStep(lookups, s, command, next)
    case Time => Outcome(TellTime, s.(pos := next))
    case Exit => Outcome(Farewell, s.(pos := next))
    case Chat => AiStep(replies, s, command, next)
  }

  /** One iteration of the loop: hear a command and run the one handler it selects. */
  function Step(inputs: seq<string>, replies: seq<Reply>, lookups: seq<Lookup>, s: Session): (o: Outcome)
    ensures s.pos < o.after.pos <= s.pos + 4
  {
    var command := Listen(inputs, s.pos);
    Handle(inputs, replies, lookups, s, command, Classify(command))
  }

  /** The effects after which the loop does not go round again: the farewell, which
      breaks out of it, and an exception escaping it. */
  predicate Final(e: Effect) {
    e == Farewell || e.LookupError?
  }

  /** How a run of the loop ended: the utterances ran out, the exit command broke out
      of it, or an exception escaped from it. */
  datatype Ending = RanOut | Exited | Crashed

  function EndingOf(e: Effect): Ending
    requires Final(e)
  {
    if e == Farewell then Exited else Crashed
  }

  /** What the loop does from a session on: the effects in order, the final session,
      and how it ended. */
  datatype Trace = Trace(effects: seq<Effect>, final: Session, ending: Ending)

  /** A loop body that hears at least one utterance each time round. */
  ghost predicate Advances(step: Session -> Outcome) {
    forall s: Session :: s.pos < step(s).after.pos
  }

  /** `while True:` around a loop body: go round until a final effect, or until the
      utterances run out at position `end`. */
  function Drive(step: Session -> Outcome, end: nat, s: Session): Trace
    requires Advances(step)
    decreases end - s.pos
  {
    if s.pos >= end then Trace([], s, RanOut)
    else
      var o := step(s);
      if Final(o.effect) then Trace([o.effect], o.after, EndingOf(o.effect))
      else
        var t := Drive(step, end, o.after);
        Trace([o.effect] + t.effects, t.final, t.ending)
  }

  /** The body of `run_jaadu`'s loop over the given utterances, replies and
      encyclopedia outcomes. */
  function StepOf(inputs: seq<string>, replies: seq<Reply>, lookups: seq<Lookup>): (step: Session -> Outcome)
    ensures Advances(step)
  {
    s => Step(inputs, replies, lookups, s)
  }

  function Transcript(inputs: seq<string>, replies: seq<Reply>, lookups: seq<Lookup>, s: Session): Trace {
    Drive(StepOf(inputs, replies, lookups), |inputs|, s)
  }

  // ---------------------------------------------------------------------------
  // Properties of one step

  /** Each command runs exactly the handler `Classify` selects: here the music player,
      the playback controls and the weather report. */
  lemma StepDispatch(inputs: seq<string>, replies: seq<Reply>, lookups: seq<Lookup>, s: Session)
    ensures var command := Listen(inputs, s.pos); var o := Step(inputs, replies, lookups, s);
      (o.effect.PlaySong? <==> Classify(command) == Play)
      && (o.effect.Control? <==> Classify(command) in {Next, Previous, Stop})
      && (o.effect.WeatherReport? <==> Classify(command) == Weather)
  {
    var command := Listen(inputs, s.pos);
    HandleDispatch(inputs, replies, lookups, s, command, Classify(command));
  }

  /** The same for the other handlers: e-mail, the AI model (for a joke or a chat),
      the encyclopedia, the clock and the farewell. */
  lemma StepDispatchRest(inputs: seq<string>, replies: seq<Reply>, lookups: seq<Lookup>, s: Session)
    ensures var command := Listen(inputs, s.pos); var o := Step(inputs, replies, lookups, s);
      (o.effect.SendEmail? <==> Classify(command) == Email)
      && (o.effect.AskAi? <==> Classify(command) in {Joke, Chat})
      && (o.effect.Summary? || o.effect.LookupError? <==> Classify(command) == Wikipedia)
      && (o.effect.TellTime? <==> Classify(command) == Time)
      && (o.effect == Farewell <==> Classify(command) == Exit)
  {
    var command := Listen(inputs, s.pos);
    HandleDispatch(inputs, replies, lookups, s, command, Classify(command));
  }

  /** The AI model gets the command itself, or the fixed joke prompt; every handler but
      the e-mail one hears only the command. */
  lemma StepQueries(inputs: seq<string>, replies: seq<Reply>, lookups: seq<Lookup>, s: Session)
    ensures var command := Listen(inputs, s.pos); var o := Step(inputs, replies, lookups, s);
      (Classify(command) == Chat ==> o.effect.AskAi? && o.effect.query == command)
      && (Classify(command) == Joke ==> o.effect.AskAi? && o.effect.query == JokePrompt)
      && (o.after.pos == s.pos + (if Classify(command) == Email then 4 else 1))
  {
    var command := Listen(inputs, s.pos);
    HandleQueries(inputs, replies, lookups, s, command, Classify(command));
  }

  /** The encyclopedia handler makes exactly one encyclopedia call, and it is the only
      handler that does; the call's outcome decides between a summary and an
      exception. */
  lemma StepLookup(inputs: seq<string>, replies: seq<Reply>, lookups: seq<Lookup>, s: Session)
    ensures var command := Listen(inputs, s.pos); var o := Step(inputs, replies, lookups, s);
      (o.after.summaries == s.summaries + (if Classify(command) == Wikipedia then 1 else 0))
      && (o.effect.Summary? <==> Classify(command) == Wikipedia && LookupAt(lookups, s.summaries) == Found)
      && (o.effect.LookupError? <==> Classify(command) == Wikipedia && LookupAt(lookups, s.summaries) == Raises)
      && (Classify(command) == Wikipedia ==> o.effect.query == WikipediaQuery(command))
  {
    var command := Listen(inputs, s.pos);
    HandleDispatch(inputs, replies, lookups, s, command, Classify(command));
    HandleQueries(inputs, replies, lookups, s, command, Classify(command));
  }

  /** For a given action, the effect is of the kind that action's handler produces. */
  lemma HandleDispatch(inputs: seq<string>, replies: seq<Reply>, lookups: seq<Lookup>, s: Session,
                       command: string, action: Action)
    ensures var o := Handle(inputs, replies, lookups, s, command, action);
      (o.effect.PlaySong? <==> action == Play)
      && (o.effect.Control? <==> action in {Next, Previous, Stop})
      && (o.effect.WeatherReport? <==> action == Weather)
      && (o.effect.SendEmail? <==> action == Email)
      && (o.effect.AskAi? <==> action in {Joke, Chat})
      && (o.effect.Summary? <==> action == Wikipedia && LookupAt(lookups, s.summaries) == Found)
      && (o.effect.LookupError? <==> action == Wikipedia && LookupAt(lookups, s.summaries) == Raises)
      && (o.effect.TellTime? <==> action == Time)
      && (o.effect == Farewell <==> action == Exit)
  {
  }

  /** What each handler asks for and how far it reads, for a given action. */
  lemma HandleQueries(inputs: seq<string>, replies: seq<Reply>, lookups: seq<Lookup>, s: Session,
                      command: string, action: Action)
    ensures var o := Handle(inputs, replies, lookups, s, command, action);
      (action == Chat ==> o.effect.AskAi? && o.effect.query == command)
      && (action == Joke ==> o.effect.AskAi? && o.effect.query == JokePrompt)
      && (o.after.pos == s.pos + (if action == Email then 4 else 1))
      && (o.after.summaries == s.summaries + (if action == Wikipedia then 1 else 0))
      && (action == Wikipedia ==> o.effect.query == WikipediaQuery(command))
  {
  }

  /** The AI handler is the only one that touches the history, and it only appends. */
  lemma StepHistory(inputs: seq<string>, replies: seq<Reply>, lookups: seq<Lookup>, s: Session)
    ensures var o := Step(inputs, replies, lookups, s); var h := o.after.history;
      |s.history| <= |h| && h[..|s.history|] == s.history
      && (o.effect.AskAi? ==>
            (o.after.calls == s.calls + 1
             && h[|s.history|] == Record(User, o.effect.query)
             && |s.history| + 1 <= |h| <= |s.history| + 2
             && o.effect.prompt == Prompt(h[..|s.history| + 1])))
      && (!o.effect.AskAi? ==> h == s.history && o.after.calls == s.calls)
  {
    var command := Listen(inputs, s.pos);
    HandleHistory(inputs, replies, lookups, s, command, Classify(command));
  }

  lemma HandleHistory(inputs: seq<string>, replies: seq<Reply>, lookups: seq<Lookup>, s: Session,
                      command: string, action: Action)
    ensures var o := Handle(inputs, replies, lookups, s, command, action); var h := o.after.history;
      |s.history| <= |h| && h[..|s.history|] == s.history
      && (o.effect.AskAi? ==>
            (o.after.calls == s.calls + 1
             && h[|s.history|] == Record(User, o.effect.query)
             && |s.history| + 1 <= |h| <= |s.history| + 2
             && o.effect.prompt == Prompt(h[..|s.history| + 1])))
      && (!o.effect.AskAi? ==> h == s.history && o.after.calls == s.calls)
  {
    if action == Joke || action == Chat {
      var query := if action == Joke then JokePrompt else command;
      var reply := ReplyAt(replies, s.calls);
      assert Handle(inputs, replies, lookups, s, command, action) == AiStep(replies, s, query, s.pos + 1);
      ExchangeGrowth(s.history, query, reply);
      var h := Exchanged(s.history, query, reply);
      assert h[..|s.history| + 1] == s.history + [Record(User, query)];
    }
  }

  /** The loop stops after the exit command and after an encyclopedia call that
      raises, and nowhere else; either hears only the command. */
  lemma StepEnds(inputs: seq<string>, replies: seq<Reply>, lookups: seq<Lookup>, s: Session)
    ensures var o := Step(inputs, replies, lookups, s); var command := Listen(inputs, s.pos);
      (o.effect == Farewell <==> Classify(command) == Exit)
      && (o.effect.LookupError? <==> Classify(command) == Wikipedia && LookupAt(lookups, s.summaries) == Raises)
      && (Final(o.effect) ==> o.after.pos == s.pos + 1)
  {
  }

  /** A step reads no utterance at or beyond the position it stops at. */
  lemma StepReadsBefore(inputs: seq<string>, more: seq<string>, replies: seq<Reply>, lookups: seq<Lookup>, s: Session)
    requires Step(inputs, replies, lookups, s).after.pos <= |inputs|
    ensures Step(inputs + more, replies, lookups, s) == Step(inputs, replies, lookups, s)
  {
    var pos := s.pos;
    assert Listen(inputs + more, pos) == Listen(inputs, pos);
    if Classify(Listen(inputs, pos)) == Email {
      assert forall i :: pos <= i < pos + 4 ==> Listen(inputs + more, i) == Listen(inputs, i);
    }
  }

  // ---------------------------------------------------------------------------
  // Properties of the loop, for any body

  /** A final step hears one utterance. */
  ghost predicate FinalListensOnce(step: Session -> Outcome) {
    forall s :: Final(step(s).effect) ==> step(s).after.pos == s.pos + 1
  }

  /** Number of AI exchanges among some effects. */
  function AiCalls(effects: seq<Effect>): nat {
    if effects == [] then 0 else (if effects[0].AskAi? then 1 else 0) + AiCalls(effects[1..])
  }

  lemma AiCallsCons(e: Effect, effects: seq<Effect>)
    ensures AiCalls([e] + effects) == (if e.AskAi? then 1 else 0) + AiCalls(effects)
  {
    assert ([e] + effects)[1..] == effects;
  }

  /** The history grows only at its end, by one or two records for an AI exchange and
      not at all otherwise, and the call count goes up by one per exchange. */
  predicate AppendsToHistory(s: Session, o: Outcome) {
    var n := if o.effect.AskAi? then 1 else 0;
    |s.history| + n <= |o.after.history| <= |s.history| + 2 * n
    && o.after.history[..|s.history|] == s.history
    && o.after.calls == s.calls + n
  }

  ghost predicate OnlyAppends(step: Session -> Outcome) {
    forall s :: AppendsToHistory(s, step(s))
  }

  /** Putting an effect that is not final in front keeps a final effect last, and only
      last. */
  lemma ConsNotFinal(e: Effect, effects: seq<Effect>)
    requires !Final(e)
    requires forall i :: 0 <= i < |effects| - 1 ==> !Final(effects[i])
    ensures var es := [e] + effects;
      (forall i :: 0 <= i < |es| - 1 ==> !Final(es[i]))
      && (|es| > 0 && Final(Last(es)) <==> |effects| > 0 && Final(Last(effects)))
      && (|effects| > 0 ==> Last(es) == Last(effects))
  {
    var es := [e] + effects;
    assert forall i :: 0 < i < |es| ==> es[i] == effects[i - 1];
  }

  /** The loop ends in one of two ways. On a final effect: it is the last effect and
      the only final one, it decides the ending, and the loop body produced it, on some
      session `last`, as the step into the final session. Or when the utterances run
      out, without a final effect. */
  lemma {:induction false} DriveEnds(step: Session -> Outcome, end: nat, s: Session) returns (last: Session)
    requires Advances(step) && FinalListensOnce(step)
    ensures var t := Drive(step, end, s);
      (forall i :: 0 <= i < |t.effects| - 1 ==> !Final(t.effects[i]))
      && (t.ending != RanOut <==> |t.effects| > 0 && Final(Last(t.effects)))
      && (t.ending != RanOut ==>
            t.ending == EndingOf(Last(t.effects)) && s.pos < t.final.pos <= end
            && step(last) == Outcome(Last(t.effects), t.final))
      && (t.ending == RanOut ==> t.final.pos >= end && t.final.pos >= s.pos)
    decreases end - s.pos
  {
    last := s;
    if s.pos < end {
      var o := step(s);
      if !Final(o.effect) {
        last := DriveEnds(step, end, o.after);
        var t := Drive(step, end, o.after);
        assert Drive(step, end, s) == Trace([o.effect] + t.effects, t.final, t.ending);
        ConsNotFinal(o.effect, t.effects);
      }
    }
  }

  /** A loop that ended on a final effect never ran its body on a session that could
      hear past `end`; so another body that agrees with it there, over more utterances,
      does exactly the same. */
  lemma {:induction false} DriveAgrees(step: Session -> Outcome, step': Session -> Outcome, end: nat, end': nat, s: Session)
    requires Advances(step) && Advances(step') && FinalListensOnce(step) && end <= end'
    requires forall x: Session :: x.pos < end && step(x).after.pos <= end ==> step'(x) == step(x)
    requires Drive(step, end, s).ending != RanOut
    ensures Drive(step', end', s) == Drive(step, end, s)
    decreases end - s.pos
  {
    var o := step(s);
    assert o.after.pos <= end;
    if !Final(o.effect) {
      DriveAgrees(step, step', end, end', o.after);
    }
  }

  /** Over a whole loop the history only grows at its end, by one or two records per AI
      exchange, and the endpoint is called once per exchange. */
  lemma {:induction false} DriveHistory(step: Session -> Outcome, end: nat, s: Session)
    requires Advances(step) && OnlyAppends(step)
    ensures var t := Drive(step, end, s); var n := AiCalls(t.effects);
      |s.history| + n <= |t.final.history| <= |s.history| + 2 * n
      && t.final.history[..|s.history|] == s.history
      && t.final.calls == s.calls + n
    decreases end - s.pos
  {
    if s.pos < end {
      var o := step(s);
      assert AppendsToHistory(s, o);
      if Final(o.effect) {
        AiCallsCons(o.effect, []);
        assert [o.effect] + [] == [o.effect];
      } else {
        var t := Drive(step, end, o.after);
        DriveHistory(step, end, o.after);
        assert Drive(step, end, s) == Trace([o.effect] + t.effects, t.final, t.ending);
        AiCallsCons(o.effect, t.effects);
        var h0, h1, h2 := s.history, o.after.history, t.final.history;
        assert h2[..|h1|] == h1 && h1[..|h0|] == h0;
        assert h2[..|h0|] == h1[..|h0|];
      }
    }
  }

  // ---------------------------------------------------------------------------
  // Properties of the loop of `run_jaadu`

  /** The loop ends in one of three ways. Through the exit command, or through an
      encyclopedia call that raises: either effect is the last one and the only final
      one, and the loop body run on `last` gives it and the final session, so the last
      utterance heard, at `last.pos`, is its command and, on a crash, the run's last
      encyclopedia call, number `last.summaries`, is the one that raised. Or when the
      utterances run out, with no final effect. */
  lemma TranscriptEnds(inputs: seq<string>, replies: seq<Reply>, lookups: seq<Lookup>, s: Session) returns (last: Session)
    ensures var t := Transcript(inputs, replies, lookups, s);
      (forall i :: 0 <= i < |t.effects| - 1 ==> !Final(t.effects[i]))
      && (t.ending == Exited <==> |t.effects| > 0 && Last(t.effects) == Farewell)
      && (t.ending == Crashed <==> |t.effects| > 0 && Last(t.effects).LookupError?)
      && (t.ending != RanOut ==> s.pos <= last.pos && last.pos + 1 == t.final.pos <= |inputs|)
      && (t.ending != RanOut ==> Step(inputs, replies, lookups, last) == Outcome(Last(t.effects), t.final))
      && (t.ending == Exited ==> Classify(Listen(inputs, last.pos)) == Exit)
      && (t.ending == Crashed ==>
            Classify(Listen(inputs, last.pos)) == Wikipedia && LookupAt(lookups, last.summaries) == Raises
            && last.summaries + 1 == t.final.summaries)
      && (t.ending == RanOut ==> t.final.pos >= |inputs| && t.final.pos >= s.pos)
  {
    StepOfFinal(inputs, replies, lookups);
    last := DriveEnds(StepOf(inputs, replies, lookups), |inputs|, s);
    assert StepOf(inputs, replies, lookups)(last) == Step(inputs, replies, lookups, last);
    StepEnds(inputs, replies, lookups, last);
  }

  lemma StepOfFinal(inputs: seq<string>, replies: seq<Reply>, lookups: seq<Lookup>)
    ensures FinalListensOnce(StepOf(inputs, replies, lookups))
  {
    var step := StepOf(inputs, replies, lookups);
    forall x ensures Final(step(x).effect) ==> step(x).after.pos == x.pos + 1 {
      StepEnds(inputs, replies, lookups, x);
    }
  }

  /** Nothing after the command that ends the loop is ever heard: appending utterances
      after a run that exited or crashed does not change what it did. */
  lemma EndStopsListening(inputs: seq<string>, more: seq<string>, replies: seq<Reply>, lookups: seq<Lookup>, s: Session)
    requires Transcript(inputs, replies, lookups, s).ending != RanOut
    ensures Transcript(inputs + more, replies, lookups, s) == Transcript(inputs, replies, lookups, s)
  {
    var step, step' := StepOf(inputs, replies, lookups), StepOf(inputs + more, replies, lookups);
    StepOfFinal(inputs, replies, lookups);
    forall x: Session | x.pos < |inputs| && step(x).after.pos <= |inputs| ensures step'(x) == step(x) {
      StepReadsBefore(inputs, more, replies, lookups, x);
    }
    DriveAgrees(step, step', |inputs|, |inputs + more|, s);
  }

  /** Over a whole run the history only grows at its end, by one or two records per AI
      exchange, and the endpoint is called once per exchange. */
  lemma TranscriptHistory(inputs: seq<string>, replies: seq<Reply>, lookups: seq<Lookup>, s: Session)
    ensures var t := Transcript(inputs, replies, lookups, s); var n := AiCalls(t.effects);
      |s.history| + n <= |t.final.history| <= |s.history| + 2 * n
      && t.final.history[..|s.history|] == s.history
      && t.final.calls == s.calls + n
  {
    var step := StepOf(inputs, replies, lookups);
    forall x ensures AppendsToHistory(x, step(x)) {
      StepHistory(inputs, replies, lookups, x);
    }
    DriveHistory(step, |inputs|, s);
  }

  // ---------------------------------------------------------------------------
  // The assistant object

  function Prepend(effects: seq<Effect>, t: Trace): Trace {
    Trace(effects + t.effects, t.final, t.ending)
  }

  lemma PrependTwice(a: seq<Effect>, b: seq<Effect>, t: Trace)
    ensures Prepend(a, Prepend(b, t)) == Prepend(a + b, t)
  {
    assert a + (b + t.effects) == (a + b) + t.effects;
  }

  class Assistant {
    /** `conversation_history`: every turn so far, oldest first. */
    var history: seq<Record>

    constructor ()
      ensures history == []
    {
      history := [];
    }

    /** `get_ai_response`: the user turn is appended first; the prompt is made of the
        most recent records including it; the answer is appended only when the model
        returned non-empty text. */
    method GetAiResponse(query: string, reply: Reply) returns (prompt: string, answer: string)
      modifies this
      ensures prompt == Prompt(old(history) + [Record(User, query)])
      ensures history == Exchanged(old(history), query, reply)
      ensures answer == Answer(reply)
    {
      history := history + [Record(User, query)];
      prompt := Prompt(history);
      match reply
      case Failure =>
        answer := "Error processing your request";
      case Response(text) =>
        if text != "" {
          history := history + [Record(Assistant, text)];
          answer := text;
        } else {
          answer := "I didn't get that, please try again";
        }
    }

    /** One pass of the body of `run_jaadu`'s loop: hear a command at `pos` and run the
        handler the `if`/`elif` chain selects. */
    method HandleCommand(inputs: seq<string>, replies: seq<Reply>, lookups: seq<Lookup>,
                         pos: nat, calls: nat, summaries: nat)
      returns (effect: Effect, pos': nat, calls': nat, summaries': nat)
      modifies this
      ensures Outcome(effect, Session(pos', history, calls', summaries'))
        == Step(inputs, replies, lookups, Session(pos, old(history), calls, summaries))
    {
      var command := Listen(inputs, pos);
      effect, pos', calls', summaries' :=
        RunHandler(inputs, replies, lookups, pos, calls, summaries, command, Classify(command));
    }

    /** The branch of the chain for `action`: only the joke and chat handlers call the
        AI endpoint, the e-mail handler hears subject and body after the receiver, and
        the encyclopedia handler may raise. */
    method RunHandler(inputs: seq<string>, replies: seq<Reply>, lookups: seq<Lookup>,
                      pos: nat, calls: nat, summaries: nat, command: string, action: Action)
      returns (effect: Effect, pos': nat, calls': nat, summaries': nat)
      modifies this
      ensures Outcome(effect, Session(pos', history, calls', summaries'))
        == Handle(inputs, replies, lookups, Session(pos, old(history), calls, summaries), command, action)
    {
      if action == Email {
        effect, pos' := ComposeEmail(inputs, replies, lookups, pos, calls, summaries, command);
        calls', summaries' := calls, summaries;
      } else if action == Joke {
        effect, calls' := AskModel(replies, calls, JokePrompt);
        pos', summaries' := pos + 1, summaries;
      } else if action == Chat {
        effect, calls' := AskModel(replies, calls, command);
        pos', summaries' := pos + 1, summaries;
      } else if action == Wikipedia {
        effect, summaries' := LookUp(inputs, replies, lookups, pos, calls, summaries, command);
        pos', calls' := pos + 1, calls;
      } else {
        effect := Respond(inputs, replies, lookups, pos, calls, summaries, command, action);
        pos', calls', summaries' := pos + 1, calls, summaries;
      }
    }

    /** The branches that hear nothing after the command, make no AI or encyclopedia
        call and leave the history alone: music, playback control, weather, time and
        exit. */
    method Respond(inputs: seq<string>, replies: seq<Reply>, lookups: seq<Lookup>,
                   pos: nat, calls: nat, summaries: nat, command: string, action: Action)
      returns (effect: Effect)
      requires action != Email && action != Joke && action != Chat && action != Wikipedia
      ensures Outcome(effect, Session(pos + 1, history, calls, summaries))
        == Handle(inputs, replies, lookups, Session(pos, history, calls, summaries), command, action)
    {
      if action == Play {
        effect := PlaySong(SongName(command));
      } else if action == Next {
        effect := Control(ControlAction(Next));
      } else if action == Previous {
        effect := Control(ControlAction(Previous));
      } else if action == Stop {
        effect := Control(ControlAction(Stop));
      } else if action == Weather {
        effect := WeatherReport(City(command));
      } else if action == Time {
        effect := TellTime;
      } else {
        effect := Farewell;
      }
    }

    /** The e-mail branch: after the command, hear the receiver's name, the subject and
        the body, in that order. */
    method ComposeEmail(inputs: seq<string>, replies: seq<Reply>, lookups: seq<Lookup>,
                        pos: nat, calls: nat, summaries: nat, command: string)
      returns (effect: Effect, pos': nat)
      ensures Outcome(effect, Session(pos', history, calls, summaries))
        == Handle(inputs, replies, lookups, Session(pos, history, calls, summaries), command, Email)
    {
      var receiver := Receiver(Listen(inputs, pos + 1));
      var subject := Listen(inputs, pos + 2);
      var body := Listen(inputs, pos + 3);
      pos' := pos + 4;
      effect := SendEmail(receiver, subject, body);
    }

    /** The encyclopedia branch: one `wikipedia.summary` call on the query, which either
        gives the summary or raises. */
    method LookUp(inputs: seq<string>, replies: seq<Reply>, lookups: seq<Lookup>,
                  pos: nat, calls: nat, summaries: nat, command: string)
      returns (effect: Effect, summaries': nat)
      ensures Outcome(effect, Session(pos + 1, history, calls, summaries'))
        == Handle(inputs, replies, lookups, Session(pos, history, calls, summaries), command, Wikipedia)
    {
      var query := WikipediaQuery(command);
      if LookupAt(lookups, summaries) == Raises {
        effect := LookupError(query);
      } else {
        effect := Summary(query);
      }
      summaries' := summaries + 1;
    }

    /** A call of `get_ai_response` on `query`, answered by the next reply. */
    method AskModel(replies: seq<Reply>, calls: nat, query: string) returns (effect: Effect, calls': nat)
      modifies this
      ensures var reply := ReplyAt(replies, calls);
        effect == AskAi(query, Prompt(old(history) + [Record(User, query)]), Answer(reply))
        && history == Exchanged(old(history), query, reply) && calls' == calls + 1
    {
      var prompt, answer := GetAiResponse(query, ReplyAt(replies, calls));
      calls' := calls + 1;
      effect := AskAi(query, prompt, answer);
    }

    /** `run_jaadu`: hear a command, dispatch it, and go round again until the exit
        command breaks out of the loop or an exception escapes it (or until the
        utterances run out). Returns the effects, how the loop ended, and how many
        utterances were heard. */
    method Run(inputs: seq<string>, replies: seq<Reply>, lookups: seq<Lookup>)
      returns (effects: seq<Effect>, ending: Ending, heard: nat)
      modifies this
      ensures var t := Transcript(inputs, replies, lookups, Session(0, old(history), 0, 0));
        effects == t.effects && ending == t.ending && heard == t.final.pos && history == t.final.history
    {
      var pos, calls, summaries := 0, 0, 0;
      effects, ending := [], RanOut;
      while pos < |inputs|
        invariant Transcript(inputs, replies, lookups, Session(0, old(history), 0, 0))
          == Prepend(effects, Transcript(inputs, replies, lookups, Session(pos, history, calls, summaries)))
        decreases |inputs| - pos
      {
        var effect;
        effect, pos, calls, summaries := HandleCommand(inputs, replies, lookups, pos, calls, summaries);
        if Final(effect) {
          effects, ending := effects + [effect], EndingOf(effect);
          break;
        }
        PrependTwice(effects, [effect], Transcript(inputs, replies, lookups, Session(pos, history, calls, summaries)));
        effects := effects + [effect];
      }
      heard := pos;
    }
  }
}
