/** The conversation buffer of `get_ai_response`: chronological (role, content)
    records, the window of the most recent records that forms the prompt, and what
    the AI endpoint's answer does to the buffer and to the reply. */
module Conversation {
  import opened TextOps

  datatype Role = User | Assistant

  /** One entry of the history, `{"role": ..., "content": ...}`. */
  datatype Record = Record(role: Role, content: string)

  /** What the generative model's endpoint gives back for one prompt: a response whose
      text may be empty, or an exception. */
  datatype Reply = Response(text: string) | Failure

  /** The number of most recent records that form the prompt. */
  const WindowSize: nat := 6

  function RoleName(r: Role): string {
    match r
    case User => "user"
    case Assistant => "assistant"
  }

  /** The prompt line of one record, `f"{role}: {content}"`. */
  function Line(r: Record): string {
    RoleName(r.role) + ": " + r.content
  }

  function Lines(h: seq<Record>): (ls: seq<string>)
    ensures |ls| == |h|
    ensures forall k :: 0 <= k < |h| ==> ls[k] == Line(h[k])
  {
    seq(|h|, k requires 0 <= k < |h| => Line(h[k]))
  }

  /** `history[-6:]`: the last `min(6, |h|)` records, oldest first. */
  function Window(h: seq<Record>): (w: seq<Record>)
    ensures |w| == if |h| < WindowSize then |h| else WindowSize
    ensures w == h[|h| - |w|..]
  {
    if |h| <= WindowSize then h else h[|h| - WindowSize..]
  }

  /** The text sent to the model: the window's lines joined by newlines. */
  function Prompt(h: seq<Record>): string {
    Join(Lines(Window(h)), "\n")
  }

  /** Records older than the window have no influence on the prompt: with six or more
      records after them, anything before can be replaced. */
  lemma PromptIgnoresOlder(older: seq<Record>, recent: seq<Record>)
    requires |recent| >= WindowSize
    ensures Prompt(older + recent) == Prompt(recent)
  {
    var h := older + recent;
    assert h[|h| - WindowSize..] == recent[|recent| - WindowSize..];
  }

  /** With eight records the prompt is made of records 2 to 7, in their order. */
  lemma PromptOfEight(h: seq<Record>)
    requires |h| == 8
    ensures Prompt(h) == Join([Line(h[2]), Line(h[3]), Line(h[4]), Line(h[5]), Line(h[6]), Line(h[7])], "\n")
  {
    assert Window(h) == [h[2], h[3], h[4], h[5], h[6], h[7]];
    assert Lines(Window(h)) == [Line(h[2]), Line(h[3]), Line(h[4]), Line(h[5]), Line(h[6]), Line(h[7])];
  }

  /** The newest record gives the last line of the prompt. */
  lemma PromptEndsWithNewest(h: seq<Record>, r: Record)
    ensures var p := Prompt(h + [r]); |Line(r)| <= |p| && p[|p| - |Line(r)|..] == Line(r)
  {
    var ls := Lines(Window(h + [r]));
    assert ls[|ls| - 1] == Line(r);
    if |ls| >= 2 {
      JoinLast(ls, "\n");
    }
  }

  /** The prompt can be read back line by line: when no content holds a newline,
      splitting the prompt on newlines gives the lines of the window. */
  lemma PromptLines(h: seq<Record>)
    requires |h| > 0
    requires forall k :: 0 <= k < |h| ==> '\n' !in h[k].content
    ensures Split(Prompt(h), "\n") == Lines(Window(h))
    ensures |Split(Prompt(h), "\n")| == if |h| < WindowSize then |h| else WindowSize
  {
    var w := Window(h);
    var ls := Lines(w);
    forall k | 0 <= k < |ls| ensures !Contains(ls[k], "\n") {
      var r := w[k];
      assert r == h[|h| - |w| + k];
      assert '\n' !in RoleName(r.role) + ": ";
      assert forall c :: c in Line(r) ==> c in RoleName(r.role) + ": " || c in r.content;
      HeadAbsent(ls[k], "\n");
    }
    SplitJoin(ls, "\n");
  }

  // ---------------------------------------------------------------------------
  // Handling of one reply

  /** The assistant record kept for a reply: only a non-empty response text. */
  function Kept(reply: Reply): (kept: seq<Record>)
    ensures |kept| <= 1
    ensures kept != [] <==> reply.Response? && reply.text != ""
    ensures kept != [] ==> kept[0] == Record(Assistant, reply.text)
  {
    if reply.Response? && reply.text != "" then [Record(Assistant, reply.text)] else []
  }

  /** The text `get_ai_response` returns for a reply. */
  function Answer(reply: Reply): (answer: string)
    ensures reply.Response? && reply.text != "" ==> answer == reply.text
    ensures reply == Response("") ==> answer == "I didn't get that, please try again"
    ensures reply.Failure? ==> answer == "Error processing your request"
  {
    match reply
    case Response(t) => if t != "" then t else "I didn't get that, please try again"
    case Failure => "Error processing your request"
  }

  /** The history after one exchange: the user turn always, then the assistant turn
      when there is one. */
  function Exchanged(h: seq<Record>, query: string, reply: Reply): seq<Record> {
    h + [Record(User, query)] + Kept(reply)
  }

  /** The history is append-only and grows by two records exactly when the model
      answered with non-empty text, otherwise by one: the user turn is kept whether
      the answer is empty, an exception, or genuine. */
  lemma ExchangeGrowth(h: seq<Record>, query: string, reply: Reply)
    ensures var h' := Exchanged(h, query, reply);
      h'[..|h|] == h && h'[|h|] == Record(User, query)
      && |h'| == |h| + (if reply.Response? && reply.text != "" then 2 else 1)
      && (reply.Response? && reply.text != "" ==> h'[|h| + 1] == Record(Assistant, Answer(reply)))
  {
  }
}
