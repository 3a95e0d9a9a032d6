/** The command dispatcher of `run_jaadu`: which handler a (lower-case) command goes
    to, and the arguments extracted from it for the music, weather, e-mail and
    encyclopedia handlers. */
module Dispatch {
  import opened TextOps

  /** The handler a command is sent to. `Chat` is the default: the AI model. */
  datatype Action = Play | Next | Previous | Stop | Weather | Email | Joke | Wikipedia | Time | Exit | Chat

  /** The `if`/`elif` chain of `run_jaadu`, tested top to bottom. */
  function Classify(command: string): Action {
    if Contains(command, "play") then Play
    else if Contains(command, "play next song") || Contains(command, "next") then Next
    else if Contains(command, "play previous song") || Contains(command, "previous") then Previous
    else if Contains(command, "stop song") || Contains(command, "stop") then Stop
    else if Contains(command, "weather") then Weather
    else if Contains(command, "email") then Email
    else if Contains(command, "joke") then Joke
    else if Contains(command, "wikipedia") then Wikipedia
    else if Contains(command, "time") then Time
    else if Contains(command, "exit") then Exit
    else Chat
  }

  /** A command goes to the AI model exactly when it holds none of the ten keywords. */
  lemma ClassifyChat(command: string)
    ensures Classify(command) == Chat <==>
              (!Contains(command, "play") && !Contains(command, "next")
               && !Contains(command, "previous") && !Contains(command, "stop")
               && !Contains(command, "weather") && !Contains(command, "email")
               && !Contains(command, "joke") && !Contains(command, "wikipedia")
               && !Contains(command, "time") && !Contains(command, "exit"))
  {
    KeywordPrefixes(command);
  }

  // ---------------------------------------------------------------------------
  // The dispatch order as data, and first-match selection over it

  /** One test of the chain: the keywords any of which selects `action`. */
  datatype Rule = Rule(keywords: seq<string>, action: Action)

  /** The tests of `run_jaadu` in the order they are tried. */
  const Rules: seq<Rule> := [
    Rule(["play"], Play),
    Rule(["play next song", "next"], Next),
    Rule(["play previous song", "previous"], Previous),
    Rule(["stop song", "stop"], Stop),
    Rule(["weather"], Weather),
    Rule(["email"], Email),
    Rule(["joke"], Joke),
    Rule(["wikipedia"], Wikipedia),
    Rule(["time"], Time),
    Rule(["exit"], Exit)
  ]

  predicate Matches(command: string, rule: Rule) {
    exists k :: 0 <= k < |rule.keywords| && Contains(command, rule.keywords[k])
  }

  /** The action of the first rule from position `from` on that matches, or `Chat`
      when none does. */
  function FirstMatch(command: string, rules: seq<Rule>, from: nat): Action
    decreases |rules| - from
  {
    if from >= |rules| then Chat
    else if Matches(command, rules[from]) then rules[from].action
    else FirstMatch(command, rules, from + 1)
  }

  /** Rules whose actions are all different and none of which is the default. */
  predicate DistinctActions(rules: seq<Rule>) {
    (forall i :: 0 <= i < |rules| ==> rules[i].action != Chat)
    && (forall i, j :: 0 <= i < j < |rules| ==> rules[i].action != rules[j].action)
  }

  /** First-match selection: a rule's action is chosen exactly when that rule matches
      and no earlier rule does; the default exactly when no rule matches. */
  lemma {:induction false} FirstMatchChooses(command: string, rules: seq<Rule>, from: nat, k: nat)
    requires DistinctActions(rules) && from <= k < |rules|
    ensures FirstMatch(command, rules, from) == rules[k].action
      <==> Matches(command, rules[k]) && forall j :: from <= j < k ==> !Matches(command, rules[j])
    decreases k - from
  {
    if !Matches(command, rules[from]) {
      if k > from {
        FirstMatchChooses(command, rules, from + 1, k);
      } else {
        FirstMatchRange(command, rules, from + 1);
      }
    }
  }

  /** The selected action is the default or the action of one of the rules tried. */
  lemma {:induction false} FirstMatchRange(command: string, rules: seq<Rule>, from: nat)
    ensures FirstMatch(command, rules, from) != Chat ==>
      exists j :: from <= j < |rules| && FirstMatch(command, rules, from) == rules[j].action
    decreases |rules| - from
  {
    if from < |rules| {
      if !Matches(command, rules[from]) {
        FirstMatchRange(command, rules, from + 1);
      } else {
        assert FirstMatch(command, rules, from) == rules[from].action;
      }
    }
  }

  lemma {:induction false} FirstMatchDefault(command: string, rules: seq<Rule>, from: nat)
    requires DistinctActions(rules)
    ensures FirstMatch(command, rules, from) == Chat
      <==> forall j :: from <= j < |rules| ==> !Matches(command, rules[j])
    decreases |rules| - from
  {
    if from < |rules| && !Matches(command, rules[from]) {
      FirstMatchDefault(command, rules, from + 1);
    }
  }

  /** The position of an action's test in the chain; the default comes last. */
  function Rank(a: Action): nat {
    match a
    case Play => 0
    case Next => 1
    case Previous => 2
    case Stop => 3
    case Weather => 4
    case Email => 5
    case Joke => 6
    case Wikipedia => 7
    case Time => 8
    case Exit => 9
    case Chat => 10
  }

  lemma RulesDistinct()
    ensures DistinctActions(Rules)
  {
    assert forall i :: 0 <= i < |Rules| ==> Rank(Rules[i].action) == i;
  }

  /** The `if`/`elif` chain is first-match selection over `Rules`. */
  lemma ClassifyIsFirstMatch(command: string)
    ensures Classify(command) == FirstMatch(command, Rules, 0)
  {
    var c := command;
    assert Matches(c, Rules[0]) <==> Contains(c, "play") by {
      assert Rules[0].keywords[0] == "play";
    }
    assert Matches(c, Rules[1]) <==> Contains(c, "play next song") || Contains(c, "next") by {
      assert Rules[1].keywords[0] == "play next song" && Rules[1].keywords[1] == "next";
    }
    assert Matches(c, Rules[2]) <==> Contains(c, "play previous song") || Contains(c, "previous") by {
      assert Rules[2].keywords[0] == "play previous song" && Rules[2].keywords[1] == "previous";
    }
    assert Matches(c, Rules[3]) <==> Contains(c, "stop song") || Contains(c, "stop") by {
      assert Rules[3].keywords[0] == "stop song" && Rules[3].keywords[1] == "stop";
    }
    assert Matches(c, Rules[4]) <==> Contains(c, "weather") by { assert Rules[4].keywords[0] == "weather"; }
    assert Matches(c, Rules[5]) <==> Contains(c, "email") by { assert Rules[5].keywords[0] == "email"; }
    assert Matches(c, Rules[6]) <==> Contains(c, "joke") by { assert Rules[6].keywords[0] == "joke"; }
    assert Matches(c, Rules[7]) <==> Contains(c, "wikipedia") by { assert Rules[7].keywords[0] == "wikipedia"; }
    assert Matches(c, Rules[8]) <==> Contains(c, "time") by { assert Rules[8].keywords[0] == "time"; }
    assert Matches(c, Rules[9]) <==> Contains(c, "exit") by { assert Rules[9].keywords[0] == "exit"; }
  }

  /** Priority: the command goes to the `k`-th handler exactly when it matches the
      `k`-th test and none of the earlier ones, and to the AI model exactly when it
      matches none. So exactly one handler runs per command. */
  lemma ClassifyPriority(command: string, k: nat)
    requires k < |Rules|
    ensures Classify(command) == Rules[k].action
      <==> Matches(command, Rules[k]) && forall j :: 0 <= j < k ==> !Matches(command, Rules[j])
    ensures Classify(command) == Chat <==> forall j :: 0 <= j < |Rules| ==> !Matches(command, Rules[j])
  {
    RulesDistinct();
    ClassifyIsFirstMatch(command);
    FirstMatchChooses(command, Rules, 0, k);
    FirstMatchDefault(command, Rules, 0);
  }

  /** Any command containing "play" goes to the music player, so the alternatives
      "play next song" and "play previous song" can never fire, and the skip and
      back controls only fire for commands without "play". */
  lemma PlayShadowsControls(command: string)
    ensures Contains(command, "play") ==> Classify(command) == Play
    ensures Contains(command, "play next song") ==> Classify(command) == Play
    ensures Contains(command, "play previous song") ==> Classify(command) == Play
    ensures Classify(command) == Next <==> !Contains(command, "play") && Contains(command, "next")
    ensures Classify(command) == Previous
      <==> !Contains(command, "play") && !Contains(command, "next") && Contains(command, "previous")
  {
    KeywordPrefixes(command);
  }

  /** The "stop song" alternative adds nothing to the bare "stop" test. */
  lemma StopSongRedundant(command: string)
    ensures Contains(command, "stop song") || Contains(command, "stop") <==> Contains(command, "stop")
  {
    KeywordPrefixes(command);
  }

  /** The two-word alternatives of the chain each contain an earlier or shorter keyword. */
  lemma KeywordPrefixes(command: string)
    ensures Contains(command, "play next song") ==> Contains(command, "play")
    ensures Contains(command, "play previous song") ==> Contains(command, "play")
    ensures Contains(command, "stop song") ==> Contains(command, "stop")
  {
    assert "play" + " next song" == "play next song";
    assert "play" + " previous song" == "play previous song";
    assert "stop" + " song" == "stop song";
    ContainsPrefixOfPattern(command, "play", " next song");
    ContainsPrefixOfPattern(command, "play", " previous song");
    ContainsPrefixOfPattern(command, "stop", " song");
  }

  /** The empty command that a failed `listen` yields matches no keyword and goes to
      the AI model unchanged. */
  lemma EmptyCommandIsChat()
    ensures Classify("") == Chat
  {
    NotInEmpty("play");
  }

  // ---------------------------------------------------------------------------
  // Argument extraction

  /** The song asked for: every "play" deleted, then stripped. */
  function SongName(command: string): string {
    Strip(Remove(command, "play"))
  }

  /** The city asked about: the last piece of the command split on "in", stripped. */
  function City(command: string): string {
    Strip(Last(Split(command, "in")))
  }

  /** The receiver address built from the spoken name: every space deleted, and the
      mail domain appended. */
  function Receiver(spoken: string): string {
    Remove(spoken, " ") + "@gmail.com"
  }

  /** The encyclopedia query: every "wikipedia" deleted, then stripped. */
  function WikipediaQuery(command: string): string {
    Strip(Remove(command, "wikipedia"))
  }

  /** "play", "in", "wikipedia": each starts with a letter it does not repeat. */
  lemma PatternsHeadUnique()
    ensures HeadUnique("play") && HeadUnique("in") && HeadUnique("wikipedia") && HeadUnique(" ")
  {
  }

  /** The song name is the command with every occurrence of "play" deleted, and
      nothing but whitespace stripped around it: the deleted text is four characters
      per occurrence, and the rest is the concatenation of the text between
      occurrences. */
  lemma SongNameSpec(command: string) returns (i: nat)
    ensures var rest := Remove(command, "play");
      |rest| == |command| - 4 * Occurrences(command, "play")
      && rest == Join(Split(command, "play"), "")
      && i + |SongName(command)| <= |rest| && SongName(command) == rest[i..i + |SongName(command)|]
      && (forall k :: 0 <= k < i ==> IsSpace(rest[k]))
      && (forall k :: i + |SongName(command)| <= k < |rest| ==> IsSpace(rest[k]))
  {
    RemoveLength(command, "play");
    RemoveIsJoinedSplit(command, "play");
    i := StripSlice(Remove(command, "play"));
  }

  /** A command without "play" gives back its stripped self. */
  lemma SongNameWithoutPlay(command: string)
    requires !Contains(command, "play")
    ensures SongName(command) == Strip(command)
  {
    RemoveAbsent(command, "play");
  }

  /** The encyclopedia query likewise loses every occurrence of "wikipedia". */
  lemma WikipediaQuerySpec(command: string) returns (i: nat)
    ensures var rest := Remove(command, "wikipedia");
      |rest| == |command| - 9 * Occurrences(command, "wikipedia")
      && rest == Join(Split(command, "wikipedia"), "")
      && i + |WikipediaQuery(command)| <= |rest|
      && WikipediaQuery(command) == rest[i..i + |WikipediaQuery(command)|]
      && (forall k :: 0 <= k < i ==> IsSpace(rest[k]))
      && (forall k :: i + |WikipediaQuery(command)| <= k < |rest| ==> IsSpace(rest[k]))
  {
    RemoveLength(command, "wikipedia");
    RemoveIsJoinedSplit(command, "wikipedia");
    i := StripSlice(Remove(command, "wikipedia"));
  }

  /** The city never contains "in"; without "in" it is the whole command stripped;
      otherwise the command is some text, then "in", then the piece the city is
      stripped from, and that piece holds no "in". */
  lemma CitySpec(command: string) returns (before: string, piece: string)
    ensures !Contains(City(command), "in")
    ensures !Contains(command, "in") ==> City(command) == Strip(command)
    ensures Contains(command, "in") ==>
      command == before + "in" + piece && !Contains(piece, "in") && City(command) == Strip(piece)
  {
    var parts := Split(command, "in");
    piece := Last(parts);
    StripIsFree(piece, "in");
    SplitCount(command, "in");
    OccurrencesPositive(command, "in");
    if Contains(command, "in") {
      JoinSplit(command, "in");
      JoinLast(parts, "in");
      before := Join(parts[..|parts| - 1], "in");
    } else {
      before := "";
      RemoveAbsentSplit(command, "in");
    }
  }

  /** The receiver address always ends with "@gmail.com", and what comes before is the
      spoken text with its spaces deleted and every other character kept in order. */
  lemma ReceiverSpec(spoken: string)
    ensures var r := Receiver(spoken);
      |r| >= 10 && r[|r| - 10..] == "@gmail.com"
      && r[..|r| - 10] == Without(spoken, ' ')
      && forall k :: 0 <= k < |r| - 10 ==> r[k] != ' '
  {
    RemoveChar(spoken, ' ');
    var r := Receiver(spoken);
    assert r[..|r| - 10] == Remove(spoken, " ");
  }

  // ---------------------------------------------------------------------------
  // control_spotify

  /** What `control_spotify` says for an action; `fails` is whether the playback call
      raised. An action other than the three known ones makes no call. */
  function ControlReply(action: string, fails: bool): (msg: string)
    ensures action != "next" && action != "previous" && action != "stop" ==> msg == "Invalid action."
    ensures fails && (action == "next" || action == "previous" || action == "stop")
      ==> msg == ControlError
  {
    if action == "next" then (if fails then ControlError else "Playing the next song.")
    else if action == "previous" then (if fails then ControlError else "Playing the previous song.")
    else if action == "stop" then (if fails then ControlError else "Music has been stopped.")
    else "Invalid action."
  }

  const ControlError := "An error occurred while controlling Spotify."

  /** The control action the dispatcher passes for a control branch. */
  function ControlAction(a: Action): (action: string)
    requires a == Next || a == Previous || a == Stop
    ensures action == "next" || action == "previous" || action == "stop"
  {
    match a
    case Next => "next"
    case Previous => "previous"
    case Stop => "stop"
  }

  /** The dispatcher never reaches the "Invalid action." answer, and each control
      branch gets its own message. */
  lemma ControlNeverInvalid(a: Action, fails: bool)
    requires a == Next || a == Previous || a == Stop
    ensures ControlReply(ControlAction(a), fails) != "Invalid action."
    ensures !fails && a == Next ==> ControlReply(ControlAction(a), fails) == "Playing the next song."
    ensures !fails && a == Previous ==> ControlReply(ControlAction(a), fails) == "Playing the previous song."
    ensures !fails && a == Stop ==> ControlReply(ControlAction(a), fails) == "Music has been stopped."
  {
  }
}
