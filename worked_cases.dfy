/** Concrete commands run through the dispatcher and the extractors, showing the
    behaviour of Python's `replace` and `split` that the handlers inherit. */
module WorkedCases {
  import opened TextOps
  import opened Dispatch

  /** Deleting a pattern that the text starts with drops those characters first. */
  lemma RemoveLeading(s: string, p: string)
    requires |p| > 0 && StartsWith(s, p)
    ensures Remove(s, p) == Remove(s[|p|..], p)
  {
  }

  // ---------------------------------------------------------------------------
  // "play imagine dragons believer"

  lemma SongCommandStarts()
    ensures StartsWith("play imagine dragons believer", "play")
    ensures "play imagine dragons believer"[4..] == " imagine dragons believer"
  {
  }

  lemma SongTitleHasNoPlay()
    ensures Remove(" imagine dragons believer", "play") == " imagine dragons believer"
  {
    HeadAbsent(" imagine dragons believer", "play");
    RemoveAbsent(" imagine dragons believer", "play");
  }

  lemma SongTitleStripped()
    ensures Strip(" imagine dragons believer") == "imagine dragons believer"
  {
    TrimLeftPadded(" ", "imagine dragons believer");
  }

  /** The music handler is asked for the words after "play". */
  lemma SongExample()
    ensures SongName("play imagine dragons believer") == "imagine dragons believer"
  {
    SongCommandStarts();
    RemoveLeading("play imagine dragons believer", "play");
    SongTitleHasNoPlay();
    SongTitleStripped();
  }

  // ---------------------------------------------------------------------------
  // "plplayay": `replace` does not look again at what a deletion joins up

  lemma RescanPieces()
    ensures "pl" + "play" + "ay" == "plplayay"
    ensures Remove("ay", "play") == "ay"
  {
    HeadAbsent("ay", "play");
    RemoveAbsent("ay", "play");
  }

  lemma RescanRemoved()
    ensures Remove("plplayay", "play") == "play"
  {
    RescanPieces();
    PatternsHeadUnique();
    NoShortContains("pl", "play");
    RemoveAfterPiece("pl", "play", "ay");
    assert "pl" + "ay" == "play";
  }

  lemma RescanSong()
    ensures SongName("plplayay") == "play"
  {
    RescanRemoved();
    StripNoop("play");
  }

  lemma PlayHasPlay()
    ensures Contains("play", "play")
  {
    assert StartsWith("play", "play");
  }

  /** Deleting the one "play" of "plplayay" forms a new "play", which stays. */
  lemma ReplaceDoesNotRescan()
    ensures SongName("plplayay") == "play"
    ensures Contains(SongName("plplayay"), "play")
  {
    RescanSong();
    PlayHasPlay();
  }

  // ---------------------------------------------------------------------------
  // "weather in tokyo" and "weather in berlin"

  lemma TokyoPieces()
    ensures "weather " + "in" + " tokyo" == "weather in tokyo"
    ensures Split(" tokyo", "in") == [" tokyo"]
  {
    HeadAbsent(" tokyo", "in");
    RemoveAbsentSplit(" tokyo", "in");
  }

  lemma TokyoSplit()
    ensures Split("weather in tokyo", "in") == ["weather ", " tokyo"]
  {
    TokyoPieces();
    HeadAbsent("weather ", "in");
    SplitAfterPiece("weather ", "in", " tokyo");
  }

  lemma TokyoStripped()
    ensures Strip(" tokyo") == "tokyo"
  {
    TrimLeftPadded(" ", "tokyo");
    StripNoop("tokyo");
  }

  /** The city is the text after "in". */
  lemma TokyoExample()
    ensures City("weather in tokyo") == "tokyo"
  {
    TokyoSplit();
    assert Last(["weather ", " tokyo"]) == " tokyo";
    TokyoStripped();
  }

  lemma BerlinPieces()
    ensures "weather " + "in" + " berlin" == "weather in berlin"
    ensures " berl" + "in" + "" == " berlin"
  {
  }

  lemma BerlinTail()
    ensures Split(" berlin", "in") == [" berl", ""]
  {
    BerlinPieces();
    HeadAbsent(" berl", "in");
    SplitAfterPiece(" berl", "in", "");
  }

  lemma BerlinHead()
    ensures Split("weather in berlin", "in") == ["weather "] + Split(" berlin", "in")
  {
    BerlinPieces();
    HeadAbsent("weather ", "in");
    SplitAfterPiece("weather ", "in", " berlin");
  }

  lemma ConsPair<T>(a: T, b: T, c: T)
    ensures [a] + [b, c] == [a, b, c]
  {
  }

  lemma BerlinSplit()
    ensures Split("weather in berlin", "in") == ["weather ", " berl", ""]
  {
    BerlinHead();
    BerlinTail();
    ConsPair("weather ", " berl", "");
  }

  /** `split('in')` also splits inside a word: a city whose name ends in "in" comes
      out empty, and the weather handler is asked about "". */
  lemma BerlinExample()
    ensures City("weather in berlin") == ""
  {
    BerlinSplit();
  }

  // ---------------------------------------------------------------------------
  // "john doe"

  lemma NameUnspaced()
    ensures Remove("john doe", " ") == "johndoe"
  {
    RemoveChar("john doe", ' ');
    assert Without("john doe", ' ') == "johndoe";
  }

  /** The spoken receiver loses its spaces and gains the mail domain. */
  lemma ReceiverExample()
    ensures Receiver("john doe") == "johndoe" + "@gmail.com"
  {
    NameUnspaced();
  }

  // ---------------------------------------------------------------------------
  // The order of the chain

  lemma StopSongHasNoPlay()
    ensures !Contains("stop song", "play")
  {
    ContainsFromIff("stop song", "play", 0);
  }

  lemma StopSongHasNoNext()
    ensures !Contains("stop song", "next")
  {
    ContainsFromIff("stop song", "next", 0);
  }

  lemma StopSongHasNoPrevious()
    ensures !Contains("stop song", "previous")
  {
    ContainsFromIff("stop song", "previous", 0);
  }

  /** "stop song" reaches the stop control. */
  lemma StopSongExample()
    ensures Classify("stop song") == Stop
  {
    StopSongHasNoPlay();
    StopSongHasNoNext();
    StopSongHasNoPrevious();
    KeywordPrefixes("stop song");
    assert StartsWith("stop song", "stop");
  }

  /** "play next song" never reaches the skip control: the music handler takes it. */
  lemma PlayNextSongExample()
    ensures Classify("play next song") == Play
  {
  }
}
