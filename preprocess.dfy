/** The corpus side of the pipeline: the duration filter, the mode dispatch of
    the transposition, the time-series encoder, the single-file corpus, the
    vocabulary, the symbol-to-id conversion and the training windows. */
module Preprocess {
  import opened PyBase
  import opened PyText
  import opened Music

  /** Number of `"/"` delimiters between songs and the training window length. */
  const SEQUENCE_LENGTH: nat := 64

  /** The quarter-note lengths a song may use: sixteenth up to whole note. */
  const ACCEPTABLE_DURATIONS: seq<real> := [0.25, 0.5, 0.75, 1.0, 1.5, 2.0, 3.0, 4.0]

  /** The encoder's default time step: one sixteenth note. */
  const TIME_STEP: real := 0.25

  // ---------------------------------------------------------------- filter

  /** `has_acceptable_durations`: true iff every event has one of the
      accepted lengths, by exact membership. */
  method HasAcceptableDurations(song: seq<Event>, acceptableDurations: seq<real>) returns (ok: bool)
    ensures ok <==> forall i :: 0 <= i < |song| ==> song[i].duration in acceptableDurations
  {
    for i := 0 to |song|
      invariant forall j :: 0 <= j < i ==> song[j].duration in acceptableDurations
    {
      if song[i].duration !in acceptableDurations {
        return false;
      }
    }
    return true;
  }

  // ------------------------------------------------------------- transpose

  /** The pitch name `transpose` moves a song's tonic to: C for a major key,
      A for a minor one. Any other mode leaves `interval` unassigned, so the
      following `song.transpose(interval)` raises. */
  function TranspositionTarget(mode: string): (r: Result<string>)
    ensures mode == "major" ==> r == Ok("C")
    ensures mode == "minor" ==> r == Ok("A")
    ensures r.Ok? <==> mode == "major" || mode == "minor"
    ensures r.Err? ==> r.error == UnboundLocalError("interval")
  {
    if mode == "major" then Ok("C")
    else if mode == "minor" then Ok("A")
    else Err(UnboundLocalError("interval"))
  }

  // ---------------------------------------------------------------- encode

  /** Python's `int(x)` on a float: truncation toward zero. */
  function Trunc(x: real): int {
    if x >= 0.0 then x.Floor else -((-x).Floor)
  }

  /** `int(x)` drops the fractional part, towards zero. */
  lemma TruncTowardsZero(x: real)
    ensures x >= 0.0 ==> Trunc(x) >= 0 && Trunc(x) as real <= x < Trunc(x) as real + 1.0
    ensures x < 0.0 ==> Trunc(x) <= 0 && Trunc(x) as real - 1.0 < x <= Trunc(x) as real
  {
  }

  /** `steps = int(duration / time_step)`. */
  function Steps(e: Event, timeStep: real): int
    requires timeStep != 0.0
  {
    Trunc(e.duration / timeStep)
  }

  /** The tokens of one event: its onset symbol, then `steps - 1` holds;
      nothing at all when `steps <= 0` (`range(steps)` is empty). */
  function EventRun(symbol: string, steps: int): (r: seq<string>)
  {
    seq(if steps < 0 then 0 else steps, j => if j == 0 then symbol else HOLD_SYMBOL)
  }

  /** The token list `encode_song` builds: the runs of the events, in order. */
  function EncodeTokens(song: seq<Event>, timeStep: real): seq<string>
    requires timeStep != 0.0
  {
    if song == [] then []
    else
      var e := song[|song| - 1];
      EncodeTokens(song[..|song| - 1], timeStep) + EventRun(OnsetSymbol(e.kind), Steps(e, timeStep))
  }

  /** Total number of time steps of a song, an event with `steps <= 0`
      counting zero. */
  function TotalSteps(song: seq<Event>, timeStep: real): nat
    requires timeStep != 0.0
  {
    if song == [] then 0
    else
      var k := Steps(song[|song| - 1], timeStep);
      TotalSteps(song[..|song| - 1], timeStep) + (if k < 0 then 0 else k)
  }

  lemma EventRunGrows(symbol: string, step: nat)
    ensures EventRun(symbol, step + 1) == EventRun(symbol, step) + [if step == 0 then symbol else HOLD_SYMBOL]
  {
  }

  lemma EncodeTokensSnoc(song: seq<Event>, i: nat, timeStep: real)
    requires timeStep != 0.0 && i < |song|
    ensures EncodeTokens(song[..i + 1], timeStep)
         == EncodeTokens(song[..i], timeStep) + EventRun(OnsetSymbol(song[i].kind), Steps(song[i], timeStep))
  {
    assert song[..i + 1][..i] == song[..i];
  }

  /** `encode_song`: the time-series text of a song, tokens joined by single
      spaces. */
  method EncodeSong(song: seq<Event>, timeStep: real) returns (encoded: string)
    requires timeStep != 0.0
    ensures encoded == Join(EncodeTokens(song, timeStep))
  {
    var encodedSong: seq<string> := [];
    for i := 0 to |song|
      invariant encodedSong == EncodeTokens(song[..i], timeStep)
    {
      ghost var before := encodedSong;
      var event := song[i];
      var symbol := OnsetSymbol(event.kind);
      var steps := Trunc(event.duration / timeStep);
      var step := 0;
      while step < steps
        invariant 0 <= step <= (if steps < 0 then 0 else steps)
        invariant encodedSong == before + EventRun(symbol, step)
      {
        EventRunGrows(symbol, step);
        if step == 0 {
          encodedSong := encodedSong + [symbol];
        } else {
          encodedSong := encodedSong + [HOLD_SYMBOL];
        }
        step := step + 1;
      }
      if steps < 0 {
        assert EventRun(symbol, steps) == [] == EventRun(symbol, step);
      }
      EncodeTokensSnoc(song, i, timeStep);
    }
    assert song[..|song|] == song;
    encoded := Join(encodedSong);
  }

  /** Token-count law: one token per time step of every event. */
  lemma {:induction false} EncodeLength(song: seq<Event>, timeStep: real)
    requires timeStep != 0.0
    ensures |EncodeTokens(song, timeStep)| == TotalSteps(song, timeStep)
  {
    if song != [] {
      EncodeLength(song[..|song| - 1], timeStep);
    }
  }

  /** Every encoded token is a word: an onset symbol or `"_"`. An event
      whose run is non-empty starts with its onset, never with `"_"`. */
  lemma {:induction false} EncodeTokensAreWords(song: seq<Event>, timeStep: real)
    requires timeStep != 0.0
    ensures forall i :: 0 <= i < |EncodeTokens(song, timeStep)| ==>
      IsWord(EncodeTokens(song, timeStep)[i]) && EncodeTokens(song, timeStep)[i] != DELIMITER_SYMBOL
  {
    if song != [] {
      EncodeTokensAreWords(song[..|song| - 1], timeStep);
    }
  }

  /** Splitting the text `encode_song` writes gives back its token list. */
  lemma EncodedSongSplits(song: seq<Event>, timeStep: real)
    requires timeStep != 0.0
    ensures Split(Join(EncodeTokens(song, timeStep))) == EncodeTokens(song, timeStep)
  {
    EncodeTokensAreWords(song, timeStep);
    SplitJoin(EncodeTokens(song, timeStep));
  }

  /** Every accepted length is a whole, positive number of sixteenths, so
      the encoder quantises accepted songs without loss. */
  lemma AcceptableDurationsAreExact(d: real)
    requires d in ACCEPTABLE_DURATIONS
    ensures Trunc(d / TIME_STEP) >= 1 && Trunc(d / TIME_STEP) as real * TIME_STEP == d
  {
    var q := d / TIME_STEP;
    assert q == d * 4.0;
    assert q == 1.0 || q == 2.0 || q == 3.0 || q == 4.0 || q == 6.0 || q == 8.0 || q == 12.0 || q == 16.0;
  }

  // ---------------------------------------------------------------- corpus

  /** The `songs` string built by the loop of `create_single_file_dataset`
      before its last character is cut: each song, one space, then
      `"/ " * sequence_length`. */
  function Assembled(songs: seq<string>, sequenceLength: nat): string {
    if songs == [] then ""
    else
      Assembled(songs[..|songs| - 1], sequenceLength) + (songs[|songs| - 1] + " " + RepeatStr("/ ", sequenceLength))
  }

  /** The token stream of the corpus: each song's tokens followed by
      `sequence_length` delimiters. */
  function CorpusTokens(songs: seq<string>, sequenceLength: nat): seq<string> {
    if songs == [] then []
    else
      CorpusTokens(songs[..|songs| - 1], sequenceLength) + (Split(songs[|songs| - 1]) + Repeat(DELIMITER_SYMBOL, sequenceLength))
  }

  lemma AssembledEndsWithSpace(songs: seq<string>, sequenceLength: nat)
    requires songs != []
    ensures var a := Assembled(songs, sequenceLength); |a| > 0 && a[|a| - 1] == ' '
  {
    var n := sequenceLength;
    if n > 0 {
      assert RepeatStr("/ ", n) == "/ " + RepeatStr("/ ", n - 1);
      RepeatEndsWithSpace(n);
    }
  }

  lemma {:induction false} RepeatEndsWithSpace(n: nat)
    requires n > 0
    ensures var r := RepeatStr("/ ", n); |r| > 0 && r[|r| - 1] == ' '
  {
    if n > 1 {
      RepeatEndsWithSpace(n - 1);
    }
  }

  /** Appending one song and its delimiters to text that is empty or ends
      with a space appends that song's tokens and the delimiters. */
  lemma SplitAppendSong(prefix: string, song: string, sequenceLength: nat)
    requires prefix == "" || prefix[|prefix| - 1] == ' '
    ensures Split(prefix + (song + " " + RepeatStr("/ ", sequenceLength)))
         == Split(prefix) + (Split(song) + Repeat(DELIMITER_SYMBOL, sequenceLength))
  {
    var delimiter := RepeatStr("/ ", sequenceLength);
    SplitAtSpace(song, delimiter);
    SplitRepeatedDelimiter(sequenceLength);
    SplitAfterSpace(prefix, song + " " + delimiter);
  }

  /** Splitting the assembled text yields the corpus token stream. */
  lemma {:induction false} SplitAssembled(songs: seq<string>, sequenceLength: nat)
    ensures Split(Assembled(songs, sequenceLength)) == CorpusTokens(songs, sequenceLength)
  {
    if songs != [] {
      var init := songs[..|songs| - 1];
      SplitAssembled(init, sequenceLength);
      if init != [] {
        AssembledEndsWithSpace(init, sequenceLength);
      }
      SplitAppendSong(Assembled(init, sequenceLength), songs[|songs| - 1], sequenceLength);
    }
  }

  /** `create_single_file_dataset`: the corpus text. Only the trailing space
      is cut from the assembled text, and splitting the result gives each
      song's tokens followed by `sequence_length` delimiters. */
  method CreateSingleFileDataset(songs: seq<string>, sequenceLength: nat) returns (corpus: string)
    ensures corpus + (if songs == [] then "" else " ") == Assembled(songs, sequenceLength)
    ensures Split(corpus) == CorpusTokens(songs, sequenceLength)
  {
    var newSongDelimiter := RepeatStr("/ ", sequenceLength);
    var text := "";
    for i := 0 to |songs|
      invariant text == Assembled(songs[..i], sequenceLength)
    {
      assert songs[..i + 1][..i] == songs[..i];
      assert text + songs[i] + " " + newSongDelimiter == text + (songs[i] + " " + newSongDelimiter);
      text := text + songs[i] + " " + newSongDelimiter;
    }
    assert songs[..|songs|] == songs;
    if |text| > 0 {
      corpus := text[..|text| - 1];
    } else {
      corpus := "";
    }
    SplitAssembled(songs, sequenceLength);
    if songs != [] {
      AssembledEndsWithSpace(songs, sequenceLength);
      assert corpus + " " == text;
      SplitTrailingSpace(corpus);
    }
  }

  // ------------------------------------------------------------ vocabulary

  /** `create_mapping`: gives each distinct token of the corpus its own id.
      `list(set(...))` fixes no order, so the loop takes the remaining tokens
      in an unspecified order; `vocabulary` is that order, which is also the
      key order of the dictionary. */
  method CreateMapping(corpus: string) returns (mappings: map<string, int>, vocabulary: seq<string>)
    ensures mappings.Keys == set t | t in Split(corpus)
    ensures |vocabulary| == |mappings|
    ensures forall i :: 0 <= i < |vocabulary| ==> vocabulary[i] in mappings && mappings[vocabulary[i]] == i
    ensures forall s :: s in mappings ==> 0 <= mappings[s] < |mappings|
    ensures forall s, t :: s in mappings && t in mappings && s != t ==> mappings[s] != mappings[t]
  {
    var tokens := Split(corpus);
    var distinct := set t | t in tokens;
    var remaining := distinct;
    mappings := map[];
    vocabulary := [];
    while remaining != {}
      invariant mappings.Keys + remaining == distinct && mappings.Keys !! remaining
      invariant NumberedInOrder(mappings, vocabulary)
      decreases remaining
    {
      var symbol :| symbol in remaining;
      AddNextSymbol(mappings, vocabulary, symbol);
      mappings := mappings[symbol := |vocabulary|];
      vocabulary := vocabulary + [symbol];
      remaining := remaining - {symbol};
    }
  }

  /** `mappings` numbers the symbols of `vocabulary` by their position, and
      has no other keys. */
  ghost predicate NumberedInOrder(mappings: map<string, int>, vocabulary: seq<string>) {
    |mappings| == |vocabulary| &&
    (forall i :: 0 <= i < |vocabulary| ==> vocabulary[i] in mappings && mappings[vocabulary[i]] == i) &&
    (forall s :: s in mappings ==> 0 <= mappings[s] < |vocabulary| && vocabulary[mappings[s]] == s)
  }

  /** One iteration of `create_mapping`: a new symbol gets the next id. */
  lemma AddNextSymbol(mappings: map<string, int>, vocabulary: seq<string>, symbol: string)
    requires NumberedInOrder(mappings, vocabulary) && symbol !in mappings
    ensures NumberedInOrder(mappings[symbol := |vocabulary|], vocabulary + [symbol])
  {
    var m := mappings[symbol := |vocabulary|];
    var v := vocabulary + [symbol];
    assert |m| == |v| by {
      assert m.Keys == mappings.Keys + {symbol};
    }
    forall i | 0 <= i < |v|
      ensures v[i] in m && m[v[i]] == i
    {
      if i < |vocabulary| {
        assert v[i] == vocabulary[i];
      }
    }
  }

  /** Each symbol mapped through `mappings` in order (`mappings[symbol]` in a
      loop or a comprehension); the first missing symbol raises KeyError. */
  function ToIds(symbols: seq<string>, mappings: map<string, int>): (r: Result<seq<int>>)
    ensures r.Ok? <==> forall i :: 0 <= i < |symbols| ==> symbols[i] in mappings
    ensures r.Ok? ==> |r.value| == |symbols| && forall i :: 0 <= i < |symbols| ==> r.value[i] == mappings[symbols[i]]
    ensures r.Err? ==> r.error.KeyError? && r.error.key in symbols && r.error.key !in mappings
    ensures r.Err? ==> exists i :: 0 <= i < |symbols| && symbols[i] == r.error.key && symbols[i] !in mappings &&
                                   forall j :: 0 <= j < i ==> symbols[j] in mappings
  {
    if symbols == [] then Ok([])
    else
      var last := symbols[|symbols| - 1];
      match ToIds(symbols[..|symbols| - 1], mappings)
      case Err(e) => Err(e)
      case Ok(ids) => if last in mappings then Ok(ids + [mappings[last]]) else Err(KeyError(last))
  }

  lemma {:induction false} ToIdsErrorPersists(symbols: seq<string>, mappings: map<string, int>, k: nat, e: PyError)
    requires k <= |symbols| && ToIds(symbols[..k], mappings) == Err(e)
    ensures ToIds(symbols, mappings) == Err(e)
    decreases |symbols| - k
  {
    if k == |symbols| {
      assert symbols[..k] == symbols;
    } else {
      assert symbols[..k + 1][..k] == symbols[..k];
      ToIdsErrorPersists(symbols, mappings, k + 1, e);
    }
  }

  /** `convert_songs_to_int`, the mapping given: the corpus split into
      tokens and each token replaced by its id. */
  method ConvertSongsToInt(corpus: string, mappings: map<string, int>) returns (r: Result<seq<int>>)
    ensures r == ToIds(Split(corpus), mappings)
  {
    var songs := Split(corpus);
    var intSongs: seq<int> := [];
    for i := 0 to |songs|
      invariant ToIds(songs[..i], mappings) == Ok(intSongs)
    {
      assert songs[..i + 1][..i] == songs[..i];
      if songs[i] !in mappings {
        ToIdsErrorPersists(songs, mappings, i + 1, KeyError(songs[i]));
        return Err(KeyError(songs[i]));
      }
      intSongs := intSongs + [mappings[songs[i]]];
    }
    assert songs[..|songs|] == songs;
    return Ok(intSongs);
  }

  // -------------------------------------------------------------- windows

  /** The windowing loop of `generate_training_sequences`: for every start
      `i < len(ids) - sequence_length`, the window `ids[i:i+L]` and the id
      right after it. Consecutive inputs overlap by all but one id, and
      the first window followed by all targets is the whole id list. */
  method GenerateTrainingSequences(ids: seq<int>, sequenceLength: nat) returns (inputs: seq<seq<int>>, targets: seq<int>)
    ensures |inputs| == |targets| == (if |ids| > sequenceLength then |ids| - sequenceLength else 0)
    ensures forall i :: 0 <= i < |inputs| ==>
      |inputs[i]| == sequenceLength && inputs[i] == ids[i..i + sequenceLength] && targets[i] == ids[i + sequenceLength]
    ensures sequenceLength > 0 ==>
      forall i :: 0 <= i < |inputs| - 1 ==> inputs[i + 1] == inputs[i][1..] + [targets[i]]
    ensures |ids| > sequenceLength ==> inputs[0] + targets == ids
  {
    var numSequences := |ids| - sequenceLength;
    inputs, targets := [], [];
    var i := 0;
    while i < numSequences
      invariant 0 <= i <= (if numSequences < 0 then 0 else numSequences)
      invariant |inputs| == |targets| == i
      invariant forall j :: 0 <= j < i ==> inputs[j] == ids[j..j + sequenceLength] && targets[j] == ids[j + sequenceLength]
    {
      inputs := inputs + [ids[i..i + sequenceLength]];
      targets := targets + [ids[i + sequenceLength]];
      i := i + 1;
    }
    forall j | 0 <= j < |inputs| - 1 && sequenceLength > 0
      ensures inputs[j + 1] == inputs[j][1..] + [targets[j]]
    {
      assert ids[j + 1..j + 1 + sequenceLength] == ids[j..j + sequenceLength][1..] + [ids[j + sequenceLength]];
    }
    if |ids| > sequenceLength {
      assert targets == ids[sequenceLength..];
      assert ids == ids[..sequenceLength] + ids[sequenceLength..];
    }
  }

  // ------------------------------------------------------------ scenarios

  /** A quarter-note middle C followed by an eighth rest, at sixteenth steps. */
  lemma EncodeScenario()
    ensures EncodeTokens([Event(Note(60), 1.0), Event(Rest, 0.5)], 0.25) == ["60", "_", "_", "_", "r", "_"]
  {
    var e1, e2 := Event(Note(60), 1.0), Event(Rest, 0.5);
    var song := [e1, e2];
    assert song[..1] == [e1];
    assert [e1][..0] == [];
    assert Steps(e1, 0.25) == 4 by { assert e1.duration / 0.25 == 4.0; }
    assert Steps(e2, 0.25) == 2 by { assert e2.duration / 0.25 == 2.0; }
    assert OnsetSymbol(Note(60)) == "60" by {
      assert NatToString(60) == NatToString(6) + [DigitChar(0)];
    }
  }

  /** The corpus `"60 _ r / 60"` has four distinct symbols, so
      `create_mapping` gives it a four-entry vocabulary. */
  lemma VocabularyScenario()
    ensures (set t | t in Split("60 _ r / 60")) == {"60", "_", "r", "/"}
  {
    var ts := ["60", "_", "r", "/", "60"];
    DistinctScenarioTokens();
    JoinScenarioTokens();
    assert forall i :: 0 <= i < |ts| ==> IsWord(ts[i]);
    SplitJoin(ts);
  }

  lemma JoinScenarioTokens()
    ensures Join(["60", "_", "r", "/", "60"]) == "60 _ r / 60"
  {
    var ts := ["60", "_", "r", "/", "60"];
    assert Join(ts[3..]) == "/ 60" by {
      assert Join(ts[4..]) == "60";
    }
    assert Join(ts[1..]) == "_ r / 60" by {
      assert Join(ts[2..]) == "r / 60";
    }
  }

  lemma DistinctScenarioTokens()
    ensures (set t | t in ["60", "_", "r", "/", "60"]) == {"60", "_", "r", "/"}
  {
    var ts := ["60", "_", "r", "/", "60"];
    forall t | t in ts
      ensures t in {"60", "_", "r", "/"}
    {
      var i :| 0 <= i < |ts| && ts[i] == t;
    }
    assert ts[0] == "60" && ts[1] == "_" && ts[2] == "r" && ts[3] == "/";
  }
}
