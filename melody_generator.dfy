/** melody_generator.py: `generate_melody`, the bookkeeping around the
    network's predictions (the prediction and the temperature sampling are
    one oracle from the step number and the id context to an id), and the
    copy of `save_melody` kept in that file, whose `start_symbol = symbol`
    sits inside the `start_symbol is not None` guard. */
module MelodyGenerator {
  import opened PyBase
  import opened PyText
  import opened Music
  import opened Preprocess
  import opened ConvertToMidi

  // --------------------------------------------------- save_melody as written

  /** One iteration of the loop of this copy of `save_melody`: the start
      symbol is only recorded after an event has been emitted. */
  function StepAsWritten(melody: seq<string>, i: nat, st: DecodeState, stepDuration: real): Result<DecodeState>
    requires i < |melody|
  {
    if IsTrigger(melody, i) then
      if st.start.Some? then
        match ToEvent(st.start.value, QuarterLength(stepDuration, st.counter))
        case Err(e) => Err(e)
        case Ok(ev) => Ok(DecodeState(Some(melody[i]), 1, st.stream + [ev]))
      else
        Ok(st)
    else
      Ok(st.(counter := st.counter + 1))
  }

  function ScanAsWritten(melody: seq<string>, n: nat, stepDuration: real): Result<DecodeState>
    requires n <= |melody|
  {
    if n == 0 then Ok(DecodeState(None, 1, []))
    else
      match ScanAsWritten(melody, n - 1, stepDuration)
      case Err(e) => Err(e)
      case Ok(st) => StepAsWritten(melody, n - 1, st, stepDuration)
  }

  /** The events this copy of `save_melody` hands to the MIDI writer. */
  function DecodeAsWritten(melody: seq<string>, stepDuration: real): Result<seq<Event>> {
    match ScanAsWritten(melody, |melody|, stepDuration)
    case Err(e) => Err(e)
    case Ok(st) => Ok(st.stream)
  }

  /** `save_melody` of melody_generator.py up to the file write. */
  method SaveMelody(melody: seq<string>, stepDuration: real) returns (r: Result<seq<Event>>)
    ensures r == DecodeAsWritten(melody, stepDuration)
  {
    var startSymbol: Option<string> := None;
    var stepCounter := 1;
    var stream: seq<Event> := [];
    for i := 0 to |melody|
      invariant ScanAsWritten(melody, i, stepDuration) == Ok(DecodeState(startSymbol, stepCounter, stream))
    {
      var symbol := melody[i];
      if symbol != HOLD_SYMBOL || i + 1 == |melody| {
        if startSymbol.Some? {
          var quarterLengthDuration := QuarterLength(stepDuration, stepCounter);
          var event: Event;
          if startSymbol.value == REST_SYMBOL {
            event := Event(Rest, quarterLengthDuration);
          } else {
            var pitch := ParseInt(startSymbol.value);
            if pitch.None? {
              ScanAsWrittenErrorPersists(melody, i + 1, |melody|, stepDuration);
              return Err(ValueError(startSymbol.value));
            }
            event := Event(Note(pitch.value), quarterLengthDuration);
          }
          stream := stream + [event];
          stepCounter := 1;
          startSymbol := Some(symbol);
        }
      } else {
        stepCounter := stepCounter + 1;
      }
    }
    return Ok(stream);
  }

  lemma {:induction false} ScanAsWrittenErrorPersists(melody: seq<string>, k: nat, n: nat, stepDuration: real)
    requires k <= n <= |melody| && ScanAsWritten(melody, k, stepDuration).Err?
    ensures ScanAsWritten(melody, n, stepDuration) == ScanAsWritten(melody, k, stepDuration)
    decreases n - k
  {
    if k < n {
      ScanAsWrittenErrorPersists(melody, k, n - 1, stepDuration);
    }
  }

  /** The start symbol is never set, so the loop never emits: after `n`
      iterations the stream is empty and the counter has grown by one at
      every index that is not a trigger and never been reset. */
  lemma {:induction false} ScanAsWrittenStaysIdle(melody: seq<string>, n: nat, stepDuration: real)
    requires n <= |melody|
    ensures ScanAsWritten(melody, n, stepDuration) == Ok(DecodeState(None, 1 + n - |Triggers(melody, n)|, []))
  {
    if n > 0 {
      ScanAsWrittenStaysIdle(melody, n - 1, stepDuration);
    }
  }

  /** The step counter of the defective loop never decreases. */
  lemma CounterOnlyGrows(melody: seq<string>, m: nat, n: nat, stepDuration: real)
    requires m <= n <= |melody|
    ensures ScanAsWritten(melody, m, stepDuration).Ok? && ScanAsWritten(melody, n, stepDuration).Ok?
    ensures ScanAsWritten(melody, m, stepDuration).value.counter <= ScanAsWritten(melody, n, stepDuration).value.counter
  {
    ScanAsWrittenStaysIdle(melody, m, stepDuration);
    ScanAsWrittenStaysIdle(melody, n, stepDuration);
    TriggersGrowSlowly(melody, m, n);
  }

  lemma {:induction false} TriggersGrowSlowly(melody: seq<string>, m: nat, n: nat)
    requires m <= n <= |melody|
    ensures |Triggers(melody, n)| <= |Triggers(melody, m)| + (n - m)
    decreases n - m
  {
    if m < n {
      TriggersGrowSlowly(melody, m, n - 1);
    }
  }

  /** This copy of `save_melody` writes an empty stream for every input. */
  lemma NothingIsEmitted(melody: seq<string>, stepDuration: real)
    ensures DecodeAsWritten(melody, stepDuration) == Ok([])
  {
    ScanAsWrittenStaysIdle(melody, |melody|, stepDuration);
  }

  /** The discrepancy: for every non-empty exactly quantised song, the
      decoder of convertToMidi.py gives the song back from its encoding
      plus one token, while this copy gives nothing. */
  lemma AsWrittenLosesEverySong(song: seq<Event>, timeStep: real, sentinel: string)
    requires timeStep != 0.0 && ExactlyQuantised(song, timeStep) && song != []
    ensures var m := EncodeTokens(song, timeStep) + [sentinel];
            Decode(m, timeStep) == Ok(song) && DecodeAsWritten(m, timeStep) == Ok([])
  {
    DecodeEncodeRoundTrip(song, timeStep, sentinel);
    NothingIsEmitted(EncodeTokens(song, timeStep) + [sentinel], timeStep);
  }

  // ---------------------------------------------------------- generate_melody

  /** `self._start_symbols`: `["/"] * SEQUENCE_LENGTH`. */
  const START_SYMBOLS: seq<string> := Repeat(DELIMITER_SYMBOL, SEQUENCE_LENGTH)

  /** Every entry of `order` is a key of `mappings`. */
  predicate ListsKeys(order: seq<string>, mappings: map<string, int>) {
    forall i :: 0 <= i < |order| ==> order[i] in mappings
  }

  /** `order` is the dict's iteration order: every key of `mappings`,
      each exactly once. */
  predicate KeysOf(order: seq<string>, mappings: map<string, int>) {
    ListsKeys(order, mappings) &&
    (forall k :: k in mappings ==> k in order) &&
    (forall i, j :: 0 <= i < j < |order| ==> order[i] != order[j])
  }

  /** `[k for k, v in mappings.items() if v == id][0]`, the items visited in
      the order `order`: the first key mapped to `id`, or IndexError when
      there is none. */
  function ReverseLookup(order: seq<string>, mappings: map<string, int>, id: int): Result<string>
    requires ListsKeys(order, mappings)
  {
    if order == [] then Err(IndexError(id))
    else if mappings[order[0]] == id then Ok(order[0])
    else ReverseLookup(order[1..], mappings, id)
  }

  /** The lookup succeeds iff some key maps to `id`, and then gives the
      first such key in iteration order; otherwise it raises IndexError. */
  lemma ReverseLookupSpec(order: seq<string>, mappings: map<string, int>, id: int)
    requires KeysOf(order, mappings)
    ensures var r := ReverseLookup(order, mappings, id);
            (r.Ok? <==> exists k :: k in mappings && mappings[k] == id) &&
            (r.Ok? ==> r.value in mappings && mappings[r.value] == id &&
                       exists i :: 0 <= i < |order| && order[i] == r.value &&
                                   forall j :: 0 <= j < i ==> mappings[order[j]] != id) &&
            (r.Err? ==> r.error == IndexError(id))
  {
    ReverseLookupInOrder(order, mappings, id);
    if exists k :: k in mappings && mappings[k] == id {
      var k :| k in mappings && mappings[k] == id;
      var i :| 0 <= i < |order| && order[i] == k;
    }
  }

  /** `ReverseLookupSpec` phrased over the entries of `order`. */
  lemma {:induction false} ReverseLookupInOrder(order: seq<string>, mappings: map<string, int>, id: int)
    requires ListsKeys(order, mappings)
    ensures var r := ReverseLookup(order, mappings, id);
            (r.Ok? <==> exists i :: 0 <= i < |order| && mappings[order[i]] == id) &&
            (r.Ok? ==> exists i :: 0 <= i < |order| && order[i] == r.value && mappings[order[i]] == id &&
                          forall j :: 0 <= j < i ==> mappings[order[j]] != id) &&
            (r.Err? ==> r.error == IndexError(id))
  {
    if order != [] {
      if mappings[order[0]] == id {
        assert ReverseLookup(order, mappings, id) == Ok(order[0]);
      } else {
        var tail := order[1..];
        ReverseLookupInOrder(tail, mappings, id);
        var r := ReverseLookup(tail, mappings, id);
        if r.Ok? {
          var i :| 0 <= i < |tail| && tail[i] == r.value && mappings[tail[i]] == id &&
                   forall j :: 0 <= j < i ==> mappings[tail[j]] != id;
          assert order[i + 1] == r.value;
          forall j | 0 <= j < i + 1 ensures mappings[order[j]] != id {
            if j > 0 {
              assert order[j] == tail[j - 1];
            }
          }
        } else {
          forall i | 0 <= i < |order| ensures mappings[order[i]] != id {
            if i > 0 {
              assert order[i] == tail[i - 1];
            }
          }
        }
      }
    }
  }

  /** Inverse of the vocabulary: when the values of `mappings` are pairwise
      distinct (as `create_mapping` makes them), looking up a key's value
      gives back the key. */
  lemma ReverseLookupOfKey(order: seq<string>, mappings: map<string, int>, symbol: string)
    requires KeysOf(order, mappings) && symbol in mappings
    requires forall a, b :: a in mappings && b in mappings && mappings[a] == mappings[b] ==> a == b
    ensures ReverseLookup(order, mappings, mappings[symbol]) == Ok(symbol)
  {
    ReverseLookupSpec(order, mappings, mappings[symbol]);
  }

  /** Number of iterations of `for _ in range(n)` still to run after `step`. */
  function Remaining(step: nat, numSteps: int): nat {
    if step < numSteps then numSteps - step else 0
  }

  /** The generation loop from iteration `step` on, with id context
      `context` and melody `melody`: truncate the context to its last
      `maxSequenceLength` ids, ask the oracle for the next id, append it to
      the context, look its symbol up, stop at `"/"` and otherwise append
      the symbol to the melody. */
  function GenerateFrom(context: seq<int>, melody: seq<string>, step: nat, numSteps: int, maxSequenceLength: int,
                        mappings: map<string, int>, order: seq<string>, oracle: (nat, seq<int>) -> int): Result<seq<string>>
    requires KeysOf(order, mappings)
    decreases Remaining(step, numSteps)
  {
    if numSteps <= step then Ok(melody)
    else
      var window := TailSlice(context, maxSequenceLength);
      var outputInt := oracle(step, window);
      match ReverseLookup(order, mappings, outputInt)
      case Err(e) => Err(e)
      case Ok(outputSymbol) =>
        if outputSymbol == DELIMITER_SYMBOL then Ok(melody)
        else GenerateFrom(window + [outputInt], melody + [outputSymbol], step + 1, numSteps, maxSequenceLength,
                          mappings, order, oracle)
  }

  /** `generate_melody`: the seed tokens, preceded by the start symbols and
      mapped to ids, form the first context. */
  function Generate(seed: string, numSteps: int, maxSequenceLength: int,
                    mappings: map<string, int>, order: seq<string>, oracle: (nat, seq<int>) -> int): Result<seq<string>>
    requires KeysOf(order, mappings)
  {
    match ToIds(START_SYMBOLS + Split(seed), mappings)
    case Err(e) => Err(e)
    case Ok(ids) => GenerateFrom(ids, Split(seed), 0, numSteps, maxSequenceLength, mappings, order, oracle)
  }

  method GenerateMelody(seed: string, numSteps: int, maxSequenceLength: int,
                        mappings: map<string, int>, order: seq<string>, oracle: (nat, seq<int>) -> int)
    returns (r: Result<seq<string>>)
    requires KeysOf(order, mappings)
    ensures r == Generate(seed, numSteps, maxSequenceLength, mappings, order, oracle)
  {
    var seedTokens := Split(seed);
    var melody := seedTokens;
    var mapped := ToIds(START_SYMBOLS + seedTokens, mappings);
    if mapped.Err? {
      return Err(mapped.error);
    }
    var context := mapped.value;
    var step: nat := 0;
    while step < numSteps
      invariant Generate(seed, numSteps, maxSequenceLength, mappings, order, oracle)
             == GenerateFrom(context, melody, step, numSteps, maxSequenceLength, mappings, order, oracle)
      decreases Remaining(step, numSteps)
    {
      context := TailSlice(context, maxSequenceLength);
      var outputInt := oracle(step, context);
      context := context + [outputInt];
      var outputSymbol := ReverseLookup(order, mappings, outputInt);
      if outputSymbol.Err? {
        return Err(outputSymbol.error);
      }
      if outputSymbol.value == DELIMITER_SYMBOL {
        return Ok(melody);
      }
      melody := melody + [outputSymbol.value];
      step := step + 1;
    }
    return Ok(melody);
  }

  /** From any iteration on, the melody only grows, by at most one symbol
      per remaining iteration, and never by `"/"`. */
  lemma {:induction false} GenerateFromExtends(context: seq<int>, melody: seq<string>, step: nat, numSteps: int,
                                               maxSequenceLength: int, mappings: map<string, int>, order: seq<string>,
                                               oracle: (nat, seq<int>) -> int)
    requires KeysOf(order, mappings)
    ensures var r := GenerateFrom(context, melody, step, numSteps, maxSequenceLength, mappings, order, oracle);
            r.Ok? ==>
              melody <= r.value &&
              |r.value| <= |melody| + Remaining(step, numSteps) &&
              forall i :: |melody| <= i < |r.value| ==> r.value[i] != DELIMITER_SYMBOL
    decreases Remaining(step, numSteps)
  {
    if step < numSteps {
      var window := TailSlice(context, maxSequenceLength);
      var outputInt := oracle(step, window);
      var lookup := ReverseLookup(order, mappings, outputInt);
      if lookup.Ok? && lookup.value != DELIMITER_SYMBOL {
        var melody' := melody + [lookup.value];
        GenerateFromExtends(window + [outputInt], melody', step + 1, numSteps, maxSequenceLength, mappings, order, oracle);
        var r := GenerateFrom(context, melody, step, numSteps, maxSequenceLength, mappings, order, oracle);
        if r.Ok? {
          assert r.value[|melody|] == lookup.value;
        }
      }
    }
  }

  /** The returned melody starts with the seed's tokens, unchanged; at most
      `num_steps` symbols follow them, none of which is `"/"`. */
  lemma GeneratedMelody(seed: string, numSteps: int, maxSequenceLength: int,
                        mappings: map<string, int>, order: seq<string>, oracle: (nat, seq<int>) -> int)
    requires KeysOf(order, mappings)
    ensures var r := Generate(seed, numSteps, maxSequenceLength, mappings, order, oracle);
            r.Ok? ==>
              Split(seed) <= r.value &&
              |r.value| <= |Split(seed)| + (if numSteps < 0 then 0 else numSteps) &&
              forall i :: |Split(seed)| <= i < |r.value| ==> r.value[i] != DELIMITER_SYMBOL
  {
    match ToIds(START_SYMBOLS + Split(seed), mappings)
    case Err(_) =>
    case Ok(ids) =>
      GenerateFromExtends(ids, Split(seed), 0, numSteps, maxSequenceLength, mappings, order, oracle);
  }

  /** A seed token (or the start symbol `"/"`) missing from the vocabulary
      stops generation with the KeyError of that token. */
  lemma UnknownSeedSymbol(seed: string, numSteps: int, maxSequenceLength: int,
                          mappings: map<string, int>, order: seq<string>, oracle: (nat, seq<int>) -> int)
    requires KeysOf(order, mappings)
    ensures var symbols := START_SYMBOLS + Split(seed);
            var r := Generate(seed, numSteps, maxSequenceLength, mappings, order, oracle);
            (exists i :: 0 <= i < |symbols| && symbols[i] !in mappings) ==>
              r.Err? && r.error.KeyError? && r.error.key in symbols && r.error.key !in mappings
  {
  }

  /** The first prediction sees the last `maxSequenceLength` ids of the
      start symbols and the seed; when its symbol is `"/"`, the melody is
      just the seed. */
  lemma StopsAtDelimiter(seed: string, numSteps: int, maxSequenceLength: int,
                         mappings: map<string, int>, order: seq<string>, oracle: (nat, seq<int>) -> int, ids: seq<int>)
    requires KeysOf(order, mappings) && numSteps > 0
    requires ToIds(START_SYMBOLS + Split(seed), mappings) == Ok(ids)
    requires ReverseLookup(order, mappings, oracle(0, TailSlice(ids, maxSequenceLength))) == Ok(DELIMITER_SYMBOL)
    ensures Generate(seed, numSteps, maxSequenceLength, mappings, order, oracle) == Ok(Split(seed))
  {
  }

  /** A sampled id that no key maps to raises IndexError. */
  lemma UnknownSampledId(context: seq<int>, melody: seq<string>, step: nat, numSteps: int, maxSequenceLength: int,
                         mappings: map<string, int>, order: seq<string>, oracle: (nat, seq<int>) -> int)
    requires KeysOf(order, mappings) && step < numSteps
    requires forall k :: k in mappings ==> mappings[k] != oracle(step, TailSlice(context, maxSequenceLength))
    ensures GenerateFrom(context, melody, step, numSteps, maxSequenceLength, mappings, order, oracle)
         == Err(IndexError(oracle(step, TailSlice(context, maxSequenceLength))))
  {
    ReverseLookupSpec(order, mappings, oracle(step, TailSlice(context, maxSequenceLength)));
  }
}
