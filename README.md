# Symbolic melody codec — a Dafny model

This project models the symbolic core of a folk-melody generator. The generator
works in a few stages:

- It filters and transposes songs.
- It encodes each song as a "time series" of tokens: a MIDI number or `r` starts
  an event, each `_` holds it for one more sixteenth, and `/` separates songs.
- It joins the encoded songs into one corpus string, builds a symbol-to-id
  vocabulary, and cuts the id stream into fixed-length training windows.
- After training, it extends a seed melody one predicted symbol at a time, and
  decodes a token list back into notes and rests.

The network, the sampler and all file and MIDI I/O are outside the model. The
prediction step is an oracle function given as a parameter.

Modules, one per source file plus three shared ones:

- `PyBase` — `Option`, `Result`, and the Python exceptions the code raises
  (`KeyError`, `IndexError`, `ValueError`, `UnboundLocalError`).
- `PyText` — the Python built-ins the code relies on:
  - `str.split()` as `Split`, splitting at every character `str.isspace()` accepts, and `" ".join` as `Join`;
  - `s * n` as `RepeatStr` and `Repeat`;
  - `str(int)` as `IntToString`, and `int(str)` as `ParseInt`;
  - `xs[-m:]` as `TailSlice`.
- `Music` — an event is a note (MIDI pitch) or a rest, with an exact rational
  duration in quarter notes. The module also holds the three token literals.
- `Preprocess` (preprocess.py) — imperative methods, each proved against a
  specification function:
  - the duration filter;
  - the encoder (`encode_song`);
  - the single-file corpus;
  - `create_mapping`;
  - `convert_songs_to_int`;
  - the training windows.
- `ConvertToMidi` (convertToMidi.py) — the decoder loop of `save_melody`, as a
  method proved equal to a left fold `Scan`. The lemmas then characterise the
  fold through *trigger* indices: indices whose token is not `_`, or that are
  the last index.
- `MelodyGenerator` (melody_generator.py):
  - the `generate_melody` loop, as a method proved equal to a recursive
    specification;
  - the reverse vocabulary lookup;
  - the defective copy of `save_melody` that lives in that file.

Durations are Dafny `real`s, and an encoded step count is Python's `int()`
truncation of `duration / time_step`. The time step is a parameter, so the
lemmas hold for every step size and not only the default `0.25`.

Where the documented behaviour and the code differ, the model follows the code:

- A `_` before the first onset is not dropped: the step counter is not reset at
  the first onset, so the leading holds lengthen the first event
  (`ConvertToMidi.LeadingHoldsScenario`).
- Decoding `60 _ _ _ r _` gives a sixteenth rest, not an eighth rest. The final
  `_` triggers the flush of the pending event without being counted. A final
  onset is never emitted at all (`ConvertToMidi.DecodeScenario`,
  `ConvertToMidi.FinalTokenNeverEmitted`). The exact round trip needs one extra
  token after the encoding (`ConvertToMidi.DecodeEncodeRoundTrip`).
- A mode other than major or minor reaches `song.transpose(interval)` with
  `interval` unassigned. This is modelled as an `UnboundLocalError`, not as a
  dedicated error kind.

## Model

| member | source | states |
|---|---|---|
| `PyText.SplitJoin` | preprocess.py:84 | splitting `" ".join(ts)` on whitespace gives `ts` back when every token is a non-empty word without spaces |
| `PyText.SplitGivesWords` | preprocess.py:116 | every piece `split()` returns is non-empty and holds no whitespace |
| `PyText.SplitAfterSpace` | preprocess.py:97 | text that is empty or ends with a space splits independently of what is appended to it |
| `PyText.SplitRepeatedDelimiter` | preprocess.py:89 | `("/ " * n).split()` is exactly `n` tokens `"/"` |
| `PyText.ParseIntToString` | convertToMidi.py:19 | `int(str(i)) == i` for every integer, so a MIDI number written by the encoder parses back to itself |
| `PyText.TailSlice` | melody_generator.py:28 | `xs[-m:]` keeps the last `min(m, len(xs))` elements for `m > 0`, keeps everything for `m == 0`, and drops the first `-m` for `m < 0` |
| `Music.OnsetSymbol` | preprocess.py:69-73 | the onset token of an event is one word, never `"_"` or `"/"`, and is `"r"` exactly for rests |
| `Preprocess.HasAcceptableDurations` | preprocess.py:34-38 | returns true iff every event's duration belongs to the accepted list; returns false at the first that does not |
| `Preprocess.TranspositionTarget` | preprocess.py:53-56 | major → tonic C, minor → tonic A, any other mode → `UnboundLocalError` on `interval`, and it succeeds only for those two modes |
| `Preprocess.TruncTowardsZero` | preprocess.py:76 | Python `int()` on a float truncates toward zero: the result is within one of `x`, on the side of zero |
| `Preprocess.EncodeSong` | preprocess.py:63-86 | the nested loop produces the join of the in-order concatenation of per-event runs: onset symbol, then `steps - 1` holds, where `steps = int(duration / time_step)`, and nothing for `steps <= 0` |
| `Preprocess.EncodeLength` | preprocess.py:76-81 | the encoding has exactly as many tokens as the sum of the events' step counts, events with `steps <= 0` counting zero |
| `Preprocess.EncodeTokensAreWords` | preprocess.py:67-81 | every encoded token is a single word and none is the song delimiter `"/"` |
| `Preprocess.EncodedSongSplits` | preprocess.py:84 | splitting the encoded string on whitespace gives back exactly the token list |
| `Preprocess.AcceptableDurationsAreExact` | preprocess.py:13-22 | each accepted duration is a whole, positive number of sixteenth steps, so encoding it loses nothing |
| `Preprocess.SplitAssembled` | preprocess.py:89-97 | the accumulated corpus string splits into each song's tokens followed by exactly `sequence_length` delimiters, song after song |
| `Preprocess.CreateSingleFileDataset` | preprocess.py:88-105 | the result is the accumulated string minus its trailing space, and it splits into each song's tokens followed by `sequence_length` `"/"` tokens |
| `Preprocess.AddNextSymbol` | preprocess.py:120-121 | one iteration of the numbering loop keeps the invariant: the new symbol gets the next id, and every id is still the position of its symbol in the vocabulary |
| `Preprocess.CreateMapping` | preprocess.py:112-127 | the keys are exactly the distinct corpus tokens; the ids are pairwise distinct and lie in `0..N-1` for `N` keys, so the map is a bijection onto `0..N-1`; the vocabulary order is arbitrary (`set` order) |
| `Preprocess.ToIds` | preprocess.py:140-141 | succeeds iff every symbol is in the mapping; then it preserves length with `out[i] == mappings[symbols[i]]`; otherwise it raises the `KeyError` of the first missing symbol, every symbol before it being mapped |
| `Preprocess.ConvertSongsToInt` | preprocess.py:129-143 | the loop maps the whitespace-split corpus through the mapping, with the outcome `ToIds` describes |
| `Preprocess.GenerateTrainingSequences` | preprocess.py:154-157 | exactly `max(0, n - L)` pairs; pair `i` is `(ids[i..i+L], ids[i+L])`; consecutive windows slide by one; the first window followed by the targets is the whole id stream |
| `Preprocess.EncodeScenario` | preprocess.py:63-86 | a quarter-note 60 and an eighth rest encode to `60 _ _ _ r _` |
| `Preprocess.VocabularyScenario` | preprocess.py:116-117 | the corpus `60 _ r / 60` has the four distinct symbols `60`, `_`, `r`, `/` |
| `ConvertToMidi.ToEvent` | convertToMidi.py:15-19 | `"r"` gives a rest, any other symbol the note `int(symbol)`, with the given duration; a non-numeric symbol raises `ValueError` |
| `ConvertToMidi.ToEventOfOnset` | convertToMidi.py:16-19 | converting an encoder's onset symbol gives back the event kind it was made from |
| `ConvertToMidi.SaveMelody` | convertToMidi.py:12-25 | the loop's result (the events or its `ValueError`) is the fold `Decode` of the token list |
| `ConvertToMidi.TriggersShape` | convertToMidi.py:13 | the trigger list holds exactly the indices at which the first branch is taken, in increasing order |
| `ConvertToMidi.RealizeShape` | convertToMidi.py:14-21 | emitting the segments succeeds iff every start symbol converts; then there is one event per segment, in order |
| `ConvertToMidi.ScanBySegments` | convertToMidi.py:12-25 | loop invariant: the stream is the events of the segments between triggers seen so far; `start_symbol` is the symbol of the last trigger; `step_counter` counts from that trigger (from index 0 before the second trigger) |
| `ConvertToMidi.DecodeBySegments` | convertToMidi.py:12-25 | the decoder's result is the realisation of the segments between consecutive triggers |
| `ConvertToMidi.DecodeSucceeds` | convertToMidi.py:19 | decoding fails exactly when the symbol at some trigger other than the last is neither `"r"` nor a number |
| `ConvertToMidi.DecodeEventCount` | convertToMidi.py:12-25 | the number of events emitted is one less than the number of triggers for a non-empty list, and zero for the empty list |
| `ConvertToMidi.DecodeEvents` | convertToMidi.py:13-25 | event `j` has the symbol at trigger `j` (never `"_"`): a rest for `"r"`, otherwise the note `int(symbol)`; its duration is `step_duration * steps` with `steps >= 1` the distance to the next trigger, the first event's steps measured from index 0 |
| `ConvertToMidi.FinalTokenNeverEmitted` | convertToMidi.py:12-25 | the last token does not affect the output, so a final onset and its duration are lost |
| `ConvertToMidi.DecodeEncodeRoundTrip` | convertToMidi.py:12-25 | for events whose durations are whole, positive step counts, decoding the encoding followed by any one token returns exactly the events |
| `ConvertToMidi.TrailingHoldShortensLastEvent` | convertToMidi.py:13-15 | without that extra token, a last event of two or more steps comes back one step shorter, everything else unchanged |
| `ConvertToMidi.ShortenedSong` | preprocess.py:76-81 | shortening the last event of an exactly quantised song by one step keeps it exactly quantised and removes one final `"_"` from its encoding |
| `ConvertToMidi.AcceptedSongRoundTrip` | convertToMidi.py:12-25 | a song that passes the duration filter, encoded at `0.25`, written out and split again, decodes to itself once one more token follows it |
| `ConvertToMidi.DecodeScenario` | convertToMidi.py:12-25 | `60 _ _ _ r _` decodes to a quarter-note 60 and a sixteenth rest; with a trailing `/` it decodes to the quarter note and an eighth rest |
| `ConvertToMidi.LeadingHoldsScenario` | convertToMidi.py:14-25 | `_ _ 60 _ r /` decodes to a quarter-note 60, not an eighth note: the two leading holds lengthen it |
| `MelodyGenerator.SaveMelody` | melody_generator.py:68-84 | the loop of this copy of `save_melody`, with `start_symbol = symbol` inside the `is not None` guard, computes the fold `DecodeAsWritten` |
| `MelodyGenerator.ScanAsWrittenStaysIdle` | melody_generator.py:68-84 | after any number of iterations `start_symbol` is still `None`, the stream is empty, and the counter is one plus the number of non-trigger indices read |
| `MelodyGenerator.CounterOnlyGrows` | melody_generator.py:73-84 | in that loop the step counter never decreases, since its reset is unreachable |
| `MelodyGenerator.NothingIsEmitted` | melody_generator.py:63-87 | this copy of `save_melody` writes an empty stream for every input |
| `MelodyGenerator.AsWrittenLosesEverySong` | melody_generator.py:82 | on the encoding of any non-empty song plus one token, `convertToMidi.py`'s decoder returns the song while this copy returns nothing |
| `MelodyGenerator.ReverseLookupSpec` | melody_generator.py:43 | the lookup succeeds iff some key maps to the sampled id, and returns the first such key in dict order; otherwise `[...][0]` raises `IndexError` |
| `MelodyGenerator.ReverseLookupInOrder` | melody_generator.py:43 | over any list of keys: the comprehension's first element exists iff some listed key maps to the id, and it is the first such key in the list |
| `MelodyGenerator.ReverseLookupOfKey` | melody_generator.py:43 | with pairwise-distinct ids, as `create_mapping` builds them, looking up a key's id returns the key |
| `MelodyGenerator.GenerateMelody` | melody_generator.py:17-52 | the loop computes `Generate`. Each iteration truncates the context to its last `max_sequence_length` ids, appends the oracle's id, looks up its symbol, stops at `"/"` and otherwise appends the symbol. The initial context is 64 `"/"` plus the seed tokens, mapped to ids |
| `MelodyGenerator.GenerateFromExtends` | melody_generator.py:26-50 | from any iteration on, the melody only grows: by at most one symbol per remaining iteration and never by `"/"` |
| `MelodyGenerator.GeneratedMelody` | melody_generator.py:19-50 | the result starts with the seed's whitespace-split tokens unchanged, followed by at most `num_steps` symbols, none of them `"/"` |
| `MelodyGenerator.UnknownSeedSymbol` | melody_generator.py:21-24 | a seed token missing from the vocabulary raises the `KeyError` of a missing token |
| `MelodyGenerator.StopsAtDelimiter` | melody_generator.py:43-47 | when the first sampled id maps to `"/"`, the melody is just the seed |
| `MelodyGenerator.UnknownSampledId` | melody_generator.py:43 | a sampled id that no key maps to raises `IndexError` for that id |

## Left out

- File and directory I/O is not modelled. This covers `load_songs_in_kern`, `os.walk`, `load`, the JSON dump and load, `fp.write`, `preprocess()`, the `main` functions and `stream.write`. Songs, corpus strings and the mapping are parameters. The directory walk order is the order of the given song list.
- music21 is not modelled: score parsing, `flatten().notesAndRests`, key analysis, the interval and transposition arithmetic, and the MIDI writer. Events are plain values, and `transpose` is modelled only as the choice of target tonic.
- `Music.Kind`: `encode_song` has no branch for elements that are neither notes nor rests, such as chords. The model admits only notes and rests, so that path is not covered.
- keras and numpy are not modelled: `to_categorical`, `np.array`, `model.predict` and all of train.py. In particular, the one-hot encoding of the windows and of the context is left out, together with its vocabulary-size classes.
- `_sample_with_temperature` is not modelled. It is floating-point log/exp with random choice. It becomes, together with `model.predict`, the oracle parameter of `GenerateMelody`, which sees the step number and the truncated id context.
- `MelodyGenerator.GenerateMelody`: line 21 of melody_generator.py refers to `self._start_simbols`, while the attribute defined on line 15 is `_start_symbols`, so the code as written raises `AttributeError`. The model uses the evident intended concatenation of the start symbols and the seed.
- `MelodyGenerator.GenerateMelody`: the sampled id is appended to the context even when its symbol is `"/"`. The model does this too, but the context after the final iteration is not part of the result, so nothing is stated about it.
- `Preprocess.CreateMapping`: `list(set(...))` has no specified order. The model picks the remaining symbols in an unspecified order, so its contract holds for every order.
- `Preprocess.EncodeSong`, `Preprocess.Steps` and the decoder lemmas require a non-zero time step. Python raises `ZeroDivisionError` there, which is not modelled.
- `Preprocess.CreateSingleFileDataset` and `Preprocess.GenerateTrainingSequences` take `sequence_length` as a natural number, so a negative length is not considered. Python would accept one: `"/ " * n` is then empty, but in `generate_training_sequences` the count `len(int_songs) - sequence_length` grows, and the windows become negative-bound slices such as `int_songs[0:-2]`.
- `PyText.ParseInt` accepts an optional `-` followed by decimal digits. Python's `int()` also accepts surrounding whitespace, a `+` sign, underscores between digits and non-ASCII digits. A start symbol such as `+60` or `6_0` therefore decodes to a note in Python but to a `ValueError` in the model. The encoder never writes such symbols.
- Durations are exact rationals, not IEEE doubles. music21 keeps lengths such as tuplet thirds as exact fractions, and comparing a fraction with a float in `has_acceptable_durations` is exact in Python, so the filter behaves as modelled. Only durations that pass the filter, all of them multiples of a sixteenth, are ever divided by the time step, encoded or decoded, and those are exact as doubles too.

## Findings

| source | as written | input that shows it | evidently intended | confidence | as-written member | corrected member |
|---|---|---|---|---|---|---|
| melody_generator.py:82 | `start_symbol = symbol` sits inside the `if start_symbol is not None` block, so `start_symbol` stays `None` forever and no event is ever appended | the tokens `60 _ _ _ r _ /` (any non-empty encoded song plus one token): this copy writes an empty stream, `convertToMidi.py` writes a quarter-note 60 and an eighth rest | the assignment one level out, as in convertToMidi.py:23, so every trigger records the next start symbol | not executed; high | `MelodyGenerator.AsWrittenLosesEverySong` | `ConvertToMidi.DecodeEncodeRoundTrip` |
