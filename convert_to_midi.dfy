/** `save_melody` of convertToMidi.py: the time-series tokens turned back into
    note and rest events. The loop is modelled step by step by `Scan`; the
    lemmas then describe its result through the "trigger" indices, the
    indices whose token is not `"_"` or that are the last one. */
module ConvertToMidi {
  import opened PyBase
  import opened PyText
  import opened Music
  import opened Preprocess

  /** The loop variables of `save_melody`: `start_symbol`, `step_counter`
      and the events appended to `stream` so far. */
  datatype DecodeState = DecodeState(start: Option<string>, counter: int, stream: seq<Event>)

  /** The loop's first branch is taken at index `i`. */
  predicate IsTrigger(melody: seq<string>, i: nat)
    requires i < |melody|
  {
    melody[i] != HOLD_SYMBOL || i + 1 == |melody|
  }

  /** `step_duration * step_counter`: the length of an event that spans
      `steps` time steps. */
  function QuarterLength(stepDuration: real, steps: int): real {
    stepDuration * steps as real
  }

  /** The event built for a start symbol: a rest for `"r"`, otherwise a note
      whose pitch is `int(symbol)`, which raises ValueError on a symbol that
      is not a number. */
  function ToEvent(symbol: string, duration: real): (r: Result<Event>)
    ensures r.Ok? ==> r.value.duration == duration
    ensures r.Ok? ==> (r.value.kind.Rest? <==> symbol == REST_SYMBOL)
    ensures r.Ok? && r.value.kind.Note? ==> ParseInt(symbol) == Some(r.value.kind.pitch)
    ensures r.Err? <==> symbol != REST_SYMBOL && ParseInt(symbol).None?
    ensures r.Err? ==> r.error == ValueError(symbol)
  {
    if symbol == REST_SYMBOL then Ok(Event(Rest, duration))
    else
      match ParseInt(symbol)
      case Some(p) => Ok(Event(Note(p), duration))
      case None => Err(ValueError(symbol))
  }

  /** An onset symbol converts back to the kind it was made from. */
  lemma ToEventOfOnset(k: Kind, duration: real)
    ensures ToEvent(OnsetSymbol(k), duration) == Ok(Event(k, duration))
  {
    if k.Note? {
      ParseIntToString(k.pitch);
    }
  }

  /** One iteration of the loop, at index `i`. */
  function Step(melody: seq<string>, i: nat, st: DecodeState, stepDuration: real): Result<DecodeState>
    requires i < |melody|
  {
    if IsTrigger(melody, i) then
      if st.start.Some? then
        match ToEvent(st.start.value, QuarterLength(stepDuration, st.counter))
        case Err(e) => Err(e)
        case Ok(ev) => Ok(DecodeState(Some(melody[i]), 1, st.stream + [ev]))
      else
        Ok(st.(start := Some(melody[i])))
    else
      Ok(st.(counter := st.counter + 1))
  }

  /** The state after the first `n` iterations, or the error one raised. */
  function Scan(melody: seq<string>, n: nat, stepDuration: real): Result<DecodeState>
    requires n <= |melody|
  {
    if n == 0 then Ok(DecodeState(None, 1, []))
    else
      match Scan(melody, n - 1, stepDuration)
      case Err(e) => Err(e)
      case Ok(st) => Step(melody, n - 1, st, stepDuration)
  }

  /** The events `save_melody` hands to the MIDI writer. */
  function Decode(melody: seq<string>, stepDuration: real): Result<seq<Event>> {
    match Scan(melody, |melody|, stepDuration)
    case Err(e) => Err(e)
    case Ok(st) => Ok(st.stream)
  }

  lemma {:induction false} ScanErrorPersists(melody: seq<string>, k: nat, n: nat, stepDuration: real)
    requires k <= n <= |melody| && Scan(melody, k, stepDuration).Err?
    ensures Scan(melody, n, stepDuration) == Scan(melody, k, stepDuration)
    decreases n - k
  {
    if k < n {
      ScanErrorPersists(melody, k, n - 1, stepDuration);
    }
  }

  /** `save_melody` up to the file write: the melody scanned left to right,
      `start_symbol` updated at each trigger and `step_counter` counting the
      other indices. */
  method SaveMelody(melody: seq<string>, stepDuration: real) returns (r: Result<seq<Event>>)
    ensures r == Decode(melody, stepDuration)
  {
    var startSymbol: Option<string> := None;
    var stepCounter := 1;
    var stream: seq<Event> := [];
    for i := 0 to |melody|
      invariant Scan(melody, i, stepDuration) == Ok(DecodeState(startSymbol, stepCounter, stream))
    {
      var symbol := melody[i];
      if symbol != HOLD_SYMBOL || i + 1 == |melody| {
        if startSymbol.Some? {
          var quarterLengthDuration := QuarterLength(stepDuration, stepCounter);
          var event: Event;
          if startSymbol.value == REST_SYMBOL {
            event := Event(Rest, quarterLengthDuration);
          } else {
            var pitch := ParseInt(startSymbol.value);
            if pitch.None? {
              ScanErrorPersists(melody, i + 1, |melody|, stepDuration);
              return Err(ValueError(startSymbol.value));
            }
            event := Event(Note(pitch.value), quarterLengthDuration);
          }
          stream := stream + [event];
          stepCounter := 1;
        }
        startSymbol := Some(symbol);
      } else {
        stepCounter := stepCounter + 1;
      }
    }
    return Ok(stream);
  }

  // ------------------------------------------------- triggers and segments

  /** The trigger indices below `n`, in increasing order. */
  function Triggers(melody: seq<string>, n: nat): (t: seq<nat>)
    requires n <= |melody|
    ensures forall j :: 0 <= j < |t| ==> t[j] < n
  {
    if n == 0 then []
    else Triggers(melody, n - 1) + (if IsTrigger(melody, n - 1) then [n - 1] else [])
  }

  /** The trigger list holds exactly the triggers below `n`, increasing. */
  lemma TriggersShape(melody: seq<string>, n: nat)
    requires n <= |melody|
    ensures var t := Triggers(melody, n);
            (forall j :: 0 <= j < |t| ==> IsTrigger(melody, t[j])) &&
            (forall j, k :: 0 <= j < k < |t| ==> t[j] < t[k]) &&
            (forall i :: 0 <= i < n && IsTrigger(melody, i) ==> i in t)
  {
    TriggersAreTriggers(melody, n);
    TriggersIncrease(melody, n);
    TriggersComplete(melody, n);
  }

  lemma {:induction false} TriggersAreTriggers(melody: seq<string>, n: nat)
    requires n <= |melody|
    ensures forall j :: 0 <= j < |Triggers(melody, n)| ==> IsTrigger(melody, Triggers(melody, n)[j])
  {
    if n > 0 {
      TriggersAreTriggers(melody, n - 1);
      var t0 := Triggers(melody, n - 1);
      var t := Triggers(melody, n);
      assert t == t0 + (if IsTrigger(melody, n - 1) then [n - 1] else []);
      assert forall j :: 0 <= j < |t0| ==> t[j] == t0[j];
    }
  }

  lemma {:induction false} TriggersIncrease(melody: seq<string>, n: nat)
    requires n <= |melody|
    ensures forall j, k :: 0 <= j < k < |Triggers(melody, n)| ==> Triggers(melody, n)[j] < Triggers(melody, n)[k]
  {
    if n > 0 {
      TriggersIncrease(melody, n - 1);
      var t0 := Triggers(melody, n - 1);
      var t := Triggers(melody, n);
      assert t == t0 + (if IsTrigger(melody, n - 1) then [n - 1] else []);
      assert forall j :: 0 <= j < |t0| ==> t[j] == t0[j] && t0[j] < n - 1;
    }
  }

  lemma {:induction false} TriggersComplete(melody: seq<string>, n: nat)
    requires n <= |melody|
    ensures forall i :: 0 <= i < n && IsTrigger(melody, i) ==> i in Triggers(melody, n)
  {
    if n > 0 {
      TriggersComplete(melody, n - 1);
      var t0 := Triggers(melody, n - 1);
      var t := Triggers(melody, n);
      assert t == t0 + (if IsTrigger(melody, n - 1) then [n - 1] else []);
      forall i | 0 <= i < n && IsTrigger(melody, i)
        ensures i in t
      {
        if i < n - 1 {
          var j :| 0 <= j < |t0| && t0[j] == i;
          assert t[j] == i;
        } else {
          assert t[|t| - 1] == i;
        }
      }
    }
  }

  /** Where the step count of segment `j` starts: 0 for the first one, since
      the counter is not reset at the first onset, else its trigger index. */
  function Base(t: seq<nat>, j: nat): nat
    requires j < |t|
  {
    if j == 0 then 0 else t[j]
  }

  /** What is emitted between consecutive triggers: the symbol at trigger
      `j` and the number of steps up to trigger `j + 1`. */
  function Segments(melody: seq<string>, t: seq<nat>): (segs: seq<(string, int)>)
    requires forall j :: 0 <= j < |t| ==> t[j] < |melody|
    ensures |segs| == (if |t| == 0 then 0 else |t| - 1)
  {
    seq(if |t| == 0 then 0 else |t| - 1, j requires 0 <= j < |t| - 1 => (melody[t[j]], t[j + 1] - Base(t, j)))
  }

  /** The segments turned into events in order; the first symbol that is
      neither `"r"` nor a number raises ValueError. */
  function Realize(segs: seq<(string, int)>, stepDuration: real): Result<seq<Event>> {
    if segs == [] then Ok([])
    else
      var last := segs[|segs| - 1];
      match Realize(segs[..|segs| - 1], stepDuration)
      case Err(e) => Err(e)
      case Ok(evs) =>
        match ToEvent(last.0, QuarterLength(stepDuration, last.1))
        case Err(e) => Err(e)
        case Ok(ev) => Ok(evs + [ev])
  }

  /** Realising succeeds iff every segment converts, and then gives one
      event per segment, in order. */
  lemma {:induction false} RealizeShape(segs: seq<(string, int)>, stepDuration: real)
    ensures Realize(segs, stepDuration).Ok? <==>
      forall j :: 0 <= j < |segs| ==> ToEvent(segs[j].0, QuarterLength(stepDuration, segs[j].1)).Ok?
    ensures Realize(segs, stepDuration).Ok? ==> |Realize(segs, stepDuration).value| == |segs|
    ensures Realize(segs, stepDuration).Ok? ==> forall j :: 0 <= j < |segs| ==>
      ToEvent(segs[j].0, QuarterLength(stepDuration, segs[j].1)) == Ok(Realize(segs, stepDuration).value[j])
  {
    if segs != [] {
      var init := segs[..|segs| - 1];
      RealizeShape(init, stepDuration);
      assert forall j :: 0 <= j < |init| ==> init[j] == segs[j];
    }
  }

  lemma SegmentAt(melody: seq<string>, t: seq<nat>, j: nat)
    requires forall k :: 0 <= k < |t| ==> t[k] < |melody|
    requires j + 1 < |t|
    ensures Segments(melody, t)[j] == (melody[t[j]], t[j + 1] - Base(t, j))
  {
  }

  lemma RealizeSnoc(segs: seq<(string, int)>, x: (string, int), stepDuration: real)
    ensures Realize(segs + [x], stepDuration) ==
      match Realize(segs, stepDuration)
      case Err(e) => Err(e)
      case Ok(evs) =>
        match ToEvent(x.0, QuarterLength(stepDuration, x.1))
        case Err(e) => Err(e)
        case Ok(ev) => Ok(evs + [ev])
  {
    assert (segs + [x])[..|segs|] == segs;
  }

  lemma SegmentsSnoc(melody: seq<string>, t: seq<nat>, i: nat)
    requires |t| >= 1 && i < |melody|
    requires forall j :: 0 <= j < |t| ==> t[j] < |melody|
    ensures Segments(melody, t + [i]) == Segments(melody, t) + [(melody[t[|t| - 1]], i - Base(t, |t| - 1))]
  {
    assert (t + [i])[..|t|] == t;
  }

  /** Loop invariant of `save_melody` in terms of the triggers seen so far:
      the stream holds the realised segments (or the error is the one the
      segments raise); the pending symbol is the one at the last trigger;
      the counter is the number of steps since that trigger, or since index
      0 while it is the first. */
  ghost predicate ScanInv(melody: seq<string>, n: nat, r: Result<DecodeState>, stepDuration: real)
    requires n <= |melody|
  {
    var t := Triggers(melody, n);
    var segs := Realize(Segments(melody, t), stepDuration);
    match r
    case Err(e) => segs == Err(e)
    case Ok(st) =>
      segs == Ok(st.stream) &&
      if |t| == 0 then st.start == None && st.counter == n + 1
      else st.start == Some(melody[t[|t| - 1]]) && st.counter == n - Base(t, |t| - 1)
  }

  lemma ScanInvHold(melody: seq<string>, i: nat, stepDuration: real)
    requires i < |melody| && !IsTrigger(melody, i)
    requires ScanInv(melody, i, Scan(melody, i, stepDuration), stepDuration)
    ensures ScanInv(melody, i + 1, Scan(melody, i + 1, stepDuration), stepDuration)
  {
    assert Triggers(melody, i + 1) == Triggers(melody, i);
  }

  lemma ScanInvFirst(melody: seq<string>, i: nat, stepDuration: real)
    requires i < |melody| && IsTrigger(melody, i) && |Triggers(melody, i)| == 0
    requires ScanInv(melody, i, Scan(melody, i, stepDuration), stepDuration)
    ensures ScanInv(melody, i + 1, Scan(melody, i + 1, stepDuration), stepDuration)
  {
    assert Triggers(melody, i + 1) == [i];
    assert Segments(melody, [i]) == [];
  }

  lemma ScanInvFlush(melody: seq<string>, i: nat, stepDuration: real)
    requires i < |melody| && IsTrigger(melody, i) && |Triggers(melody, i)| > 0
    requires ScanInv(melody, i, Scan(melody, i, stepDuration), stepDuration)
    ensures ScanInv(melody, i + 1, Scan(melody, i + 1, stepDuration), stepDuration)
  {
    var t0 := Triggers(melody, i);
    var t := Triggers(melody, i + 1);
    assert t == t0 + [i];
    var x := (melody[t0[|t0| - 1]], i - Base(t0, |t0| - 1));
    var segs0 := Segments(melody, t0);
    SegmentsSnoc(melody, t0, i);
    RealizeSnoc(segs0, x, stepDuration);
    assert Base(t, |t| - 1) == i;
  }

  lemma {:induction false} ScanBySegments(melody: seq<string>, n: nat, stepDuration: real)
    requires n <= |melody|
    ensures ScanInv(melody, n, Scan(melody, n, stepDuration), stepDuration)
  {
    if n > 0 {
      var i := n - 1;
      ScanBySegments(melody, i, stepDuration);
      if !IsTrigger(melody, i) {
        ScanInvHold(melody, i, stepDuration);
      } else if |Triggers(melody, i)| == 0 {
        ScanInvFirst(melody, i, stepDuration);
      } else {
        ScanInvFlush(melody, i, stepDuration);
      }
    }
  }

  /** The decoder's result is the realisation of the segments between
      consecutive triggers. */
  lemma DecodeBySegments(melody: seq<string>, stepDuration: real)
    ensures Decode(melody, stepDuration) == Realize(Segments(melody, Triggers(melody, |melody|)), stepDuration)
  {
    ScanBySegments(melody, |melody|, stepDuration);
  }

  // ----------------------------------------------------------- properties

  /** A start symbol `save_melody` can turn into an event. */
  predicate Convertible(symbol: string) {
    symbol == REST_SYMBOL || ParseInt(symbol).Some?
  }

  /** Decoding fails exactly when the symbol at some trigger other than the
      last one is neither `"r"` nor a number. */
  lemma DecodeSucceeds(melody: seq<string>, stepDuration: real, t: seq<nat>)
    requires t == Triggers(melody, |melody|)
    ensures Decode(melody, stepDuration).Ok? <==> forall j :: 0 <= j < |t| - 1 ==> Convertible(melody[t[j]])
  {
    DecodeBySegments(melody, stepDuration);
    var segs := Segments(melody, t);
    RealizeShape(segs, stepDuration);
    assert forall j :: 0 <= j < |t| - 1 ==> segs[j].0 == melody[t[j]];
  }

  /** One event fewer than triggers: a non-empty melody emits one event per
      trigger but the last; the empty melody emits none. */
  lemma DecodeEventCount(melody: seq<string>, stepDuration: real)
    ensures Decode(melody, stepDuration).Ok? ==>
      |Decode(melody, stepDuration).value| == (if melody == [] then 0 else |Triggers(melody, |melody|)| - 1)
    ensures melody != [] ==> |Triggers(melody, |melody|)| >= 1
  {
    DecodeBySegments(melody, stepDuration);
    RealizeShape(Segments(melody, Triggers(melody, |melody|)), stepDuration);
    TriggersShape(melody, |melody|);
    if melody != [] {
      assert IsTrigger(melody, |melody| - 1);
    }
  }

  /** Every trigger but the last holds an onset symbol, and the segment
      that starts there spans at least one step. */
  lemma TriggerSegment(melody: seq<string>, t: seq<nat>, j: nat)
    requires t == Triggers(melody, |melody|) && j + 1 < |t|
    ensures melody[t[j]] != HOLD_SYMBOL && t[j + 1] - Base(t, j) >= 1
  {
    TriggersShape(melody, |melody|);
    assert t[j] < t[j + 1];
    assert IsTrigger(melody, t[j]);
  }

  lemma SegmentEvent(melody: seq<string>, t: seq<nat>, segs: seq<(string, int)>, evs: seq<Event>, j: nat, stepDuration: real)
    requires t == Triggers(melody, |melody|) && segs == Segments(melody, t)
    requires Realize(segs, stepDuration) == Ok(evs) && j < |evs|
    ensures j + 1 < |t|
    ensures ToEvent(melody[t[j]], QuarterLength(stepDuration, t[j + 1] - Base(t, j))) == Ok(evs[j])
  {
    RealizeShape(segs, stepDuration);
    SegmentAt(melody, t, j);
    var steps := t[j + 1] - Base(t, j);
    assert segs[j] == (melody[t[j]], steps);
  }

  /** Event `j` starts at trigger `j`, whose symbol is an onset, and lasts
      `step_duration * steps` with `steps >= 1` the distance to the next
      trigger (measured from index 0 for the first event). Its kind is a
      rest for `"r"` and otherwise the note `int(symbol)`. */
  lemma DecodeEvents(melody: seq<string>, stepDuration: real, t: seq<nat>, evs: seq<Event>)
    requires t == Triggers(melody, |melody|)
    requires Decode(melody, stepDuration) == Ok(evs)
    ensures |evs| == (if t == [] then 0 else |t| - 1)
    ensures forall j :: 0 <= j < |evs| ==>
      melody[t[j]] != HOLD_SYMBOL &&
      t[j + 1] - Base(t, j) >= 1 &&
      evs[j].duration == QuarterLength(stepDuration, t[j + 1] - Base(t, j)) &&
      (evs[j].kind.Rest? <==> melody[t[j]] == REST_SYMBOL) &&
      (evs[j].kind.Note? ==> ParseInt(melody[t[j]]) == Some(evs[j].kind.pitch))
  {
    DecodeBySegments(melody, stepDuration);
    var segs := Segments(melody, t);
    RealizeShape(segs, stepDuration);
    forall j | 0 <= j < |evs|
      ensures melody[t[j]] != HOLD_SYMBOL && t[j + 1] - Base(t, j) >= 1
      ensures evs[j].duration == QuarterLength(stepDuration, t[j + 1] - Base(t, j))
      ensures evs[j].kind.Rest? <==> melody[t[j]] == REST_SYMBOL
      ensures evs[j].kind.Note? ==> ParseInt(melody[t[j]]) == Some(evs[j].kind.pitch)
    {
      SegmentEvent(melody, t, segs, evs, j, stepDuration);
      TriggerSegment(melody, t, j);
    }
  }

  lemma {:induction false} TriggersIgnoreLastToken(melody: seq<string>, x: string, y: string, n: nat)
    requires n <= |melody| + 1
    ensures Triggers(melody + [x], n) == Triggers(melody + [y], n)
  {
    if n > 0 {
      TriggersIgnoreLastToken(melody, x, y, n - 1);
      assert IsTrigger(melody + [x], n - 1) == IsTrigger(melody + [y], n - 1);
    }
  }

  /** The last token never reaches the output: whatever it is (a final onset
      or a final `"_"`), it only triggers the flush of the pending event and
      is itself never emitted nor counted. */
  lemma FinalTokenNeverEmitted(melody: seq<string>, x: string, y: string, stepDuration: real)
    ensures Decode(melody + [x], stepDuration) == Decode(melody + [y], stepDuration)
  {
    var mx, my := melody + [x], melody + [y];
    TriggersIgnoreLastToken(melody, x, y, |melody| + 1);
    var t := Triggers(mx, |mx|);
    forall j | 0 <= j < |t| - 1
      ensures mx[t[j]] == my[t[j]]
    {
      assert t[j] < t[|t| - 1];
    }
    assert Segments(mx, t) == Segments(my, t);
    DecodeBySegments(mx, stepDuration);
    DecodeBySegments(my, stepDuration);
  }

  // ------------------------------------------------------------ round trip

  lemma {:induction false} ScanHolds(melody: seq<string>, a: nat, b: nat, stepDuration: real, st: DecodeState)
    requires a <= b < |melody|
    requires forall i :: a <= i < b ==> melody[i] == HOLD_SYMBOL
    requires Scan(melody, a, stepDuration) == Ok(st)
    ensures Scan(melody, b, stepDuration) == Ok(st.(counter := st.counter + (b - a)))
    decreases b - a
  {
    if a < b {
      ScanHolds(melody, a, b - 1, stepDuration, st);
    }
  }

  /** Encodings whose events all take a whole, positive number of steps. */
  predicate ExactlyQuantised(song: seq<Event>, timeStep: real)
    requires timeStep != 0.0
  {
    forall i :: 0 <= i < |song| ==>
      Steps(song[i], timeStep) >= 1 && QuarterLength(timeStep, Steps(song[i], timeStep)) == song[i].duration
  }

  lemma QuantisedPrefix(song: seq<Event>, n: nat, timeStep: real)
    requires timeStep != 0.0 && ExactlyQuantised(song, timeStep) && n <= |song|
    ensures ExactlyQuantised(song[..n], timeStep)
  {
    forall i | 0 <= i < n
      ensures Steps(song[..n][i], timeStep) >= 1
      ensures QuarterLength(timeStep, Steps(song[..n][i], timeStep)) == song[..n][i].duration
    {
      assert song[..n][i] == song[i];
    }
  }

  /** The decoder's state once it has read the encoding of `song`, when
      more tokens follow. */
  function StateAfter(song: seq<Event>, timeStep: real): DecodeState
    requires timeStep != 0.0
  {
    if song == [] then DecodeState(None, 1, [])
    else
      var e := song[|song| - 1];
      DecodeState(Some(OnsetSymbol(e.kind)), Steps(e, timeStep), song[..|song| - 1])
  }

  /** The call of `ToEvent` that flushes an encoded event gives it back. */
  lemma FlushEncoded(e: Event, timeStep: real)
    requires timeStep != 0.0 && ExactlyQuantised([e], timeStep)
    ensures ToEvent(OnsetSymbol(e.kind), QuarterLength(timeStep, Steps(e, timeStep))) == Ok(e)
  {
    assert [e][0] == e;
    ToEventOfOnset(e.kind, QuarterLength(timeStep, Steps(e, timeStep)));
  }

  /** Reading the onset of the next event flushes the previous one. */
  lemma ScanOnset(m: seq<string>, p: nat, init: seq<Event>, timeStep: real)
    requires timeStep != 0.0 && ExactlyQuantised(init, timeStep)
    requires p < |m| && IsTrigger(m, p)
    requires Scan(m, p, timeStep) == Ok(StateAfter(init, timeStep))
    ensures Scan(m, p + 1, timeStep) == Ok(DecodeState(Some(m[p]), 1, init))
  {
    if init != [] {
      var prev := init[|init| - 1];
      assert ExactlyQuantised([prev], timeStep) by {
        assert [prev][0] == init[|init| - 1];
      }
      FlushEncoded(prev, timeStep);
      FrontAndLast(init);
    }
  }

  /** Reading one encoded event: its onset flushes the previous event and
      its holds count its steps. */
  lemma ScanRun(m: seq<string>, p: nat, e: Event, init: seq<Event>, timeStep: real)
    requires timeStep != 0.0 && ExactlyQuantised(init, timeStep) && Steps(e, timeStep) >= 1
    requires p + Steps(e, timeStep) < |m|
    requires m[p..p + Steps(e, timeStep)] == EventRun(OnsetSymbol(e.kind), Steps(e, timeStep))
    requires Scan(m, p, timeStep) == Ok(StateAfter(init, timeStep))
    ensures Scan(m, p + Steps(e, timeStep), timeStep) == Ok(StateAfter(init + [e], timeStep))
  {
    var k := Steps(e, timeStep);
    RunTokens(m, p, OnsetSymbol(e.kind), k);
    ScanOnset(m, p, init, timeStep);
    ScanHolds(m, p + 1, p + k, timeStep, DecodeState(Some(OnsetSymbol(e.kind)), 1, init));
    assert (init + [e])[..|init + [e]| - 1] == init;
  }

  /** A run inside a token list: its onset, then holds. */
  lemma RunTokens(m: seq<string>, p: nat, symbol: string, k: nat)
    requires k >= 1 && p + k <= |m| && m[p..p + k] == EventRun(symbol, k)
    ensures m[p] == symbol
    ensures forall i :: p + 1 <= i < p + k ==> m[i] == HOLD_SYMBOL
  {
    assert m[p] == m[p..p + k][0];
    forall i | p + 1 <= i < p + k
      ensures m[i] == HOLD_SYMBOL
    {
      assert m[i] == m[p..p + k][i - p];
    }
  }

  lemma {:induction false} ScanEncoded(song: seq<Event>, rest: seq<string>, timeStep: real)
    requires timeStep != 0.0 && ExactlyQuantised(song, timeStep) && |rest| >= 1
    ensures Scan(EncodeTokens(song, timeStep) + rest, |EncodeTokens(song, timeStep)|, timeStep) == Ok(StateAfter(song, timeStep))
  {
    if song != [] {
      var init := song[..|song| - 1];
      var e := song[|song| - 1];
      QuantisedPrefix(song, |song| - 1, timeStep);
      ScanEncoded(init, EventRun(OnsetSymbol(e.kind), Steps(e, timeStep)) + rest, timeStep);
      ScanEncodedLast(song, rest, timeStep);
    }
  }

  /** The inductive step of `ScanEncoded`: reading the run of the last
      event after the encoding of the others. */
  lemma ScanEncodedLast(song: seq<Event>, rest: seq<string>, timeStep: real)
    requires timeStep != 0.0 && ExactlyQuantised(song, timeStep) && |rest| >= 1 && song != []
    requires var init := song[..|song| - 1];
             var e := song[|song| - 1];
             Scan(EncodeTokens(init, timeStep) + (EventRun(OnsetSymbol(e.kind), Steps(e, timeStep)) + rest),
                  |EncodeTokens(init, timeStep)|, timeStep)
               == Ok(StateAfter(init, timeStep))
    ensures Scan(EncodeTokens(song, timeStep) + rest, |EncodeTokens(song, timeStep)|, timeStep) == Ok(StateAfter(song, timeStep))
  {
    var init := song[..|song| - 1];
    var e := song[|song| - 1];
    var m := EncodeTokens(song, timeStep) + rest;
    var p := |EncodeTokens(init, timeStep)|;
    EncodedLastRun(song, rest, timeStep);
    QuantisedPrefix(song, |song| - 1, timeStep);
    ScanRun(m, p, e, init, timeStep);
    FrontAndLast(song);
  }

  /** Where the run of the last event sits in an encoding followed by more
      tokens. */
  lemma EncodedLastRun(song: seq<Event>, rest: seq<string>, timeStep: real)
    requires timeStep != 0.0 && ExactlyQuantised(song, timeStep) && song != []
    ensures var e := song[|song| - 1];
            var k := Steps(e, timeStep);
            var run := EventRun(OnsetSymbol(e.kind), k);
            var before := EncodeTokens(song[..|song| - 1], timeStep);
            var m := EncodeTokens(song, timeStep) + rest;
            k >= 1 && m == before + (run + rest) && |before| + k <= |m| &&
            m[|before|..|before| + k] == run && |EncodeTokens(song, timeStep)| == |before| + k
  {
    var e := song[|song| - 1];
    var k := Steps(e, timeStep);
    var run := EventRun(OnsetSymbol(e.kind), k);
    var before := EncodeTokens(song[..|song| - 1], timeStep);
    assert k >= 1 by {
      assert Steps(song[|song| - 1], timeStep) >= 1;
    }
    assert |run| == k;
    assert EncodeTokens(song, timeStep) == before + run;
  }

  /** Round trip: with one extra token after the encoding of an exactly
      quantised song (any token will do), the decoder gives back the song. */
  lemma DecodeEncodeRoundTrip(song: seq<Event>, timeStep: real, sentinel: string)
    requires timeStep != 0.0 && ExactlyQuantised(song, timeStep)
    ensures Decode(EncodeTokens(song, timeStep) + [sentinel], timeStep) == Ok(song)
  {
    var m := EncodeTokens(song, timeStep) + [sentinel];
    var n := |EncodeTokens(song, timeStep)|;
    ScanEncoded(song, [sentinel], timeStep);
    assert |m| == n + 1 && IsTrigger(m, n);
    ScanOnset(m, n, song, timeStep);
  }

  /** An exactly quantised event one step shorter is still exactly
      quantised, with one step fewer. */
  lemma ShortenByOneStep(e: Event, timeStep: real)
    requires timeStep != 0.0 && Steps(e, timeStep) >= 2
    requires QuarterLength(timeStep, Steps(e, timeStep)) == e.duration
    ensures var shorter := e.(duration := e.duration - timeStep);
            Steps(shorter, timeStep) == Steps(e, timeStep) - 1 &&
            QuarterLength(timeStep, Steps(shorter, timeStep)) == shorter.duration
  {
    var k := Steps(e, timeStep);
    var shorter := e.(duration := e.duration - timeStep);
    assert shorter.duration == timeStep * (k - 1) as real;
    assert shorter.duration / timeStep == (k - 1) as real;
  }

  /** Without the extra token the encoding ends on the last event's run, so
      a final `"_"` is lost: the last event comes back one step shorter. */
  lemma TrailingHoldShortensLastEvent(song: seq<Event>, timeStep: real)
    requires timeStep != 0.0 && ExactlyQuantised(song, timeStep) && song != []
    requires Steps(song[|song| - 1], timeStep) >= 2
    ensures var last := song[|song| - 1];
            Decode(EncodeTokens(song, timeStep), timeStep)
              == Ok(song[..|song| - 1] + [last.(duration := last.duration - timeStep)])
  {
    var last := song[|song| - 1];
    var song' := song[..|song| - 1] + [last.(duration := last.duration - timeStep)];
    ShortenedSong(song, timeStep);
    DecodeWithFinalHold(EncodeTokens(song, timeStep), EncodeTokens(song', timeStep), song', timeStep);
  }

  /** An encoding followed by a `"_"` decodes like one followed by `"/"`,
      that is, to the song. */
  lemma DecodeWithFinalHold(tokens: seq<string>, enc: seq<string>, song: seq<Event>, timeStep: real)
    requires timeStep != 0.0 && ExactlyQuantised(song, timeStep) && enc == EncodeTokens(song, timeStep)
    requires tokens == enc + [HOLD_SYMBOL]
    ensures Decode(tokens, timeStep) == Ok(song)
  {
    FinalTokenNeverEmitted(enc, HOLD_SYMBOL, DELIMITER_SYMBOL, timeStep);
    DecodeEncodeRoundTrip(song, timeStep, DELIMITER_SYMBOL);
  }

  /** The song with its last event one step shorter is still exactly
      quantised, and its encoding is that of the song without the final
      `"_"`. */
  lemma ShortenedSong(song: seq<Event>, timeStep: real)
    requires timeStep != 0.0 && ExactlyQuantised(song, timeStep) && song != []
    requires Steps(song[|song| - 1], timeStep) >= 2
    ensures var last := song[|song| - 1];
            var song' := song[..|song| - 1] + [last.(duration := last.duration - timeStep)];
            ExactlyQuantised(song', timeStep) &&
            EncodeTokens(song, timeStep) == EncodeTokens(song', timeStep) + [HOLD_SYMBOL]
  {
    var init := song[..|song| - 1];
    var last := song[|song| - 1];
    var k := Steps(last, timeStep);
    var symbol := OnsetSymbol(last.kind);
    var shorter := last.(duration := last.duration - timeStep);
    ShortenByOneStep(last, timeStep);
    var song' := init + [shorter];
    assert song'[..|song'| - 1] == init && song'[|song'| - 1] == shorter;
    ShortenedQuantised(song, timeStep);
    var before := EncodeTokens(init, timeStep);
    assert EventRun(symbol, k) == EventRun(symbol, k - 1) + [HOLD_SYMBOL];
    assert EncodeTokens(song, timeStep) == before + EventRun(symbol, k - 1) + [HOLD_SYMBOL];
    assert EncodeTokens(song', timeStep) == before + EventRun(symbol, k - 1);
  }

  lemma ShortenedQuantised(song: seq<Event>, timeStep: real)
    requires timeStep != 0.0 && ExactlyQuantised(song, timeStep) && song != []
    requires Steps(song[|song| - 1], timeStep) >= 2
    ensures var last := song[|song| - 1];
            ExactlyQuantised(song[..|song| - 1] + [last.(duration := last.duration - timeStep)], timeStep)
  {
    var init := song[..|song| - 1];
    var last := song[|song| - 1];
    var song' := init + [last.(duration := last.duration - timeStep)];
    ShortenByOneStep(last, timeStep);
    QuantisedPrefix(song, |song| - 1, timeStep);
    forall i | 0 <= i < |song'|
      ensures Steps(song'[i], timeStep) >= 1
      ensures QuarterLength(timeStep, Steps(song'[i], timeStep)) == song'[i].duration
    {
      if i < |init| {
        assert song'[i] == init[i];
      }
    }
  }

  /** The pipeline round trip: a song that passes the duration filter,
      encoded with the default time step, written as text and split again,
      decodes to itself once one more token follows it. */
  lemma AcceptedSongRoundTrip(song: seq<Event>, sentinel: string)
    requires forall i :: 0 <= i < |song| ==> song[i].duration in ACCEPTABLE_DURATIONS
    ensures Decode(Split(Join(EncodeTokens(song, TIME_STEP))) + [sentinel], TIME_STEP) == Ok(song)
  {
    AcceptedSongIsQuantised(song);
    EncodedSongSplits(song, TIME_STEP);
    assert Split(Join(EncodeTokens(song, TIME_STEP))) == EncodeTokens(song, TIME_STEP);
    DecodeEncodeRoundTrip(song, TIME_STEP, sentinel);
  }

  /** Every duration the filter accepts is a whole number of sixteenths. */
  lemma AcceptedSongIsQuantised(song: seq<Event>)
    requires forall i :: 0 <= i < |song| ==> song[i].duration in ACCEPTABLE_DURATIONS
    ensures ExactlyQuantised(song, TIME_STEP)
  {
    forall i | 0 <= i < |song|
      ensures Steps(song[i], TIME_STEP) >= 1 && QuarterLength(TIME_STEP, Steps(song[i], TIME_STEP)) == song[i].duration
    {
      var d := song[i].duration;
      AcceptableDurationsAreExact(d);
      var k := Trunc(d / TIME_STEP);
      assert Steps(song[i], TIME_STEP) == k;
      assert QuarterLength(TIME_STEP, k) == k as real * TIME_STEP;
    }
  }

  // ------------------------------------------------------------ scenarios

  /** The encoding of a quarter-note middle C and an eighth rest decodes to
      the note and a sixteenth rest, since its final `"_"` is lost; with a
      trailing `"/"` it decodes to the song itself. */
  lemma DecodeScenario()
    ensures Decode(["60", "_", "_", "_", "r", "_"], 0.25) == Ok([Event(Note(60), 1.0), Event(Rest, 0.25)])
    ensures Decode(["60", "_", "_", "_", "r", "_", "/"], 0.25) == Ok([Event(Note(60), 1.0), Event(Rest, 0.5)])
  {
    var song := [Event(Note(60), 1.0), Event(Rest, 0.5)];
    EncodeScenario();
    assert Steps(song[0], 0.25) == 4 by { assert song[0].duration / 0.25 == 4.0; }
    assert Steps(song[1], 0.25) == 2 by { assert song[1].duration / 0.25 == 2.0; }
    assert ExactlyQuantised(song, 0.25);
    DecodeEncodeRoundTrip(song, 0.25, "/");
    TrailingHoldShortensLastEvent(song, 0.25);
    assert song[..1] + [song[1].(duration := 0.5 - 0.25)] == [Event(Note(60), 1.0), Event(Rest, 0.25)];
    assert ["60", "_", "_", "_", "r", "_"] + ["/"] == ["60", "_", "_", "_", "r", "_", "/"];
  }

  /** Two `"_"` before the first onset are not dropped: they lengthen the
      first note from two steps to four. */
  lemma LeadingHoldsScenario()
    ensures Decode(["_", "_", "60", "_", "r", "/"], 0.25) == Ok([Event(Note(60), 1.0), Event(Rest, 0.25)])
  {
    var m := ["_", "_", "60", "_", "r", "/"];
    var e1, e2 := Event(Note(60), 1.0), Event(Rest, 0.25);
    assert Scan(m, 2, 0.25) == Ok(DecodeState(None, 3, []));
    assert Scan(m, 4, 0.25) == Ok(DecodeState(Some("60"), 4, []));
    assert IntToString(60) == "60" by {
      assert NatToString(60) == NatToString(6) + [DigitChar(0)];
    }
    ParseIntToString(60);
    assert ToEvent("60", QuarterLength(0.25, 4)) == Ok(e1);
    assert [] + [e1] == [e1];
    assert Scan(m, 5, 0.25) == Ok(DecodeState(Some("r"), 1, [e1]));
    assert [e1] + [e2] == [e1, e2];
    assert ToEvent("r", QuarterLength(0.25, 1)) == Ok(e2);
  }
}
