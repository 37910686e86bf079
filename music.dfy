/** The monophonic note/rest stream the codec works on, and the fixed token
    literals of the time-series text format. */
module Music {
  import opened PyText

  /** A note carries its MIDI number; a rest carries nothing. */
  datatype Kind = Note(pitch: int) | Rest

  /** One element of a flattened `notesAndRests` stream: its kind and its
      length in quarter notes (exact rationals, never floats). */
  datatype Event = Event(kind: Kind, duration: real)

  const REST_SYMBOL: string := "r"
  const HOLD_SYMBOL: string := "_"
  const DELIMITER_SYMBOL: string := "/"

  /** The token that starts an event: the decimal MIDI number of a note,
      `"r"` for a rest. */
  function OnsetSymbol(k: Kind): (s: string)
    ensures IsWord(s)
    ensures s != HOLD_SYMBOL && s != DELIMITER_SYMBOL
    ensures s == REST_SYMBOL <==> k.Rest?
  {
    match k
    case Rest => REST_SYMBOL
    case Note(p) =>
      var s := IntToString(p);
      assert s[0] != 'r' && s[0] != '_' && s[0] != '/';
      s
  }
}
