/** The DS402 (CiA 402) device-control words: the controlword (object 6040h)
    built from a requested transition, and the statusword (object 6041h)
    decoded into a drive state plus four flag bits. */
module DriveWords {
  import opened Results
  import opened Dictionary

  /** State-machine transitions a caller can request. */
  datatype Transition =
    | Shutdown
    | SwitchOn
    | EnableOperation
    | DisableVoltage
    | QuickStop
    | DisableOperation
    | FaultReset

  /** Command bits selecting the transition (bits 0-3 and 7). */
  function BaseCode(t: Transition): bv16 {
    match t
    case Shutdown         => 0x06
    case SwitchOn         => 0x07
    case EnableOperation  => 0x0F
    case DisableVoltage   => 0x00
    case QuickStop        => 0x02
    case DisableOperation => 0x07
    case FaultReset       => 0x80
  }

  /** Operation-mode specific bits 4-6: "change set immediately" for the
      position-profile modes, all ramps enabled for the velocity family. */
  function RampBits(m: Mode): bv16 {
    match m
    case PositionProfile | RelativePositionProfile => 0x20
    case AnalogVelocity | AnalogPosition | Velocity | VelocityPosition => 0x70
    case _ => 0
  }

  const HaltBit: bv16 := 0x100

  /** `ControlWord(mode, transition, halt).toRaw()`: the three parts OR'ed together.
      The parts occupy disjoint bit fields, so each one can be read back from
      the word alone. */
  function ControlWordToRaw(m: Mode, t: Transition, halt: bool): (w: bv16)
    ensures w & 0x8F == BaseCode(t)
    ensures w & 0x70 == RampBits(m)
    ensures (w & HaltBit != 0) == halt
    ensures w & 0xFE00 == 0
  {
    var word := BaseCode(t) | RampBits(m);
    if halt then word | HaltBit else word
  }

  /** The halt request toggles bit 8 and nothing else. */
  lemma HaltTogglesOnlyBit8(m: Mode, t: Transition)
    ensures ControlWordToRaw(m, t, true) == ControlWordToRaw(m, t, false) | HaltBit
    ensures ControlWordToRaw(m, t, false) < 0x100
  {
  }

  /** ENABLE_OPERATION always yields 0xF in the low nibble, whatever the mode. */
  lemma EnableOperationLowNibble(m: Mode, halt: bool)
    ensures ControlWordToRaw(m, EnableOperation, halt) & 0xF == 0xF
  {
  }

  /** Mode bits by family: exactly bit 5 for the position-profile modes, bits 4-6
      for the velocity and analog modes, nothing otherwise. */
  lemma ModeBitsByFamily(m: Mode, t: Transition, halt: bool)
    ensures m in {PositionProfile, RelativePositionProfile} ==>
              ControlWordToRaw(m, t, halt) & 0x70 == 0x20
    ensures m in {Velocity, VelocityPosition, AnalogVelocity, AnalogPosition} ==>
              ControlWordToRaw(m, t, halt) & 0x70 == 0x70
    ensures m in {VelocityPositionProfile, RelativePosition, NoneMode, VelocityProfile, TorqueProfile} ==>
              ControlWordToRaw(m, t, halt) & 0x70 == 0
  {
  }

  /** Drive states of the DS402 state machine. */
  datatype State =
    | NotReadyToSwitchOn
    | SwitchOnDisabled
    | ReadyToSwitchOn
    | SwitchedOn
    | OperationEnabled
    | QuickStopActive
    | FaultReactionActive
    | Fault

  /** `parseState`: first the patterns under mask 0x4F, then those under 0x6F;
      a value matching neither is an error, never a default state. */
  function ParseState(b: bv8): (r: Result<State>)
    ensures r.Err? ==> r.error == UnknownState
  {
    var low := b & 0x4F;
    if low == 0x00 then Ok(NotReadyToSwitchOn)
    else if low == 0x40 then Ok(SwitchOnDisabled)
    else if low == 0x0F then Ok(FaultReactionActive)
    else if low == 0x08 then Ok(Fault)
    else
      var high := b & 0x6F;
      if high == 0x21 then Ok(ReadyToSwitchOn)
      else if high == 0x23 then Ok(SwitchedOn)
      else if high == 0x27 then Ok(OperationEnabled)
      else if high == 0x07 then Ok(QuickStopActive)
      else Err(UnknownState)
  }

  /** Reference description of the state patterns: each state's mask and value,
      and whether it belongs to the first (0x4F) pass. */
  function StateMask(s: State): bv8 {
    if FirstPass(s) then 0x4F else 0x6F
  }

  predicate FirstPass(s: State) {
    s in {NotReadyToSwitchOn, SwitchOnDisabled, FaultReactionActive, Fault}
  }

  function StatePattern(s: State): bv8 {
    match s
    case NotReadyToSwitchOn  => 0x00
    case SwitchOnDisabled    => 0x40
    case FaultReactionActive => 0x0F
    case Fault               => 0x08
    case ReadyToSwitchOn     => 0x21
    case SwitchedOn          => 0x23
    case OperationEnabled    => 0x27
    case QuickStopActive     => 0x07
  }

  predicate Matches(b: bv8, s: State) {
    b & StateMask(s) == StatePattern(s)
  }

  predicate MatchesFirstPass(b: bv8) {
    Matches(b, NotReadyToSwitchOn) || Matches(b, SwitchOnDisabled)
    || Matches(b, FaultReactionActive) || Matches(b, Fault)
  }

  /** ParseState against the pattern table, both directions: a first-pass state is
      decoded exactly when its pattern matches; a second-pass state exactly when its
      pattern matches and no first-pass pattern does; and decoding fails exactly when
      no pattern matches at all. */
  lemma ParseStateSpec(b: bv8, s: State)
    ensures FirstPass(s) ==> (ParseState(b) == Ok(s) <==> Matches(b, s))
    ensures !FirstPass(s) ==> (ParseState(b) == Ok(s) <==> Matches(b, s) && !MatchesFirstPass(b))
    ensures ParseState(b).Err? <==> MatchesNone(b)
  {
    if FirstPass(s) {
      ParseStateFirstPass(b, s);
    } else {
      ParseStateSecondPass(b, s);
    }
    ParseStateFails(b);
  }

  lemma ParseStateFirstPass(b: bv8, s: State)
    requires FirstPass(s)
    ensures ParseState(b) == Ok(s) <==> Matches(b, s)
  {
  }

  lemma ParseStateSecondPass(b: bv8, s: State)
    requires !FirstPass(s)
    ensures ParseState(b) == Ok(s) <==> Matches(b, s) && !MatchesFirstPass(b)
  {
  }

  predicate MatchesNone(b: bv8) {
    !MatchesFirstPass(b) && !Matches(b, ReadyToSwitchOn) && !Matches(b, SwitchedOn)
    && !Matches(b, OperationEnabled) && !Matches(b, QuickStopActive)
  }

  lemma ParseStateFails(b: bv8)
    ensures ParseState(b).Err? <==> MatchesNone(b)
  {
    if ParseState(b).Err? {
      ParseStateFailsOnlyUnmatched(b);
    } else {
      ParseStateSucceedsOnMatch(b);
    }
  }

  lemma ParseStateFailsOnlyUnmatched(b: bv8)
    requires ParseState(b).Err?
    ensures MatchesNone(b)
  {
  }

  lemma ParseStateSucceedsOnMatch(b: bv8)
    requires ParseState(b).Ok?
    ensures !MatchesNone(b)
  {
  }

  /** Each of the eight patterns decodes to its own state, so the states are distinct. */
  lemma PatternDecodesToItsState(s: State)
    ensures ParseState(StatePattern(s)) == Ok(s)
  {
  }

  /** A value matching neither pass is rejected (0x01 is one). */
  lemma SomeValueIsUnknown()
    ensures ParseState(0x01) == Err(UnknownState)
  {
  }

  /** The decoded status word. */
  datatype StatusWord = StatusWord(
    raw: bv16,
    state: State,
    voltageEnabled: bool,
    warning: bool,
    targetReached: bool,
    internalLimitActive: bool)

  function StateBits(raw: bv16): bv8 {
    (raw & 0x6F) as bv8
  }

  /** `StatusWord::fromRaw`: the state from bits 0-3, 5, 6; independent flag bits;
      the raw word kept unchanged. */
  function StatusWordFromRaw(raw: bv16): (r: Result<StatusWord>)
    ensures r.Ok? <==> ParseState(StateBits(raw)).Ok?
    ensures r.Ok? ==> r.value.state == ParseState(StateBits(raw)).value
    ensures r.Err? ==> r.error == UnknownState
    ensures r.Ok? ==> r.value.raw == raw
    ensures r.Ok? ==> r.value.voltageEnabled == (raw & 0x0010 != 0)
    ensures r.Ok? ==> r.value.warning == (raw & 0x0080 != 0)
    ensures r.Ok? ==> r.value.targetReached == (raw & 0x0400 != 0)
    ensures r.Ok? ==> r.value.internalLimitActive == (raw & 0x0800 != 0)
  {
    var state :- ParseState(StateBits(raw));
    Ok(StatusWord(raw, state, raw & 0x0010 != 0, raw & 0x0080 != 0,
                  raw & 0x0400 != 0, raw & 0x0800 != 0))
  }

  /** The decoded state depends only on raw & 0x6F: flipping bit 4, bit 7 or any of
      bits 8-15 never changes it, nor whether decoding succeeds. */
  lemma StateIgnoresFlagBits(raw: bv16, flips: bv16)
    requires flips & 0x6F == 0
    ensures StatusWordFromRaw(raw ^ flips).Ok? == StatusWordFromRaw(raw).Ok?
    ensures StatusWordFromRaw(raw).Ok? ==>
              StatusWordFromRaw(raw ^ flips).value.state == StatusWordFromRaw(raw).value.state
  {
    assert StateBits(raw ^ flips) == StateBits(raw);
  }

  /** The value exercised by the driver's tests: 0x27 with warning and limit bits
      decodes to OPERATION_ENABLED with both flags raised. */
  lemma OperationEnabledExample()
    ensures StatusWordFromRaw(0x0800 | 0x0080 | 0x27)
         == Ok(StatusWord(0x08A7, OperationEnabled, false, true, false, true))
  {
  }
}
