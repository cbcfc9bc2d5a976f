/** The value types of the plug-in: cycle modes, key mappings and per-key cycle state. */
module Models {
  import opened Wrappers

  /** What happens after the last candidate: ONE_OF stays on it, LOOP wraps to the first. */
  datatype CycleMode = ONE_OF | LOOP

  /** Kotlin's `CycleMode.name`. */
  function ModeName(mode: CycleMode): string {
    match mode
    case ONE_OF => "ONE_OF"
    case LOOP => "LOOP"
  }

  /** Kotlin's `CycleMode.valueOf(name)`; `None` stands for the IllegalArgumentException it throws. */
  function ModeValueOf(name: string): (r: Option<CycleMode>)
    ensures r.Some? <==> name == "ONE_OF" || name == "LOOP"
  {
    if name == "ONE_OF" then Some(ONE_OF)
    else if name == "LOOP" then Some(LOOP)
    else None
  }

  /** The two enum entries have distinct names, and `valueOf` inverts `name` in both directions. */
  lemma ModeNameRoundTrip(mode: CycleMode, name: string)
    ensures ModeValueOf(ModeName(mode)) == Some(mode)
    ensures ModeValueOf(name) == Some(mode) <==> name == ModeName(mode)
    ensures ModeName(ONE_OF) != ModeName(LOOP)
  {
  }

  /** The fields of a `SmartChrMapping`, before its constructor's check. */
  datatype MappingRecord = MappingRecord(
    key: char,
    candidates: seq<string>,
    mode: CycleMode,
    fileTypes: seq<string>,
    enabled: bool)

  /** A key mapping; its constructor refuses an empty candidate list, so every value has one. */
  type SmartChrMapping = m: MappingRecord | |m.candidates| > 0
    witness MappingRecord(' ', [""], LOOP, ["*"], true)

  /** Why a mapping could not be built. */
  datatype MappingError = EmptyCandidates

  /**
   * The `SmartChrMapping` constructor with its default arguments; the `require` in its
   * `init` block becomes a `Failure`.
   */
  function NewMapping(
    key: char,
    candidates: seq<string>,
    mode: CycleMode := LOOP,
    fileTypes: seq<string> := ["*"],
    enabled: bool := true): (r: Result<SmartChrMapping, MappingError>)
    ensures r.Failure? <==> |candidates| == 0
    ensures r.Success? ==> r.value == MappingRecord(key, candidates, mode, fileTypes, enabled)
  {
    if |candidates| == 0 then Failure(EmptyCandidates)
    else Success(MappingRecord(key, candidates, mode, fileTypes, enabled))
  }

  /** Leaving mode, fileTypes and enabled out gives LOOP, every file type, and enabled. */
  lemma NewMappingDefaults(key: char, candidates: seq<string>)
    requires |candidates| > 0
    ensures NewMapping(key, candidates).Success?
    ensures NewMapping(key, candidates).value.mode == LOOP
    ensures NewMapping(key, candidates).value.fileTypes == ["*"]
    ensures NewMapping(key, candidates).value.enabled
  {
  }

  /**
   * The cycle state kept for one trigger character. The index is a `nat` because the only
   * writer stores a position of a candidate list.
   */
  datatype KeyState = KeyState(
    currentIndex: nat := 0,
    lastInserted: Option<string> := None,
    lastTypedTime: int := 0)
}
