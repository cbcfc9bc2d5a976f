/**
 * The persisted settings: a list of `MappingState` records (strings in place of the enum and
 * the key character), with conversions to and from `SmartChrMapping` and the list edits.
 */
module Settings {
  import opened Wrappers
  import opened Models

  /** The serialisable form of one mapping, with the field defaults of the source. */
  datatype MappingState = MappingState(
    key: string := "",
    candidates: seq<string> := [],
    mode: string := "LOOP",
    fileTypes: seq<string> := ["*"],
    enabled: bool := true)

  type SettingsState = seq<MappingState>

  /** One mapping in its persisted form: the key as a one-character string, the mode by name. */
  function ToState(m: SmartChrMapping): (s: MappingState)
    ensures |s.key| == 1 && s.key[0] == m.key
    ensures ModeValueOf(s.mode) == Some(m.mode)
    ensures s.candidates == m.candidates && s.fileTypes == m.fileTypes && s.enabled == m.enabled
  {
    MappingState([m.key], m.candidates, ModeName(m.mode), m.fileTypes, m.enabled)
  }

  /**
   * The conversion inside `getMappings`: an empty key string becomes a space, an unknown
   * mode name becomes LOOP, and an empty candidate list makes the constructor fail.
   */
  function FromState(s: MappingState): (r: Result<SmartChrMapping, MappingError>)
    ensures r.Failure? <==> |s.candidates| == 0
    ensures r.Success? ==> r.value.key == (if |s.key| == 0 then ' ' else s.key[0])
    ensures r.Success? && s.mode != "ONE_OF" ==> r.value.mode == LOOP
    ensures r.Success? && s.mode == "ONE_OF" ==> r.value.mode == ONE_OF
    ensures r.Success? ==> r.value.candidates == s.candidates
    ensures r.Success? ==> r.value.fileTypes == s.fileTypes && r.value.enabled == s.enabled
  {
    var key := if |s.key| > 0 then s.key[0] else ' ';
    var mode := ModeValueOf(s.mode).GetOr(LOOP);
    NewMapping(key, s.candidates, mode, s.fileTypes, s.enabled)
  }

  /** Converting a mapping to its persisted form and back gives the same mapping. */
  lemma StateRoundTrip(m: SmartChrMapping)
    ensures FromState(ToState(m)) == Success(m)
  {
  }

  /** `getMappings`: every stored record converted, in order; the first bad record throws. */
  function GetMappings(st: SettingsState): (r: Result<seq<SmartChrMapping>, MappingError>)
    ensures r.Success? <==> forall k :: 0 <= k < |st| ==> |st[k].candidates| > 0
    ensures r.Success? ==> |r.value| == |st|
    ensures r.Success? ==> forall k :: 0 <= k < |st| ==> FromState(st[k]) == Success(r.value[k])
  {
    if |st| == 0 then Success([])
    else
      match FromState(st[0])
      case Failure(e) => Failure(e)
      case Success(m) =>
        match GetMappings(st[1..])
        case Failure(e) => Failure(e)
        case Success(rest) =>
          assert forall k :: 1 <= k < |st| ==> st[k] == st[1..][k - 1];
          Success([m] + rest)
  }

  /** `setMappings`: the stored list is replaced by the given mappings, in order. */
  function SetMappings(ms: seq<SmartChrMapping>): (st: SettingsState)
    ensures |st| == |ms|
    ensures forall k :: 0 <= k < |ms| ==> st[k] == ToState(ms[k])
  {
    if |ms| == 0 then [] else [ToState(ms[0])] + SetMappings(ms[1..])
  }

  /** Reading back what was set gives exactly the mappings that were set. */
  lemma {:induction false} SetThenGet(ms: seq<SmartChrMapping>)
    ensures GetMappings(SetMappings(ms)) == Success(ms)
  {
    var st := SetMappings(ms);
    forall k | 0 <= k < |st|
      ensures |st[k].candidates| > 0
    {
      assert st[k] == ToState(ms[k]);
    }
    var r := GetMappings(st);
    forall k | 0 <= k < |ms|
      ensures r.value[k] == ms[k]
    {
      StateRoundTrip(ms[k]);
    }
    assert r.value == ms;
  }

  /** `addMapping`: one record appended at the end, the earlier ones untouched. */
  function AddMapping(st: SettingsState, m: SmartChrMapping): (r: SettingsState)
    ensures |r| == |st| + 1
    ensures r[..|st|] == st
    ensures FromState(r[|st|]) == Success(m)
    ensures r[|st|] == ToState(m)
  {
    StateRoundTrip(m);
    st + [ToState(m)]
  }

  /** After adding, the mappings read back are the earlier ones followed by the new one. */
  lemma AddThenGet(st: SettingsState, m: SmartChrMapping)
    requires GetMappings(st).Success?
    ensures GetMappings(AddMapping(st, m)) == Success(GetMappings(st).value + [m])
  {
    var r := AddMapping(st, m);
    assert forall k :: 0 <= k < |st| ==> r[k] == st[k];
    var g := GetMappings(r);
    assert g.Success?;
    assert forall k :: 0 <= k < |st| ==> g.value[k] == GetMappings(st).value[k];
    assert g.value[|st|] == m;
    assert g.value == GetMappings(st).value + [m];
  }

  /** `removeMapping`: an index in range drops exactly that record; any other index is ignored. */
  function RemoveMapping(st: SettingsState, index: int): (r: SettingsState)
    ensures 0 <= index < |st| ==> |r| == |st| - 1
    ensures 0 <= index < |st| ==> forall k :: 0 <= k < index ==> r[k] == st[k]
    ensures 0 <= index < |st| ==> forall k :: index <= k < |r| ==> r[k] == st[k + 1]
    ensures !(0 <= index < |st|) ==> r == st
  {
    if 0 <= index < |st| then st[..index] + st[index + 1..] else st
  }

  /** Removing the record just added restores the list. */
  lemma RemoveUndoesAdd(st: SettingsState, m: SmartChrMapping)
    ensures RemoveMapping(AddMapping(st, m), |st|) == st
  {
  }

  /** `reset`: no records remain, so no mappings are read back. */
  function Reset(st: SettingsState): (r: SettingsState)
    ensures |r| == 0
    ensures GetMappings(r) == Success([])
  {
    []
  }
}
