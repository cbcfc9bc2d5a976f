/**
 * The typed-character handler: finds the mapping for a keystroke, picks the next candidate,
 * replaces the previous insertion when it is still intact, and records the new cycle state.
 * The editor is a text `document` with a `caret` offset, the clock is the `now` argument,
 * and the key-state map is threaded through as a value.
 */
module Handler {
  import opened Wrappers
  import opened Models

  /** Milliseconds of inactivity after which a keystroke starts a fresh cycle. */
  const TimeoutMillis: int := 2000

  type KeyStates = map<char, KeyState>

  /** What a keystroke does: hand the character to the editor's own handler, or edit the text. */
  datatype Keystroke =
    | PassThrough
    | Edited(document: string, caret: nat, keyStates: KeyStates)

  // ---------------------------------------------------------------------------------------
  // findMapping
  // ---------------------------------------------------------------------------------------

  /** The mapping applies to this file type: its list holds `"*"` or the type itself. */
  predicate AppliesTo(m: SmartChrMapping, fileType: string) {
    "*" in m.fileTypes || fileType in m.fileTypes
  }

  /** Everything `findMapping` asks of a mapping. */
  predicate Qualifies(m: SmartChrMapping, c: char, fileType: string) {
    m.key == c && m.enabled && AppliesTo(m, fileType)
  }

  /** The first filter of `findMapping`: the enabled mappings whose key is the typed character. */
  function EnabledFor(ms: seq<SmartChrMapping>, c: char): (r: seq<SmartChrMapping>)
    ensures forall m :: m in r ==> m in ms && m.key == c && m.enabled
    ensures forall m :: m in ms && m.key == c && m.enabled ==> m in r
    ensures |r| <= |ms|
  {
    if |ms| == 0 then []
    else if ms[0].key == c && ms[0].enabled then [ms[0]] + EnabledFor(ms[1..], c)
    else EnabledFor(ms[1..], c)
  }

  /**
   * The filter keeps the list's order and every copy: on a concatenation it is the
   * concatenation of the filtered parts, and (`EnabledForSingle`) one mapping is kept exactly
   * when it is enabled for the character.
   */
  lemma {:induction false} EnabledForConcat(a: seq<SmartChrMapping>, b: seq<SmartChrMapping>, c: char)
    ensures EnabledFor(a + b, c) == EnabledFor(a, c) + EnabledFor(b, c)
    decreases |a|
  {
    if |a| == 0 {
      assert a + b == b;
    } else {
      var ab := a + b;
      assert ab[0] == a[0];
      assert ab[1..] == a[1..] + b;
      EnabledForConcat(a[1..], b, c);
    }
  }

  lemma EnabledForSingle(m: SmartChrMapping, c: char)
    ensures EnabledFor([m], c) == if m.key == c && m.enabled then [m] else []
  {
    assert [m][1..] == [];
  }

  /** The second step of `findMapping`: the first mapping that names `"*"` or the file type. */
  function FirstApplying(ms: seq<SmartChrMapping>, fileType: string): (r: Option<SmartChrMapping>)
    ensures r.Some? ==> AppliesTo(r.value, fileType) && r.value in ms
    ensures r.None? <==> forall k :: 0 <= k < |ms| ==> !AppliesTo(ms[k], fileType)
  {
    if |ms| == 0 then None
    else if AppliesTo(ms[0], fileType) then Some(ms[0])
    else
      assert forall k :: 0 < k < |ms| ==> ms[k] == ms[1..][k - 1];
      FirstApplying(ms[1..], fileType)
  }

  /** The search returns the first applicable mapping. */
  lemma {:induction false} FirstApplyingAt(ms: seq<SmartChrMapping>, fileType: string, k: nat)
    requires k < |ms| && AppliesTo(ms[k], fileType)
    requires forall j :: 0 <= j < k ==> !AppliesTo(ms[j], fileType)
    ensures FirstApplying(ms, fileType) == Some(ms[k])
  {
    if k > 0 {
      assert forall j :: 0 <= j < k - 1 ==> ms[1..][j] == ms[j + 1];
      FirstApplyingAt(ms[1..], fileType, k - 1);
    }
  }

  /** The mapping `findMapping` returns for the typed character in a file of this type. */
  function FindMapping(ms: seq<SmartChrMapping>, c: char, fileType: string): (r: Option<SmartChrMapping>)
    ensures r.Some? ==> Qualifies(r.value, c, fileType)
  {
    FirstApplying(EnabledFor(ms, c), fileType)
  }

  /** `findMapping` looks at the first mapping, and at the rest only when that one does not qualify. */
  lemma FindMappingStep(ms: seq<SmartChrMapping>, c: char, fileType: string)
    requires |ms| > 0
    ensures FindMapping(ms, c, fileType)
            == if Qualifies(ms[0], c, fileType) then Some(ms[0]) else FindMapping(ms[1..], c, fileType)
  {
    if ms[0].key == c && ms[0].enabled {
      assert ([ms[0]] + EnabledFor(ms[1..], c))[1..] == EnabledFor(ms[1..], c);
    }
  }

  /** `findMapping` finds nothing exactly when no mapping qualifies. */
  lemma {:induction false} FindMappingNone(ms: seq<SmartChrMapping>, c: char, fileType: string)
    ensures FindMapping(ms, c, fileType).None? <==>
              forall k :: 0 <= k < |ms| ==> !Qualifies(ms[k], c, fileType)
  {
    if |ms| > 0 {
      FindMappingStep(ms, c, fileType);
      FindMappingNone(ms[1..], c, fileType);
      assert forall k :: 0 < k < |ms| ==> ms[k] == ms[1..][k - 1];
    }
  }

  /** `findMapping` returns the first qualifying mapping. */
  lemma {:induction false} FindMappingAt(ms: seq<SmartChrMapping>, c: char, fileType: string, k: nat)
    requires k < |ms| && Qualifies(ms[k], c, fileType)
    requires forall j :: 0 <= j < k ==> !Qualifies(ms[j], c, fileType)
    ensures FindMapping(ms, c, fileType) == Some(ms[k])
  {
    FindMappingStep(ms, c, fileType);
    if k > 0 {
      assert forall j :: 0 <= j < k - 1 ==> ms[1..][j] == ms[j + 1];
      FindMappingAt(ms[1..], c, fileType, k - 1);
    }
  }

  /**
   * `findMapping` is a first-match scan of the configured list: it finds a mapping exactly
   * when one qualifies, and then the earliest qualifying one.
   */
  lemma FindMappingFirstMatch(ms: seq<SmartChrMapping>, c: char, fileType: string)
    ensures FindMapping(ms, c, fileType).None? <==>
              forall k :: 0 <= k < |ms| ==> !Qualifies(ms[k], c, fileType)
    ensures forall k :: 0 <= k < |ms| && Qualifies(ms[k], c, fileType)
                        && (forall j :: 0 <= j < k ==> !Qualifies(ms[j], c, fileType))
                        ==> FindMapping(ms, c, fileType) == Some(ms[k])
  {
    FindMappingNone(ms, c, fileType);
    forall k | 0 <= k < |ms| && Qualifies(ms[k], c, fileType)
                && (forall j :: 0 <= j < k ==> !Qualifies(ms[j], c, fileType))
      ensures FindMapping(ms, c, fileType) == Some(ms[k])
    {
      FindMappingAt(ms, c, fileType, k);
    }
  }

  // ---------------------------------------------------------------------------------------
  // calculateNextIndex
  // ---------------------------------------------------------------------------------------

  /**
   * `calculateNextIndex`: one step further, wrapping in LOOP mode and stopping at the last
   * candidate in ONE_OF mode. The stored index may come from a longer, older candidate list.
   */
  function CalculateNextIndex(currentIndex: nat, m: SmartChrMapping): (r: nat)
    ensures r < |m.candidates|
    ensures m.mode == LOOP && currentIndex + 1 < |m.candidates| ==> r == currentIndex + 1
    ensures m.mode == LOOP && currentIndex + 1 == |m.candidates| ==> r == 0
    ensures m.mode == LOOP ==> r == (currentIndex + 1) % |m.candidates|
    ensures m.mode == ONE_OF && currentIndex + 1 < |m.candidates| ==> r == currentIndex + 1
    ensures m.mode == ONE_OF && currentIndex + 1 >= |m.candidates| ==> r == |m.candidates| - 1
  {
    var next := currentIndex + 1;
    match m.mode
    case LOOP =>
      ModSmall(next, |m.candidates|);
      next % |m.candidates|
    case ONE_OF => if next < |m.candidates| - 1 then next else |m.candidates| - 1
  }

  /** The remainder of a number below the divisor is the number; of the divisor itself, zero. */
  lemma ModSmall(a: nat, n: nat)
    requires n > 0
    ensures a % n < n
    ensures a < n ==> a % n == a
    ensures a == n ==> a % n == 0
  {
  }

  /** The index of the k-th keystroke of an uninterrupted cycle (the first one is index 0). */
  function CycleIndex(m: SmartChrMapping, k: nat): (r: nat)
    ensures r < |m.candidates|
  {
    if k == 0 then 0 else CalculateNextIndex(CycleIndex(m, k - 1), m)
  }

  /** A LOOP mapping with n candidates visits 0, 1, …, n-1 and then repeats with period n. */
  lemma {:induction false} LoopCycleVisitsInOrder(m: SmartChrMapping, k: nat)
    requires m.mode == LOOP
    ensures k < |m.candidates| ==> CycleIndex(m, k) == k
    ensures CycleIndex(m, k + |m.candidates|) == CycleIndex(m, k)
  {
    var n := |m.candidates|;
    if k > 0 {
      LoopCycleVisitsInOrder(m, k - 1);
      assert k - 1 + n + 1 == k + n;
    } else {
      LoopCycleFirstRound(m, n - 1);
    }
  }

  lemma {:induction false} LoopCycleFirstRound(m: SmartChrMapping, k: nat)
    requires m.mode == LOOP && k < |m.candidates|
    ensures CycleIndex(m, k) == k
  {
    if k > 0 {
      LoopCycleFirstRound(m, k - 1);
    }
  }

  /** A ONE_OF mapping with n candidates visits 0, 1, …, n-1, n-1, n-1, … */
  lemma {:induction false} OneOfCycleStopsAtLast(m: SmartChrMapping, k: nat)
    requires m.mode == ONE_OF
    ensures CycleIndex(m, k) == if k < |m.candidates| then k else |m.candidates| - 1
  {
    if k > 0 {
      OneOfCycleStopsAtLast(m, k - 1);
    }
  }

  // ---------------------------------------------------------------------------------------
  // handleSmartChr
  // ---------------------------------------------------------------------------------------

  /** The stored state of the typed character, or a fresh default state when there is none. */
  function StateFor(states: KeyStates, c: char): (st: KeyState)
    ensures c in states ==> st == states[c]
    ensures c !in states ==> st.currentIndex == 0 && st.lastInserted.None? && st.lastTypedTime == 0
  {
    if c in states then states[c] else KeyState()
  }

  /** The cycle has timed out: strictly more than 2000 ms have passed since the last keystroke. */
  predicate IsTimeout(st: KeyState, now: int)
    ensures now <= st.lastTypedTime + TimeoutMillis ==> !IsTimeout(st, now)
    ensures now >= st.lastTypedTime + TimeoutMillis + 1 ==> IsTimeout(st, now)
  {
    now - st.lastTypedTime > TimeoutMillis
  }

  /** The candidate index this keystroke inserts. */
  function ChooseIndex(st: KeyState, m: SmartChrMapping, now: int): (r: nat)
    ensures r < |m.candidates|
    ensures IsTimeout(st, now) || st.lastInserted.None? ==> r == 0
  {
    if IsTimeout(st, now) || st.lastInserted.None? then 0
    else CalculateNextIndex(st.currentIndex, m)
  }

  /**
   * `shouldReplacePrevious`: the text just before the caret is still exactly the text
   * inserted last time, so removing it cannot destroy anything the user typed.
   */
  predicate ShouldReplacePrevious(document: string, caret: nat, st: KeyState)
    requires caret <= |document|
    ensures st.lastInserted.None? ==> !ShouldReplacePrevious(document, caret, st)
    ensures ShouldReplacePrevious(document, caret, st) <==>
              && st.lastInserted.Some? && |st.lastInserted.value| <= caret
              && document[..caret] == document[..caret - |st.lastInserted.value|] + st.lastInserted.value
  {
    match st.lastInserted
    case None => false
    case Some(last) => caret - |last| >= 0 && document[caret - |last|..caret] == last
  }

  /** The replacement branch of `handleSmartChr` is taken. */
  predicate Replaces(document: string, caret: nat, st: KeyState, now: int)
    requires caret <= |document|
    ensures IsTimeout(st, now) || st.lastInserted.None? ==> !Replaces(document, caret, st, now)
    ensures Replaces(document, caret, st, now) ==>
              && st.lastInserted.Some? && |st.lastInserted.value| <= caret
              && document == document[..caret - |st.lastInserted.value|] + st.lastInserted.value + document[caret..]
    ensures !IsTimeout(st, now) && ShouldReplacePrevious(document, caret, st) ==> Replaces(document, caret, st, now)
  {
    !IsTimeout(st, now) && st.lastInserted.Some? && ShouldReplacePrevious(document, caret, st)
  }

  /**
   * `handleSmartChr` for a resolved mapping: maybe delete the previous insertion before the
   * caret, insert the chosen candidate at the caret, move the caret behind it, and store the
   * new state for the character whether or not anything was deleted.
   */
  function HandleSmartChr(
    c: char, m: SmartChrMapping, document: string, caret: nat, states: KeyStates, now: int): (r: Keystroke)
    requires caret <= |document|
    ensures r.Edited?
    ensures c in r.keyStates && r.keyStates.Keys == states.Keys + {c}
    ensures forall d :: d in states && d != c ==> d in r.keyStates && r.keyStates[d] == states[d]
    ensures r.keyStates[c].lastTypedTime == now
    ensures r.keyStates[c].currentIndex < |m.candidates|
    ensures r.keyStates[c].lastInserted == Some(m.candidates[r.keyStates[c].currentIndex])
    ensures |m.candidates[r.keyStates[c].currentIndex]| <= r.caret <= |r.document|
    ensures r.document[r.caret - |m.candidates[r.keyStates[c].currentIndex]|..r.caret]
              == m.candidates[r.keyStates[c].currentIndex]
  {
    var st := StateFor(states, c);
    var timedOut := IsTimeout(st, now);
    var next := ChooseIndex(st, m, now);
    var toInsert := m.candidates[next];
    var (doc1, caret1) :=
      if !timedOut && st.lastInserted.Some? && ShouldReplacePrevious(document, caret, st)
         && caret - |st.lastInserted.value| >= 0 && caret <= |document|
      then
        var start := caret - |st.lastInserted.value|;
        (document[..start] + document[caret..], start)
      else (document, caret);
    var doc2 := doc1[..caret1] + toInsert + doc1[caret1..];
    assert doc2[caret1..caret1 + |toInsert|] == toInsert;
    Edited(doc2, caret1 + |toInsert|, states[c := KeyState(next, Some(toInsert), now)])
  }

  /** `execute`: pass the character through when no enabled mapping applies, else cycle. */
  function Execute(
    c: char, fileType: string, ms: seq<SmartChrMapping>,
    document: string, caret: nat, states: KeyStates, now: int): (r: Keystroke)
    requires caret <= |document|
    ensures r.PassThrough? <==> forall k :: 0 <= k < |ms| ==> !Qualifies(ms[k], c, fileType)
    ensures FindMapping(ms, c, fileType).Some? ==>
              r == HandleSmartChr(c, FindMapping(ms, c, fileType).value, document, caret, states, now)
  {
    var found := FindMapping(ms, c, fileType);
    FindMappingFirstMatch(ms, c, fileType);
    if found.None? || !found.value.enabled then PassThrough
    else HandleSmartChr(c, found.value, document, caret, states, now)
  }

  /** `resetKeyStates`: forget every character's cycle. */
  function ResetKeyStates(states: KeyStates): (r: KeyStates)
    ensures forall d :: d !in r
  {
    map[]
  }

  // ---------------------------------------------------------------------------------------
  // Properties of a keystroke
  // ---------------------------------------------------------------------------------------

  /**
   * Edit safety: the new document is the old one with the chosen candidate inserted at the
   * caret, after removing, immediately before the caret, either nothing or exactly the text
   * this character inserted last time, and the latter only inside the time window and only
   * when that text is still there. Text the user changed is never deleted.
   */
  lemma HandleSmartChrEdit(
    c: char, m: SmartChrMapping, document: string, caret: nat, states: KeyStates, now: int)
    requires caret <= |document|
    ensures var st := StateFor(states, c);
            var r := HandleSmartChr(c, m, document, caret, states, now);
            var inserted := m.candidates[r.keyStates[c].currentIndex];
            if Replaces(document, caret, st, now) then
              var last := st.lastInserted.value;
              && |last| <= caret && document[caret - |last|..caret] == last
              && r.document == document[..caret - |last|] + inserted + document[caret..]
              && r.caret == caret - |last| + |inserted|
            else
              && r.document == document[..caret] + inserted + document[caret..]
              && r.caret == caret + |inserted|
  {
  }

  /** The chosen index: 0 after a timeout or on a character's first keystroke, else one step on. */
  lemma HandleSmartChrIndex(
    c: char, m: SmartChrMapping, document: string, caret: nat, states: KeyStates, now: int)
    requires caret <= |document|
    ensures var st := StateFor(states, c);
            var r := HandleSmartChr(c, m, document, caret, states, now);
            r.keyStates[c].currentIndex ==
              if IsTimeout(st, now) || st.lastInserted.None? then 0
              else CalculateNextIndex(st.currentIndex, m)
  {
  }

  /**
   * A timed-out keystroke starts a fresh cycle: it inserts the first candidate and deletes
   * nothing, whatever the stored state says.
   */
  lemma TimeoutRestartsCycle(
    c: char, m: SmartChrMapping, document: string, caret: nat, states: KeyStates, now: int)
    requires caret <= |document|
    requires c in states && now - states[c].lastTypedTime > 2000
    ensures var r := HandleSmartChr(c, m, document, caret, states, now);
            && r.keyStates[c].currentIndex == 0
            && r.document == document[..caret] + m.candidates[0] + document[caret..]
  {
    HandleSmartChrEdit(c, m, document, caret, states, now);
  }

  /**
   * The window is closed at its end: a keystroke exactly 2000 ms after the previous one
   * still continues the cycle with the next index.
   */
  lemma TimeoutBoundaryContinues(
    c: char, m: SmartChrMapping, document: string, caret: nat, states: KeyStates, now: int)
    requires caret <= |document|
    requires c in states && states[c].lastInserted.Some? && now - states[c].lastTypedTime == 2000
    ensures var r := HandleSmartChr(c, m, document, caret, states, now);
            r.keyStates[c].currentIndex == CalculateNextIndex(states[c].currentIndex, m)
  {
    HandleSmartChrIndex(c, m, document, caret, states, now);
  }

  /**
   * The first keystroke of a character (no stored state: the default `KeyState()` with
   * index 0, no last insertion and time 0) inserts the first candidate and deletes nothing.
   */
  lemma FirstKeystrokeInsertsFirstCandidate(
    c: char, m: SmartChrMapping, document: string, caret: nat, states: KeyStates, now: int)
    requires caret <= |document|
    requires c !in states
    ensures var r := HandleSmartChr(c, m, document, caret, states, now);
            && r.keyStates[c] == KeyState(0, Some(m.candidates[0]), now)
            && r.document == document[..caret] + m.candidates[0] + document[caret..]
            && r.caret == caret + |m.candidates[0]|
  {
    HandleSmartChrEdit(c, m, document, caret, states, now);
  }

  /**
   * If the user typed or deleted something so that the text before the caret is no longer
   * the last insertion, nothing is deleted: the candidate is only inserted.
   */
  lemma EditedTextIsKept(
    c: char, m: SmartChrMapping, document: string, caret: nat, states: KeyStates, now: int)
    requires caret <= |document|
    requires c in states && states[c].lastInserted.Some?
    requires var last := states[c].lastInserted.value;
             |last| > caret || document[caret - |last|..caret] != last
    ensures var r := HandleSmartChr(c, m, document, caret, states, now);
            r.document == document[..caret] + m.candidates[r.keyStates[c].currentIndex] + document[caret..]
  {
    HandleSmartChrEdit(c, m, document, caret, states, now);
  }

  /** After a reset every character behaves as on its first keystroke. */
  lemma ResetForgetsCycles(
    c: char, m: SmartChrMapping, document: string, caret: nat, states: KeyStates, now: int)
    requires caret <= |document|
    ensures var r := HandleSmartChr(c, m, document, caret, ResetKeyStates(states), now);
            && r.keyStates == map[c := KeyState(0, Some(m.candidates[0]), now)]
            && r.document == document[..caret] + m.candidates[0] + document[caret..]
    ensures ResetKeyStates(ResetKeyStates(states)) == ResetKeyStates(states)
  {
    FirstKeystrokeInsertsFirstCandidate(c, m, document, caret, ResetKeyStates(states), now);
  }

  // ---------------------------------------------------------------------------------------
  // Repeated keystrokes
  // ---------------------------------------------------------------------------------------

  /**
   * Types the same character at each of the given times, with nothing else touching the
   * document in between; `None` if a keystroke passes through.
   */
  function TypeRepeatedly(
    c: char, fileType: string, ms: seq<SmartChrMapping>,
    document: string, caret: nat, states: KeyStates, times: seq<int>): (r: Option<(string, nat, KeyStates)>)
    requires caret <= |document|
    ensures r.Some? ==> r.value.1 <= |r.value.0|
    decreases |times|
  {
    if |times| == 0 then Some((document, caret, states))
    else
      match Execute(c, fileType, ms, document, caret, states, times[0])
      case PassThrough => None
      case Edited(d, k, s) => TypeRepeatedly(c, fileType, ms, d, k, s, times[1..])
  }

  /** Consecutive keystrokes are at most the timeout apart. */
  predicate WithinWindow(times: seq<int>) {
    forall k :: 0 < k < |times| ==> times[k] - times[k - 1] <= TimeoutMillis
  }

  /**
   * Cycling: typing a mapped character k+1 times, each keystroke within the time window of
   * the previous one and starting without state for it, leaves exactly one candidate in the
   * document at the original caret, namely the k-th of the cycle, and the caret behind it.
   */
  lemma {:induction false} CyclingReplacesInPlace(
    c: char, fileType: string, ms: seq<SmartChrMapping>,
    document: string, caret: nat, states: KeyStates, times: seq<int>)
    requires caret <= |document|
    requires c !in states
    requires FindMapping(ms, c, fileType).Some?
    requires |times| > 0 && WithinWindow(times)
    ensures var m := FindMapping(ms, c, fileType).value;
            var k := |times| - 1;
            var ins := m.candidates[CycleIndex(m, k)];
            TypeRepeatedly(c, fileType, ms, document, caret, states, times)
              == Some((document[..caret] + ins + document[caret..], caret + |ins|,
                       states[c := KeyState(CycleIndex(m, k), Some(ins), times[k])]))
  {
    var m := FindMapping(ms, c, fileType).value;
    FirstKeystrokeInsertsFirstCandidate(c, m, document, caret, states, times[0]);
    var r := CycledTo(c, m, document, caret, states, 0, times[0]);
    var h := HandleSmartChr(c, m, document, caret, states, times[0]);
    assert h.keyStates == r.keyStates;
    assert h == r;
    assert Execute(c, fileType, ms, document, caret, states, times[0]) == r;
    assert TypeRepeatedly(c, fileType, ms, document, caret, states, times)
           == TypeRepeatedly(c, fileType, ms, r.document, r.caret, r.keyStates, times[0 + 1..]);
    CyclingContinues(c, fileType, ms, m, document, caret, states, times, 0);
  }

  /** The document, caret and states after the k-th candidate of the cycle went in at `caret`. */
  function CycledTo(
    c: char, m: SmartChrMapping, document: string, caret: nat, states: KeyStates,
    k: nat, time: int): (r: Keystroke)
    requires caret <= |document|
    ensures r.Edited? && caret <= r.caret <= |r.document|
    ensures r.document[..caret] == document[..caret]
    ensures r.document[caret..r.caret] == m.candidates[CycleIndex(m, k)]
    ensures r.document[r.caret..] == document[caret..]
  {
    var ins := m.candidates[CycleIndex(m, k)];
    var d := document[..caret] + ins + document[caret..];
    assert d[caret..caret + |ins|] == ins;
    assert d[caret + |ins|..] == document[caret..];
    Edited(d, caret + |ins|, states[c := KeyState(CycleIndex(m, k), Some(ins), time)])
  }

  /** A run of keystrokes of a mapped character, each within the time window of the previous. */
  predicate CycleSetup(
    c: char, fileType: string, ms: seq<SmartChrMapping>, m: SmartChrMapping,
    document: string, caret: nat, times: seq<int>)
  {
    caret <= |document| && FindMapping(ms, c, fileType) == Some(m) && WithinWindow(times)
  }

  /** The inductive step of `CyclingReplacesInPlace`, from the j-th keystroke on. */
  lemma {:induction false} CyclingContinues(
    c: char, fileType: string, ms: seq<SmartChrMapping>, m: SmartChrMapping,
    document: string, caret: nat, states: KeyStates, times: seq<int>, j: nat)
    requires CycleSetup(c, fileType, ms, m, document, caret, times) && j < |times|
    ensures var cur := CycledTo(c, m, document, caret, states, j, times[j]);
            var last := CycledTo(c, m, document, caret, states, |times| - 1, times[|times| - 1]);
            TypeRepeatedly(c, fileType, ms, cur.document, cur.caret, cur.keyStates, times[j + 1..])
              == Some((last.document, last.caret, last.keyStates))
    decreases |times| - j
  {
    if j + 1 < |times| {
      NextKeystroke(c, fileType, ms, m, document, caret, states, times, j);
      assert times[j + 1..][1..] == times[j + 2..];
      CyclingContinues(c, fileType, ms, m, document, caret, states, times, j + 1);
    } else {
      assert times[j + 1..] == [];
    }
  }

  /**
   * One keystroke within the window after the j-th: the candidate just inserted is replaced
   * by the next one of the cycle.
   */
  lemma NextKeystroke(
    c: char, fileType: string, ms: seq<SmartChrMapping>, m: SmartChrMapping,
    document: string, caret: nat, states: KeyStates, times: seq<int>, j: nat)
    requires CycleSetup(c, fileType, ms, m, document, caret, times) && j + 1 < |times|
    ensures var cur := CycledTo(c, m, document, caret, states, j, times[j]);
            Execute(c, fileType, ms, cur.document, cur.caret, cur.keyStates, times[j + 1])
              == CycledTo(c, m, document, caret, states, j + 1, times[j + 1])
  {
    var cur := CycledTo(c, m, document, caret, states, j, times[j]);
    var ins := m.candidates[CycleIndex(m, j)];
    var st := StateFor(cur.keyStates, c);
    assert st == KeyState(CycleIndex(m, j), Some(ins), times[j]);
    assert !IsTimeout(st, times[j + 1]);
    assert cur.document[cur.caret - |ins|..cur.caret] == ins;
    assert ShouldReplacePrevious(cur.document, cur.caret, st);
    assert Replaces(cur.document, cur.caret, st, times[j + 1]);
    HandleSmartChrEdit(c, m, cur.document, cur.caret, cur.keyStates, times[j + 1]);
    var nxt := HandleSmartChr(c, m, cur.document, cur.caret, cur.keyStates, times[j + 1]);
    assert Execute(c, fileType, ms, cur.document, cur.caret, cur.keyStates, times[j + 1]) == nxt;
    var want := CycledTo(c, m, document, caret, states, j + 1, times[j + 1]);
    assert nxt.keyStates[c].currentIndex == CycleIndex(m, j + 1);
    assert nxt.document == want.document;
    assert nxt.keyStates == want.keyStates;
  }
}
