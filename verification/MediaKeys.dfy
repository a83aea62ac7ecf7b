// The mute bridge (playpause.cpp): a watcher thread pauses and resumes the phone, and an
// interposed key hook filters the head unit's own play keys, with a thread-local
// exemption for the watcher. The hook can be entered by any thread at any time.
module MediaKeys {
  import opened Machine

  const KEY_EVENT_TYPE: nat := 0xE00
  const MEDIA_PLAY: nat := 0x7E
  const MEDIA_PAUSE: nat := 0x7F

  datatype Key = Key(kind: nat, code: nat, down: bool)

  datatype Thread = Watcher | Other(id: nat)

  // A call that reached the real SDK, and the watcher's latch at that moment. A null event
  // is None.
  datatype Call = Call(thread: Thread, key: Option<Key>, latch: bool)

  // Where the watcher is in sending one key.
  datatype Phase =
    | Idle
    | Pressing(code: nat)
    | Releasing(code: nat, pressed: bool)
    | Finishing(code: nat, accepted: bool)

  datatype State = State(
    latch: bool,                // g_we_paused
    exempt: set<Thread>,        // the threads whose g_allow_module_media_play is set
    previous: bool,             // the exemption the watcher saved
    phase: Phase,
    reached: seq<Call>,
    delivered: seq<nat>)        // keys the watcher saw accepted, press and release

  const START := State(false, {}, false, Idle, [], [])

  // What can happen next. `rc` is the SDK's answer should the call reach it.
  datatype Event =
    | Muted(playing: bool, available: bool)
    | Unmuted(focused: bool, available: bool)
    | Reconnect
    | Press(rc: int)
    | Release(rc: int)
    | Finish
    | OtherKey(id: nat, key: Option<Key>)

  predicate IsMediaPlay(key: Option<Key>) {
    key.Some? && key.value.kind == KEY_EVENT_TYPE && key.value.code == MEDIA_PLAY
  }

  predicate Filters(block: bool, s: State, thread: Thread, key: Option<Key>) {
    block && thread !in s.exempt && IsMediaPlay(key)
  }

  // The interposed hook: a filtered key is swallowed and reported as accepted.
  function Hook(block: bool, s: State, thread: Thread, key: Option<Key>): State {
    if Filters(block, s, thread, key) then s else s.(reached := s.reached + [Call(thread, key, s.latch)])
  }

  function Answer(block: bool, s: State, thread: Thread, key: Option<Key>, rc: int): int {
    if Filters(block, s, thread, key) then 0 else rc
  }

  // Before the first call of a key: a deliberate play exempts the thread.
  function StartKey(s: State, code: nat): State {
    s.(previous := Watcher in s.exempt, exempt := if code == MEDIA_PLAY then s.exempt + {Watcher} else s.exempt,
       phase := Pressing(code))
  }

  // After the release: restore the exemption, and move the latch if the key was accepted.
  function FinishKey(s: State): State
    requires s.phase.Finishing?
  {
    var restored := s.(exempt := if s.previous then s.exempt + {Watcher} else s.exempt - {Watcher}, phase := Idle);
    if s.phase.accepted
    then restored.(latch := s.phase.code == MEDIA_PAUSE, delivered := s.delivered + [s.phase.code])
    else restored
  }

  // A watcher action that is not its turn does nothing.
  function Next(block: bool, s: State, e: Event): State {
    match e
    case Muted(playing, available) =>
      if s.phase.Idle? && !s.latch && playing && available then StartKey(s, MEDIA_PAUSE) else s
    case Unmuted(focused, available) =>
      if !s.phase.Idle? || !s.latch then s
      else if !focused then s.(latch := false)
      else if available then StartKey(s, MEDIA_PLAY)
      else s
    case Reconnect => if s.phase.Idle? then s.(latch := false) else s
    case Press(rc) =>
      if s.phase.Pressing? then
        var key := Some(Key(KEY_EVENT_TYPE, s.phase.code, true));
        Hook(block, s, Watcher, key).(phase := Releasing(s.phase.code, Answer(block, s, Watcher, key, rc) == 0))
      else s
    case Release(rc) =>
      if s.phase.Releasing? then
        var key := Some(Key(KEY_EVENT_TYPE, s.phase.code, false));
        Hook(block, s, Watcher, key).(
          phase := Finishing(s.phase.code, s.phase.pressed && Answer(block, s, Watcher, key, rc) == 0))
      else s
    case Finish => if s.phase.Finishing? then FinishKey(s) else s
    case OtherKey(id, key) => Hook(block, s, Other(id), key)
  }

  function Exec(block: bool, s: State, events: seq<Event>): State {
    if events == [] then s else Next(block, Exec(block, s, Init(events)), Last(events))
  }

  // --- what every step keeps ------------------------------------------------------------

  function Sending(phase: Phase): nat {
    match phase
    case Idle => 0
    case Pressing(code) => code
    case Releasing(code, _) => code
    case Finishing(code, _) => code
  }

  // Every accepted play stands right behind an accepted pause.
  predicate Matched(delivered: seq<nat>) {
    forall i :: 0 <= i < |delivered| && delivered[i] == MEDIA_PLAY ==> i > 0 && delivered[i - 1] == MEDIA_PAUSE
  }

  // With blocking on, a play of the OEM's key type reached the SDK only from the watcher,
  // while its latch was set.
  predicate OnlyResumes(reached: seq<Call>) {
    forall i :: 0 <= i < |reached| && IsMediaPlay(reached[i].key) ==> reached[i].thread == Watcher && reached[i].latch
  }

  predicate Inv(block: bool, s: State) {
    && s.exempt == (if Sending(s.phase) == MEDIA_PLAY then {Watcher} else {})
    && (!s.phase.Idle? ==> !s.previous)
    && Sending(s.phase) in {0, MEDIA_PLAY, MEDIA_PAUSE}
    && (s.phase.Idle? <==> Sending(s.phase) == 0)
    && (Sending(s.phase) == MEDIA_PLAY ==> s.latch) && (Sending(s.phase) == MEDIA_PAUSE ==> !s.latch)
    && (s.latch ==> s.delivered != [] && Last(s.delivered) == MEDIA_PAUSE)
    && Matched(s.delivered)
    && (block ==> OnlyResumes(s.reached))
  }

  lemma HookKeeps(block: bool, s: State, thread: Thread, key: Option<Key>)
    requires Inv(block, s)
    requires thread == Watcher && IsMediaPlay(key) ==> s.latch
    ensures Inv(block, Hook(block, s, thread, key))
  {
  }

  lemma StartKeeps(block: bool, s: State, code: nat)
    requires Inv(block, s) && s.phase.Idle?
    requires code == if s.latch then MEDIA_PLAY else MEDIA_PAUSE
    ensures Inv(block, StartKey(s, code))
  {
  }

  lemma FinishKeeps(block: bool, s: State)
    requires Inv(block, s) && s.phase.Finishing?
    ensures Inv(block, FinishKey(s))
  {
  }

  lemma StepKeeps(block: bool, s: State, e: Event)
    requires Inv(block, s)
    ensures Inv(block, Next(block, s, e))
  {
    match e
    case Press(rc) =>
      if s.phase.Pressing? {
        HookKeeps(block, s, Watcher, Some(Key(KEY_EVENT_TYPE, s.phase.code, true)));
      }
    case Release(rc) =>
      if s.phase.Releasing? {
        HookKeeps(block, s, Watcher, Some(Key(KEY_EVENT_TYPE, s.phase.code, false)));
      }
    case OtherKey(id, key) =>
      HookKeeps(block, s, Other(id), key);
    case Finish =>
      if s.phase.Finishing? {
        FinishKeeps(block, s);
      }
    case Muted(playing, available) =>
      if s.phase.Idle? && !s.latch {
        StartKeeps(block, s, MEDIA_PAUSE);
      }
    case Unmuted(focused, available) =>
      if s.phase.Idle? && s.latch {
        StartKeeps(block, s, MEDIA_PLAY);
      }
    case Reconnect =>
  }

  lemma {:induction false} RunKeeps(block: bool, events: seq<Event>)
    ensures Inv(block, Exec(block, START, events))
  {
    if events != [] {
      RunKeeps(block, Init(events));
      StepKeeps(block, Exec(block, START, Init(events)), Last(events));
    }
  }

  function Count(keys: seq<nat>, code: nat): nat {
    if keys == [] then 0 else Count(Init(keys), code) + (if Last(keys) == code then 1 else 0)
  }

  lemma {:induction false} MatchedCounts(keys: seq<nat>)
    requires Matched(keys)
    ensures Count(keys, MEDIA_PLAY) <= Count(keys, MEDIA_PAUSE)
    ensures keys != [] && Last(keys) == MEDIA_PAUSE ==> Count(keys, MEDIA_PLAY) < Count(keys, MEDIA_PAUSE)
  {
    if keys != [] {
      MatchedCounts(Init(keys));
    }
  }

  // In every run, reconnects and rejected keys included: each accepted play follows an
  // accepted pause of its own, so at no time are there more plays than pauses.
  lemma PlaysFollowPauses(block: bool, events: seq<Event>)
    ensures var keys := Exec(block, START, events).delivered;
            Matched(keys) && Count(keys, MEDIA_PLAY) <= Count(keys, MEDIA_PAUSE)
  {
    RunKeeps(block, events);
    MatchedCounts(Exec(block, START, events).delivered);
  }

  // With blocking on, the SDK sees a play key only from the watcher resuming what it
  // paused, and between keys no thread is exempt.
  lemma BlockedPlays(events: seq<Event>)
    ensures OnlyResumes(Exec(true, START, events).reached)
    ensures var s := Exec(true, START, events); s.phase.Idle? ==> s.exempt == {}
  {
    RunKeeps(true, events);
  }

  // The watcher's own play is never swallowed: what it saw accepted, the SDK accepted.
  lemma OwnPlayReaches(block: bool, events: seq<Event>, key: Key)
    ensures var s := Exec(block, START, events);
            !s.phase.Idle? && key.code == Sending(s.phase) ==> !Filters(block, s, Watcher, Some(key))
  {
    RunKeeps(block, events);
  }

  // A rejected key leaves the latch alone, so a rejected resume is tried again at the next
  // unmute; an accepted one moves it.
  lemma LatchMoves(s: State)
    requires s.phase.Finishing?
    ensures FinishKey(s).latch == if s.phase.accepted then s.phase.code == MEDIA_PAUSE else s.latch
    ensures FinishKey(s).delivered != s.delivered <==> s.phase.accepted
  {
    assert |s.delivered + [s.phase.code]| != |s.delivered|;
  }

  // --- when a key is sent -----------------------------------------------------------------

  // Exactly the play key of the OEM's event type is filtered, on a thread without exemption.
  lemma FilteredExactly(block: bool, s: State, thread: Thread, key: Option<Key>, rc: int)
    ensures Hook(block, s, thread, key).reached == s.reached
        <==> block && thread !in s.exempt && key.Some? && key.value.kind == 0xE00 && key.value.code == 0x7E
    ensures Hook(block, s, thread, key).reached == s.reached ==> Answer(block, s, thread, key, rc) == 0
    ensures Hook(block, s, thread, key).reached != s.reached ==>
      Hook(block, s, thread, key).reached == s.reached + [Call(thread, key, s.latch)]
      && Answer(block, s, thread, key, rc) == rc
  {
    assert |s.reached + [Call(thread, key, s.latch)]| != |s.reached|;
  }

  // The event that began the key now being sent.
  function Cause(block: bool, events: seq<Event>): Option<Event> {
    if events == [] || Exec(block, START, events).phase.Idle? then None
    else if Exec(block, START, Init(events)).phase.Idle? then Some(Last(events))
    else Cause(block, Init(events))
  }

  // In every run a pause is being sent only because of a mute while the phone was playing,
  // a play only because of an unmute while it had the audio focus.
  lemma {:induction false} CauseOfKey(block: bool, events: seq<Event>)
    ensures var code := Sending(Exec(block, START, events).phase);
            && (code == 0x7F ==> Cause(block, events) == Some(Muted(true, true)))
            && (code == 0x7E ==> Cause(block, events) == Some(Unmuted(true, true)))
            && code in {0, 0x7E, 0x7F}
  {
    if events != [] {
      CauseOfKey(block, Init(events));
      RunKeeps(block, Init(events));
      RunKeeps(block, events);
    }
  }

  // Between keys: a mute starts a pause exactly when the phone plays, can be reached and
  // was not paused already; an unmute starts a play exactly when it was, has the focus and
  // can be reached, and without the focus the claim to the pause is dropped.
  lemma KeyStartsExactly(block: bool, s: State, playing: bool, focused: bool, available: bool)
    requires s.phase.Idle?
    ensures var s' := Next(block, s, Muted(playing, available));
            && (s'.phase == Pressing(0x7F) <==> playing && available && !s.latch)
            && (s'.phase != Pressing(0x7F) ==> s' == s)
    ensures var s' := Next(block, s, Unmuted(focused, available));
            && (s'.phase == Pressing(0x7E) <==> focused && available && s.latch)
            && (s'.phase != Pressing(0x7E) ==> s' == s.(latch := s.latch && focused))
  {
  }

  // The keys the watcher put through to the SDK.
  function OwnKeys(reached: seq<Call>): seq<Option<Key>> {
    if reached == [] then []
    else OwnKeys(Init(reached)) + (if Last(reached).thread == Watcher then [Last(reached).key] else [])
  }

  // Presses and releases in turn, each release of the key pressed before it, that of the
  // key being sent perhaps still to come.
  predicate Paired(keys: seq<Option<Key>>, phase: Phase) {
    && (|keys| % 2 == 1 <==> phase.Releasing?)
    && (phase.Releasing? ==> keys[|keys| - 1] == Some(Key(0xE00, phase.code, true)))
    && forall i :: 0 <= i < |keys| ==>
         && keys[i].Some? && keys[i].value.kind == 0xE00 && keys[i].value.code in {0x7E, 0x7F}
         && keys[i].value.down == (i % 2 == 0)
         && (i % 2 == 1 ==> keys[i - 1].Some? && keys[i].value.code == keys[i - 1].value.code)
  }

  lemma OwnKeysSnoc(reached: seq<Call>, c: Call)
    ensures OwnKeys(reached + [c]) == OwnKeys(reached) + if c.thread == Watcher then [c.key] else []
  {
    assert Init(reached + [c]) == reached;
  }

  lemma PressPaired(keys: seq<Option<Key>>, code: nat, pressed: bool)
    requires Paired(keys, Pressing(code)) && code in {0x7E, 0x7F}
    ensures Paired(keys + [Some(Key(0xE00, code, true))], Releasing(code, pressed))
  {
  }

  lemma ReleasePaired(keys: seq<Option<Key>>, code: nat, pressed: bool, accepted: bool)
    requires Paired(keys, Releasing(code, pressed)) && code in {0x7E, 0x7F}
    ensures Paired(keys + [Some(Key(0xE00, code, false))], Finishing(code, accepted))
  {
  }

  lemma SameTurn(keys: seq<Option<Key>>, p: Phase, q: Phase)
    requires Paired(keys, p) && !p.Releasing? && !q.Releasing?
    ensures Paired(keys, q)
  {
  }

  lemma PressReaches(block: bool, s: State, rc: int, key: Option<Key>)
    requires Inv(block, s) && s.phase.Pressing? && key == Some(Key(KEY_EVENT_TYPE, s.phase.code, true))
    ensures var s' := Next(block, s, Press(rc));
            && s'.reached == s.reached + [Call(Watcher, key, s.latch)]
            && s'.phase.Releasing? && s'.phase.code == s.phase.code && s.phase.code in {0x7E, 0x7F}
  {
  }

  lemma ReleaseReaches(block: bool, s: State, rc: int, key: Option<Key>)
    requires Inv(block, s) && s.phase.Releasing? && key == Some(Key(KEY_EVENT_TYPE, s.phase.code, false))
    ensures var s' := Next(block, s, Release(rc));
            && s'.reached == s.reached + [Call(Watcher, key, s.latch)]
            && s'.phase.Finishing? && s'.phase.code == s.phase.code && s.phase.code in {0x7E, 0x7F}
  {
  }

  lemma PressStepPaired(block: bool, s: State, rc: int, s': State)
    requires Inv(block, s) && s.phase.Pressing? && s' == Next(block, s, Press(rc))
    requires Paired(OwnKeys(s.reached), s.phase)
    ensures Paired(OwnKeys(s'.reached), s'.phase)
  {
    var key := Some(Key(KEY_EVENT_TYPE, s.phase.code, true));
    PressReaches(block, s, rc, key);
    OwnKeysSnoc(s.reached, Call(Watcher, key, s.latch));
    PressPaired(OwnKeys(s.reached), s.phase.code, s'.phase.pressed);
  }

  lemma ReleaseStepPaired(block: bool, s: State, rc: int, s': State)
    requires Inv(block, s) && s.phase.Releasing? && s' == Next(block, s, Release(rc))
    requires Paired(OwnKeys(s.reached), s.phase)
    ensures Paired(OwnKeys(s'.reached), s'.phase)
  {
    var key := Some(Key(KEY_EVENT_TYPE, s.phase.code, false));
    ReleaseReaches(block, s, rc, key);
    OwnKeysSnoc(s.reached, Call(Watcher, key, s.latch));
    ReleasePaired(OwnKeys(s.reached), s.phase.code, s.phase.pressed, s'.phase.accepted);
  }

  // Any other step adds no key of the watcher's and leaves a pending release pending.
  lemma OtherStepKeeps(block: bool, s: State, e: Event)
    requires !(e.Press? && s.phase.Pressing?) && !(e.Release? && s.phase.Releasing?)
    ensures var s' := Next(block, s, e);
            && OwnKeys(s'.reached) == OwnKeys(s.reached)
            && if s.phase.Releasing? then s'.phase == s.phase else !s'.phase.Releasing?
  {
    if e.OtherKey? {
      OwnKeysSnoc(s.reached, Call(Other(e.id), e.key, s.latch));
    }
  }

  lemma StepPaired(block: bool, s: State, e: Event)
    requires Inv(block, s) && Paired(OwnKeys(s.reached), s.phase)
    ensures Paired(OwnKeys(Next(block, s, e).reached), Next(block, s, e).phase)
  {
    var s' := Next(block, s, e);
    if e.Press? && s.phase.Pressing? {
      PressStepPaired(block, s, e.rc, s');
    } else if e.Release? && s.phase.Releasing? {
      ReleaseStepPaired(block, s, e.rc, s');
    } else {
      OtherStepKeeps(block, s, e);
      if !s.phase.Releasing? {
        SameTurn(OwnKeys(s.reached), s.phase, s'.phase);
      }
    }
  }

  // In every run, whatever other threads send in between, the watcher's keys reach the SDK
  // as presses with their releases.
  lemma {:induction false} KeysPaired(block: bool, events: seq<Event>)
    ensures var s := Exec(block, START, events); Paired(OwnKeys(s.reached), s.phase)
  {
    if events != [] {
      KeysPaired(block, Init(events));
      RunKeeps(block, Init(events));
      StepPaired(block, Exec(block, START, Init(events)), Last(events));
    }
  }

  // ---------------------------------------------------------------------------
  // The code of the watcher, between its calls into the SDK
  // ---------------------------------------------------------------------------

  class Bridge {
    const block: bool
    var wePaused: bool
    var allowModuleMediaPlay: bool
    ghost var reached: seq<Call>
    ghost var delivered: seq<nat>

    // Between keys.
    ghost function View(): State
      reads this
    {
      State(wePaused, if allowModuleMediaPlay then {Watcher} else {}, false, Idle, reached, delivered)
    }

    constructor (block: bool)
      ensures View() == START && this.block == block
    {
      this.block := block;
      wePaused, allowModuleMediaPlay, reached, delivered := false, false, [], [];
    }

    // The hook, entered on the watcher thread.
    method AapSendKeyInput(key: Option<Key>, rc: int) returns (answer: int)
      modifies this`reached
      ensures View() == Hook(block, old(View()), Watcher, key)
      ensures answer == Answer(block, old(View()), Watcher, key, rc)
    {
      if block && !allowModuleMediaPlay && key.Some?
         && key.value.kind == KEY_EVENT_TYPE && key.value.code == MEDIA_PLAY {
        return 0;
      }
      reached := reached + [Call(Watcher, key, wePaused)];
      return rc;
    }

    // Press, then release; true when both were accepted.
    method SendMediaKey(code: nat, available: bool, rcDown: int, rcUp: int) returns (accepted: bool)
      requires !allowModuleMediaPlay
      modifies this`allowModuleMediaPlay, this`reached
      ensures !available ==> !accepted && View() == old(View())
      ensures available ==>
        var s := Next(block, Next(block, StartKey(old(View()), code), Press(rcDown)), Release(rcUp));
        s.phase == Finishing(code, accepted) && View() == FinishKey(s).(latch := s.latch, delivered := s.delivered)
    {
      if !available {
        return false;
      }
      var previous := allowModuleMediaPlay;
      if code == MEDIA_PLAY {
        allowModuleMediaPlay := true;
      }
      var down := AapSendKeyInput(Some(Key(KEY_EVENT_TYPE, code, true)), rcDown);
      var up := AapSendKeyInput(Some(Key(KEY_EVENT_TYPE, code, false)), rcUp);
      allowModuleMediaPlay := previous;
      return down == 0 && up == 0;
    }

    // A fresh mute status; the answers are those of the audio manager and the SDK.
    method OnMuteChanged(muted: bool, playing: bool, focused: bool, available: bool, rcDown: int, rcUp: int)
      requires !allowModuleMediaPlay
      modifies this
      ensures View() == AfterMute(block, old(View()), muted, playing, focused, available, rcDown, rcUp)
    {
      if muted {
        if wePaused || !playing {
          return;
        }
        var ok := SendMediaKey(MEDIA_PAUSE, available, rcDown, rcUp);
        if ok {
          wePaused := true;
          delivered := delivered + [MEDIA_PAUSE];
        }
      } else {
        if !wePaused {
          return;
        }
        if !focused {
          wePaused := false;
          return;
        }
        var ok := SendMediaKey(MEDIA_PLAY, available, rcDown, rcUp);
        if ok {
          wePaused := false;
          delivered := delivered + [MEDIA_PLAY];
        }
      }
    }
  }

  // One mute status with no other thread in between, as the run of its steps.
  function AfterMute(block: bool, s: State, muted: bool, playing: bool, focused: bool, available: bool,
                     rcDown: int, rcUp: int): State {
    var s1 := Next(block, s, if muted then Muted(playing, available) else Unmuted(focused, available));
    Next(block, Next(block, Next(block, s1, Press(rcDown)), Release(rcUp)), Finish).(previous := s.previous)
  }

  // ---------------------------------------------------------------------------
  // Start-up records
  // ---------------------------------------------------------------------------

  const SAVED_DEVICES: nat := 10

  class Records {
    var seen: nat
    // the values read so far, and what was returned for them
    ghost var read: seq<uint32>
    ghost var returned: seq<uint32>

    // Only the first ten records lose their saved audio state.
    ghost predicate Valid()
      reads this
    {
      && seen == (if |read| < SAVED_DEVICES then |read| else SAVED_DEVICES)
      && |returned| == |read|
      && forall k :: 0 <= k < |read| ==> returned[k] == if k < SAVED_DEVICES then 0 else read[k]
    }

    constructor ()
      ensures Valid() && read == []
    {
      seen, read, returned := 0, [], [];
    }

    method ObserveInitialRecord(lastAudio: uint32) returns (cleared: bool, audio: uint32)
      requires Valid()
      modifies this
      ensures Valid() && read == old(read) + [lastAudio] && returned == old(returned) + [audio]
      ensures cleared <==> audio != lastAudio
      ensures audio == if |old(read)| < 10 then 0 else lastAudio
    {
      read, returned := read + [lastAudio], returned + [if seen >= SAVED_DEVICES then lastAudio else 0];
      if seen >= SAVED_DEVICES {
        return false, lastAudio;
      }
      seen := seen + 1;
      if lastAudio == 0 {
        return false, 0;
      }
      return true, 0;
    }
  }
}
