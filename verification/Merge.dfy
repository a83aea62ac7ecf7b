// The two-stream merge inside the navigation service (merge.cpp): Android Auto frames,
// marked by a sentinel speed, and OEM frames share one display.
module Merge {
  import opened Machine
  import opened VbsTx

  const SENTINEL: uint16 := 0xFFFF

  const TIMEOUT: int := 300   // seconds

  const STREET_CAP: nat := 128

  // The street strip as the setter receives it; the text may be a null pointer.
  datatype Strip = Strip(text: Option<seq<byte>>, sync: byte)

  // The calls of the single sender thread. `now` is the clock at the call, `current` the
  // OEM's own street buffer; a null frame is None.
  datatype Call =
    | OnDisplay(d: Option<Display>, now: int)
    | OnStrip(m: Option<Strip>, current: seq<byte>)

  // Whether the hook rewrites frames, and whether it reads the OEM's street buffer.
  datatype Config = Config(enabled: bool, forceStreet: bool)

  predicate FromAap(d: Display) {
    d.speedLimit == SENTINEL
  }

  // ---------------------------------------------------------------------------
  // What a history of calls says
  // ---------------------------------------------------------------------------

  datatype Speed = Speed(limit: uint16, unit: byte)

  // The speed of the latest OEM frame.
  function OemSpeed(calls: seq<Call>): Speed {
    if calls == [] then Speed(0, 0)
    else if Last(calls).OnDisplay? && Last(calls).d.Some? && !FromAap(Last(calls).d.value)
    then Speed(Last(calls).d.value.speedLimit, Last(calls).d.value.speedUnit)
    else OemSpeed(Init(calls))
  }

  datatype Claim = Claim(d: Display, since: int)

  // The latest Android Auto frame, unless it was a blanking frame.
  function Claimed(calls: seq<Call>): Option<Claim> {
    if calls == [] then None
    else if Last(calls).OnDisplay? && Last(calls).d.Some? && FromAap(Last(calls).d.value)
    then if Last(calls).d.value.icon == 0 then None else Some(Claim(Last(calls).d.value, Last(calls).now))
    else Claimed(Init(calls))
  }

  predicate Owned(claim: Option<Claim>, now: int) {
    claim.Some? && now - claim.value.since <= TIMEOUT
  }

  datatype StreetAction = Passthrough | Capture | Replace

  // What the strip after the latest maneuver frame is for.
  function Action(calls: seq<Call>): StreetAction {
    if calls == [] then Passthrough
    else if Last(calls).OnStrip? then Action(Init(calls))
    else if Last(calls).d.None? then Passthrough
    else if FromAap(Last(calls).d.value) then if Last(calls).d.value.icon == 0 then Passthrough else Capture
    else if Owned(Claimed(calls), Last(calls).now) then Replace
    else Passthrough
  }

  // The street a strip stands for, in a buffer of 128 bytes.
  function Source(cfg: Config, m: Strip, current: seq<byte>): seq<byte> {
    if cfg.forceStreet then CopyStr(current, STREET_CAP)
    else if m.text.Some? then CopyStr(m.text.value, STREET_CAP)
    else []
  }

  function CapturedStreet(cfg: Config, calls: seq<Call>): seq<byte> {
    if calls == [] then []
    else if Last(calls).OnStrip? && Last(calls).m.Some? && Action(calls) == Capture
    then Source(cfg, Last(calls).m.value, Last(calls).current)
    else CapturedStreet(cfg, Init(calls))
  }

  // ---------------------------------------------------------------------------
  // The interposed setters
  // ---------------------------------------------------------------------------

  function WithSpeed(d: Display, s: Speed): Display {
    d.(speedLimit := s.limit, speedUnit := s.unit)
  }

  function WithManeuver(d: Display, from: Display): Display {
    d.(icon := from.icon, distance := from.distance, unit := from.unit)
  }

  class MergeHook {
    const cfg: Config

    var haveAap: bool
    var aapManeuver: uint32
    var aapDistance: uint16
    var aapUnit: byte
    var aapLast: int
    var action: StreetAction
    var aapStreet: seq<byte>
    var oemSpeed: uint16
    var oemUnit: byte
    // every call so far
    ghost var calls: seq<Call>

    // The state is what the history of calls says.
    ghost predicate Valid()
      reads this
    {
      cfg.enabled ==>
        && oemSpeed == OemSpeed(calls).limit && oemUnit == OemSpeed(calls).unit
        && haveAap == Claimed(calls).Some?
        && (haveAap ==>
              && aapManeuver == Claimed(calls).value.d.icon && aapDistance == Claimed(calls).value.d.distance
              && aapUnit == Claimed(calls).value.d.unit && aapLast == Claimed(calls).value.since)
        && action == Action(calls)
        && aapStreet == CapturedStreet(cfg, calls)
    }

    constructor (cfg: Config)
      ensures Valid() && this.cfg == cfg && calls == []
    {
      this.cfg := cfg;
      haveAap, aapManeuver, aapDistance, aapUnit, aapLast := false, 0, 0, 0, 0;
      action, aapStreet, oemSpeed, oemUnit, calls := Passthrough, [], 0, 0, [];
    }

    method AapActive(now: int) returns (active: bool)
      requires Valid() && cfg.enabled
      ensures active == Owned(Claimed(calls), now)
    {
      active := haveAap && now - aapLast <= TIMEOUT;
    }

    // The maneuver frame. Returns what is forwarded.
    method SetDisplayMsg(disp: Option<Display>, now: int) returns (out: Option<Display>)
      requires Valid()
      modifies this
      ensures Valid() && calls == old(calls) + [OnDisplay(disp, now)]
      ensures out == ForwardDisplay(cfg, old(calls), disp, now)
    {
      ghost var before := calls;
      calls := calls + [OnDisplay(disp, now)];
      assert Init(calls) == before;
      if !cfg.enabled || disp.None? {
        action := Passthrough;
        return disp;
      }
      var d := disp.value;
      if d.speedLimit == SENTINEL {
        if d.icon == 0 {
          haveAap := false;
          action := Passthrough;
        } else {
          aapManeuver, aapDistance, aapUnit := d.icon, d.distance, d.unit;
          haveAap, aapLast := true, now;
          action := Capture;
        }
        d := d.(speedLimit := oemSpeed, speedUnit := oemUnit);
      } else {
        oemSpeed, oemUnit := d.speedLimit, d.speedUnit;
        if haveAap && now - aapLast <= TIMEOUT {
          d := d.(icon := aapManeuver, distance := aapDistance, unit := aapUnit);
          action := Replace;
        } else {
          action := Passthrough;
        }
      }
      return Some(d);
    }

    // The street strip.
    method SetStreetMsg(msg2: Option<Strip>, current: seq<byte>) returns (out: Option<Strip>)
      requires Valid()
      modifies this`aapStreet, this`calls
      ensures Valid() && calls == old(calls) + [OnStrip(msg2, current)]
      ensures out == ForwardStrip(cfg, old(calls), msg2, current)
    {
      ghost var before := calls;
      calls := calls + [OnStrip(msg2, current)];
      assert Init(calls) == before;
      if !cfg.enabled || msg2.None? {
        return msg2;
      }
      var m := msg2.value;
      if action == Capture {
        if cfg.forceStreet {
          aapStreet := CopyStr(current, STREET_CAP);
        } else if m.text.Some? {
          aapStreet := CopyStr(m.text.value, STREET_CAP);
        } else {
          aapStreet := [];
        }
        m := m.(text := Some(aapStreet));
      } else if action == Replace {
        m := m.(text := Some(aapStreet));
      }
      return Some(m);
    }
  }

  function ForwardDisplay(cfg: Config, calls: seq<Call>, disp: Option<Display>, now: int): Option<Display> {
    if !cfg.enabled || disp.None? then disp
    else if FromAap(disp.value) then Some(WithSpeed(disp.value, OemSpeed(calls)))
    else if Owned(Claimed(calls), now) then Some(WithManeuver(disp.value, Claimed(calls).value.d))
    else disp
  }

  function ForwardStrip(cfg: Config, calls: seq<Call>, msg2: Option<Strip>, current: seq<byte>): Option<Strip> {
    if !cfg.enabled || msg2.None? then msg2
    else if Action(calls) == Capture then Some(msg2.value.(text := Some(Source(cfg, msg2.value, current))))
    else if Action(calls) == Replace then Some(msg2.value.(text := Some(CapturedStreet(cfg, calls))))
    else msg2
  }

  // --- whole histories ------------------------------------------------------------------

  lemma {:induction false} SpeedIsOem(calls: seq<Call>)
    ensures OemSpeed(calls).limit != SENTINEL
  {
    if calls != [] {
      SpeedIsOem(Init(calls));
    }
  }

  // No forwarded frame carries the sentinel, and each carries the latest OEM speed, its
  // sync untouched; strips keep their sync too.
  lemma ForwardedSpeed(cfg: Config, calls: seq<Call>, d: Display, now: int, m: Strip, current: seq<byte>)
    requires cfg.enabled
    ensures var out := ForwardDisplay(cfg, calls, Some(d), now);
            && out.Some? && out.value.speedLimit != SENTINEL && out.value.sync == d.sync
            && Speed(out.value.speedLimit, out.value.speedUnit) == OemSpeed(calls + [OnDisplay(Some(d), now)])
    ensures var out := ForwardStrip(cfg, calls, Some(m), current);
            out.Some? && out.value.sync == m.sync
  {
    SpeedIsOem(calls);
    assert Init(calls + [OnDisplay(Some(d), now)]) == calls;
  }

  // The service sends a maneuver frame and its strip back to back: one generation.
  datatype Generation = Generation(d: Display, now: int, m: Strip, current: seq<byte>)

  function Calls(gens: seq<Generation>): seq<Call> {
    if gens == [] then []
    else
      var g := Last(gens);
      Calls(Init(gens)) + [OnDisplay(Some(g.d), g.now)] + [OnStrip(Some(g.m), g.current)]
  }

  // The generation that claims the display: the latest from Android Auto, unless it was
  // blank.
  function Claimant(gens: seq<Generation>): Option<Generation> {
    if gens == [] then None
    else if FromAap(Last(gens).d) then if Last(gens).d.icon == 0 then None else Some(Last(gens))
    else Claimant(Init(gens))
  }

  function LatestSpeed(gens: seq<Generation>): Speed {
    if gens == [] then Speed(0, 0)
    else if FromAap(Last(gens).d) then LatestSpeed(Init(gens))
    else Speed(Last(gens).d.speedLimit, Last(gens).d.speedUnit)
  }

  // A strip is captured exactly when its own maneuver frame claims the display.
  lemma StreetStep(cfg: Config, before: seq<Call>, mid: seq<Call>, d: Display, now: int, m: Strip, current: seq<byte>)
    requires mid == before + [OnDisplay(Some(d), now)]
    ensures CapturedStreet(cfg, mid + [OnStrip(Some(m), current)])
         == if FromAap(d) && d.icon != 0 then Source(cfg, m, current) else CapturedStreet(cfg, before)
  {
    var after := mid + [OnStrip(Some(m), current)];
    assert Init(mid) == before && Init(after) == mid;
    assert Action(after) == Action(mid);
  }

  // Street and maneuver block always come from the same generation.
  lemma {:induction false} HistoryOfGenerations(cfg: Config, gens: seq<Generation>)
    ensures var calls := Calls(gens);
            && OemSpeed(calls) == LatestSpeed(gens)
            && Claimed(calls) == (if Claimant(gens).None? then None
                                  else Some(Claim(Claimant(gens).value.d, Claimant(gens).value.now)))
            && (Claimant(gens).Some? ==>
                  CapturedStreet(cfg, calls) == Source(cfg, Claimant(gens).value.m, Claimant(gens).value.current))
  {
    if gens != [] {
      var g := Last(gens);
      var before := Calls(Init(gens));
      var mid := before + [OnDisplay(Some(g.d), g.now)];
      var after := mid + [OnStrip(Some(g.m), g.current)];
      assert Init(mid) == before && Init(after) == mid;
      StreetStep(cfg, before, mid, g.d, g.now, g.m, g.current);
      HistoryOfGenerations(cfg, Init(gens));
    }
  }

  // What the display gets for the latest generation: while Android Auto owns the display,
  // the claimant's maneuver and street with the latest OEM speed, at both cadences alike;
  // otherwise the generation as it is, apart from the spliced speed. The sync of the
  // generation stays in both frames.
  function Merged(cfg: Config, gens: seq<Generation>): (Display, Strip)
    requires gens != []
  {
    var g, speed, claimant := Last(gens), LatestSpeed(gens), Claimant(gens);
    if claimant.Some? && g.now - claimant.value.now <= TIMEOUT then
      (WithSpeed(WithManeuver(g.d, claimant.value.d), speed),
       g.m.(text := Some(Source(cfg, claimant.value.m, claimant.value.current))))
    else (WithSpeed(g.d, speed), g.m)
  }

  lemma MergedDisplay(cfg: Config, gens: seq<Generation>, g: Generation, calls: seq<Call>)
    requires cfg.enabled && calls == Calls(gens)
    ensures ForwardDisplay(cfg, calls, Some(g.d), g.now) == Some(Merged(cfg, gens + [g]).0)
  {
    assert Init(gens + [g]) == gens;
    HistoryOfGenerations(cfg, gens);
  }

  lemma AfterDisplay(cfg: Config, calls: seq<Call>, mid: seq<Call>, d: Display, now: int)
    requires mid == calls + [OnDisplay(Some(d), now)]
    ensures CapturedStreet(cfg, mid) == CapturedStreet(cfg, calls)
    ensures Action(mid) == if FromAap(d) then if d.icon == 0 then Passthrough else Capture
                           else if Owned(Claimed(calls), now) then Replace else Passthrough
  {
    assert Init(mid) == calls && Last(mid) == OnDisplay(Some(d), now);
  }

  lemma MergedStrip(cfg: Config, gens: seq<Generation>, g: Generation, calls: seq<Call>, mid: seq<Call>)
    requires cfg.enabled && calls == Calls(gens) && mid == calls + [OnDisplay(Some(g.d), g.now)]
    ensures ForwardStrip(cfg, mid, Some(g.m), g.current) == Some(Merged(cfg, gens + [g]).1)
  {
    assert Init(gens + [g]) == gens && Last(gens + [g]) == g;
    AfterDisplay(cfg, calls, mid, g.d, g.now);
    HistoryOfGenerations(cfg, gens);
  }

  lemma MergeHistory(cfg: Config, gens: seq<Generation>, g: Generation)
    requires cfg.enabled
    ensures ForwardDisplay(cfg, Calls(gens), Some(g.d), g.now) == Some(Merged(cfg, gens + [g]).0)
    ensures ForwardStrip(cfg, Calls(gens) + [OnDisplay(Some(g.d), g.now)], Some(g.m), g.current)
         == Some(Merged(cfg, gens + [g]).1)
  {
    MergedDisplay(cfg, gens, g, Calls(gens));
    MergedStrip(cfg, gens, g, Calls(gens), Calls(gens) + [OnDisplay(Some(g.d), g.now)]);
  }

  // --- field by field ---------------------------------------------------------------------

  // The latest generation marked as Android Auto's claims the display, unless it is blank.
  lemma {:induction false} ClaimantIs(gens: seq<Generation>, i: nat)
    requires i < |gens| && gens[i].d.speedLimit == 0xFFFF
    requires forall j :: i < j < |gens| ==> gens[j].d.speedLimit != 0xFFFF
    ensures Claimant(gens) == if gens[i].d.icon == 0 then None else Some(gens[i])
    decreases |gens|
  {
    if i < |gens| - 1 {
      ClaimantIs(Init(gens), i);
    }
  }

  // The speed is that of the latest generation not so marked.
  lemma {:induction false} LatestSpeedIs(gens: seq<Generation>, i: nat)
    requires i < |gens| && gens[i].d.speedLimit != 0xFFFF
    requires forall j :: i < j < |gens| ==> gens[j].d.speedLimit == 0xFFFF
    ensures LatestSpeed(gens) == Speed(gens[i].d.speedLimit, gens[i].d.speedUnit)
    decreases |gens|
  {
    if i < |gens| - 1 {
      LatestSpeedIs(Init(gens), i);
    }
  }

  // What each field of the forwarded pair comes from: maneuver, distance, unit and street
  // from the claimant while it is at most 300 seconds old, otherwise from the generation
  // itself; the speed from the latest OEM frame; the syncs from the generation.
  lemma MergedFields(cfg: Config, gens: seq<Generation>, g: Generation, all: seq<Generation>, d: Display, m: Strip)
    requires cfg.enabled && all == gens + [g]
    requires Some(d) == ForwardDisplay(cfg, Calls(gens), Some(g.d), g.now)
    requires Some(m) == ForwardStrip(cfg, Calls(gens) + [OnDisplay(Some(g.d), g.now)], Some(g.m), g.current)
    ensures d.sync == g.d.sync && m.sync == g.m.sync
    ensures d.speedLimit == LatestSpeed(all).limit && d.speedUnit == LatestSpeed(all).unit
    ensures var owner := Claimant(all);
            if owner.Some? && g.now - owner.value.now <= 300
            then && d.icon == owner.value.d.icon && d.distance == owner.value.d.distance
                 && d.unit == owner.value.d.unit
                 && m.text == Some(if cfg.forceStreet then CopyStr(owner.value.current, 128)
                                   else if owner.value.m.text.Some? then CopyStr(owner.value.m.text.value, 128)
                                   else [])
            else d.icon == g.d.icon && d.distance == g.d.distance && d.unit == g.d.unit && m.text == g.m.text
  {
    MergeHistory(cfg, gens, g);
    assert Last(all) == g;
  }
}
