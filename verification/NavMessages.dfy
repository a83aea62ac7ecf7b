// CarPlay navigation from the bytes of its messages to the maneuver delivered (nav.cpp):
// the message layout, a whole burst, and the entry a guidance head names.
module NavMessages {
  import opened Machine
  import opened Glyphs
  import opened NavWindow
  import NavReceiver
  import CarplayHud
  import CarplaySender
  import Pictures

  // ---------------------------------------------------------------------------
  // Reading fields
  // ---------------------------------------------------------------------------

  // A 16-bit field, low byte first.
  predicate Has16(b: seq<byte>, off: nat, v: uint16) {
    off + 2 <= |b| && b[off] == v % 0x100 && b[off + 1] == v / 0x100
  }

  predicate Has32(b: seq<byte>, off: nat, v: uint32) {
    Has16(b, off, v % 0x1_0000) && Has16(b, off + 2, v / 0x1_0000)
  }

  // A signed 16-bit field, in two's complement.
  predicate HasSigned(b: seq<byte>, off: nat, v: int) {
    -0x8000 <= v < 0x8000 && Has16(b, off, if v < 0 then v + 0x1_0000 else v)
  }

  // A text that ends with its NUL or with the message, and fits the buffer.
  predicate HasText(b: seq<byte>, off: nat, text: seq<byte>, cap: nat) {
    && 0 !in text && |text| < cap && off + |text| <= |b| && b[off..off + |text|] == text
    && (off + |text| < |b| ==> b[off + |text|] == 0)
  }

  lemma Read16(b: seq<byte>, off: nat, v: uint16)
    requires Has16(b, off, v)
    ensures U16(b, off) == v
  {
  }

  lemma Read32(b: seq<byte>, off: nat, v: uint32)
    requires Has32(b, off, v)
    ensures U32(b, off) == v
  {
    Read16(b, off, v % 0x1_0000);
    Read16(b, off + 2, v / 0x1_0000);
  }

  lemma ReadSigned(b: seq<byte>, off: nat, v: int)
    requires HasSigned(b, off, v)
    ensures S16(b, off) == v
  {
    Read16(b, off, if v < 0 then v + 0x1_0000 else v);
  }

  // A field behind the end of the message reads as 0.
  lemma ReadBeyond(b: seq<byte>, off: nat)
    ensures off + 2 > |b| ==> U16(b, off) == 0
    ensures off + 4 > |b| ==> U32(b, off) == 0
  {
  }

  lemma UpToNulIs(s: seq<byte>, t: seq<byte>)
    requires t <= s && 0 !in t && (|t| < |s| ==> s[|t|] == 0)
    ensures UpToNul(s) == t
  {
    var r := UpToNul(s);
    assert forall i :: 0 <= i < |t| ==> s[i] == t[i] && t[i] != 0;
    assert forall i :: 0 <= i < |r| ==> s[i] == r[i] && r[i] != 0;
  }

  lemma ReadText(b: seq<byte>, off: nat, text: seq<byte>, cap: nat)
    requires HasText(b, off, text, cap)
    ensures Text(b, off, cap) == text
  {
    var s := b[off..];
    var cut := if |s| >= cap then s[..cap - 1] else s;
    assert s[..|text|] == text && cut[..|text|] == text;
    assert |text| < |s| ==> s[|text|] == b[off + |text|];
    UpToNulIs(cut, text);
  }

  // What a maneuver message says.
  datatype ManeuverMsg = ManeuverMsg(index: uint16, mtype: uint32, driveSide: uint32, junction: uint32, angle: int,
                                     road: seq<byte>, text: seq<byte>)

  predicate Carries(b: seq<byte>, m: ManeuverMsg) {
    && Has16(b, 0, 0x8059) && Has16(b, 0x20, 0) && Has16(b, 0x22, m.index)
    && Has32(b, 0x128, m.mtype) && Has32(b, 0x33C, m.driveSide) && Has32(b, 0x340, m.junction)
    && HasSigned(b, 0x346, m.angle)
    && HasText(b, 0x12C, m.road, 256) && HasText(b, 0x24, m.text, 256)
  }

  lemma IndexRead(b: seq<byte>, index: uint16)
    requires Has16(b, 0x20, 0) && Has16(b, 0x22, index)
    ensures Index(b) == index
  {
    Read32(b, 0x20, 0x1_0000 * index);
  }

  lemma FieldsRead(b: seq<byte>, m: ManeuverMsg)
    requires Carries(b, m)
    ensures Index(b) == m.index && U32(b, 0x128) == m.mtype && U32(b, 0x33C) == m.driveSide
    ensures U32(b, 0x340) == m.junction && S16(b, 0x346) == m.angle && U16(b, 0) == 0x8059
  {
    Read16(b, 0, 0x8059);
    IndexRead(b, m.index);
    Read32(b, 0x128, m.mtype);
    Read32(b, 0x33C, m.driveSide);
    Read32(b, 0x340, m.junction);
    ReadSigned(b, 0x346, m.angle);
  }

  // The entry buffered for it has these fields, each from its own place.
  lemma EntryRead(b: seq<byte>, m: ManeuverMsg)
    requires Carries(b, m)
    ensures IsManeuver(b) && !IsGuidance(b)
    ensures EntryOf(b) == Entry(m.index, Classify(m.mtype, m.junction, m.angle, m.driveSide), m.road, m.text)
    ensures Displayable(b) <==> m.index != 0 && m.mtype !in {0, 5, 11, 18}
    ensures ShownOf(EntryOf(b)).road == if m.road != [] then m.road else m.text
  {
    FieldsRead(b, m);
    ReadText(b, 0x12C, m.road, 256);
    ReadText(b, 0x24, m.text, 257);
    Fits(m.text, 256);
    Fits(m.road, 256);
  }

  // What the driver sees of it, at the sender with any distance.
  lemma EntryDrawn(b: seq<byte>, m: ManeuverMsg, shown: CarplayHud.Maneuver, c: Maneuver)
    requires Carries(b, m) && c == EntryOf(b).m && Pictures.Carries(shown, c)
    ensures Pictures.ManeuverLooks(m.mtype, m.junction, m.angle, m.driveSide,
                                   Pictures.PictureOf(CarplayHud.Icon(shown)))
  {
    EntryRead(b, m);
    Pictures.ManeuverDrawn(m.mtype, m.junction, m.angle, m.driveSide, shown);
  }

  // A delivered maneuver as the sender's snapshot has it, the distance left alone.
  lemma TurnLands(cfg: CarplayHud.Config, s: CarplayHud.State, road: seq<byte>, shown: Shown, s': CarplayHud.State)
    requires s' == CarplayHud.Next(cfg, s, CarplayHud.WriteTurn(road, shown.m.side, shown.m.event, shown.m.angle,
                                                               shown.m.number))
    ensures Pictures.Carries(s'.snapshot, shown.m) && s'.snapshot.road == road
    ensures s'.snapshot.distance == s.snapshot.distance && s'.snapshot.unit == s.snapshot.unit
    ensures s'.snapshot.timeUntil == s.snapshot.timeUntil && s'.count == s.count + 2
  {
  }

  // And a distance, the maneuver left alone.
  lemma DistanceLands(cfg: CarplayHud.Config, s: CarplayHud.State, tenths: int32, unit: byte, time: int32,
                      s': CarplayHud.State)
    requires s' == CarplayHud.Next(cfg, s, CarplayHud.WriteDistance(tenths, unit, time))
    ensures s'.snapshot == s.snapshot.(distance := tenths, unit := unit, timeUntil := time)
    ensures s'.count == s.count + 2 && s'.guidance == s.guidance
  {
  }

  // What a guidance message says: a maneuver list, and the distance in metres.
  datatype GuidanceMsg = GuidanceMsg(head: uint16, listed: uint16, metres: uint32)

  predicate CarriesGuidance(b: seq<byte>, g: GuidanceMsg) {
    Has16(b, 0, 0x8058) && Has16(b, 0x458, g.head) && Has16(b, 0x656, g.listed) && Has32(b, 0x34C, g.metres)
  }

  lemma GuidanceRead(b: seq<byte>, g: GuidanceMsg)
    requires CarriesGuidance(b, g)
    ensures IsGuidance(b) && !IsManeuver(b)
    ensures HeadOf(b) == if g.listed > 0 then Some(g.head) else None
  {
    Read16(b, 0, 0x8058);
    Read16(b, 0x458, g.head);
    Read16(b, 0x656, g.listed);
  }

  // The display's number of tenths of a unit is the last one not beyond the distance.
  predicate ShowsMetres(metres: nat, tenths: int, unit: byte) {
    && unit == (if metres < 1000 then 1 else 3)
    && tenths * Pictures.HudLength(unit) <= 10 * metres * Pictures.METRE < (tenths + 1) * Pictures.HudLength(unit)
  }

  lemma MetresShown(metres: nat)
    requires metres < 1000
    ensures ShowsMetres(metres, CDiv(metres * 1000, 100), CarplaySender.DistanceUnit(1))
  {
    assert metres * 1000 / 100 == 10 * metres;
  }

  lemma KilometresShown(metres: nat)
    requires metres >= 1000
    ensures ShowsMetres(metres, CDiv(metres, 100), CarplaySender.DistanceUnit(3))
  {
    var q := metres / 100;
    assert 100 * q <= metres < 100 * q + 100;
  }

  lemma SignedMetres(metres: uint32)
    ensures if 1 <= metres <= 100000 then ToInt32(metres) == metres
            else ToInt32(metres) <= 0 || ToInt32(metres) > 100000
  {
  }

  lemma HandedOn(b: seq<byte>, metres: uint32)
    requires IsGuidance(b) && |b| >= 0x350 && U32(b, 0x34C) == metres
    ensures NavReceiver.GuidanceDistance(b)
         == if metres < 1 || metres > 100000 then []
            else if metres < 1000 then [(metres * 1000, 1)] else [(metres, 3)]
  {
    SignedMetres(metres);
  }

  // A distance is handed on exactly from 1 to 100000 metres, shown in metres below a
  // kilometre and in kilometres from there.
  lemma DistanceRead(b: seq<byte>, g: GuidanceMsg)
    requires CarriesGuidance(b, g)
    ensures |NavReceiver.GuidanceDistance(b)| == if 1 <= g.metres <= 100000 then 1 else 0
    ensures NavReceiver.GuidanceDistance(b) != [] ==>
      var (value, units) := NavReceiver.GuidanceDistance(b)[0];
      ShowsMetres(g.metres, CDiv(value, 100), CarplaySender.DistanceUnit(units))
  {
    GuidanceRead(b, g);
    Read32(b, 0x34C, g.metres);
    HandedOn(b, g.metres);
    if g.metres < 1000 {
      MetresShown(g.metres);
    } else {
      KilometresShown(g.metres);
    }
  }

  // ---------------------------------------------------------------------------
  // Heads
  // ---------------------------------------------------------------------------

  predicate First(es: seq<Entry>, i: nat, idx: nat) {
    i < |es| && es[i].idx == idx && forall j :: 0 <= j < i ==> es[j].idx != idx
  }

  predicate Lacks(es: seq<Entry>, idx: nat) {
    forall j :: 0 <= j < |es| ==> es[j].idx != idx
  }

  lemma {:induction false} FindFirstEntry(es: seq<Entry>, i: nat, idx: nat)
    requires First(es, i, idx)
    ensures FindIndex(es, idx) == Some(es[i])
  {
    if i > 0 {
      FindFirstEntry(es[1..], i - 1, idx);
    }
  }

  lemma {:induction false} FindNone(es: seq<Entry>, idx: nat)
    requires Lacks(es, idx)
    ensures FindIndex(es, idx) == None
  {
    if es != [] {
      FindNone(es[1..], idx);
    }
  }

  // A head selects the first entry with its index; without one, the first with the next
  // index; without that, nothing.
  lemma HeadSelects(es: seq<Entry>, head: nat, i: nat)
    ensures First(es, i, head) ==> Find(es, head) == Some(es[i])
    ensures Lacks(es, head) && First(es, i, head + 1) ==> Find(es, head) == Some(es[i])
    ensures Lacks(es, head) && Lacks(es, head + 1) ==> Find(es, head) == None
  {
    if First(es, i, head) {
      FindFirstEntry(es, i, head);
    } else if Lacks(es, head) {
      FindNone(es, head);
      if First(es, i, head + 1) {
        FindFirstEntry(es, i, head + 1);
      } else if Lacks(es, head + 1) {
        FindNone(es, head + 1);
      }
    }
  }

  // ---------------------------------------------------------------------------
  // A burst
  // ---------------------------------------------------------------------------

  // Maneuver messages with rising indices from 0, no reset in between.
  predicate Burst(burst: seq<Arrival>) {
    && (forall i :: 0 <= i < |burst| ==> IsManeuver(burst[i].b) && !burst[i].reset)
    && (forall i, j :: 0 <= i < j < |burst| ==> Index(burst[i].b) < Index(burst[j].b))
    && (burst != [] ==> Index(burst[0].b) == 0)
  }

  lemma BurstInit(burst: seq<Arrival>)
    requires Burst(burst) && burst != []
    ensures Burst(Init(burst)) && IsManeuver(Last(burst).b) && !Last(burst).reset
    ensures if |burst| == 1 then Index(Last(burst).b) == 0
            else Index(Last(Init(burst)).b) < Index(Last(burst).b) && IsManeuver(Last(Init(burst)).b)
  {
  }

  // The window restarts with the burst, whatever came before.
  lemma {:induction false} BurstRestarts(h: seq<Arrival>, burst: seq<Arrival>)
    requires Burst(burst) && burst != []
    ensures SinceRestart(h + burst) == burst
    decreases |burst|
  {
    var all := h + burst;
    BurstInit(burst);
    assert Init(all) == h + Init(burst) && Last(all) == Last(burst);
    if |burst| == 1 {
      assert burst == [Last(burst)];
    } else {
      BurstRestarts(h, Init(burst));
      assert Last(Init(all)) == Last(Init(burst));
      assert PreviousIndex(Init(all)) == Some(Index(Last(Init(burst)).b));
      assert !Restarts(Init(all), Last(all));
    }
  }

  lemma BurstWindow(h: seq<Arrival>, burst: seq<Arrival>)
    requires Burst(burst) && burst != []
    ensures Window(h + burst) == First48(Displayables(burst))
  {
    BurstRestarts(h, burst);
  }

  lemma {:induction false} FindConcat(xs: seq<Entry>, ys: seq<Entry>, idx: nat)
    ensures FindIndex(xs + ys, idx) == if FindIndex(xs, idx).Some? then FindIndex(xs, idx) else FindIndex(ys, idx)
    decreases |xs|
  {
    if xs == [] {
      assert xs + ys == ys;
    } else {
      assert (xs + ys)[1..] == xs[1..] + ys;
      FindConcat(xs[1..], ys, idx);
    }
  }

  lemma {:induction false} DisplayablesConcat(xs: seq<Arrival>, ys: seq<Arrival>)
    ensures Displayables(xs + ys) == Displayables(xs) + Displayables(ys)
    decreases |ys|
  {
    if ys == [] {
      assert xs + ys == xs;
    } else {
      assert Init(xs + ys) == xs + Init(ys) && Last(xs + ys) == Last(ys);
      DisplayablesConcat(xs, Init(ys));
    }
  }

  lemma {:induction false} NotFound(burst: seq<Arrival>, idx: nat)
    requires forall i :: 0 <= i < |burst| ==> Index(burst[i].b) != idx
    ensures FindIndex(Displayables(burst), idx) == None
    decreases |burst|
  {
    if burst != [] {
      assert Last(burst) == burst[|burst| - 1];
      NotFound(Init(burst), idx);
      FindConcat(Displayables(Init(burst)), if Displayable(Last(burst).b) then [EntryOf(Last(burst).b)] else [], idx);
    }
  }

  // The first displayable message with an index is found by it.
  lemma FoundBehind(before: seq<Arrival>, a: Arrival, after: seq<Arrival>, idx: nat, e: Entry)
    requires FindIndex(Displayables(before), idx) == None
    requires Displayable(a.b) && e == EntryOf(a.b) && e.idx == idx
    ensures FindIndex(Displayables(before + [a] + after), idx) == Some(e)
  {
    DisplayablesConcat(before + [a], after);
    assert Init(before + [a]) == before && Last(before + [a]) == a;
    FindConcat(Displayables(before) + [e], Displayables(after), idx);
    FindConcat(Displayables(before), [e], idx);
  }

  lemma NotFoundBefore(burst: seq<Arrival>, i: nat, idx: nat)
    requires i <= |burst| && forall j :: 0 <= j < i ==> Index(burst[j].b) != idx
    ensures FindIndex(Displayables(burst[..i]), idx) == None
  {
    NotFound(burst[..i], idx);
  }

  lemma Splits<T>(s: seq<T>, i: nat)
    requires i < |s|
    ensures s == s[..i] + [s[i]] + s[i + 1..]
  {
  }

  lemma {:induction false} FoundAt(burst: seq<Arrival>, i: nat, a: Arrival, e: Entry)
    requires i < |burst| && burst[i] == a && Displayable(a.b) && e == EntryOf(a.b)
    requires FindIndex(Displayables(burst[..i]), e.idx) == None
    ensures FindIndex(Displayables(burst), e.idx) == Some(e)
  {
    Splits(burst, i);
    FoundBehind(burst[..i], a, burst[i + 1..], e.idx, e);
  }

  lemma BurstDiffers(burst: seq<Arrival>, i: nat, idx: nat)
    requires Burst(burst) && i < |burst| && idx == Index(burst[i].b)
    ensures forall j :: 0 <= j < i ==> Index(burst[j].b) != idx
  {
  }

  // After a burst that fits the buffer, a guidance that names one of its maneuvers selects
  // that maneuver, and it is the one delivered last.
  lemma HeadDelivered(h: seq<Arrival>, burst: seq<Arrival>, i: nat, g: Arrival, all: seq<Arrival>)
    requires Burst(burst) && |Displayables(burst)| <= 48 && i < |burst| && Displayable(burst[i].b)
    requires IsGuidance(g.b) && !g.reset && HeadOf(g.b) == Some(Index(burst[i].b))
    requires all == h + burst + [g]
    ensures Selects(all) == Some(ShownOf(EntryOf(burst[i].b)))
    ensures Delivered(all) != [] && Last(Delivered(all)) == ShownOf(EntryOf(burst[i].b))
  {
    BurstWindow(h, burst);
    BurstDiffers(burst, i, Index(burst[i].b));
    NotFoundBefore(burst, i, Index(burst[i].b));
    FoundAt(burst, i, burst[i], EntryOf(burst[i].b));
    WindowStep(h + burst, g);
    SelectsStep(h + burst, g, HeadOf(g.b));
    DeliveredIsLatest(all, Selects(all));
  }
}
