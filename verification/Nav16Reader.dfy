// The decoder's reader (hud_nav16.cpp): a cursor that advances over a buffer, and one
// loop per message type. Each loop computes the fold that Nav16 specifies, for every
// byte string, stopping at the first malformed field.
module Nav16Reader {
  import opened Machine
  import opened Lanes
  import opened Wire
  import opened Nav16

  class Pb {
    const buf: seq<byte>
    var p: nat

    ghost predicate Valid()
      reads this
    {
      p <= |buf|
    }

    ghost function Rest(): seq<byte>
      reads this
      requires Valid()
    {
      buf[p..]
    }

    constructor (b: seq<byte>)
      ensures Valid() && buf == b && p == 0 && Rest() == b
    {
      buf, p := b, 0;
    }

    method RdVarint() returns (ok: bool, v: uint64)
      requires Valid()
      modifies this`p
      ensures Valid() && old(p) <= p
      ensures ok == ReadVarint(old(Rest())).Some?
      ensures ok ==> ReadVarint(old(Rest())) == Some((v, p - old(p)))
    {
      v := 0;
      var k := 0;
      ghost var start := p;
      while p < |buf| && k < 10
        invariant start <= p <= |buf| && k == p - start <= 10
        invariant k < 10 ==> v < Weight(k)
        invariant VarintFrom(buf[p..], k, v) == ReadVarint(buf[start..])
      {
        var b := buf[p];
        assert buf[p..][1..] == buf[p + 1..];
        WeightBound(k, v, b);
        p := p + 1;
        v := v + b % 0x80 * Weight(k) % 0x1_0000_0000_0000_0000;
        if b < 0x80 {
          return true, v;
        }
        k := k + 1;
      }
      return false, v;
    }

    method RdTag() returns (ok: bool, field: uint32, wire: nat)
      requires Valid()
      modifies this`p
      ensures Valid()
      ensures !ok ==> ReadRecord(old(Rest())) == None
      ensures ok ==> old(p) < p && wire < 8 && Tagged(old(Rest()), field, wire, Rest())
    {
      ghost var rest := Rest();
      ghost var start := p;
      if p >= |buf| {
        return false, 0, 0;
      }
      var good, tag := RdVarint();
      if !good {
        return false, 0, 0;
      }
      assert rest[p - start..] == Rest();
      return true, FieldOf(tag), tag % 8;
    }

    // The value of a varint field whose tag was read at `at`.
    method RdVarintField(ghost at: seq<byte>, ghost field: uint32) returns (ok: bool, v: uint64)
      requires Valid() && Tagged(at, field, 0, Rest())
      modifies this`p
      ensures Valid() && old(p) <= p
      ensures if ok then Next(at, Varint(field, v), Rest()) else ReadRecord(at) == None
    {
      ghost var rest := Rest();
      ghost var start := p;
      ok, v := RdVarint();
      assert rest[p - start..] == Rest();
    }

    // A length and that many bytes, never beyond the end.
    method RdCounted() returns (ok: bool, data: seq<byte>, ghost n: nat)
      requires Valid()
      modifies this`p
      ensures Valid() && old(p) <= p
      ensures !ok ==> NoCounted(old(Rest()))
      ensures ok ==> |data| + n <= |old(Rest())| && ReadVarint(old(Rest())) == Some((|data|, n))
      ensures ok ==> data == old(Rest())[n..n + |data|] && Rest() == old(Rest())[n + |data|..]
    {
      ghost var start := p;
      var good, l := RdVarint();
      n := p - start;
      if !good || |buf| - p < l {
        return false, [], n;
      }
      data := buf[p..p + l];
      WithinRest(buf, start, p, l);
      p := p + l;
      return true, data, n;
    }

    method RdBytes(ghost at: seq<byte>, ghost field: uint32) returns (ok: bool, data: seq<byte>)
      requires Valid() && Tagged(at, field, 2, Rest())
      modifies this`p
      ensures Valid() && old(p) <= p
      ensures if ok then Next(at, Bytes(field, data), Rest()) else ReadRecord(at) == None
    {
      ghost var rest := Rest();
      ghost var n;
      ok, data, n := RdCounted();
      if ok {
        BytesField(at, field, rest, |data|, n);
      } else {
        BytesMissing(at, field, rest);
      }
    }

    // Steps over a field and names the record stepped over.
    method Skip(ghost at: seq<byte>, ghost field: uint32, wire: nat) returns (ok: bool, ghost rec: Record)
      requires Valid() && wire < 8 && Tagged(at, field, wire, Rest())
      modifies this`p
      ensures Valid() && old(p) <= p
      ensures if ok then rec.field == field && WireType(rec) == wire && Next(at, rec, Rest())
              else ReadRecord(at) == None
    {
      ghost var rest := Rest();
      rec := Varint(field, 0);
      match wire
      case 0 =>
        var good, v := RdVarintField(at, field);
        return good, Varint(field, v);
      case 1 =>
        if |buf| - p < 8 { return false, rec; }
        p := p + 8;
        assert rest[8..] == Rest();
        return true, Fixed64(field, rest[..8]);
      case 2 =>
        var good, data := RdBytes(at, field);
        return good, Bytes(field, data);
      case 5 =>
        if |buf| - p < 4 { return false, rec; }
        p := p + 4;
        assert rest[4..] == Rest();
        return true, Fixed32(field, rest[..4]);
      case _ =>
        return false, rec;
    }
  }

  // `mid` follows a tag read at the front of `at`.
  ghost predicate Tagged(at: seq<byte>, field: uint32, wire: nat, mid: seq<byte>) {
    && |mid| <= |at| && mid == at[|at| - |mid|..]
    && ReadRecord(at) == match ReadBody(field, wire, mid)
                         case None => None
                         case Some((rec, m)) => Some((rec, |at| - |mid| + m))
  }

  // `rec` is the field at the front of `at`, and `after` follows it.
  ghost predicate Next(at: seq<byte>, rec: Record, after: seq<byte>) {
    |after| <= |at| && after == at[|at| - |after|..] && ReadRecord(at) == Some((rec, |at| - |after|))
  }

  lemma BytesField(at: seq<byte>, field: uint32, mid: seq<byte>, l: nat, n: nat)
    requires Tagged(at, field, 2, mid) && ReadVarint(mid) == Some((l, n)) && l <= |mid| - n
    ensures Next(at, Bytes(field, mid[n..n + l]), mid[n + l..])
  {
  }

  ghost predicate NoCounted(s: seq<byte>) {
    ReadVarint(s).None? || ReadVarint(s).value.0 > |s| - ReadVarint(s).value.1
  }

  lemma BytesMissing(at: seq<byte>, field: uint32, mid: seq<byte>)
    requires Tagged(at, field, 2, mid) && NoCounted(mid)
    ensures ReadRecord(at) == None
  {
  }

  lemma WithinRest(buf: seq<byte>, start: nat, p: nat, l: nat)
    requires start <= p && p + l <= |buf|
    ensures buf[start..][p - start..p - start + l] == buf[p..p + l]
    ensures buf[start..][p - start + l..] == buf[p + l..]
  {
  }

  // What a decoder makes of the rest of a message.
  ghost function Run<A>(step: (A, Record) -> A, a: A, s: seq<byte>): A {
    Fold(step, a, Records(s))
  }

  lemma Took<A>(step: (A, Record) -> A, a: A, at: seq<byte>, rec: Record, after: seq<byte>)
    requires Next(at, rec, after)
    ensures Run(step, a, at) == Run(step, step(a, rec), after)
  {
    FirstOf(at, rec, after);
    assert Records(at)[1..] == Records(after);
  }

  lemma FirstOf(at: seq<byte>, rec: Record, after: seq<byte>)
    requires Next(at, rec, after)
    ensures Records(at) == [rec] + Records(after)
  {
  }

  method DecDistance(b: seq<byte>, d0: Distance) returns (d: Distance)
    ensures d == Fold(DistanceStep, d0, Records(b))
  {
    d := d0;
    var c := new Pb(b);
    while true
      invariant c.Valid() && c.buf == b
      invariant Run(DistanceStep, d, c.Rest()) == Run(DistanceStep, d0, b)
      decreases |b| - c.p
    {
      ghost var at := c.Rest();
      var ok, f, w := c.RdTag();
      if !ok { break; }
      if f == 1 && w == 0 {
        var good, v := c.RdVarintField(at, f);
        if !good { break; }
        Took(DistanceStep, d, at, Varint(f, v), c.Rest());
        d := d.(meters := ToInt32(v));
      } else if f == 2 && w == 2 {
        var good, s := c.RdBytes(at, f);
        if !good { break; }
        Took(DistanceStep, d, at, Bytes(f, s), c.Rest());
        d := d.(display := CopyStr(s, 16));
      } else if f == 3 && w == 0 {
        var good, v := c.RdVarintField(at, f);
        if !good { break; }
        Took(DistanceStep, d, at, Varint(f, v), c.Rest());
        d := d.(units := v % 0x1_0000_0000);
      } else {
        var good, rec := c.Skip(at, f, w);
        if !good { break; }
        Took(DistanceStep, d, at, rec, c.Rest());
      }
    }
  }

  lemma TookName(road: seq<byte>, at: seq<byte>, s: seq<byte>, after: seq<byte>)
    requires Next(at, Bytes(1, s), after)
    ensures Run(RoadStep, CopyStr(s, 64), after) == Run(RoadStep, road, at)
  {
    Took(RoadStep, road, at, Bytes(1, s), after);
  }

  method DecRoadName(b: seq<byte>, road0: seq<byte>) returns (road: seq<byte>)
    ensures road == Fold(RoadStep, road0, Records(b))
  {
    road := road0;
    var c := new Pb(b);
    while true
      invariant c.Valid() && c.buf == b
      invariant Run(RoadStep, road, c.Rest()) == Run(RoadStep, road0, b)
      decreases |b| - c.p
    {
      ghost var at := c.Rest();
      var ok, f, w := c.RdTag();
      if !ok { break; }
      if f == 1 && w == 2 {
        var good, s := c.RdBytes(at, f);
        if !good { break; }
        TookName(road, at, s, c.Rest());
        road := CopyStr(s, 64);
      } else {
        var good, rec := c.Skip(at, f, w);
        if !good { break; }
        Took(RoadStep, road, at, rec, c.Rest());
      }
    }
  }

  method DecDirectionFields(b: seq<byte>, d0: Direction) returns (d: Direction)
    ensures d == Fold(DirectionStep, d0, Records(b))
  {
    d := d0;
    var c := new Pb(b);
    while true
      invariant c.Valid() && c.buf == b
      invariant Run(DirectionStep, d, c.Rest()) == Run(DirectionStep, d0, b)
      decreases |b| - c.p
    {
      ghost var at := c.Rest();
      var ok, f, w := c.RdTag();
      if !ok { break; }
      if f == 1 && w == 0 {
        var good, v := c.RdVarintField(at, f);
        if !good { break; }
        Took(DirectionStep, d, at, Varint(f, v), c.Rest());
        d := d.(shape := v, haveShape := true);
      } else if f == 2 && w == 0 {
        var good, v := c.RdVarintField(at, f);
        if !good { break; }
        Took(DirectionStep, d, at, Varint(f, v), c.Rest());
        d := d.(highlighted := v != 0);
      } else {
        var good, rec := c.Skip(at, f, w);
        if !good { break; }
        Took(DirectionStep, d, at, rec, c.Rest());
      }
    }
  }

  method DecLaneDirection(b: seq<byte>, lane0: AaLane) returns (lane: AaLane)
    ensures lane == DecodeDirection(b, lane0)
  {
    var d := DecDirectionFields(b, NO_DIRECTION);
    lane := lane0;
    if d.haveShape && d.shape <= 9 {
      lane := lane.(present := lane.present + {d.shape});
      if d.highlighted {
        lane := lane.(highlight := lane.highlight + {d.shape});
      }
    }
  }

  method DecLane(b: seq<byte>, lane0: AaLane) returns (lane: AaLane)
    ensures lane == Fold(LaneStep, lane0, Records(b))
  {
    lane := lane0;
    var c := new Pb(b);
    while true
      invariant c.Valid() && c.buf == b
      invariant Run(LaneStep, lane, c.Rest()) == Run(LaneStep, lane0, b)
      decreases |b| - c.p
    {
      ghost var at := c.Rest();
      var ok, f, w := c.RdTag();
      if !ok { break; }
      if f == 1 && w == 2 {
        var good, s := c.RdBytes(at, f);
        if !good { break; }
        Took(LaneStep, lane, at, Bytes(f, s), c.Rest());
        lane := DecLaneDirection(s, lane);
      } else {
        var good, rec := c.Skip(at, f, w);
        if !good { break; }
        Took(LaneStep, lane, at, rec, c.Rest());
      }
    }
  }

  method DecManeuver(b: seq<byte>, g0: Guidance) returns (g: Guidance)
    ensures g == Fold(ManeuverStep, g0, Records(b))
  {
    g := g0;
    var c := new Pb(b);
    while true
      invariant c.Valid() && c.buf == b
      invariant Run(ManeuverStep, g, c.Rest()) == Run(ManeuverStep, g0, b)
      decreases |b| - c.p
    {
      ghost var at := c.Rest();
      var ok, f, w := c.RdTag();
      if !ok { break; }
      if f == 1 && w == 0 {
        var good, v := c.RdVarintField(at, f);
        if !good { break; }
        Took(ManeuverStep, g, at, Varint(f, v), c.Rest());
        g := g.(kind := v % 0x1_0000_0000, haveManeuver := true);
      } else if f == 2 && w == 0 {
        var good, v := c.RdVarintField(at, f);
        if !good { break; }
        Took(ManeuverStep, g, at, Varint(f, v), c.Rest());
        g := g.(exitNumber := ToInt32(v));
      } else if f == 3 && w == 0 {
        var good, v := c.RdVarintField(at, f);
        if !good { break; }
        Took(ManeuverStep, g, at, Varint(f, v), c.Rest());
        g := g.(exitAngle := ToInt32(v));
      } else {
        var good, rec := c.Skip(at, f, w);
        if !good { break; }
        Took(ManeuverStep, g, at, rec, c.Rest());
      }
    }
  }

  method DecStep(b: seq<byte>, g0: Guidance) returns (g: Guidance)
    ensures g == Fold(StepStep, g0, Records(b))
  {
    g := g0;
    var c := new Pb(b);
    while true
      invariant c.Valid() && c.buf == b
      invariant Run(StepStep, g, c.Rest()) == Run(StepStep, g0, b)
      decreases |b| - c.p
    {
      ghost var at := c.Rest();
      var ok, f, w := c.RdTag();
      if !ok { break; }
      if w == 2 {
        var good, s := c.RdBytes(at, f);
        if !good { break; }
        Took(StepStep, g, at, Bytes(f, s), c.Rest());
        if f == 1 {
          g := DecManeuver(s, g);
        } else if f == 2 {
          var road := DecRoadName(s, g.road);
          g := g.(road := road);
        } else if f == 3 {
          if |g.lanes| < MAX_LANES {
            var lane := DecLane(s, NO_LANE);
            g := g.(lanes := g.lanes + [lane]);
          }
        }
      } else {
        var good, rec := c.Skip(at, f, w);
        if !good { break; }
        Took(StepStep, g, at, rec, c.Rest());
      }
    }
  }

  method DecStepDistance(b: seq<byte>, x0: Position) returns (x: Position)
    ensures x == Fold(StepDistanceStep, x0, Records(b))
  {
    x := x0;
    var c := new Pb(b);
    while true
      invariant c.Valid() && c.buf == b
      invariant Run(StepDistanceStep, x, c.Rest()) == Run(StepDistanceStep, x0, b)
      decreases |b| - c.p
    {
      ghost var at := c.Rest();
      var ok, f, w := c.RdTag();
      if !ok { break; }
      if f == 1 && w == 2 {
        var good, s := c.RdBytes(at, f);
        if !good { break; }
        Took(StepDistanceStep, x, at, Bytes(f, s), c.Rest());
        var d := DecDistance(s, x.step);
        x := x.(step := d, haveStep := true);
      } else {
        var good, rec := c.Skip(at, f, w);
        if !good { break; }
        Took(StepDistanceStep, x, at, rec, c.Rest());
      }
    }
  }

  method DecDestDistance(b: seq<byte>, x0: Position) returns (x: Position)
    ensures x == Fold(DestDistanceStep, x0, Records(b))
  {
    x := x0;
    var c := new Pb(b);
    while true
      invariant c.Valid() && c.buf == b
      invariant Run(DestDistanceStep, x, c.Rest()) == Run(DestDistanceStep, x0, b)
      decreases |b| - c.p
    {
      ghost var at := c.Rest();
      var ok, f, w := c.RdTag();
      if !ok { break; }
      if f == 1 && w == 2 {
        var good, s := c.RdBytes(at, f);
        if !good { break; }
        Took(DestDistanceStep, x, at, Bytes(f, s), c.Rest());
        var d := DecDistance(s, x.dest);
        x := x.(dest := d, haveDest := true);
      } else if f == 2 && w == 2 {
        var good, s := c.RdBytes(at, f);
        if !good { break; }
        Took(DestDistanceStep, x, at, Bytes(f, s), c.Rest());
        x := x.(eta := CopyStr(s, 16));
      } else {
        var good, rec := c.Skip(at, f, w);
        if !good { break; }
        Took(DestDistanceStep, x, at, rec, c.Rest());
      }
    }
  }

  method DecNavFields(b: seq<byte>, a0: NavAcc) returns (a: NavAcc)
    ensures a == Fold(NavStep, a0, Records(b))
  {
    a := a0;
    var c := new Pb(b);
    while true
      invariant c.Valid() && c.buf == b
      invariant Run(NavStep, a, c.Rest()) == Run(NavStep, a0, b)
      decreases |b| - c.p
    {
      ghost var at := c.Rest();
      var ok, f, w := c.RdTag();
      if !ok { break; }
      if f == 1 && w == 2 {
        var good, s := c.RdBytes(at, f);
        if !good { break; }
        Took(NavStep, a, at, Bytes(f, s), c.Rest());
        if a.gotStep {
          a := CountStep(a);
        } else {
          var g := DecStep(s, CountStep(a).g);
          a := NavAcc(g, true);
        }
      } else {
        var good, rec := c.Skip(at, f, w);
        if !good { break; }
        Took(NavStep, a, at, rec, c.Rest());
      }
    }
  }

  method HudNav16DecodeNavstate(proto: seq<byte>) returns (g: Guidance)
    ensures g == DecodeNavState(proto)
  {
    var a := DecNavFields(proto, NavAcc(NO_GUIDANCE, false));
    return a.g;
  }

  method DecPositionFields(b: seq<byte>, a0: PosAcc) returns (a: PosAcc)
    ensures a == Fold(PosStep, a0, Records(b))
  {
    a := a0;
    var c := new Pb(b);
    while true
      invariant c.Valid() && c.buf == b
      invariant Run(PosStep, a, c.Rest()) == Run(PosStep, a0, b)
      decreases |b| - c.p
    {
      ghost var at := c.Rest();
      var ok, f, w := c.RdTag();
      if !ok { break; }
      if f == 1 && w == 2 {
        var good, s := c.RdBytes(at, f);
        if !good { break; }
        Took(PosStep, a, at, Bytes(f, s), c.Rest());
        var x := DecStepDistance(s, a.x);
        a := a.(x := x);
      } else if f == 2 && w == 2 {
        var good, s := c.RdBytes(at, f);
        if !good { break; }
        Took(PosStep, a, at, Bytes(f, s), c.Rest());
        if !a.gotDest {
          var x := DecDestDistance(s, a.x);
          a := PosAcc(x, true);
        }
      } else {
        var good, rec := c.Skip(at, f, w);
        if !good { break; }
        Took(PosStep, a, at, rec, c.Rest());
      }
    }
  }

  method HudNav16DecodePosition(proto: seq<byte>) returns (x: Position)
    ensures x == DecodePosition(proto)
  {
    var a := DecPositionFields(proto, PosAcc(NO_POSITION, false));
    return a.x;
  }

  // The status of a message body: the first varint of field 1 before any malformed field.
  method HudNav16ReadStatus(body: seq<byte>) returns (found: bool, status: int32)
    ensures status == FirstStatus(Records(body))
    ensures found <==> exists r :: r in Records(body) && r.Varint? && r.field == 1
  {
    var c := new Pb(body);
    while true
      invariant c.Valid() && c.buf == body
      invariant FirstStatus(Records(c.Rest())) == FirstStatus(Records(body))
      invariant HasStatus(Records(c.Rest())) == HasStatus(Records(body))
      decreases |body| - c.p
    {
      ghost var at := c.Rest();
      var ok, f, w := c.RdTag();
      if !ok {
        return false, -1;
      }
      if f == 1 && w == 0 {
        var good, v := c.RdVarintField(at, f);
        if !good {
          return false, -1;
        }
        FirstRecord(at, Varint(f, v), c.Rest());
        return true, ToInt32(v % 0x1_0000_0000);
      }
      var good, rec := c.Skip(at, f, w);
      if !good {
        return false, -1;
      }
      FirstRecord(at, rec, c.Rest());
    }
  }

  predicate HasStatus(rs: seq<Record>) {
    exists r :: r in rs && r.Varint? && r.field == 1
  }

  predicate IsStatus(rec: Record) {
    rec.Varint? && rec.field == 1
  }

  lemma HasStatusCons(rec: Record, rs: seq<Record>, all: seq<Record>)
    requires all == [rec] + rs
    ensures HasStatus(all) <==> IsStatus(rec) || HasStatus(rs)
  {
    assert all[0] == rec && forall r :: r in rs ==> r in all;
  }

  lemma FirstStatusCons(rec: Record, rs: seq<Record>, all: seq<Record>)
    requires all == [rec] + rs
    ensures FirstStatus(all) == if IsStatus(rec) then ToInt32(rec.value % 0x1_0000_0000) else FirstStatus(rs)
  {
    assert all[1..] == rs;
  }

  lemma FirstRecord(at: seq<byte>, rec: Record, after: seq<byte>)
    requires Next(at, rec, after)
    ensures FirstStatus(Records(at))
         == if IsStatus(rec) then ToInt32(rec.value % 0x1_0000_0000) else FirstStatus(Records(after))
    ensures HasStatus(Records(at)) <==> IsStatus(rec) || HasStatus(Records(after))
  {
    FirstOf(at, rec, after);
    HasStatusCons(rec, Records(after), Records(at));
    FirstStatusCons(rec, Records(after), Records(at));
  }
}
