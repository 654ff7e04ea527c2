/**
 The syslog message object: a fixed receive buffer that is parsed in place.
 Every method is proved against the function of the same name in SyslogMessage.
 */
module SyslogParser {
  import opened Bytes
  import opened SyslogMessage

  /** The parts of a split run left to right and the last one ends the slice. */
  predicate LeftToRight(p: Parts, lo: nat, hi: nat) {
    && lo <= p.view.lo <= p.view.hi <= hi
    && (match p case Last(v) => v.hi == hi case Part(v, rest) => LeftToRight(rest, v.hi, hi))
  }

  lemma {:induction false} SplitLeftToRight(d: seq<byte>, v: View, n: nat, lo: nat)
    requires v.View? && v.Within(|d|) && lo <= v.lo
    ensures LeftToRight(SplitN(d, v, n), lo, v.hi)
    decreases v.hi - v.lo
  {
    var e := Find(d, SP, v.lo, v.hi);
    if n > 1 && e < v.hi { SplitLeftToRight(d, View(e + 1, v.hi), n - 1, e); }
  }

  /** The order spelled out for a split into six parts. */
  lemma SixLeftToRight(p: Parts, lo: nat, hi: nat)
    requires LeftToRight(p, lo, hi)
    requires p.Part? && p.rest.Part? && p.rest.rest.Part? && p.rest.rest.rest.Part?
          && p.rest.rest.rest.rest.Part? && p.rest.rest.rest.rest.rest.Last?
    ensures
      var v0, v1, v2 := p.view, p.rest.view, p.rest.rest.view;
      var v3, v4, v5 := p.rest.rest.rest.view, p.rest.rest.rest.rest.view, p.rest.rest.rest.rest.rest.view;
      && lo <= v0.lo <= v0.hi <= v1.lo <= v1.hi <= v2.lo <= v2.hi <= v3.lo <= v3.hi <= v4.lo
      && v4.lo <= v4.hi <= v5.lo <= v5.hi == hi
  {
    assert LeftToRight(p.rest, p.view.hi, hi);
    assert LeftToRight(p.rest.rest, p.rest.view.hi, hi);
    assert LeftToRight(p.rest.rest.rest, p.rest.rest.view.hi, hi);
    assert LeftToRight(p.rest.rest.rest.rest, p.rest.rest.rest.view.hi, hi);
    assert LeftToRight(p.rest.rest.rest.rest.rest, p.rest.rest.rest.rest.view.hi, hi);
  }

  class Message {
    const buf: array<byte>
    var size: nat
    var time: Time
    var priority: byte
    var hostname: View
    var app: View
    var procid: View
    var msgid: View
    var msg: View

    /** The buffer has its fixed size and the datagram fits into it. */
    ghost predicate Valid()
      reads this
    {
      buf.Length == BUFFER_SIZE && size <= BUFFER_SIZE
    }

    ghost predicate MsgInDatagram()
      reads this
    {
      Valid() && msg.View? && msg.Within(size)
    }

    ghost function State(): Fields
      reads this
    {
      Fields(time, priority, hostname, app, procid, msgid, msg)
    }

    ghost function Datagram(): seq<byte>
      requires Valid()
      reads this, buf
    {
      buf[..size]
    }

    constructor ()
      ensures Valid() && fresh(buf)
      ensures size == 0 && State() == Cleared(0) && forall i :: 0 <= i < BUFFER_SIZE ==> buf[i] == 0
    {
      buf := new byte[BUFFER_SIZE](_ => 0);
      size, time, priority := 0, 0, 0;
      hostname, app, procid, msgid, msg := Nil, Nil, Nil, Nil, Nil;
    }

    /** The receiver's read: the kernel overwrites a prefix, the rest of the buffer is stale. */
    method Receive(d: seq<byte>, now: Time)
      requires Valid() && |d| <= BUFFER_SIZE
      modifies this`size, this`time, buf
      ensures Valid() && Datagram() == d && time == now
      ensures forall i :: |d| <= i < BUFFER_SIZE ==> buf[i] == old(buf[i])
      ensures State() == old(State()).(time := now)
    {
      forall i | 0 <= i < |d| { buf[i] := d[i]; }
      size, time := |d|, now;
      assert Datagram() == d;
    }

    method Reset()
      requires Valid()
      modifies this
      ensures Valid() && size == old(size) && State() == Cleared(old(time))
    {
      priority := 0;
      hostname, app, procid, msgid, msg := Nil, Nil, Nil, Nil, Nil;
    }

    method ParsePriority() returns (o: Outcome)
      requires Valid()
      modifies this
      ensures Valid() && size == old(size)
      ensures Result(o, if o == Panicked then old(State()) else State())
           == SyslogMessage.ParsePriority(buf[..], size, old(State()))
      ensures o == Accepted ==> MsgInDatagram()
    {
      if size < 3 || buf[0] != LT { return Rejected; }
      var pri: byte := 0;
      ghost var b := buf[..];
      for i := 1 to 5
        invariant State() == old(State()) && size == old(size)
        invariant ScanPriority(b, 1, 0) == ScanPriority(b, i, pri)
      {
        var c := buf[i];
        assert c == b[i];
        if c == GT {
          priority := pri;
          if i + 1 > size { return Panicked; }
          msg := View(i + 1, size);
          return Accepted;
        }
        if !IsDigit(c) { return Rejected; }
        pri := ((pri * 10) % 256 + c - 48) % 256;
      }
      return Rejected;
    }

    method ParseVersion() returns (ok: bool)
      requires MsgInDatagram()
      modifies this`msg
      ensures MsgInDatagram()
      ensures ok == IsVersion1(Datagram(), old(msg))
      ensures msg == if ok then View(old(msg).lo + 2, old(msg).hi) else old(msg)
    {
      if msg.Len() < 2 { return false; }
      if buf[msg.lo + 1] != SP { return false; }
      if buf[msg.lo] != 49 { return false; }
      msg := View(msg.lo + 2, msg.hi);
      return true;
    }

    method ParseTimestamp(v: View, cal: Calendar) returns (ok: bool)
      requires Valid() && v.View? && v.Within(size)
      modifies this`time
      ensures (if ok then Some(State()) else None)
           == SyslogMessage.ParseTimestamp(Datagram(), v, old(State()), cal)
      ensures !ok ==> time == old(time)
    {
      assert buf[..size][v.lo..v.hi] == buf[v.lo..v.hi];
      if buf[v.lo..v.hi] == [DASH] { return true; }
      if v.Len() > RFC5424_TIME_LEN { return false; }
      match cal.rfc5424(buf[v.lo..v.hi]) {
        case None => return false;
        case Some(t) =>
          time := t;
          return true;
      }
    }

    method ParseHeader(cal: Calendar) returns (ok: bool)
      requires MsgInDatagram()
      modifies this
      ensures MsgInDatagram() && size == old(size)
      ensures Result(if ok then Accepted else Rejected, State())
           == SyslogMessage.ParseHeader(Datagram(), old(State()), cal)
    {
      var d := buf[..size];
      SplitLeftToRight(d, msg, 6, msg.lo);
      var parts := SplitN(d, msg, 6);
      match parts {
        case Part(ts, Part(host, Part(app', Part(procid', Part(msgid', Last(msg')))))) =>
          SixLeftToRight(parts, msg.lo, msg.hi);
          var timed := ParseTimestamp(ts, cal);
          if !timed { return false; }
          hostname := IgnoreNil(d, host);
          app := IgnoreNil(d, app');
          procid := IgnoreNil(d, procid');
          msgid := IgnoreNil(d, msgid');
          msg := msg';
          return true;
        case _ => return false;
      }
    }

    method ParseStructuredData() returns (ok: bool)
      requires MsgInDatagram()
      modifies this`msg
      ensures MsgInDatagram()
      ensures Result(if ok then Accepted else Rejected, State())
           == SyslogMessage.ParseStructuredData(Datagram(), old(State()))
    {
      if msg.Len() >= 2 && buf[msg.lo] == DASH && buf[msg.lo + 1] == SP {
        msg := View(msg.lo + 2, msg.hi);
        return true;
      }
      return false;
    }

    /** The loop of parseLegacyTag: advance over tag bytes. */
    method SkipTagBytes() returns (i: nat)
      requires MsgInDatagram()
      ensures i == TagEnd(Datagram(), msg.lo, msg.hi)
    {
      i := msg.lo;
      while i < msg.hi && IsTagByte(buf[i])
        invariant msg.lo <= i <= msg.hi
        invariant TagEnd(Datagram(), msg.lo, msg.hi) == TagEnd(Datagram(), i, msg.hi)
      {
        i := i + 1;
      }
    }

    method ParseLegacyTag()
      requires MsgInDatagram()
      modifies this`app, this`procid, this`msg
      ensures MsgInDatagram()
      ensures State() == SyslogMessage.ParseLegacyTag(Datagram(), old(State()))
    {
      var v := msg;
      var d := buf[..size];
      var i := SkipTagBytes();
      if i == v.hi {
        app, procid := Nil, Nil;
        return;
      }
      app := View(v.lo, i);
      var rest := View(i, v.hi);
      if buf[i] == OPEN {
        var c := Find(d, CLOSE, i + 1, v.hi);
        if c < v.hi {
          procid := View(i + 1, c);
          rest := View(c + 1, v.hi);
        } else {
          procid := Nil;
        }
      }
      msg := TrimPrefix(d, rest, [58, SP]);
    }

    method ParseLegacyHeader(cal: Calendar)
      requires MsgInDatagram()
      modifies this
      ensures MsgInDatagram() && size == old(size)
      ensures State() == SyslogMessage.ParseLegacyHeader(Datagram(), old(State()), cal)
    {
      ParseLegacyTime(cal);
      hostname := Nil;
      ParseLegacyTag();
      TrimLegacyPrefixes(cal);
    }

    method ParseLegacyTime(cal: Calendar)
      requires MsgInDatagram()
      modifies this`time, this`msg
      ensures MsgInDatagram()
      ensures State() == SyslogMessage.ParseLegacyTime(Datagram(), old(State()), cal)
    {
      var d := buf[..size];
      if msg.Len() > STAMP_LEN && buf[msg.lo + STAMP_LEN] == SP {
        match cal.stamp(d[msg.lo..msg.lo + STAMP_LEN]) {
          case None =>
          case Some(t) =>
            if !cal.isZero(t) { time := cal.correct(time, t); }
            msg := View(msg.lo + STAMP_LEN + 1, msg.hi);
        }
      }
    }

    method TrimLegacyPrefixes(cal: Calendar)
      requires MsgInDatagram()
      modifies this`msg
      ensures MsgInDatagram()
      ensures msg == SyslogMessage.TrimLegacyPrefixes(Datagram(), old(State()), cal)
    {
      var d := buf[..size];
      msg := TrimPrefix(d, msg, Ascii(SeverityName(priority) + ": "));
      msg := TrimPrefix(d, msg, cal.prefix(time));
      if msg.Len() > 0 && buf[msg.lo] == CR {
        msg := View(msg.lo + 1, msg.hi);
      }
    }

    /** The whole parse, in place; the buffer itself is never written. */
    method Parse(cal: Calendar) returns (o: Outcome)
      requires Valid()
      modifies this
      ensures Valid() && size == old(size)
      ensures o != Panicked ==>
        Result(o, State()) == SyslogMessage.Parse(buf[..], size, old(State()), cal)
      ensures o == Panicked <==>
        SyslogMessage.Parse(buf[..], size, old(State()), cal).outcome == Panicked
    {
      ghost var f0 := State();
      o := ParsePriority();
      if o != Accepted { return; }
      ghost var p := SyslogMessage.ParsePriority(buf[..], size, f0);
      assert buf[..][..size] == Datagram();
      var v1 := ParseVersion();
      if !v1 {
        ParseLegacyHeader(cal);
        return Accepted;
      }
      var ok := ParseHeader(cal);
      if ok { ok := ParseStructuredData(); }
      o := if ok then Accepted else Rejected;
    }
  }
}
