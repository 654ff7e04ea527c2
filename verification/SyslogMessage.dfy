/**
 What parsing a syslog datagram computes, as functions on the receive buffer.

 A parsed field of the source is a Go slice of the message's own buffer; here it
 is a View, a pair of offsets. `SyslogParser` runs the parser in place and is
 proved against these functions.
 */
module SyslogMessage {
  import opened Bytes

  const BUFFER_SIZE: nat := 1024
  const SP: byte := 32        // ' '
  const DASH: byte := 45      // '-', NILVALUE of RFC 5424
  const LT: byte := 60        // '<'
  const GT: byte := 62        // '>'
  const OPEN: byte := 91      // '['
  const CLOSE: byte := 93     // ']'
  const CR: byte := 13
  const STAMP_LEN: nat := 15  // len("Jan _2 15:04:05")
  const RFC5424_TIME_LEN: nat := 32

  /** A slice of the message buffer, or the nil slice. */
  datatype View = Nil | View(lo: nat, hi: nat) {
    function Len(): nat { if View? && lo <= hi then hi - lo else 0 }
    predicate Within(n: nat) { View? ==> lo <= hi <= n }
  }

  type Time = int

  /** The foreign calendar functions the parser calls. */
  datatype Calendar = Calendar(
    rfc5424: seq<byte> -> Option<Time>,   // time.Parse of the RFC 5424 layout
    stamp: seq<byte> -> Option<Time>,     // time.Parse of time.Stamp
    isZero: Time -> bool,
    correct: (Time, Time) -> Time,        // correctLegacyTime(receive time, parsed)
    prefix: Time -> seq<byte>)            // Format("2006-01-02 15:04:05 ")

  /** The mutable part of a message that parsing reads and writes. */
  datatype Fields = Fields(
    time: Time, priority: byte,
    hostname: View, app: View, procid: View, msgid: View, msg: View)

  /** What `reset` leaves behind. */
  function Cleared(time: Time): Fields {
    Fields(time, 0, Nil, Nil, Nil, Nil, Nil)
  }

  /** The boolean of the source's `parse`, or the slice-bounds panic it can raise. */
  datatype Outcome = Accepted | Rejected | Panicked

  datatype Result = Result(outcome: Outcome, fields: Fields)

  predicate IsDigit(c: byte) { 48 <= c <= 57 }

  predicate IsTagByte(c: byte) {
    || IsDigit(c) || 97 <= c <= 122 || 65 <= c <= 90
    || c == DASH || c == 95 || c == 47 || c == 46
  }

  function At(d: seq<byte>, v: View, i: nat): byte
    requires v.View? && v.Within(|d|) && i < v.Len()
  {
    d[v.lo + i]
  }

  function Text(d: seq<byte>, v: View): seq<byte> {
    if v.View? && v.Within(|d|) then d[v.lo..v.hi] else []
  }

  function IgnoreNil(d: seq<byte>, v: View): View {
    if Text(d, v) == [DASH] then Nil else v
  }

  /** First index of `c` in d[lo..hi], or `hi`. */
  function Find(d: seq<byte>, c: byte, lo: nat, hi: nat): (i: nat)
    requires lo <= hi <= |d|
    ensures lo <= i <= hi
    ensures i < hi ==> d[i] == c
    decreases hi - lo
  {
    if lo == hi || d[lo] == c then lo else Find(d, c, lo + 1, hi)
  }

  /** First index in d[lo..hi] that is not a tag byte, or `hi`. */
  function TagEnd(d: seq<byte>, lo: nat, hi: nat): (i: nat)
    requires lo <= hi <= |d|
    ensures lo <= i <= hi
    ensures i < hi ==> !IsTagByte(d[i])
    decreases hi - lo
  {
    if lo == hi || !IsTagByte(d[lo]) then lo else TagEnd(d, lo + 1, hi)
  }

  /** The parts that bytes.SplitN cuts a slice into. */
  type Slice = v: View | v.View? witness View(0, 0)
  datatype Parts = Last(view: Slice) | Part(view: Slice, rest: Parts)

  /** bytes.SplitN(v, " ", n). */
  function SplitN(d: seq<byte>, v: View, n: nat): Parts
    requires v.View? && v.Within(|d|)
    decreases v.hi - v.lo
  {
    var e := Find(d, SP, v.lo, v.hi);
    if n <= 1 || e == v.hi then Last(v)
    else Part(View(v.lo, e), SplitN(d, View(e + 1, v.hi), n - 1))
  }

  function TrimPrefix(d: seq<byte>, v: View, p: seq<byte>): (r: View)
    requires v.View? && v.Within(|d|)
    ensures r.View? && v.lo <= r.lo <= r.hi == v.hi
  {
    if |p| <= v.Len() && d[v.lo..v.lo + |p|] == p then View(v.lo + |p|, v.hi) else v
  }

  // ---- the parse methods -------------------------------------------------

  datatype Scan = NoPriority | Priority(at: nat, value: byte)

  /** The loop of parsePriority over buf[1:5], resumed at index `i` with accumulator `pri`. */
  function ScanPriority(b: seq<byte>, i: nat, pri: byte): (s: Scan)
    requires 1 <= i <= 5 <= |b|
    ensures s.Priority? ==> i <= s.at < 5 && b[s.at] == GT
    decreases 5 - i
  {
    if i == 5 then NoPriority
    else if b[i] == GT then Priority(i, pri)
    else if !IsDigit(b[i]) then NoPriority
    else ScanPriority(b, i + 1, ((pri * 10) % 256 + b[i] - 48) % 256)
  }

  /** `b` is the whole buffer: the scan does not consult `size`. */
  function ParsePriority(b: seq<byte>, size: nat, f: Fields): Result
    requires size <= |b| == BUFFER_SIZE
  {
    if size < 3 || b[0] != LT then Result(Rejected, f)
    else
      match ScanPriority(b, 1, 0)
      case NoPriority => Result(Rejected, f)
      case Priority(at, value) =>
        if at + 1 > size then Result(Panicked, f)
        else Result(Accepted, f.(priority := value, msg := View(at + 1, size)))
  }

  predicate IsVersion1(d: seq<byte>, v: View) {
    v.View? && v.Within(|d|) && v.Len() >= 2 && At(d, v, 1) == SP && At(d, v, 0) == 49
  }

  function ParseTimestamp(d: seq<byte>, v: View, f: Fields, cal: Calendar): Option<Fields> {
    if IgnoreNil(d, v) == Nil then Some(f)
    else if v.Len() > RFC5424_TIME_LEN then None
    else
      match cal.rfc5424(Text(d, v))
      case None => None
      case Some(t) => Some(f.(time := t))
  }

  function ParseHeader(d: seq<byte>, f: Fields, cal: Calendar): Result
    requires f.msg.View? && f.msg.Within(|d|)
  {
    match SplitN(d, f.msg, 6)
    case Part(ts, Part(host, Part(app, Part(procid, Part(msgid, Last(msg)))))) =>
      (match ParseTimestamp(d, ts, f, cal)
       case None => Result(Rejected, f)
       case Some(g) =>
         Result(Accepted, g.(hostname := IgnoreNil(d, host), app := IgnoreNil(d, app),
                             procid := IgnoreNil(d, procid), msgid := IgnoreNil(d, msgid), msg := msg)))
    case _ => Result(Rejected, f)
  }

  function ParseStructuredData(d: seq<byte>, f: Fields): Result {
    if f.msg.View? && f.msg.Within(|d|) && f.msg.Len() >= 2 && At(d, f.msg, 0) == DASH && At(d, f.msg, 1) == SP
    then Result(Accepted, f.(msg := View(f.msg.lo + 2, f.msg.hi)))
    else Result(Rejected, f)
  }

  function ParseLegacyTime(d: seq<byte>, f: Fields, cal: Calendar): (r: Fields)
    requires f.msg.View? && f.msg.Within(|d|)
    ensures r.msg.View? && f.msg.lo <= r.msg.lo <= r.msg.hi == f.msg.hi
    ensures r == f.(time := r.time, msg := r.msg)
  {
    var v := f.msg;
    if v.Len() <= STAMP_LEN || At(d, v, STAMP_LEN) != SP then f
    else
      match cal.stamp(d[v.lo..v.lo + STAMP_LEN])
      case None => f
      case Some(t) =>
        f.(time := if cal.isZero(t) then f.time else cal.correct(f.time, t),
           msg := View(v.lo + STAMP_LEN + 1, v.hi))
  }

  function ParseLegacyTag(d: seq<byte>, f: Fields): (r: Fields)
    requires f.msg.View? && f.msg.Within(|d|)
    ensures r.msg.View? && f.msg.lo <= r.msg.lo <= r.msg.hi == f.msg.hi
  {
    var v := f.msg;
    var e := TagEnd(d, v.lo, v.hi);
    if e == v.hi then f.(app := Nil, procid := Nil)
    else if d[e] == OPEN then
      var c := Find(d, CLOSE, e + 1, v.hi);
      if c < v.hi then
        f.(app := View(v.lo, e), procid := View(e + 1, c),
           msg := TrimPrefix(d, View(c + 1, v.hi), [58, SP]))
      else
        f.(app := View(v.lo, e), procid := Nil, msg := TrimPrefix(d, View(e, v.hi), [58, SP]))
    else
      f.(app := View(v.lo, e), msg := TrimPrefix(d, View(e, v.hi), [58, SP]))
  }

  /** The stringer table of `severity`; a severity is `priority % 8`, so always below 8. */
  function SeverityName(p: byte): string {
    ["EMERG", "ALERT", "CRIT", "ERR", "WARNING", "NOTICE", "INFO", "DEBUG"][p % 8]
  }

  function TrimLegacyPrefixes(d: seq<byte>, f: Fields, cal: Calendar): (v: View)
    requires f.msg.View? && f.msg.Within(|d|)
    ensures v.View? && f.msg.lo <= v.lo <= v.hi == f.msg.hi
  {
    var v1 := TrimPrefix(d, f.msg, Ascii(SeverityName(f.priority) + ": "));
    var v2 := TrimPrefix(d, v1, cal.prefix(f.time));
    if v2.Len() > 0 && At(d, v2, 0) == CR then View(v2.lo + 1, v2.hi) else v2
  }

  function ParseLegacyHeader(d: seq<byte>, f: Fields, cal: Calendar): Fields
    requires f.msg.View? && f.msg.Within(|d|)
  {
    var g := ParseLegacyTag(d, ParseLegacyTime(d, f, cal).(hostname := Nil));
    g.(msg := TrimLegacyPrefixes(d, g, cal))
  }

  /** Everything after the priority reads only the datagram `d`, the first `size` bytes. */
  function ParseRest(d: seq<byte>, f: Fields, cal: Calendar): Result
    requires f.msg.View? && f.msg.Within(|d|)
  {
    if IsVersion1(d, f.msg) then ParseVersion1(d, f, cal) else Result(Accepted, ParseLegacyHeader(d, f, cal))
  }

  function ParseVersion1(d: seq<byte>, f: Fields, cal: Calendar): Result
    requires IsVersion1(d, f.msg)
  {
    AfterHeader(d, ParseHeader(d, f.(msg := View(f.msg.lo + 2, f.msg.hi)), cal))
  }

  function AfterHeader(d: seq<byte>, h: Result): Result {
    if h.outcome != Accepted then h else ParseStructuredData(d, h.fields)
  }

  function Parse(b: seq<byte>, size: nat, f: Fields, cal: Calendar): Result
    requires size <= |b| == BUFFER_SIZE
  {
    var p := ParsePriority(b, size, f);
    if p.outcome != Accepted then p else ParseRest(b[..size], p.fields, cal)
  }
}
