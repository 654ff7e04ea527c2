/** What the syslog parser guarantees, for every datagram. */
module SyslogTheorems {
  import opened Bytes
  import opened SyslogMessage
  import opened SyslogParser

  // ---- PRI: the byte accumulator against decimal notation -----------------

  predicate AllDigits(s: seq<byte>) {
    forall i :: 0 <= i < |s| ==> IsDigit(s[i])
  }

  function DecimalValue(s: seq<byte>): int {
    if s == [] then 0 else DecimalValue(s[..|s| - 1]) * 10 + s[|s| - 1] - 48
  }

  function Decimal(n: nat): (s: seq<byte>)
    ensures AllDigits(s) && s != []
  {
    if n < 10 then [48 + n] else Decimal(n / 10) + [48 + n % 10]
  }

  lemma {:induction false} DecimalInverse(n: nat)
    ensures DecimalValue(Decimal(n)) == n
    ensures n < 1000 ==> |Decimal(n)| <= 3
  {
    var s := Decimal(n);
    if n < 10 {
      assert s[..0] == [];
    } else {
      DecimalInverse(n / 10);
      assert s[..|s| - 1] == Decimal(n / 10);
      if n < 1000 { SmallDecimal(n / 10); }
    }
  }

  lemma SmallDecimal(n: nat)
    requires n < 100
    ensures |Decimal(n)| <= 2
  {
    if n >= 10 { assert |Decimal(n / 10)| == 1; }
  }

  /** The scan stops at index `at` with value `v` exactly when buf[1..at] are
      digits closed by '>', and then `v` is their decimal value modulo 256. */
  lemma {:induction false} ScanMeaning(b: seq<byte>, i: nat, pri: byte)
    requires 1 <= i <= 5 <= |b| && AllDigits(b[1..i])
    requires pri == DecimalValue(b[1..i]) % 256
    ensures
      var s := ScanPriority(b, i, pri);
      && (s.Priority? ==> AllDigits(b[1..s.at]) && s.value == DecimalValue(b[1..s.at]) % 256)
      && (forall at | i <= at < 5 && b[at] == GT && AllDigits(b[1..at]) :: s.Priority? && s.at == at)
    decreases 5 - i
  {
    if i < 5 && b[i] != GT && IsDigit(b[i]) {
      DigitMore(b, i);
      ModStep(DecimalValue(b[1..i]), pri, b[i] - 48);
      ScanMeaning(b, i + 1, ((pri * 10) % 256 + b[i] - 48) % 256);
      assert forall at | i <= at < 5 && b[at] == GT :: at >= i + 1;
    } else if i < 5 {
      NoDigitsPast(b, i);
    }
  }

  lemma DigitMore(b: seq<byte>, i: nat)
    requires 1 <= i < |b| && AllDigits(b[1..i]) && IsDigit(b[i])
    ensures AllDigits(b[1..i + 1]) && DecimalValue(b[1..i + 1]) == DecimalValue(b[1..i]) * 10 + b[i] - 48
  {
    assert b[1..i + 1] == b[1..i] + [b[i]];
    DecimalSnoc(b[1..i], b[i]);
  }

  lemma DecimalSnoc(s: seq<byte>, c: byte)
    ensures DecimalValue(s + [c]) == DecimalValue(s) * 10 + c - 48
  {
    assert (s + [c])[..|s|] == s;
  }

  lemma NoDigitsPast(b: seq<byte>, i: nat)
    requires 1 <= i < 5 <= |b| && !IsDigit(b[i])
    ensures forall at | i < at < 5 :: !AllDigits(b[1..at])
  {
    forall at | i < at < 5 ensures !AllDigits(b[1..at]) {
      assert b[1..at][i - 1] == b[i];
    }
  }

  lemma ModStep(v: int, pri: byte, c: int)
    requires pri == v % 256 && 0 <= c < 10
    ensures ((pri * 10) % 256 + c) % 256 == (v * 10 + c) % 256
  {
    var q := v / 256;
    assert v == 256 * q + pri;
    assert v * 10 + c == 256 * (q * 10) + (pri * 10 + c);
    ModShift(pri * 10 + c, q * 10);
    var r := pri * 10 / 256;
    ModShift((pri * 10) % 256 + c, r);
  }

  lemma {:induction false} ModShift(x: int, k: int)
    ensures (256 * k + x) % 256 == x % 256
    decreases if k < 0 then -k else k
  {
    if k > 0 { ModShift(x, k - 1); } else if k < 0 { ModShift(x, k + 1); }
  }

  // ---- cutting at spaces --------------------------------------------------

  /** The contents of the parts of a split. */
  datatype Texts = Final(x: seq<byte>) | Then(x: seq<byte>, rest: Texts)

  function TextsOf(d: seq<byte>, p: Parts): Texts {
    match p
    case Last(v) => Final(Text(d, v))
    case Part(v, rest) => Then(Text(d, v), TextsOf(d, rest))
  }

  /** Parts with the spaces put back between them. */
  function Joined(t: Texts): seq<byte> {
    match t
    case Final(x) => x
    case Then(x, rest) => x + [32] + Joined(rest)
  }

  function Count(t: Texts): nat {
    if t.Final? then 1 else 1 + Count(t.rest)
  }

  /** Every part but the last is free of spaces. */
  predicate Separable(t: Texts) {
    t.Then? ==> SP !in t.x && Separable(t.rest)
  }

  lemma CutAt(d: seq<byte>, lo: nat, hi: nat, x: seq<byte>, rest: seq<byte>)
    requires lo <= hi <= |d| && d[lo..hi] == x + [SP] + rest && SP !in x
    ensures lo + |x| < hi && Find(d, SP, lo, hi) == lo + |x|
    ensures d[lo..lo + |x|] == x && d[lo + |x| + 1..hi] == rest
  {
    var t := d[lo..hi];
    assert forall k | 0 <= k < |t| :: d[lo + k] == t[k];
    assert forall k | 0 <= k < |x| :: t[k] == x[k];
    assert t[|x|] == SP;
    assert d[lo..lo + |x|] == t[..|x|] == x;
    assert d[lo + |x| + 1..hi] == t[|x| + 1..] == rest;
    assert forall k | lo <= k < lo + |x| :: d[k] == x[k - lo];
    FindIs(d, SP, lo, hi, lo + |x|);
  }

  /** Splitting recovers the parts that were joined. */
  lemma {:induction false} SplitJoined(d: seq<byte>, v: View, t: Texts)
    requires v.View? && v.Within(|d|) && Text(d, v) == Joined(t) && Separable(t)
    ensures TextsOf(d, SplitN(d, v, Count(t))) == t
    decreases t
  {
    if t.Then? {
      var e := v.lo + |t.x|;
      CutAt(d, v.lo, v.hi, t.x, Joined(t.rest));
      SplitJoined(d, View(e + 1, v.hi), t.rest);
      SplitAt(d, v, Count(t), e);
    }
  }

  lemma SplitAt(d: seq<byte>, v: View, n: nat, e: nat)
    requires v.View? && v.Within(|d|) && n > 1 && v.lo <= e < v.hi && Find(d, SP, v.lo, v.hi) == e
    ensures TextsOf(d, SplitN(d, v, n)) == Then(d[v.lo..e], TextsOf(d, SplitN(d, View(e + 1, v.hi), n - 1)))
  {
    assert Text(d, View(v.lo, e)) == d[v.lo..e];
  }

  lemma CutSp(d: seq<byte>, lo: nat, e: nat, hi: nat)
    requires lo <= e < hi <= |d| && d[e] == SP
    ensures d[lo..hi] == d[lo..e] + [SP] + d[e + 1..hi]
  {
  }

  /** Splitting loses nothing. */
  lemma {:induction false} JoinedSplit(d: seq<byte>, v: View, n: nat)
    requires v.View? && v.Within(|d|)
    ensures Joined(TextsOf(d, SplitN(d, v, n))) == Text(d, v)
    decreases v.hi - v.lo
  {
    var e := Find(d, SP, v.lo, v.hi);
    if n > 1 && e < v.hi {
      JoinedSplit(d, View(e + 1, v.hi), n - 1);
      CutSp(d, v.lo, e, v.hi);
    }
  }

  lemma {:induction false} FindIs(d: seq<byte>, c: byte, lo: nat, hi: nat, at: nat)
    requires lo <= at < hi <= |d| && d[at] == c && forall k :: lo <= k < at ==> d[k] != c
    ensures Find(d, c, lo, hi) == at
    decreases at - lo
  {
    if lo < at { FindIs(d, c, lo + 1, hi, at); }
  }

  lemma {:induction false} FindSkips(d: seq<byte>, c: byte, lo: nat, hi: nat)
    requires lo <= hi <= |d|
    ensures c !in d[lo..Find(d, c, lo, hi)]
    decreases hi - lo
  {
    if lo < hi && d[lo] != c {
      FindSkips(d, c, lo + 1, hi);
      assert d[lo..Find(d, c, lo, hi)] == [d[lo]] + d[lo + 1..Find(d, c, lo, hi)];
    }
  }

  lemma {:induction false} TagEndSkips(d: seq<byte>, lo: nat, hi: nat)
    requires lo <= hi <= |d|
    ensures forall k :: lo <= k < TagEnd(d, lo, hi) ==> IsTagByte(d[k])
    decreases hi - lo
  {
    if lo < hi && IsTagByte(d[lo]) { TagEndSkips(d, lo + 1, hi); }
  }

  // ---- RFC 5424 printing and parsing --------------------------------------

  /** A header of section 6 of RFC 5424 with nil structured data; None is NILVALUE. */
  datatype Syslog5424 = Syslog5424(
    pri: nat, timestamp: Option<seq<byte>>, hostname: Option<seq<byte>>, app: Option<seq<byte>>,
    procid: Option<seq<byte>>, msgid: Option<seq<byte>>, msg: seq<byte>)

  function OrDash(o: Option<seq<byte>>): seq<byte> {
    match o case None => [45] case Some(x) => x
  }

  predicate Token(o: Option<seq<byte>>) {
    o.Some? ==> 32 !in o.value && o.value != [45]
  }

  function HeaderTexts(h: Syslog5424, rest: seq<byte>): (t: Texts) {
    Then(OrDash(h.timestamp), Then(OrDash(h.hostname), Then(OrDash(h.app),
      Then(OrDash(h.procid), Then(OrDash(h.msgid), Final(rest))))))
  }

  // Printing is written with the characters themselves: 49 is '1', 32 a space, 45 '-',
  // 60 '<' and 62 '>'.

  function PrintAfterPri(h: Syslog5424): seq<byte> {
    [49, 32] + Joined(HeaderTexts(h, [45, 32] + h.msg))
  }

  function Prefixed(digits: seq<byte>, rest: seq<byte>): seq<byte> {
    [60] + digits + [62] + rest
  }

  function Framed(pri: nat, rest: seq<byte>): seq<byte> {
    Prefixed(Decimal(pri), rest)
  }

  function Print(h: Syslog5424): seq<byte> {
    Framed(h.pri, PrintAfterPri(h))
  }

  /** The layout 2006-01-02T15:04:05.999999Z07:00 has 32 characters and the buffer 1024. */
  predicate Printable(h: Syslog5424, cal: Calendar) {
    && h.pri < 1000 && |Print(h)| <= 1024
    && Token(h.timestamp) && Token(h.hostname) && Token(h.app) && Token(h.procid) && Token(h.msgid)
    && (h.timestamp.Some? ==> |h.timestamp.value| <= 32 && cal.rfc5424(h.timestamp.value).Some?)
  }

  function FieldValue(d: seq<byte>, v: View): Option<seq<byte>> {
    if v.Nil? then None else Some(Text(d, v))
  }

  function TimeOf(h: Syslog5424, f: Fields, cal: Calendar): Time
    requires Printable(h, cal)
  {
    match h.timestamp case None => f.time case Some(t) => cal.rfc5424(t).value
  }

  /** The parsed fields are the header's, whatever the rest of the buffer holds. */
  ghost predicate Carries(d: seq<byte>, g: Fields, h: Syslog5424) {
    && g.msg.View? && g.msg.Within(|d|)
    && FieldValue(d, g.hostname) == h.hostname && FieldValue(d, g.app) == h.app
    && FieldValue(d, g.procid) == h.procid && FieldValue(d, g.msgid) == h.msgid
    && Text(d, g.msg) == h.msg
  }

  /** Up to three digits are a priority: none at all, as in "<>", and leading zeros too. */
  lemma PrefixedPriority(digits: seq<byte>, rest: seq<byte>, b: seq<byte>, f: Fields)
    requires AllDigits(digits) && |digits| <= 3
    requires var d := Prefixed(digits, rest); 3 <= |d| <= |b| == 1024 && b[..|d|] == d
    ensures
      var at, d := 1 + |digits|, Prefixed(digits, rest);
      && at < 5 && at + 1 <= |d| && d[at + 1..] == rest
      && ParsePriority(b, |d|, f) == Result(Accepted, f.(priority := DecimalValue(digits) % 256, msg := View(at + 1, |d|)))
  {
    var d, n := Prefixed(digits, rest), |digits|;
    assert forall i | 0 <= i < |d| :: b[i] == d[i];
    assert b[1..1 + n] == d[1..1 + n] == digits;
    assert b[1 + n] == d[1 + n] == GT;
    assert b[1..1] == [];
    ScanMeaning(b, 1, 0);
    assert ScanPriority(b, 1, 0).at == 1 + n;
    assert d[0] == LT && b[0] == LT;
  }

  lemma FramedPriority(pri: nat, rest: seq<byte>, b: seq<byte>, f: Fields)
    requires pri < 1000 && |Framed(pri, rest)| <= |b| == 1024 && b[..|Framed(pri, rest)|] == Framed(pri, rest)
    ensures
      var at, d := 1 + |Decimal(pri)|, Framed(pri, rest);
      && at < 5 && at + 1 <= |d| && d[at + 1..] == rest
      && ParsePriority(b, |d|, f) == Result(Accepted, f.(priority := pri % 256, msg := View(at + 1, |d|)))
  {
    DecimalInverse(pri);
    PrefixedPriority(Decimal(pri), rest, b, f);
  }

  /** Six texts come from six parts. */
  lemma SixParts(d: seq<byte>, p: Parts, h: Syslog5424, rest: seq<byte>)
    requires TextsOf(d, p) == HeaderTexts(h, rest)
    ensures p.Part? && p.rest.Part? && p.rest.rest.Part? && p.rest.rest.rest.Part?
         && p.rest.rest.rest.rest.Part? && p.rest.rest.rest.rest.rest.Last?
    ensures Text(d, p.view) == OrDash(h.timestamp) && Text(d, p.rest.view) == OrDash(h.hostname)
         && Text(d, p.rest.rest.view) == OrDash(h.app) && Text(d, p.rest.rest.rest.view) == OrDash(h.procid)
         && Text(d, p.rest.rest.rest.rest.view) == OrDash(h.msgid)
         && Text(d, p.rest.rest.rest.rest.rest.view) == rest
  {
    assert TextsOf(d, p.rest) == HeaderTexts(h, rest).rest;
    assert TextsOf(d, p.rest.rest) == HeaderTexts(h, rest).rest.rest;
    assert TextsOf(d, p.rest.rest.rest) == HeaderTexts(h, rest).rest.rest.rest;
    assert TextsOf(d, p.rest.rest.rest.rest) == HeaderTexts(h, rest).rest.rest.rest.rest;
  }

  lemma FieldOf(d: seq<byte>, v: View, o: Option<seq<byte>>)
    requires v.View? && Text(d, v) == OrDash(o) && Token(o)
    ensures FieldValue(d, IgnoreNil(d, v)) == o
  {
  }

  lemma HeaderSeparable(h: Syslog5424, rest: seq<byte>)
    requires Token(h.timestamp) && Token(h.hostname) && Token(h.app) && Token(h.procid) && Token(h.msgid)
    ensures Separable(HeaderTexts(h, rest)) && Count(HeaderTexts(h, rest)) == 6
  {
    var t := HeaderTexts(h, rest);
    assert Separable(t.rest.rest.rest.rest.rest) && Count(t.rest.rest.rest.rest.rest) == 1;
    assert Separable(t.rest.rest.rest.rest) && Count(t.rest.rest.rest.rest) == 2;
    assert Separable(t.rest.rest.rest) && Count(t.rest.rest.rest) == 3;
    assert Separable(t.rest.rest) && Count(t.rest.rest) == 4;
    assert Separable(t.rest) && Count(t.rest) == 5;
  }

  lemma PrintedHeader(h: Syslog5424, d: seq<byte>, g: Fields, cal: Calendar)
    requires Printable(h, cal) && g.msg.View? && g.msg.Within(|d|)
    requires Text(d, g.msg) == Joined(HeaderTexts(h, [DASH, SP] + h.msg))
    ensures
      var r := ParseHeader(d, g, cal);
      && r.outcome == Accepted && r.fields.priority == g.priority && r.fields.time == TimeOf(h, g, cal)
      && FieldValue(d, r.fields.hostname) == h.hostname && FieldValue(d, r.fields.app) == h.app
      && FieldValue(d, r.fields.procid) == h.procid && FieldValue(d, r.fields.msgid) == h.msgid
      && Text(d, r.fields.msg) == [DASH, SP] + h.msg
  {
    var t := HeaderTexts(h, [DASH, SP] + h.msg);
    HeaderSeparable(h, [DASH, SP] + h.msg);
    SplitJoined(d, g.msg, t);
    var p := SplitN(d, g.msg, 6);
    SixParts(d, p, h, [DASH, SP] + h.msg);
    FieldOf(d, p.view, h.timestamp);
    FieldOf(d, p.rest.view, h.hostname);
    FieldOf(d, p.rest.rest.view, h.app);
    FieldOf(d, p.rest.rest.rest.view, h.procid);
    FieldOf(d, p.rest.rest.rest.rest.view, h.msgid);
  }

  lemma PrintedStructuredData(d: seq<byte>, g: Fields, msg: seq<byte>)
    requires Text(d, g.msg) == [DASH, SP] + msg
    ensures ParseStructuredData(d, g) == Result(Accepted, g.(msg := View(g.msg.lo + 2, g.msg.hi)))
    ensures d[g.msg.lo + 2..g.msg.hi] == msg
  {
    var t := Text(d, g.msg);
    assert t[0] == DASH && t[1] == SP && t[2..] == msg;
    assert d[g.msg.lo] == t[0] && d[g.msg.lo + 1] == t[1];
    assert d[g.msg.lo + 2..g.msg.hi] == t[2..];
  }

  lemma PrintedRest(h: Syslog5424, d: seq<byte>, g: Fields, cal: Calendar)
    requires Printable(h, cal) && g.msg.View? && g.msg.Within(|d|)
    requires Text(d, g.msg) == PrintAfterPri(h)
    ensures
      var r := ParseRest(d, g, cal);
      && r.outcome == Accepted && Carries(d, r.fields, h)
      && r.fields.priority == g.priority && r.fields.time == TimeOf(h, g, cal)
  {
    var p, lo, hi := PrintAfterPri(h), g.msg.lo, g.msg.hi;
    assert p[0] == 49 && p[1] == SP && d[lo] == p[0] && d[lo + 1] == p[1];
    assert d[lo + 2..hi] == d[lo..hi][2..] == p[2..];
    var g' := g.(msg := View(lo + 2, hi));
    PrintedHeader(h, d, g', cal);
    PrintedStructuredData(d, ParseHeader(d, g', cal).fields, h.msg);
  }

  /** Parsing inverts printing: every header field comes back, NILVALUE as nil,
      in a fresh or a recycled buffer. */
  lemma ParsePrint(h: Syslog5424, b: seq<byte>, f: Fields, cal: Calendar)
    requires Printable(h, cal) && |b| == 1024 && b[..|Print(h)|] == Print(h)
    ensures
      var r := Parse(b, |Print(h)|, f, cal);
      && r.outcome == Accepted && Carries(Print(h), r.fields, h)
      && r.fields.priority == h.pri % 256
      && r.fields.time == TimeOf(h, f, cal)
  {
    FramedPriority(h.pri, PrintAfterPri(h), b, f);
    var d, p := Print(h), ParsePriority(b, |Print(h)|, f).fields;
    PrintedRest(h, d, p, cal);
  }

  /** The datagram takes the RFC 5424 path and is accepted. */
  predicate AcceptedVersion1(b: seq<byte>, size: nat, f: Fields, cal: Calendar)
    requires size <= |b| == BUFFER_SIZE
  {
    && ParsePriority(b, size, f).outcome == Accepted
    && IsVersion1(b[..size], ParsePriority(b, size, f).fields.msg)
    && Parse(b, size, f, cal).outcome == Accepted
  }

  /** The header of a parse result, with its timestamp text. */
  function Reprint(d: seq<byte>, g: Fields, ts: Option<seq<byte>>): Syslog5424 {
    Syslog5424(0, ts, FieldValue(d, g.hostname), FieldValue(d, g.app), FieldValue(d, g.procid),
               FieldValue(d, g.msgid), Text(d, g.msg))
  }

  predicate TimeFrom(ts: Option<seq<byte>>, before: Time, after: Time, cal: Calendar) {
    match ts case None => after == before case Some(x) => cal.rfc5424(x) == Some(after)
  }

  /** Every accepted version-1 datagram is, after its '>', the printing of the
      fields that were parsed out of it. */
  lemma PrintParse(b: seq<byte>, size: nat, f: Fields, cal: Calendar) returns (at: nat, ts: Option<seq<byte>>)
    requires size <= |b| == BUFFER_SIZE && AcceptedVersion1(b, size, f, cal)
    ensures 1 <= at < size && b[at] == GT && AllDigits(b[1..at])
    ensures
      var d, g := b[..size], Parse(b, size, f, cal).fields;
      && g.priority == DecimalValue(b[1..at]) % 256
      && Text(d, View(at + 1, size)) == PrintAfterPri(Reprint(d, g, ts))
      && TimeFrom(ts, f.time, g.time, cal)
  {
    at := PriorityText(b, size, f);
    ts := ReprintRest(b[..size], ParsePriority(b, size, f).fields, cal);
  }

  lemma PriorityText(b: seq<byte>, size: nat, f: Fields) returns (at: nat)
    requires size <= |b| == BUFFER_SIZE && ParsePriority(b, size, f).outcome == Accepted
    ensures 1 <= at < size && b[at] == GT && AllDigits(b[1..at])
    ensures ParsePriority(b, size, f).fields
         == f.(priority := DecimalValue(b[1..at]) % 256, msg := View(at + 1, size))
  {
    assert b[1..1] == [];
    ScanMeaning(b, 1, 0);
    at := ScanPriority(b, 1, 0).at;
  }

  lemma ReprintRest(d: seq<byte>, p: Fields, cal: Calendar) returns (ts: Option<seq<byte>>)
    requires p.msg.View? && p.msg.lo <= p.msg.hi == |d|
    requires IsVersion1(d, p.msg) && ParseRest(d, p, cal).outcome == Accepted
    ensures
      var g := ParseRest(d, p, cal).fields;
      && g.priority == p.priority && Text(d, p.msg) == PrintAfterPri(Reprint(d, g, ts))
      && TimeFrom(ts, p.time, g.time, cal)
  {
    var g1 := p.(msg := View(p.msg.lo + 2, p.msg.hi));
    VersionText(d, p.msg);
    ts := ReprintHeader(d, g1, cal);
    var g2 := ParseHeader(d, g1, cal).fields;
    StructuredDataText(d, g2);
  }

  lemma VersionText(d: seq<byte>, v: View)
    requires IsVersion1(d, v)
    ensures Text(d, v) == [49, SP] + Text(d, View(v.lo + 2, v.hi))
  {
  }

  lemma StructuredDataText(d: seq<byte>, g: Fields)
    requires ParseStructuredData(d, g).outcome == Accepted
    ensures Text(d, g.msg) == [DASH, SP] + Text(d, ParseStructuredData(d, g).fields.msg)
  {
  }

  /** The header half: the six parts of an accepted header print to the text
      they were cut from. */
  lemma ReprintHeader(d: seq<byte>, g: Fields, cal: Calendar) returns (ts: Option<seq<byte>>)
    requires g.msg.View? && g.msg.Within(|d|) && ParseHeader(d, g, cal).outcome == Accepted
    ensures
      var r := ParseHeader(d, g, cal).fields;
      && r.priority == g.priority && TimeFrom(ts, g.time, r.time, cal)
      && Text(d, g.msg) == Joined(HeaderTexts(Reprint(d, r, ts), Text(d, r.msg)))
  {
    JoinedSplit(d, g.msg, 6);
    var p := SplitN(d, g.msg, 6);
    ts := FieldValue(d, IgnoreNil(d, p.view));
    var r := ParseHeader(d, g, cal).fields;
    var t := HeaderTexts(Reprint(d, r, ts), Text(d, r.msg));
    assert TextsOf(d, p.rest.rest.rest.rest) == t.rest.rest.rest.rest;
    assert TextsOf(d, p.rest.rest.rest) == t.rest.rest.rest;
    assert TextsOf(d, p.rest.rest) == t.rest.rest;
    assert TextsOf(d, p.rest) == t.rest;
  }

  // ---- views --------------------------------------------------------------

  predicate Before(a: View, b: View) {
    a.View? && b.View? ==> a.hi <= b.lo
  }

  /** Non-nil fields lie in the datagram, pairwise disjoint and in wire order,
      and the message text reaches exactly to the datagram's end. */
  predicate InWireOrder(f: Fields, size: nat) {
    && f.hostname.Within(size) && f.app.Within(size) && f.procid.Within(size)
    && f.msgid.Within(size) && f.msg.Within(size)
    && Before(f.hostname, f.app) && Before(f.hostname, f.procid) && Before(f.hostname, f.msgid)
    && Before(f.hostname, f.msg) && Before(f.app, f.procid) && Before(f.app, f.msgid) && Before(f.app, f.msg)
    && Before(f.procid, f.msgid) && Before(f.procid, f.msg) && Before(f.msgid, f.msg)
    && (f.msg.View? ==> f.msg.hi == size)
  }

  lemma HeaderInWireOrder(d: seq<byte>, g: Fields, cal: Calendar)
    requires g.msg.View? && InWireOrder(g, |d|)
    ensures InWireOrder(ParseHeader(d, g, cal).fields, |d|)
  {
    SplitLeftToRight(d, g.msg, 6, g.msg.lo);
    var p := SplitN(d, g.msg, 6);
    if ParseHeader(d, g, cal).outcome == Accepted { SixLeftToRight(p, g.msg.lo, g.msg.hi); }
  }

  lemma TagInWireOrder(d: seq<byte>, g: Fields)
    requires g.msg.View? && g.msg.Within(|d|) && g.msg.hi == |d|
    requires g.hostname.Nil? && g.procid.Nil? && g.msgid.Nil?
    ensures InWireOrder(ParseLegacyTag(d, g), |d|) && ParseLegacyTag(d, g).msg.View?
  {
  }

  lemma LegacyInWireOrder(d: seq<byte>, g: Fields, cal: Calendar)
    requires g.msg.View? && g.msg.Within(|d|) && g.msg.hi == |d|
    requires g.hostname.Nil? && g.procid.Nil? && g.msgid.Nil?
    ensures InWireOrder(ParseLegacyHeader(d, g, cal), |d|)
  {
    TagInWireOrder(d, ParseLegacyTime(d, g, cal).(hostname := Nil));
  }

  /** Holds on every path through the parser, accepted or rejected. */
  lemma FieldsInWireOrder(b: seq<byte>, size: nat, now: Time, cal: Calendar)
    requires size <= |b| == BUFFER_SIZE
    requires Parse(b, size, Cleared(now), cal).outcome != Panicked
    ensures InWireOrder(Parse(b, size, Cleared(now), cal).fields, size)
  {
    var p := ParsePriority(b, size, Cleared(now));
    if p.outcome == Accepted {
      var d, g := b[..size], p.fields;
      RestInWireOrder(d, g, cal);
    }
  }

  lemma StructuredInWireOrder(d: seq<byte>, h: Result)
    requires InWireOrder(h.fields, |d|)
    ensures InWireOrder(AfterHeader(d, h).fields, |d|)
  {
  }

  lemma RestInWireOrder(d: seq<byte>, g: Fields, cal: Calendar)
    requires g.msg.View? && g.msg.Within(|d|) && g.msg.hi == |d|
    requires g.hostname.Nil? && g.app.Nil? && g.procid.Nil? && g.msgid.Nil?
    ensures InWireOrder(ParseRest(d, g, cal).fields, |d|)
  {
    if IsVersion1(d, g.msg) {
      Version1InWireOrder(d, g, cal);
    } else {
      LegacyInWireOrder(d, g, cal);
    }
  }

  lemma Version1InWireOrder(d: seq<byte>, g: Fields, cal: Calendar)
    requires g.msg.View? && g.msg.Within(|d|) && g.msg.hi == |d| && IsVersion1(d, g.msg)
    requires g.hostname.Nil? && g.app.Nil? && g.procid.Nil? && g.msgid.Nil?
    ensures InWireOrder(ParseVersion1(d, g, cal).fields, |d|)
  {
    var f := g.(msg := View(g.msg.lo + 2, g.msg.hi));
    Version1Is(d, g, f, cal);
    AfterHeaderInWireOrder(d, f, cal);
  }

  lemma Version1Is(d: seq<byte>, g: Fields, f: Fields, cal: Calendar)
    requires IsVersion1(d, g.msg) && f == g.(msg := View(g.msg.lo + 2, g.msg.hi))
    ensures ParseVersion1(d, g, cal) == AfterHeader(d, ParseHeader(d, f, cal))
  {
  }

  lemma AfterHeaderInWireOrder(d: seq<byte>, f: Fields, cal: Calendar)
    requires f.msg.View? && InWireOrder(f, |d|)
    ensures InWireOrder(AfterHeader(d, ParseHeader(d, f, cal)).fields, |d|)
  {
    HeaderInWireOrder(d, f, cal);
    StructuredInWireOrder(d, ParseHeader(d, f, cal));
  }

  // ---- the legacy tag -----------------------------------------------------

  function TrimmedColon(d: seq<byte>, v: View): seq<byte>
    requires v.View? && v.Within(|d|)
  {
    if TrimPrefix(d, v, [58, SP]) == v then [] else [58, SP]
  }

  lemma TrimLosesNothing(d: seq<byte>, v: View)
    requires v.View? && v.Within(|d|)
    ensures Text(d, v) == TrimmedColon(d, v) + Text(d, TrimPrefix(d, v, [58, SP]))
  {
    if TrimPrefix(d, v, [58, SP]) != v {
      assert d[v.lo..v.hi] == d[v.lo..v.lo + 2] + d[v.lo + 2..v.hi];
    }
  }

  function Brackets(d: seq<byte>, v: View): seq<byte> {
    if v.Nil? then [] else [OPEN] + Text(d, v) + [CLOSE]
  }

  predicate Pieces(t: seq<byte>, tag: seq<byte>, pid: seq<byte>, colon: seq<byte>, msg: seq<byte>) {
    t == tag + (pid + (colon + msg))
  }

  lemma BracketedPieces(d: seq<byte>, v: View, e: nat, c: nat)
    requires v.View? && v.Within(|d|) && v.lo <= e < c < v.hi && d[e] == OPEN && d[c] == CLOSE
    ensures
      var w := View(c + 1, v.hi);
      Pieces(Text(d, v), Text(d, View(v.lo, e)), Brackets(d, View(e + 1, c)),
             TrimmedColon(d, w), Text(d, TrimPrefix(d, w, [58, SP])))
  {
    var w := View(c + 1, v.hi);
    var colon, msg := TrimmedColon(d, w), Text(d, TrimPrefix(d, w, [58, SP]));
    assert d[c + 1..v.hi] == colon + msg by { TrimLosesNothing(d, w); }
    BracketSlices(d, v.lo, e, c, v.hi);
    JoinPieces(d[v.lo..v.hi], d[v.lo..e], [OPEN] + d[e + 1..c] + [CLOSE], d[c + 1..v.hi], colon, msg);
  }

  lemma JoinPieces(t: seq<byte>, tag: seq<byte>, pid: seq<byte>, rest: seq<byte>, colon: seq<byte>, msg: seq<byte>)
    requires t == tag + (pid + rest) && rest == colon + msg
    ensures Pieces(t, tag, pid, colon, msg)
  {
  }

  lemma BracketSlices(d: seq<byte>, lo: nat, e: nat, c: nat, hi: nat)
    requires lo <= e < c < hi <= |d| && d[e] == OPEN && d[c] == CLOSE
    ensures d[lo..hi] == d[lo..e] + ([OPEN] + d[e + 1..c] + [CLOSE] + d[c + 1..hi])
  {
    Slices(d, lo, e, c + 1, hi);
    BracketText(d, e, c);
  }

  lemma Slices(d: seq<byte>, a: nat, b: nat, c: nat, e: nat)
    requires a <= b <= c <= e <= |d|
    ensures d[a..e] == d[a..b] + (d[b..c] + d[c..e])
  {
    assert d[b..e] == d[b..c] + d[c..e];
  }

  lemma BracketText(d: seq<byte>, e: nat, c: nat)
    requires e < c < |d| && d[e] == OPEN && d[c] == CLOSE
    ensures d[e..c + 1] == [OPEN] + d[e + 1..c] + [CLOSE]
  {
    assert d[e..e + 1] == [OPEN] && d[c..c + 1] == [CLOSE];
    assert d[e..c + 1] == d[e..e + 1] + d[e + 1..c] + d[c..c + 1];
  }

  lemma UnbracketedPieces(d: seq<byte>, v: View, e: nat)
    requires v.View? && v.Within(|d|) && v.lo <= e <= v.hi
    ensures
      var w := View(e, v.hi);
      Pieces(Text(d, v), Text(d, View(v.lo, e)), Brackets(d, Nil),
             TrimmedColon(d, w), Text(d, TrimPrefix(d, w, [58, SP])))
  {
    var w := View(e, v.hi);
    assert d[v.lo..v.hi] == d[v.lo..e] + d[e..v.hi];
    TrimLosesNothing(d, w);
    assert Brackets(d, Nil) + Text(d, w) == Text(d, w);
  }

  lemma NoTagPieces(t: seq<byte>)
    ensures Pieces(t, [], [], [], t)
  {
  }

  /** Tag, bracketed process id, optional colon and the remaining text
      concatenate to the input. */
  lemma LegacyTagLosesNothing(d: seq<byte>, f: Fields) returns (colon: seq<byte>)
    requires f.msg.View? && f.msg.Within(|d|) && f.procid == Nil
    ensures colon == [] || colon == [58, SP]
    ensures
      var g := ParseLegacyTag(d, f);
      Pieces(Text(d, f.msg), Text(d, g.app), Brackets(d, g.procid), colon, Text(d, g.msg))
  {
    var v := f.msg;
    var e := TagEnd(d, v.lo, v.hi);
    var g := ParseLegacyTag(d, f);
    if e == v.hi {
      colon := [];
      assert Text(d, g.app) == [] && Brackets(d, g.procid) == [] && g.msg == v;
      NoTagPieces(Text(d, v));
      return;
    }
    var c := if d[e] == OPEN then Find(d, CLOSE, e + 1, v.hi) else v.hi;
    if c < v.hi {
      var w := View(c + 1, v.hi);
      colon := TrimmedColon(d, w);
      assert g.app == View(v.lo, e) && g.procid == View(e + 1, c) && g.msg == TrimPrefix(d, w, [58, SP]);
      BracketedPieces(d, v, e, c);
    } else {
      var w := View(e, v.hi);
      colon := TrimmedColon(d, w);
      assert g.app == View(v.lo, e) && g.procid == Nil && g.msg == TrimPrefix(d, w, [58, SP]);
      UnbracketedPieces(d, v, e);
    }
  }

  /** The tag is the maximal run of tag bytes whenever something ends it; a
      process id is the shortest bracketed text right after it. */
  lemma LegacyTagIsMaximal(d: seq<byte>, f: Fields)
    requires f.msg.View? && f.msg.Within(|d|) && f.procid == Nil
    ensures
      var g := ParseLegacyTag(d, f);
      && (g.app.Nil? <==> forall k :: f.msg.lo <= k < f.msg.hi ==> IsTagByte(d[k]))
      && (g.app.Nil? ==> g == f.(app := Nil))
      && (g.app.View? ==>
            && g.app.lo == f.msg.lo <= g.app.hi < f.msg.hi && !IsTagByte(d[g.app.hi])
            && (forall k :: g.app.lo <= k < g.app.hi ==> IsTagByte(d[k]))
            && (g.procid.View? <==> d[g.app.hi] == OPEN && CLOSE in d[g.app.hi + 1..f.msg.hi]))
      && (g.procid.View? ==> CLOSE !in Text(d, g.procid))
  {
    var v := f.msg;
    TagEndSkips(d, v.lo, v.hi);
    var e := TagEnd(d, v.lo, v.hi);
    if e < v.hi && d[e] == OPEN { CloseFound(d, e + 1, v.hi); }
  }

  lemma CloseFound(d: seq<byte>, lo: nat, hi: nat)
    requires lo <= hi <= |d|
    ensures Find(d, CLOSE, lo, hi) < hi <==> CLOSE in d[lo..hi]
    ensures CLOSE !in d[lo..Find(d, CLOSE, lo, hi)]
  {
    FindSkips(d, CLOSE, lo, hi);
    var c := Find(d, CLOSE, lo, hi);
    if c < hi { assert d[lo..hi][c - lo] == CLOSE; }
  }

  // ---- recycled buffers ---------------------------------------------------

  /** The priority scan settles inside the datagram. */
  predicate Decided(d: seq<byte>) {
    |d| < 3 || d[0] != LT || |d| >= 5 || exists i :: 1 <= i < |d| && !IsDigit(d[i])
  }

  lemma {:induction false} ScanIgnoresTail(d: seq<byte>, t1: seq<byte>, t2: seq<byte>, i: nat, pri: byte)
    requires 1 <= i <= 5 <= |d| + |t1| && 5 <= |d| + |t2|
    requires |d| >= 5 || exists k :: i <= k < |d| && !IsDigit(d[k])
    ensures ScanPriority(d + t1, i, pri) == ScanPriority(d + t2, i, pri)
    ensures ScanPriority(d + t1, i, pri).Priority? ==> ScanPriority(d + t1, i, pri).at < |d|
    decreases 5 - i
  {
    if i < 5 && IsDigit(d[i]) {
      if |d| < 5 {
        var k :| i <= k < |d| && !IsDigit(d[k]);
        assert i + 1 <= k;
      }
      ScanIgnoresTail(d, t1, t2, i + 1, ((pri * 10) % 256 + d[i] - 48) % 256);
    }
  }

  /** Bytes left in the buffer by earlier datagrams cannot be seen. */
  lemma StaleBytesInvisible(d: seq<byte>, t1: seq<byte>, t2: seq<byte>, f: Fields, cal: Calendar)
    requires Decided(d) && |d| + |t1| == BUFFER_SIZE == |d| + |t2|
    ensures Parse(d + t1, |d|, f, cal) == Parse(d + t2, |d|, f, cal)
    ensures Parse(d + t1, |d|, f, cal).outcome != Panicked
  {
    assert (d + t1)[..|d|] == d == (d + t2)[..|d|];
    if |d| >= 3 && d[0] == LT { ScanIgnoresTail(d, t1, t2, 1, 0); }
  }

  lemma UndecidedScan(d: seq<byte>, t: seq<byte>, i: nat, pri: byte)
    requires !Decided(d) && |d| + |t| == BUFFER_SIZE && 1 <= i <= |d|
    requires t[0] == GT || !IsDigit(t[0])
    ensures
      var s := ScanPriority(d + t, i, pri);
      if t[0] == GT then s.Priority? && s.at == |d| else s == NoPriority
    decreases |d| - i
  {
    assert d[|d| - 1] == (d + t)[|d| - 1];
    if i < |d| {
      assert IsDigit(d[i]) && (d + t)[i] == d[i];
      UndecidedScan(d, t, i + 1, ((pri * 10) % 256 + d[i] - 48) % 256);
    } else {
      assert (d + t)[|d|] == t[0];
    }
  }

  /** The panic happens exactly when digits run past the datagram's end up to a
      '>' that an earlier datagram left in the first five buffer bytes. */
  lemma PanicsIff(b: seq<byte>, size: nat, f: Fields, cal: Calendar)
    requires size <= |b| == BUFFER_SIZE
    ensures Parse(b, size, f, cal).outcome == Panicked
      <==> 3 <= size && b[0] == LT && exists at :: size <= at < 5 && b[at] == GT && AllDigits(b[1..at])
  {
    assert b[1..1] == [];
    ScanMeaning(b, 1, 0);
  }

  function Zeros(n: nat): seq<byte> { seq(n, _ => 0) }

  /** A 3- or 4-byte datagram "<" digits is read past its end: a leftover '>'
      makes the slice bounds panic, any other leftover rejects. */
  lemma UndecidedDependsOnTail(d: seq<byte>, f: Fields, cal: Calendar)
    requires !Decided(d)
    ensures |d| == 3 || |d| == 4
    ensures Parse(d + ([GT] + Zeros(BUFFER_SIZE - |d| - 1)), |d|, f, cal).outcome == Panicked
    ensures Parse(d + Zeros(BUFFER_SIZE - |d|), |d|, f, cal) == Result(Rejected, f)
  {
    UndecidedScan(d, [GT] + Zeros(BUFFER_SIZE - |d| - 1), 1, 0);
    UndecidedScan(d, Zeros(BUFFER_SIZE - |d|), 1, 0);
  }

  ghost predicate SameForEveryTail(d: seq<byte>, f: Fields, cal: Calendar)
    requires |d| <= BUFFER_SIZE
  {
    forall t1: seq<byte>, t2: seq<byte> | |d| + |t1| == BUFFER_SIZE == |d| + |t2| ::
      Parse(d + t1, |d|, f, cal) == Parse(d + t2, |d|, f, cal)
  }

  /** Reusing a buffer is invisible exactly for the decided datagrams, in
      particular for every datagram of at least five bytes. */
  lemma ReuseInvisibleIffDecided(d: seq<byte>, f: Fields, cal: Calendar)
    requires |d| <= BUFFER_SIZE
    ensures SameForEveryTail(d, f, cal) <==> Decided(d)
  {
    if Decided(d) {
      forall t1: seq<byte>, t2: seq<byte> | |d| + |t1| == BUFFER_SIZE == |d| + |t2|
        ensures Parse(d + t1, |d|, f, cal) == Parse(d + t2, |d|, f, cal)
      {
        StaleBytesInvisible(d, t1, t2, f, cal);
      }
    } else {
      UndecidedDependsOnTail(d, f, cal);
      var t1, t2 := [GT] + Zeros(BUFFER_SIZE - |d| - 1), Zeros(BUFFER_SIZE - |d|);
      assert Parse(d + t1, |d|, f, cal) != Parse(d + t2, |d|, f, cal);
    }
  }

  /** What a newly allocated message makes of a datagram received at `now`. */
  function FreshParse(d: seq<byte>, now: Time, cal: Calendar): Result
    requires |d| <= BUFFER_SIZE
  {
    Parse(d + Zeros(BUFFER_SIZE - |d|), |d|, Cleared(now), cal)
  }

  lemma HasMark(b: seq<byte>, size: nat, f: Fields)
    requires size <= |b| == BUFFER_SIZE
    ensures ParsePriority(b, size, f).outcome == Accepted ==> exists at :: 1 <= at < size && b[at] == GT
  {
    if ParsePriority(b, size, f).outcome == Accepted {
      var at := PriorityText(b, size, f);
    }
  }

  /** An undecided datagram has no `>` of its own: it is rejected, or it panics. */
  lemma UndecidedOutcome(d: seq<byte>, t: seq<byte>, f: Fields, cal: Calendar)
    requires !Decided(d) && |d| + |t| == BUFFER_SIZE
    ensures Parse(d + t, |d|, f, cal) == Result(Rejected, f) || Parse(d + t, |d|, f, cal).outcome == Panicked
  {
    var b := d + t;
    HasMark(b, |d|, f);
    assert forall at :: 1 <= at < |d| ==> b[at] == d[at] && IsDigit(d[at]);
  }

  /** Reuse of a buffer shows as a panic or not at all. */
  lemma ReuseShowsAsPanic(d: seq<byte>, t: seq<byte>, now: Time, cal: Calendar)
    requires |d| + |t| == BUFFER_SIZE
    ensures
      var r := Parse(d + t, |d|, Cleared(now), cal);
      r.outcome == Panicked || r == FreshParse(d, now, cal)
  {
    var z := Zeros(BUFFER_SIZE - |d|);
    if Decided(d) {
      StaleBytesInvisible(d, t, z, Cleared(now), cal);
    } else {
      UndecidedOutcome(d, t, Cleared(now), cal);
      UndecidedDependsOnTail(d, Cleared(now), cal);
    }
  }

  /** A decided datagram at the start of any buffer gives what it gives in a fresh one. */
  lemma DecidedIsFresh(b: seq<byte>, d: seq<byte>, now: Time, cal: Calendar)
    requires |d| <= |b| == BUFFER_SIZE && b[..|d|] == d && Decided(d)
    ensures Parse(b, |d|, Cleared(now), cal) == FreshParse(d, now, cal)
  {
    var t, z := b[|d|..], Zeros(BUFFER_SIZE - |d|);
    assert b == d + t;
    StaleBytesInvisible(d, t, z, Cleared(now), cal);
  }

  /** The buffer holds a `>` after `d` that the scan of `d` would take for its own. */
  ghost predicate Leftover(d: seq<byte>, b: seq<byte>)
    requires |b| == BUFFER_SIZE
  {
    3 <= |d| && d[0] == LT && exists at :: |d| <= at < 5 && b[at] == GT && AllDigits(d[1..] + b[|d|..at])
  }

  lemma LeftoverIsPanic(d: seq<byte>, before: seq<byte>, f: Fields, cal: Calendar)
    requires |d| <= |before| == BUFFER_SIZE
    ensures Parse(d + before[|d|..], |d|, f, cal).outcome == Panicked <==> Leftover(d, before)
  {
    var b := d + before[|d|..];
    PanicsIff(b, |d|, f, cal);
    forall at | 1 <= |d| <= at < 5 ensures b[1..at] == d[1..] + before[|d|..at] && b[at] == before[at] {
    }
  }

  /** One trip of a pooled message through the receiver: read, parse, reset. It panics
      exactly on a leftover `>`; otherwise the outcome is that of a new message and the
      object goes back cleared. */
  method HandlePooled(m: Message, d: seq<byte>, now: Time, cal: Calendar) returns (r: Result)
    requires m.Valid() && |d| <= BUFFER_SIZE && m.State() == Cleared(m.time)
    modifies m, m.buf
    ensures r.outcome == Panicked <==> Leftover(d, old(m.buf[..]))
    ensures r.outcome != Panicked ==> r == FreshParse(d, now, cal)
    ensures r.outcome != Panicked ==> m.Valid() && m.State() == Cleared(m.time) && m.Datagram() == d
  {
    ghost var before := m.buf[..];
    m.Receive(d, now);
    ghost var t := m.buf[|d|..];
    assert m.buf[..] == d + t && t == before[|d|..];
    LeftoverIsPanic(d, before, Cleared(now), cal);
    ReuseShowsAsPanic(d, t, now, cal);
    var o := m.Parse(cal);
    r := Result(o, Fields(m.time, m.priority, m.hostname, m.app, m.procid, m.msgid, m.msg));
    if o == Panicked { return; }
    m.Reset();
  }
}
