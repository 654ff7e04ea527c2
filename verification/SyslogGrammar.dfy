/**
 Which datagrams parse to what, stated on texts: the grammar of both layouts, written with
 the characters themselves and without buffers or views. Every datagram with a priority
 falls under one of the two theorems.
 */
module SyslogGrammar {
  import opened Bytes
  import opened SyslogMessage
  import opened SyslogTheorems

  // ---- version 1: section 6 of RFC 5424 -----------------------------------

  function LastText(t: Texts): seq<byte> {
    match t case Final(x) => x case Then(_, rest) => LastText(rest)
  }

  /** A split into at most six parts: only the sixth may hold spaces. */
  predicate SixWay(t: Texts, n: nat) {
    Separable(t) && Count(t) <= n && (Count(t) < n ==> 32 !in LastText(t))
  }

  lemma {:induction false} SplitSixWay(d: seq<byte>, v: View, t: Texts, n: nat)
    requires v.View? && v.Within(|d|) && Text(d, v) == Joined(t) && SixWay(t, n)
    ensures TextsOf(d, SplitN(d, v, n)) == t
    decreases t
  {
    match t
    case Final(x) =>
      if n > 1 { NoSpace(d, v.lo, v.hi); }
    case Then(x, rest) =>
      var e := v.lo + |x|;
      RestWay(t, n);
      assert 32 !in x && Text(d, v) == d[v.lo..v.hi];
      CutAt(d, v.lo, v.hi, x, Joined(rest));
      SplitSixWay(d, View(e + 1, v.hi), rest, n - 1);
      SplitAt(d, v, n, e);
  }

  lemma RestWay(t: Texts, n: nat)
    requires t.Then? && SixWay(t, n)
    ensures n > 1 && SixWay(t.rest, n - 1)
  {
    assert Count(t.rest) >= 1;
  }

  lemma NoSpace(d: seq<byte>, lo: nat, hi: nat)
    requires lo <= hi <= |d| && 32 !in d[lo..hi]
    ensures Find(d, SP, lo, hi) == hi
  {
    assert forall k | lo <= k < hi :: d[k] == d[lo..hi][k - lo];
  }

  /** NILVALUE, or at most as long as 2006-01-02T15:04:05.999999Z07:00 and a time. */
  predicate GoodTimestamp(x: seq<byte>, cal: Calendar) {
    x == [45] || (|x| <= 32 && cal.rfc5424(x).Some?)
  }

  lemma HeaderAccepted(d: seq<byte>, g: Fields, t: Texts, cal: Calendar)
    requires g.msg.View? && g.msg.Within(|d|) && Text(d, g.msg) == Joined(t) && SixWay(t, 6)
    ensures
      var r := ParseHeader(d, g, cal);
      && r.outcome == (if Count(t) == 6 && GoodTimestamp(t.x, cal) then Accepted else Rejected)
      && (r.outcome == Accepted ==> r.fields.msg.View? && r.fields.msg.Within(|d|) && Text(d, r.fields.msg) == LastText(t))
  {
    SplitSixWay(d, g.msg, t, 6);
    var p := SplitN(d, g.msg, 6);
    SplitViews(d, g.msg, 6);
    if Count(t) == 6 { SixDeep(t); }
    ShapeOf(d, p, t);
  }

  lemma {:induction false} SplitViews(d: seq<byte>, v: View, n: nat)
    requires v.View? && v.Within(|d|)
    ensures AllWithin(SplitN(d, v, n), |d|)
    decreases v.hi - v.lo
  {
    var e := Find(d, SP, v.lo, v.hi);
    if n > 1 && e < v.hi { SplitViews(d, View(e + 1, v.hi), n - 1); }
  }

  predicate AllWithin(p: Parts, size: nat) {
    match p
    case Last(v) => v.Within(size)
    case Part(v, rest) => v.Within(size) && AllWithin(rest, size)
  }

  lemma SixDeep(t: Texts)
    requires Count(t) == 6
    ensures t.Then? && t.rest.Then? && t.rest.rest.Then? && t.rest.rest.rest.Then? && t.rest.rest.rest.rest.Then?
    ensures t.rest.rest.rest.rest.rest == Final(LastText(t))
  {
    var t1 := t.rest;
    assert Count(t1) == 5 && LastText(t1) == LastText(t);
    var t2 := t1.rest;
    assert Count(t2) == 4 && LastText(t2) == LastText(t);
    var t3 := t2.rest;
    assert Count(t3) == 3 && LastText(t3) == LastText(t);
    var t4 := t3.rest;
    assert Count(t4) == 2 && LastText(t4) == LastText(t);
    var t5 := t4.rest;
    assert Count(t5) == 1 && LastText(t5) == LastText(t);
  }

  predicate IsSix(p: Parts) {
    && p.Part? && p.rest.Part? && p.rest.rest.Part? && p.rest.rest.rest.Part?
    && p.rest.rest.rest.rest.Part? && p.rest.rest.rest.rest.rest.Last?
  }

  /** Six parts are six texts. */
  lemma ShapeOf(d: seq<byte>, p: Parts, t: Texts)
    requires TextsOf(d, p) == t && AllWithin(p, |d|)
    ensures IsSix(p) <==> Count(t) == 6
    ensures Count(t) == 6 ==>
      && Text(d, p.view) == t.x && Text(d, p.rest.rest.rest.rest.rest.view) == LastText(t)
      && p.rest.rest.rest.rest.rest.view.Within(|d|)
  {
    if Count(t) == 6 {
      SixDeep(t);
      DeepParts(d, p, t);
    } else if IsSix(p) {
      SixCount(d, p);
      assert false;
    }
  }

  lemma DeepParts(d: seq<byte>, p: Parts, t: Texts)
    requires TextsOf(d, p) == t && AllWithin(p, |d|)
    requires t.Then? && t.rest.Then? && t.rest.rest.Then? && t.rest.rest.rest.Then? && t.rest.rest.rest.rest.Then?
    requires t.rest.rest.rest.rest.rest.Final?
    ensures IsSix(p) && Text(d, p.view) == t.x
    ensures var last := p.rest.rest.rest.rest.rest.view;
      last.Within(|d|) && Text(d, last) == t.rest.rest.rest.rest.rest.x
  {
    var p1, t1 := p.rest, t.rest;
    assert TextsOf(d, p1) == t1 && AllWithin(p1, |d|);
    var p2, t2 := p1.rest, t1.rest;
    assert TextsOf(d, p2) == t2 && AllWithin(p2, |d|);
    var p3, t3 := p2.rest, t2.rest;
    assert TextsOf(d, p3) == t3 && AllWithin(p3, |d|);
    var p4, t4 := p3.rest, t3.rest;
    assert TextsOf(d, p4) == t4 && AllWithin(p4, |d|);
    var p5, t5 := p4.rest, t4.rest;
    assert TextsOf(d, p5) == t5 && AllWithin(p5, |d|);
  }

  lemma SixCount(d: seq<byte>, p: Parts)
    requires IsSix(p)
    ensures Count(TextsOf(d, p)) == 6
  {
    var p2 := p.rest.rest;
    var p4 := p2.rest.rest;
    assert Count(TextsOf(d, p4)) == 2;
    assert Count(TextsOf(d, p2)) == 4;
  }

  /** A datagram in a buffer of 1024 bytes: '<', up to three digits, '>' and a text. */
  ghost predicate Sent(digits: seq<byte>, text: seq<byte>, b: seq<byte>) {
    var d := Prefixed(digits, text);
    AllDigits(digits) && |digits| <= 3 && 3 <= |d| <= |b| == 1024 && b[..|d|] == d
  }

  /** Every datagram whose priority is accepted is of this form, so the two theorems below
      leave none out. */
  lemma EveryDatagram(b: seq<byte>, size: nat, f: Fields) returns (digits: seq<byte>, text: seq<byte>)
    requires size <= |b| == 1024 && ParsePriority(b, size, f).outcome == Accepted
    ensures Sent(digits, text, b) && Prefixed(digits, text) == b[..size]
  {
    var at := PriorityText(b, size, f);
    digits, text := b[1..at], b[at + 1..size];
    assert b[..size] == [b[0]] + b[1..at] + [b[at]] + b[at + 1..size];
  }

  /** A version-1 datagram is accepted exactly when it has six parts, a good timestamp and
      nil structured data. Every text is the join of some six-way split. */
  lemma Version1Iff(digits: seq<byte>, t: Texts, b: seq<byte>, f: Fields, cal: Calendar)
    requires SixWay(t, 6) && Sent(digits, [49, 32] + Joined(t), b)
    ensures Parse(b, |Prefixed(digits, [49, 32] + Joined(t))|, f, cal).outcome
      == if Count(t) == 6 && GoodTimestamp(t.x, cal) && [45, 32] <= LastText(t) then Accepted else Rejected
  {
    var text := [49, 32] + Joined(t);
    var d := Prefixed(digits, text);
    PrefixedPriority(digits, text, b, f);
    var g := ParsePriority(b, |d|, f).fields;
    RestIff(d, g, t, cal);
  }

  lemma RestIff(d: seq<byte>, g: Fields, t: Texts, cal: Calendar)
    requires g.msg.View? && g.msg.Within(|d|) && d[g.msg.lo..g.msg.hi] == [49, 32] + Joined(t) && SixWay(t, 6)
    ensures ParseRest(d, g, cal).outcome
      == if Count(t) == 6 && GoodTimestamp(t.x, cal) && [45, 32] <= LastText(t) then Accepted else Rejected
  {
    var lo, hi, text := g.msg.lo, g.msg.hi, [49, 32] + Joined(t);
    assert d[lo] == text[0] && d[lo + 1] == text[1];
    assert d[lo + 2..hi] == d[lo..hi][2..] == Joined(t);
    var g' := g.(msg := View(lo + 2, hi));
    Version1Is(d, g, g', cal);
    HeaderAccepted(d, g', t, cal);
    StructuredIff(d, ParseHeader(d, g', cal).fields);
  }

  lemma StructuredIff(d: seq<byte>, g: Fields)
    ensures g.msg.View? && g.msg.Within(|d|) ==>
      (ParseStructuredData(d, g).outcome == Accepted <==> [45, 32] <= Text(d, g.msg))
    ensures ParseStructuredData(d, g).outcome != Panicked
  {
    if g.msg.View? && g.msg.Within(|d|) && g.msg.Len() >= 2 {
      var t := Text(d, g.msg);
      assert t[0] == d[g.msg.lo] && t[1] == d[g.msg.lo + 1];
      assert [45, 32] <= t <==> t[..2] == [45, 32];
    }
  }

  /** The split of any text. */
  lemma {:induction false} EveryText(x: seq<byte>, n: nat) returns (t: Texts)
    requires n >= 1
    ensures Joined(t) == x && SixWay(t, n)
    decreases n
  {
    var e := Find(x, SP, 0, |x|);
    FindSkips(x, SP, 0, |x|);
    if n == 1 || e == |x| {
      t := Final(x);
      assert x[0..|x|] == x;
    } else {
      var rest := EveryText(x[e + 1..], n - 1);
      t := Then(x[..e], rest);
      assert x[0..e] == x[..e];
      assert x == x[..e] + [32] + x[e + 1..];
    }
  }

  // ---- the legacy layout: section 4 of RFC 3164 ---------------------------

  predicate TagChar(c: byte) {
    var x := c as char;
    '0' <= x <= '9' || 'a' <= x <= 'z' || 'A' <= x <= 'Z' || x == '-' || x == '_' || x == '/' || x == '.'
  }

  predicate AllTag(x: seq<byte>) {
    forall k :: 0 <= k < |x| ==> TagChar(x[k])
  }

  /** What a text after the priority is made of, in the order of the characters. */
  datatype Body =
    | Tagged(tag: seq<byte>, pid: Option<seq<byte>>, rest: seq<byte>)
    | Untagged(text: seq<byte>)

  /** A tag, perhaps a process id in brackets (91 and 93), and the rest. */
  function Written(x: Body): seq<byte> {
    match x
    case Tagged(tag, Some(pid), rest) => tag + ([91] + pid + [93] + rest)
    case Tagged(tag, None, rest) => tag + rest
    case Untagged(text) => text
  }

  /** Each text is written by one body: the tag is as long as it can be, and the process id
      ends at the first bracket. */
  predicate Proper(x: Body) {
    match x
    case Tagged(tag, Some(pid), _) => AllTag(tag) && 93 !in pid
    case Tagged(tag, None, rest) =>
      AllTag(tag) && rest != [] && !TagChar(rest[0]) && (rest[0] == 91 ==> 93 !in rest[1..])
    case Untagged(text) => AllTag(text)
  }

  function Without(x: seq<byte>, p: seq<byte>): seq<byte> {
    if p <= x then x[|p|..] else x
  }

  /** The message: without the ": " after a tag. */
  function Message(x: Body): seq<byte> {
    match x
    case Tagged(_, _, rest) => Without(rest, [58, 32])
    case Untagged(text) => text
  }

  /** The names of the eight severities, as they prefix a message. */
  function SeverityPrefix(pri: nat): seq<byte> { SeverityText(pri % 8) }

  function SeverityText(severity: nat): seq<byte> {
    match severity
    case 0 => Ascii("EMERG: ")
    case 1 => Ascii("ALERT: ")
    case 2 => Ascii("CRIT: ")
    case 3 => Ascii("ERR: ")
    case 4 => Ascii("WARNING: ")
    case 5 => Ascii("NOTICE: ")
    case 6 => Ascii("INFO: ")
    case _ => Ascii("DEBUG: ")
  }

  /** One severity, one time and one carriage return are taken off, in this order. */
  function Bared(x: seq<byte>, pri: nat, time: Time, cal: Calendar): seq<byte> {
    Without(Without(Without(x, SeverityPrefix(pri)), cal.prefix(time)), [13])
  }

  /** The text starts with a stamp of 15 characters that is a time, and a space. */
  predicate Stamped(x: seq<byte>, cal: Calendar) {
    |x| > 15 && x[15] == 32 && cal.stamp(x[..15]).Some?
  }

  function Unstamped(x: seq<byte>, cal: Calendar): seq<byte> {
    if Stamped(x, cal) then x[16..] else x
  }

  /** The stamp corrected by the receive time; a zero stamp counts as none. */
  function StampTime(x: seq<byte>, now: Time, cal: Calendar): Time {
    if Stamped(x, cal) && !cal.isZero(cal.stamp(x[..15]).value) then cal.correct(now, cal.stamp(x[..15]).value) else now
  }

  lemma TagCharIs(c: byte)
    ensures TagChar(c) <==> IsTagByte(c)
  {
  }

  lemma SeverityIs(p: byte)
    ensures Ascii(SeverityName(p) + ": ") == SeverityPrefix(p)
  {
    assert "EMERG" + ": " == "EMERG: " && "ALERT" + ": " == "ALERT: " && "CRIT" + ": " == "CRIT: ";
    assert "ERR" + ": " == "ERR: " && "WARNING" + ": " == "WARNING: " && "NOTICE" + ": " == "NOTICE: ";
    assert "INFO" + ": " == "INFO: " && "DEBUG" + ": " == "DEBUG: ";
  }

  lemma TrimText(d: seq<byte>, v: View, p: seq<byte>)
    requires v.View? && v.Within(|d|)
    ensures Text(d, TrimPrefix(d, v, p)) == Without(Text(d, v), p)
  {
    if |p| <= v.Len() { SliceOf(d, v.lo, v.hi, |p|); }
  }

  /** The trims of a legacy message. */
  lemma TrimmedText(d: seq<byte>, g: Fields, cal: Calendar)
    requires g.msg.View? && g.msg.Within(|d|)
    ensures Text(d, TrimLegacyPrefixes(d, g, cal)) == Bared(Text(d, g.msg), g.priority, g.time, cal)
  {
    SeverityIs(g.priority);
    ThreeTrims(d, g.msg, Ascii(SeverityName(g.priority) + ": "), cal.prefix(g.time));
  }

  lemma ThreeTrims(d: seq<byte>, v: View, p: seq<byte>, q: seq<byte>)
    requires v.View? && v.Within(|d|)
    ensures var v2 := TrimPrefix(d, TrimPrefix(d, v, p), q);
      Text(d, if v2.Len() > 0 && At(d, v2, 0) == 13 then View(v2.lo + 1, v2.hi) else v2)
      == Without(Without(Without(Text(d, v), p), q), [13])
  {
    var v1 := TrimPrefix(d, v, p);
    TrimText(d, v, p);
    TrimText(d, v1, q);
    ReturnText(d, TrimPrefix(d, v1, q));
  }

  lemma ReturnText(d: seq<byte>, v: View)
    requires v.View? && v.Within(|d|)
    ensures Text(d, if v.Len() > 0 && At(d, v, 0) == 13 then View(v.lo + 1, v.hi) else v) == Without(Text(d, v), [13])
  {
    var t := Text(d, v);
    if v.Len() > 0 {
      SliceOf(d, v.lo, v.hi, 0);
      SliceOf(d, v.lo, v.hi, 1);
      assert t[..1] == [t[0]];
    }
  }

  /** The optional stamp. */
  lemma StampText(d: seq<byte>, g: Fields, cal: Calendar)
    requires g.msg.View? && g.msg.Within(|d|)
    ensures
      var r, x := ParseLegacyTime(d, g, cal), Text(d, g.msg);
      Text(d, r.msg) == Unstamped(x, cal) && r.time == StampTime(x, g.time, cal)
  {
    var v, x := g.msg, Text(d, g.msg);
    if |x| > 15 {
      SliceOf(d, v.lo, v.hi, 15);
      SliceOf(d, v.lo, v.hi, 16);
    }
  }

  lemma SliceOf(d: seq<byte>, lo: nat, hi: nat, i: nat)
    requires lo <= hi <= |d| && i <= hi - lo
    ensures d[lo..hi][..i] == d[lo..lo + i] && d[lo..hi][i..] == d[lo + i..hi]
    ensures i < hi - lo ==> d[lo..hi][i] == d[lo + i]
  {
    var t := d[lo..hi];
    assert forall k :: 0 <= k < |t| ==> t[k] == d[lo + k];
  }

  lemma {:induction false} TagEndIs(d: seq<byte>, lo: nat, hi: nat, e: nat)
    requires lo <= e <= hi <= |d| && (e < hi ==> !IsTagByte(d[e])) && forall k :: lo <= k < e ==> IsTagByte(d[k])
    ensures TagEnd(d, lo, hi) == e
    decreases e - lo
  {
    if lo < e { TagEndIs(d, lo + 1, hi, e); }
  }

  /** The tag of a text ends where its body says. */
  lemma TagOf(d: seq<byte>, lo: nat, hi: nat, tag: seq<byte>, rest: seq<byte>)
    requires lo <= hi <= |d| && d[lo..hi] == tag + rest && AllTag(tag) && (rest != [] ==> !TagChar(rest[0]))
    ensures TagEnd(d, lo, hi) == lo + |tag| && d[lo..lo + |tag|] == tag && d[lo + |tag|..hi] == rest
  {
    var e := lo + |tag|;
    TwoSlices(d, lo, hi, tag, rest);
    forall k | lo <= k < e ensures IsTagByte(d[k]) { TagCharIs(tag[k - lo]); }
    if rest != [] { TagCharIs(rest[0]); }
    TagEndIs(d, lo, hi, e);
  }

  lemma TwoSlices(d: seq<byte>, lo: nat, hi: nat, x: seq<byte>, y: seq<byte>)
    requires lo <= hi <= |d| && d[lo..hi] == x + y
    ensures lo + |x| + |y| == hi && d[lo..lo + |x|] == x && d[lo + |x|..hi] == y
    ensures forall k :: lo <= k < lo + |x| ==> d[k] == x[k - lo]
    ensures y != [] ==> d[lo + |x|] == y[0]
  {
    var t := d[lo..hi];
    assert forall k :: lo <= k < hi ==> d[k] == t[k - lo];
  }

  /** The first closing bracket. */
  lemma CloseOf(d: seq<byte>, lo: nat, hi: nat, pid: seq<byte>, rest: seq<byte>)
    requires lo <= hi <= |d| && d[lo..hi] == pid + ([93] + rest) && 93 !in pid
    ensures lo + |pid| < hi && Find(d, CLOSE, lo, hi) == lo + |pid|
    ensures d[lo..lo + |pid|] == pid && d[lo + |pid| + 1..hi] == rest
  {
    var c := lo + |pid|;
    TwoSlices(d, lo, hi, pid, [93] + rest);
    TwoSlices(d, c, hi, [93], rest);
    FindIs(d, CLOSE, lo, hi, c);
  }

  function BodyApp(x: Body): Option<seq<byte>> { match x case Tagged(tag, _, _) => Some(tag) case Untagged(_) => None }

  function BodyPid(x: Body): Option<seq<byte>> { match x case Tagged(_, pid, _) => pid case Untagged(_) => None }

  ghost predicate TagParsed(d: seq<byte>, g: Fields, x: Body) {
    FieldValue(d, g.app) == BodyApp(x) && FieldValue(d, g.procid) == BodyPid(x) && Text(d, g.msg) == Message(x)
  }

  lemma BracketedTag(d: seq<byte>, g: Fields, tag: seq<byte>, pid: seq<byte>, rest: seq<byte>)
    requires g.msg.View? && g.msg.Within(|d|) && Text(d, g.msg) == tag + ([91] + pid + [93] + rest)
    requires AllTag(tag) && 93 !in pid
    ensures TagParsed(d, ParseLegacyTag(d, g), Tagged(tag, Some(pid), rest))
  {
    var lo, hi, tail := g.msg.lo, g.msg.hi, [91] + pid + [93] + rest;
    TagOf(d, lo, hi, tag, tail);
    var e := lo + |tag|;
    AfterBracket(d, e, hi, pid, rest);
    var c := e + 1 + |pid|;
    BracketedFields(d, g, e, c);
    TrimText(d, View(c + 1, hi), [58, SP]);
  }

  lemma AfterBracket(d: seq<byte>, e: nat, hi: nat, pid: seq<byte>, rest: seq<byte>)
    requires e <= hi <= |d| && d[e..hi] == [91] + pid + [93] + rest && 93 !in pid
    ensures e + 1 + |pid| < hi && d[e] == 91 && Find(d, CLOSE, e + 1, hi) == e + 1 + |pid|
    ensures d[e + 1..e + 1 + |pid|] == pid && d[e + 1 + |pid| + 1..hi] == rest
  {
    assert [91] + pid + [93] + rest == [91] + (pid + ([93] + rest));
    TwoSlices(d, e, hi, [91], pid + ([93] + rest));
    CloseOf(d, e + 1, hi, pid, rest);
  }

  lemma BracketedFields(d: seq<byte>, g: Fields, e: nat, c: nat)
    requires g.msg.View? && g.msg.Within(|d|) && TagEnd(d, g.msg.lo, g.msg.hi) == e < c < g.msg.hi
    requires d[e] == 91 && Find(d, CLOSE, e + 1, g.msg.hi) == c
    ensures ParseLegacyTag(d, g)
      == g.(app := View(g.msg.lo, e), procid := View(e + 1, c), msg := TrimPrefix(d, View(c + 1, g.msg.hi), [58, SP]))
  {
  }

  lemma PlainTag(d: seq<byte>, g: Fields, tag: seq<byte>, rest: seq<byte>)
    requires g.msg.View? && g.msg.Within(|d|) && Text(d, g.msg) == tag + rest && g.procid == Nil
    requires AllTag(tag) && rest != [] && !TagChar(rest[0]) && (rest[0] == 91 ==> 93 !in rest[1..])
    ensures TagParsed(d, ParseLegacyTag(d, g), Tagged(tag, None, rest))
  {
    var lo, hi := g.msg.lo, g.msg.hi;
    TagOf(d, lo, hi, tag, rest);
    var e := lo + |tag|;
    TwoSlices(d, lo, hi, tag, rest);
    if d[e] == OPEN { NoneCloses(d, e, hi, rest); }
    PlainFields(d, g, e);
    TrimText(d, View(e, hi), [58, SP]);
  }

  lemma NoneCloses(d: seq<byte>, e: nat, hi: nat, rest: seq<byte>)
    requires e < hi <= |d| && d[e..hi] == rest && 93 !in rest[1..]
    ensures Find(d, CLOSE, e + 1, hi) == hi
  {
    SliceOf(d, e, hi, 1);
    CloseFound(d, e + 1, hi);
  }

  lemma PlainFields(d: seq<byte>, g: Fields, e: nat)
    requires g.msg.View? && g.msg.Within(|d|) && TagEnd(d, g.msg.lo, g.msg.hi) == e < g.msg.hi && g.procid == Nil
    requires d[e] == 91 ==> Find(d, CLOSE, e + 1, g.msg.hi) == g.msg.hi
    ensures ParseLegacyTag(d, g) == g.(app := View(g.msg.lo, e), msg := TrimPrefix(d, View(e, g.msg.hi), [58, SP]))
  {
  }

  lemma TagStep(d: seq<byte>, g: Fields, x: Body)
    requires g.msg.View? && g.msg.Within(|d|) && Text(d, g.msg) == Written(x) && Proper(x) && g.procid == Nil
    ensures TagParsed(d, ParseLegacyTag(d, g), x)
  {
    match x
    case Tagged(tag, Some(pid), rest) => BracketedTag(d, g, tag, pid, rest);
    case Tagged(tag, None, rest) => PlainTag(d, g, tag, rest);
    case Untagged(text) =>
      assert text == text + [];
      TagOf(d, g.msg.lo, g.msg.hi, text, []);
  }

  /** What the legacy layout of a text is parsed to. */
  ghost predicate LegacyResult(d: seq<byte>, r: Fields, g: Fields, text: seq<byte>, x: Body, cal: Calendar) {
    && r.priority == g.priority && r.time == StampTime(text, g.time, cal)
    && r.hostname == Nil && r.msgid == g.msgid
    && FieldValue(d, r.app) == BodyApp(x) && FieldValue(d, r.procid) == BodyPid(x)
    && r.msg.View? && Text(d, r.msg) == Bared(Message(x), g.priority, r.time, cal)
  }

  lemma LegacyHeader(d: seq<byte>, g: Fields, x: Body, cal: Calendar)
    requires g.msg.View? && g.msg.Within(|d|) && g.procid == Nil
    requires Proper(x) && Written(x) == Unstamped(Text(d, g.msg), cal)
    ensures LegacyResult(d, ParseLegacyHeader(d, g, cal), g, Text(d, g.msg), x, cal)
  {
    StampText(d, g, cal);
    var g1 := ParseLegacyTime(d, g, cal).(hostname := Nil);
    TagStep(d, g1, x);
    var g2 := ParseLegacyTag(d, g1);
    TagKeeps(d, g1);
    TrimmedText(d, g2, cal);
  }

  lemma TagKeeps(d: seq<byte>, g: Fields)
    requires g.msg.View? && g.msg.Within(|d|)
    ensures var r := ParseLegacyTag(d, g);
      r.time == g.time && r.priority == g.priority && r.hostname == g.hostname && r.msgid == g.msgid
  {
  }

  /** Every datagram with a priority whose text does not begin with "1 " is accepted, and its
      stamp, tag, process id and message come back exactly. */
  lemma LegacyParsed(digits: seq<byte>, text: seq<byte>, x: Body, b: seq<byte>, f: Fields, cal: Calendar)
    requires Sent(digits, text, b) && !([49, 32] <= text) && f.procid == Nil
    requires Proper(x) && Written(x) == Unstamped(text, cal)
    ensures
      var d := Prefixed(digits, text);
      var r := Parse(b, |d|, f, cal);
      r.outcome == Accepted && LegacyResult(d, r.fields, f.(priority := DecimalValue(digits) % 256), text, x, cal)
  {
    var d := Prefixed(digits, text);
    PrefixedPriority(digits, text, b, f);
    var g := ParsePriority(b, |d|, f).fields;
    NotVersion1(d, g.msg, text);
    LegacyHeader(d, g, x, cal);
  }

  lemma NotVersion1(d: seq<byte>, v: View, text: seq<byte>)
    requires v.View? && v.Within(|d|) && d[v.lo..v.hi] == text && !([49, 32] <= text)
    ensures !IsVersion1(d, v)
  {
    if |text| >= 2 {
      assert text[0] == d[v.lo] && text[1] == d[v.lo + 1];
      assert text[..2] == [text[0], text[1]];
    }
  }

  /** The body of any text: the theorem leaves no text out. */
  lemma EveryBody(t: seq<byte>) returns (x: Body)
    ensures Proper(x) && Written(x) == t
  {
    var e := TagEnd(t, 0, |t|);
    TagEndSkips(t, 0, |t|);
    forall k | 0 <= k < e ensures TagChar(t[k]) { TagCharIs(t[k]); }
    if e == |t| { return Untagged(t); }
    TagCharIs(t[e]);
    var c := if t[e] == 91 then Find(t, CLOSE, e + 1, |t|) else |t|;
    if c < |t| {
      FindSkips(t, CLOSE, e + 1, |t|);
      x := Tagged(t[..e], Some(t[e + 1..c]), t[c + 1..]);
      WrittenBracketed(t, e, c);
    } else {
      if t[e] == 91 { NoClose(t, e); }
      x := Tagged(t[..e], None, t[e..]);
      assert t == t[..e] + t[e..];
    }
  }

  lemma WrittenBracketed(t: seq<byte>, e: nat, c: nat)
    requires e < c < |t| && t[e] == 91 && t[c] == 93
    ensures t == t[..e] + ([91] + t[e + 1..c] + [93] + t[c + 1..])
  {
    BracketText(t, e, c);
    Slices(t, 0, e, c + 1, |t|);
    assert t[0..|t|] == t && t[0..e] == t[..e] && t[c + 1..|t|] == t[c + 1..];
  }

  lemma NoClose(t: seq<byte>, e: nat)
    requires e < |t| && Find(t, CLOSE, e + 1, |t|) == |t|
    ensures 93 !in t[e..][1..]
  {
    CloseFound(t, e + 1, |t|);
    assert t[e..][1..] == t[e + 1..|t|];
  }

  /** The legacy counterpart of printing: priority, an optional stamp, tag, optional process
      id, ": " and the message. */
  lemma ParsePrintLegacy(pri: nat, stamp: Option<seq<byte>>, tag: seq<byte>, pid: Option<seq<byte>>, msg: seq<byte>,
                         b: seq<byte>, f: Fields, cal: Calendar)
    requires AllTag(tag) && (pid.Some? ==> 93 !in pid.value) && f.procid == Nil && pri < 1000
    requires stamp.Some? ==> |stamp.value| == 15 && cal.stamp(stamp.value).Some? && !([49, 32] <= stamp.value)
    requires var text := LegacyText(stamp, tag, pid, msg);
      && (stamp.None? ==> !Stamped(text, cal))
      && |Framed(pri, text)| <= |b| == 1024 && b[..|Framed(pri, text)|] == Framed(pri, text)
    ensures
      var d := Framed(pri, LegacyText(stamp, tag, pid, msg));
      var r := Parse(b, |d|, f, cal);
      && r.outcome == Accepted && r.fields.priority == pri % 256 && r.fields.hostname == Nil
      && FieldValue(d, r.fields.app) == Some(tag) && FieldValue(d, r.fields.procid) == pid
      && r.fields.time == (if stamp.None? || cal.isZero(cal.stamp(stamp.value).value) then f.time
                           else cal.correct(f.time, cal.stamp(stamp.value).value))
      && r.fields.msg.View? && Text(d, r.fields.msg) == Bared(msg, pri, r.fields.time, cal)
  {
    var text, x := LegacyText(stamp, tag, pid, msg), Tagged(tag, pid, [58, 32] + msg);
    LegacyTextIs(stamp, tag, pid, msg, cal);
    DecimalInverse(pri);
    LegacyParsed(Decimal(pri), text, x, b, f, cal);
    var d := Framed(pri, text);
    ResultOf(d, Parse(b, |d|, f, cal).fields, f, pri, text, x, msg, cal);
  }

  /** The result, with the priority as it was sent. */
  lemma ResultOf(d: seq<byte>, r: Fields, f: Fields, pri: nat, text: seq<byte>, x: Body, msg: seq<byte>, cal: Calendar)
    requires LegacyResult(d, r, f.(priority := pri % 256), text, x, cal) && x.Tagged? && x.rest == [58, 32] + msg
    ensures r.priority == pri % 256 && r.hostname == Nil && r.time == StampTime(text, f.time, cal)
    ensures FieldValue(d, r.app) == Some(x.tag) && FieldValue(d, r.procid) == x.pid
    ensures r.msg.View? && Text(d, r.msg) == Bared(msg, pri, r.time, cal)
  {
    AfterColon(msg);
    SamePrefix(pri);
    BaredSame(msg, pri % 256, pri, r.time, cal);
  }

  lemma SamePrefix(pri: nat)
    ensures SeverityPrefix(pri % 256) == SeverityPrefix(pri)
  {
    ModMod(pri);
  }

  lemma ModMod(pri: nat)
    ensures (pri % 256) % 8 == pri % 8
  {
    var q, r := pri / 256, pri % 256;
    assert pri == 256 * q + r;
    assert pri == 8 * (32 * q) + r;
  }

  lemma BaredSame(x: seq<byte>, p: nat, q: nat, time: Time, cal: Calendar)
    requires SeverityPrefix(p) == SeverityPrefix(q)
    ensures Bared(x, p, time, cal) == Bared(x, q, time, cal)
  {
  }

  lemma AfterColon(msg: seq<byte>)
    ensures Without([58, 32] + msg, [58, 32]) == msg
  {
  }

  function LegacyText(stamp: Option<seq<byte>>, tag: seq<byte>, pid: Option<seq<byte>>, msg: seq<byte>): seq<byte> {
    (if stamp.Some? then stamp.value + [32] else []) + Written(Tagged(tag, pid, [58, 32] + msg))
  }

  lemma LegacyTextIs(stamp: Option<seq<byte>>, tag: seq<byte>, pid: Option<seq<byte>>, msg: seq<byte>, cal: Calendar)
    requires AllTag(tag) && (pid.Some? ==> 93 !in pid.value)
    requires stamp.Some? ==> |stamp.value| == 15 && cal.stamp(stamp.value).Some? && !([49, 32] <= stamp.value)
    requires stamp.None? ==> !Stamped(LegacyText(stamp, tag, pid, msg), cal)
    ensures var text, x := LegacyText(stamp, tag, pid, msg), Tagged(tag, pid, [58, 32] + msg);
      && Proper(x) && Written(x) == Unstamped(text, cal) && !([49, 32] <= text)
      && (stamp.Some? ==> Stamped(text, cal) && text[..15] == stamp.value)
  {
    var text, w := LegacyText(stamp, tag, pid, msg), Written(Tagged(tag, pid, [58, 32] + msg));
    if stamp.Some? {
      assert text[..15] == stamp.value && text[16..] == w;
      assert [49, 32] <= text <==> text[..2] == [49, 32];
      assert text[..2] == stamp.value[..2];
    } else {
      assert text == w;
      NoVersion(tag, pid, msg);
    }
  }

  /** A space cannot follow the first character of a tag. */
  lemma NoVersion(tag: seq<byte>, pid: Option<seq<byte>>, msg: seq<byte>)
    requires AllTag(tag)
    ensures !([49, 32] <= Written(Tagged(tag, pid, [58, 32] + msg)))
  {
    var w := Written(Tagged(tag, pid, [58, 32] + msg));
    if |tag| >= 2 {
      assert w[1] == tag[1] && TagChar(tag[1]);
    } else if |tag| == 1 {
      assert w[1] == 91 || w[1] == 58;
    } else {
      assert w[0] == 91 || w[0] == 58;
    }
  }
}
