/** The slice panic of the priority scan is reached: which datagrams can bring the receiver down. */
module SyslogCrash {
  import opened Bytes
  import opened SyslogMessage
  import opened SyslogTheorems
  import opened SyslogReceiver
  import opened SyslogRuns

  /** A run and its steps, grown one step at a time. */
  datatype Trace = Trace(run: seq<State>, steps: seq<Step>) {
    function Last(): State
      requires run != []
    {
      run[|run| - 1]
    }
  }

  ghost predicate FromInit(t: Trace, parsers: int, cal: Calendar) {
    IsRun(t.run, t.steps, cal) && t.run[0] == Init(parsers)
  }

  lemma Grow(t: Trace, step: Step, parsers: int, cal: Calendar) returns (t': Trace)
    requires FromInit(t, parsers, cal) && Enabled(t.Last(), step)
    ensures FromInit(t', parsers, cal) && t'.Last() == Apply(t.Last(), step, cal)
  {
    t' := Trace(t.run + [Apply(t.Last(), step, cal)], t.steps + [step]);
    forall k | 0 <= k < |t'.steps| ensures Goes(t'.run[k], t'.steps[k], t'.run[k + 1], cal) {
      if k < |t.steps| {
        assert Goes(t.run[k], t.steps[k], t.run[k + 1], cal);
      }
    }
  }

  /** An open receiver without a fault, in the given places. */
  ghost predicate Calm(s: State, reader: Reader, queue: seq<Slot>, parser: Parser) {
    && !s.closed && s.fault == NoFault && s.reader == reader && s.queue == queue
    && |s.parsers| >= 1 && s.parsers[0] == parser
  }

  /** Object 0 is in the pool and its buffer starts with `bytes`. */
  ghost predicate Pooled(s: State, bytes: seq<byte>) {
    Calm(s, Empty, [], Idle) && 0 in s.pool && 0 in s.heap && Clean(s.heap[0]) && bytes <= s.heap[0].buf
  }

  /** One datagram goes from the reader to the parser. */
  lemma Deliver(t: Trace, d: Datagram, parsers: int, cal: Calendar) returns (t': Trace)
    requires FromInit(t, parsers, cal) && |d.bytes| <= BUFFER_SIZE
    requires var s := t.Last(); Calm(s, Ready(0), [], Idle) && 0 in s.heap && Clean(s.heap[0])
    ensures FromInit(t', parsers, cal)
    ensures
      var s, s' := t.Last(), t'.Last();
      && Calm(s', Empty, [], Busy(0, |s.received|)) && s'.received == s.received + [d]
      && 0 in s'.heap && s'.heap[0] == Fill(s.heap[0], d) && Loaded(s'.heap[0], d)
  {
    var s := t.Last();
    FillLoads(s.heap[0], d);
    t' := Grow(t, ByReader(ReadOk(d)), parsers, cal);
    t' := Grow(t', ByReader(Send), parsers, cal);
    t' := Grow(t', ByParser(0, Take), parsers, cal);
  }

  /** The parser finishes a decided datagram and puts the object back. */
  lemma Return(t: Trace, d: Datagram, n: nat, parsers: int, cal: Calendar) returns (t': Trace)
    requires FromInit(t, parsers, cal) && Decided(d.bytes)
    requires var s := t.Last(); Calm(s, Empty, [], Busy(0, n)) && 0 in s.heap && Loaded(s.heap[0], d)
    ensures FromInit(t', parsers, cal) && Pooled(t'.Last(), d.bytes) && t'.Last().received == t.Last().received
  {
    ParseDecodes(t.Last().heap[0], d, cal);
    t' := Grow(t, ByParser(0, DoParse), parsers, cal);
    assert t'.Last().heap[0].buf == t.Last().heap[0].buf;
    t' := Grow(t', ByParser(0, DoLog), parsers, cal);
    t' := Grow(t', ByParser(0, DoReset), parsers, cal);
    t' := Grow(t', ByParser(0, DoPut), parsers, cal);
  }

  /** With a `>` left over right after it, an undecided datagram is a slice panic. */
  lemma LeftoverPanics(m: Msg, d: Datagram, cal: Calendar)
    requires Sound(m) && !Decided(d.bytes) && d.bytes + [GT] <= m.buf
    ensures ParseMsg(Fill(m, d), cal).outcome == Panicked
  {
    var b, n := Fill(m, d).buf, |d.bytes|;
    assert b[n] == m.buf[n] == (d.bytes + [GT])[n];
    assert b[1..n] == d.bytes[1..];
    PanicsIff(b, n, Fill(m, d).fields, cal);
  }

  /** Every undecided datagram brings down a receiver that has just handled the same bytes
      with a `>` after them, with any number of parsers. */
  lemma UndecidedCrashes(d: Datagram, parsers: int, cal: Calendar) returns (t: Trace)
    requires !Decided(d.bytes)
    ensures FromInit(t, parsers, cal) && t.Last().fault == SliceBounds
    ensures t.Last().received == [d.(bytes := d.bytes + [GT]), d] && Decided(d.bytes + [GT])
  {
    var first := d.(bytes := d.bytes + [GT]);
    assert first.bytes[|d.bytes|] == GT;
    t := Trace([Init(parsers)], []);
    t := Grow(t, ByReader(GetNew(0)), parsers, cal);
    t := Deliver(t, first, parsers, cal);
    t := Return(t, first, 0, parsers, cal);
    var m := t.Last().heap[0];
    t := Grow(t, ByReader(GetPooled(0)), parsers, cal);
    t := Deliver(t, d, parsers, cal);
    LeftoverPanics(m, d, cal);
    t := Grow(t, ByParser(0, DoParse), parsers, cal);
  }

  /** The receiver has panicked, and every datagram that differs from `bytes` is decided. */
  ghost predicate CrashedBy(s: State, bytes: seq<byte>) {
    s.fault == SliceBounds
    && forall n :: 0 <= n < |s.received| && s.received[n].bytes != bytes ==> Decided(s.received[n].bytes)
  }

  /** Whether a datagram can bring the receiver down is decided by the datagram alone. */
  lemma CrashesIffUndecided(d: Datagram, parsers: int, cal: Calendar)
    ensures (exists t: Trace :: FromInit(t, parsers, cal) && CrashedBy(t.Last(), d.bytes)) <==> !Decided(d.bytes)
  {
    if !Decided(d.bytes) {
      var t := UndecidedCrashes(d, parsers, cal);
      assert CrashedBy(t.Last(), d.bytes);
    }
    forall t: Trace | FromInit(t, parsers, cal) && CrashedBy(t.Last(), d.bytes) ensures !Decided(d.bytes) {
      RunsAreGood(t.run, t.steps, cal, parsers, |t.run| - 1);
      assert FaultExplained(t.Last());
    }
  }

  /** Such a pair: "<12>" and then "<12". */
  lemma TwelveCrashes(cal: Calendar) returns (t: Trace)
    ensures FromInit(t, 1, cal) && t.Last().fault == SliceBounds
    ensures |t.Last().received| == 2 && t.Last().received[0].bytes == Ascii("<12>") && t.Last().received[1].bytes == Ascii("<12")
  {
    var d := Datagram(Ascii("<12"), 0, 0);
    assert d.bytes == [LT, 49, 50] && !Decided(d.bytes);
    assert Ascii("<12>") == d.bytes + [GT];
    t := UndecidedCrashes(d, 1, cal);
  }
}
