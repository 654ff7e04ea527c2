/** What holds in every reachable state of the syslog receiver, and what a run ends in. */
module SyslogRuns {
  import opened Bytes
  import opened SyslogMessage
  import opened SyslogTheorems
  import opened SyslogReceiver

  // ---- shutdown order -----------------------------------------------------

  /** The only fault is the parser's slice panic; `err` comes before the close of
      the channel, which comes before `done`; parsers leave an empty closed channel. */
  ghost predicate Orderly(s: State) {
    && (s.fault == NoFault || s.fault == SliceBounds)
    && (s.err <==> s.reader.Failed? || s.reader.Released? || s.reader.ConnClosed? || s.closed)
    && (s.closed <==> s.reader.ParseClosed? || s.reader.Finished?)
    && (s.done <==> s.reader.Finished?)
    && |s.queue| <= |s.parsers|
    && (forall i :: 0 <= i < |s.parsers| && s.parsers[i].Exited? ==> s.closed && s.queue == [])
  }

  /** What a step may not undo: nothing is received or queued after the close. */
  ghost predicate Forward(s: State, s': State) {
    && |s'.parsers| == |s.parsers|
    && (s.err ==> s'.err) && (s.closed ==> s'.closed) && (s.done ==> s'.done)
    && (s.closed ==> s'.received == s.received && |s'.queue| <= |s.queue|)
  }

  lemma ReaderKeepsOrder(s: State, step: ReaderStep)
    requires Orderly(s) && ReaderEnabled(s, step)
    ensures Orderly(ReaderApply(s, step)) && Forward(s, ReaderApply(s, step))
  {
  }

  lemma ParserKeepsOrder(s: State, i: nat, step: ParserStep, cal: Calendar)
    requires Orderly(s) && ParserEnabled(s, i, step)
    ensures Orderly(ParserApply(s, i, step, cal)) && Forward(s, ParserApply(s, i, step, cal))
  {
  }

  lemma OrderlyKept(s: State, step: Step, cal: Calendar)
    requires Orderly(s) && Enabled(s, step)
    ensures Orderly(Apply(s, step, cal)) && Forward(s, Apply(s, step, cal))
  {
    match step
    case PoolDrop(id) =>
    case ByReader(r) => ReaderKeepsOrder(s, r);
    case ByParser(i, p) => ParserKeepsOrder(s, i, p, cal);
  }

  // ---- contents -----------------------------------------------------------

  predicate Sound(m: Msg) {
    m.size <= |m.buf| == BUFFER_SIZE
  }

  predicate Clean(m: Msg) {
    Sound(m) && m.fields == Cleared(m.fields.time)
  }

  predicate Contains(m: Msg, d: Datagram) {
    Sound(m) && m.size == |d.bytes| && m.buf[..m.size] == d.bytes && m.host == d.from
  }

  predicate Loaded(m: Msg, d: Datagram) {
    Contains(m, d) && m.fields == Cleared(d.at)
  }

  predicate Decoded(m: Msg, d: Datagram, o: Outcome, cal: Calendar) {
    Contains(m, d) && o != Panicked && Result(o, m.fields) == Parse(m.buf, m.size, Cleared(d.at), cal)
  }

  /** The log line a newly allocated message would produce for a datagram. */
  function Expected(n: nat, d: Datagram, cal: Calendar): Entry
    requires |d.bytes| <= BUFFER_SIZE
  {
    var r := FreshParse(d.bytes, d.at, cal);
    Entry(n, r.outcome != Accepted || r.fields.priority % 8 == 7, d.bytes, d.from, r.outcome, r.fields)
  }

  predicate EntryOk(e: Entry, received: seq<Datagram>, cal: Calendar) {
    && e.n < |received| && |e.bytes| <= BUFFER_SIZE
    && e.bytes == received[e.n].bytes && e.host == received[e.n].from
    && InWireOrder(e.fields, |e.bytes|)
    && (Decided(e.bytes) ==> e == Expected(e.n, received[e.n], cal))
  }

  predicate LoadedNth(s: State, id: Id, n: nat) {
    n < |s.received| && Loaded(HeapAt(s, id), s.received[n])
  }

  predicate ReaderOk(s: State) {
    match s.reader
    case Ready(id) => Clean(HeapAt(s, id))
    case Failed(id) => Clean(HeapAt(s, id))
    case Filled(id, n) => LoadedNth(s, id, n)
    case _ => true
  }

  predicate ParserOk(s: State, p: Parser, cal: Calendar) {
    match p
    case Busy(id, n) => LoadedNth(s, id, n)
    case Parsed(id, n, o) => n < |s.received| && Decoded(HeapAt(s, id), s.received[n], o, cal)
    case Logged(id) => Sound(HeapAt(s, id))
    case Wiped(id) => Clean(HeapAt(s, id))
    case _ => true
  }

  ghost predicate PoolClean(s: State) {
    forall id :: id in s.pool ==> Clean(HeapAt(s, id))
  }

  ghost predicate QueueLoaded(s: State) {
    forall k :: 0 <= k < |s.queue| ==> LoadedNth(s, s.queue[k].id, s.queue[k].n)
  }

  ghost predicate ParsersOk(s: State, cal: Calendar) {
    forall i :: 0 <= i < |s.parsers| ==> ParserOk(s, s.parsers[i], cal)
  }

  ghost predicate LogOk(s: State, cal: Calendar) {
    forall k :: 0 <= k < |s.log| ==> EntryOk(s.log[k], s.received, cal)
  }

  /** A slice panic needs an undecided datagram. */
  ghost predicate FaultExplained(s: State) {
    s.fault == SliceBounds ==> exists n :: 0 <= n < |s.received| && !Decided(s.received[n].bytes)
  }

  ghost predicate Faithful(s: State, cal: Calendar) {
    && PoolClean(s) && ReaderOk(s) && QueueLoaded(s) && ParsersOk(s, cal) && LogOk(s, cal)
    && FaultExplained(s)
  }

  lemma FillLoads(m: Msg, d: Datagram)
    requires Clean(m) && |d.bytes| <= BUFFER_SIZE
    ensures Loaded(Fill(m, d), d)
  {
    assert Fill(m, d).buf[..|d.bytes|] == d.bytes;
  }

  /** Parsing a loaded message: a panic only for undecided datagrams, otherwise the decoding. */
  lemma ParseDecodes(m: Msg, d: Datagram, cal: Calendar)
    requires Loaded(m, d)
    ensures
      var r := ParseMsg(m, cal);
      if r.outcome == Panicked then !Decided(d.bytes)
      else Decoded(m.(fields := r.fields), d, r.outcome, cal)
  {
    var t := m.buf[m.size..];
    assert m.buf == d.bytes + t;
    if Decided(d.bytes) { StaleBytesInvisible(d.bytes, t, t, Cleared(d.at), cal); }
  }

  /** The log line of a decoded message is right whatever buffer it sat in. */
  lemma DecodedEntryOk(m: Msg, d: Datagram, n: nat, o: Outcome, received: seq<Datagram>, cal: Calendar)
    requires Decoded(m, d, o, cal) && n < |received| && received[n] == d
    ensures EntryOk(EntryOf(n, m, o), received, cal)
  {
    assert InWireOrder(m.fields, m.size) by { FieldsInWireOrder(m.buf, m.size, d.at, cal); }
    if Decided(d.bytes) { DecodedIsFresh(m, d, o, cal); }
  }

  lemma DecodedIsFresh(m: Msg, d: Datagram, o: Outcome, cal: Calendar)
    requires Decoded(m, d, o, cal) && Decided(d.bytes)
    ensures Result(o, m.fields) == FreshParse(d.bytes, d.at, cal)
  {
    DecidedIsFresh(m.buf, d.bytes, d.at, cal);
  }

  /** Rewriting one object, or receiving one more datagram, leaves what the
      other holders see unchanged. */
  ghost predicate SameBut(s: State, s': State, id: Id) {
    && s.received <= s'.received
    && (forall x :: x in s.home && x != id ==> HeapAt(s', x) == HeapAt(s, x))
  }

  lemma ParserOkFramed(s: State, s': State, id: Id, p: Parser, cal: Calendar)
    requires SameBut(s, s', id) && ParserOk(s, p, cal)
    requires Holding(p) ==> p.id in s.home && p.id != id
    ensures ParserOk(s', p, cal)
  {
  }

  lemma OthersKept(s: State, s': State, id: Id, h: Home, cal: Calendar)
    requires Owned(s) && Faithful(s, cal) && SameBut(s, s', id) && (Lives(s, id, h) || id !in s.home)
    ensures forall x :: x in s.pool && x != id ==> Clean(HeapAt(s', x))
    ensures forall k :: 0 <= k < |s.queue| && s.queue[k].id != id ==> LoadedNth(s', s.queue[k].id, s.queue[k].n)
    ensures forall i :: 0 <= i < |s.parsers| && h != AtParser(i) ==> ParserOk(s', s.parsers[i], cal)
    ensures forall k :: 0 <= k < |s.log| ==> EntryOk(s.log[k], s'.received, cal)
    ensures h != AtReader && s'.reader == s.reader ==> ReaderOk(s')
  {
    if h != AtReader && (s.reader.Ready? || s.reader.Filled? || s.reader.Failed?) {
      assert Lives(s, s.reader.id, AtReader);
    }
    forall x | x in s.pool && x != id ensures Clean(HeapAt(s', x)) {
      assert Lives(s, x, InPool);
    }
    forall k | 0 <= k < |s.queue| && s.queue[k].id != id
      ensures LoadedNth(s', s.queue[k].id, s.queue[k].n)
    {
      assert Lives(s, s.queue[k].id, InQueue);
    }
    forall i | 0 <= i < |s.parsers| && h != AtParser(i) ensures ParserOk(s', s.parsers[i], cal) {
      if Holding(s.parsers[i]) { assert Lives(s, s.parsers[i].id, AtParser(i)); }
      ParserOkFramed(s, s', id, s.parsers[i], cal);
    }
  }

  lemma ReadKeepsFaithful(s: State, d: Datagram, cal: Calendar)
    requires Owned(s) && Faithful(s, cal) && ReaderEnabled(s, ReadOk(d))
    ensures Faithful(ReaderApply(s, ReadOk(d)), cal)
  {
    var s', id := ReaderApply(s, ReadOk(d)), s.reader.id;
    assert Lives(s, id, AtReader);
    FillLoads(HeapAt(s, id), d);
    OthersKept(s, s', id, AtReader, cal);
    forall k | 0 <= k < |s.queue| ensures s.queue[k].id != id { assert Lives(s, s.queue[k].id, InQueue); }
  }

  lemma GetKeepsFaithful(s: State, step: ReaderStep, cal: Calendar)
    requires Owned(s) && Faithful(s, cal) && ReaderEnabled(s, step) && (step.GetPooled? || step.GetNew?)
    ensures Faithful(ReaderApply(s, step), cal)
  {
    var s', id := ReaderApply(s, step), step.id;
    var h := if step.GetPooled? then InPool else AtReader;
    assert step.GetPooled? ==> Lives(s, id, h);
    OthersKept(s, s', id, h, cal);
    forall k | 0 <= k < |s.queue| ensures s.queue[k].id != id { assert Lives(s, s.queue[k].id, InQueue); }
    assert forall x :: x in s'.pool && x != id ==> x in s.pool;
  }

  lemma ReaderKeepsFaithful(s: State, step: ReaderStep, cal: Calendar)
    requires Owned(s) && Faithful(s, cal) && ReaderEnabled(s, step) && Orderly(s)
    ensures Faithful(ReaderApply(s, step), cal)
  {
    if step.ReadOk? {
      ReadKeepsFaithful(s, step.d, cal);
    } else if step.GetPooled? || step.GetNew? {
      GetKeepsFaithful(s, step, cal);
    } else if step.Send? || step.PutBack? {
      PassKeepsFaithful(s, step, cal);
    } else {
      CloseKeepsFaithful(s, step, cal);
    }
  }

  /** Handing the object on to the channel or back to the pool. */
  lemma PassKeepsFaithful(s: State, step: ReaderStep, cal: Calendar)
    requires Owned(s) && Faithful(s, cal) && ReaderEnabled(s, step) && Orderly(s) && (step.Send? || step.PutBack?)
    ensures Faithful(ReaderApply(s, step), cal)
  {
    var s', id := ReaderApply(s, step), s.reader.id;
    assert Lives(s, id, AtReader);
    OthersKept(s, s', id, AtReader, cal);
    forall k | 0 <= k < |s.queue| ensures s.queue[k].id != id { assert Lives(s, s.queue[k].id, InQueue); }
  }

  /** Steps that touch no object. */
  lemma CloseKeepsFaithful(s: State, step: ReaderStep, cal: Calendar)
    requires Faithful(s, cal) && ReaderEnabled(s, step)
    requires !step.ReadOk? && !step.GetPooled? && !step.GetNew? && !step.Send? && !step.PutBack?
    ensures Faithful(ReaderApply(s, step), cal)
  {
    UntouchedFaithful(s, ReaderApply(s, step), cal);
  }

  lemma UntouchedFaithful(s: State, s': State, cal: Calendar)
    requires Faithful(s, cal) && s'.heap == s.heap && s'.received == s.received && s'.pool == s.pool
    requires s'.queue == s.queue && s'.parsers == s.parsers && s'.log == s.log && ReaderOk(s') && FaultExplained(s')
    ensures Faithful(s', cal)
  {
    forall k | 0 <= k < |s'.queue| ensures LoadedNth(s', s'.queue[k].id, s'.queue[k].n) {
      assert LoadedNth(s, s.queue[k].id, s.queue[k].n);
    }
    forall i | 0 <= i < |s'.parsers| ensures ParserOk(s', s'.parsers[i], cal) {
      assert ParserOk(s, s.parsers[i], cal);
    }
  }

  lemma TakeKeepsFaithful(s: State, i: nat, cal: Calendar)
    requires Owned(s) && Faithful(s, cal) && ParserEnabled(s, i, Take)
    ensures Faithful(ParserApply(s, i, Take, cal), cal)
  {
    var s' := ParserApply(s, i, Take, cal);
    var x := s.queue[0];
    assert Lives(s, x.id, InQueue) && LoadedNth(s, x.id, x.n);
    assert SameBut(s, s', x.id);
    OthersKept(s, s', x.id, InQueue, cal);
    forall y | y in s'.pool ensures Clean(HeapAt(s', y)) { assert Lives(s, y, InPool); }
    forall k | 0 <= k < |s'.queue| ensures LoadedNth(s', s'.queue[k].id, s'.queue[k].n) {
      assert s'.queue[k] == s.queue[k + 1] && s.queue[0].id != s.queue[k + 1].id;
    }
    forall j | 0 <= j < |s'.parsers| ensures ParserOk(s', s'.parsers[j], cal) {
      if j != i { assert s'.parsers[j] == s.parsers[j]; }
    }
  }

  /** The parser steps that work on the message the parser holds. */
  lemma WorkKeepsFaithful(s: State, s': State, i: nat, cal: Calendar)
    requires Owned(s) && Faithful(s, cal) && i < |s.parsers| && Holding(s.parsers[i])
    requires s'.queue == s.queue && s'.reader == s.reader && s'.received == s.received
    requires |s'.parsers| == |s.parsers| && s'.parsers == s.parsers[i := s'.parsers[i]]
    requires SameBut(s, s', s.parsers[i].id) && ParserOk(s', s'.parsers[i], cal)
    requires s'.pool == s.pool || (s'.pool == s.pool + {s.parsers[i].id} && Clean(HeapAt(s', s.parsers[i].id)))
    requires s'.log == s.log || (|s'.log| == |s.log| + 1 && s'.log[..|s.log|] == s.log && EntryOk(s'.log[|s.log|], s.received, cal))
    requires FaultExplained(s')
    ensures Faithful(s', cal)
  {
    var id := s.parsers[i].id;
    assert Lives(s, id, AtParser(i));
    OthersKept(s, s', id, AtParser(i), cal);
    forall y | y in s'.pool ensures Clean(HeapAt(s', y)) { if y in s.pool { assert Lives(s, y, InPool); } }
    forall k | 0 <= k < |s'.queue| ensures LoadedNth(s', s'.queue[k].id, s'.queue[k].n) {
      assert Lives(s, s.queue[k].id, InQueue);
    }
    forall j | 0 <= j < |s'.parsers| ensures ParserOk(s', s'.parsers[j], cal) {
      if j != i { assert s'.parsers[j] == s.parsers[j]; }
    }
  }

  lemma ParseKeepsFaithful(s: State, i: nat, cal: Calendar)
    requires Owned(s) && Faithful(s, cal) && ParserEnabled(s, i, DoParse) && s.fault == NoFault
    ensures Faithful(ParserApply(s, i, DoParse, cal), cal)
  {
    var p := s.parsers[i];
    assert ParserOk(s, p, cal);
    var m := HeapAt(s, p.id);
    ParseDecodes(m, s.received[p.n], cal);
    var r := ParseMsg(m, cal);
    if r.outcome == Panicked {
      assert ParserApply(s, i, DoParse, cal) == s.(fault := SliceBounds);
      PanicKeepsFaithful(s, p.n, cal);
    } else {
      ParsedKeepsFaithful(s, i, m.(fields := r.fields), r.outcome, cal);
    }
  }

  lemma PanicKeepsFaithful(s: State, n: nat, cal: Calendar)
    requires Faithful(s, cal) && n < |s.received| && !Decided(s.received[n].bytes)
    ensures Faithful(s.(fault := SliceBounds), cal)
  {
    UntouchedFaithful(s, s.(fault := SliceBounds), cal);
  }

  lemma ParsedKeepsFaithful(s: State, i: nat, m: Msg, o: Outcome, cal: Calendar)
    requires Owned(s) && Faithful(s, cal) && i < |s.parsers| && s.parsers[i].Busy? && s.fault == NoFault
    requires var p := s.parsers[i]; p.n < |s.received| && Decoded(m, s.received[p.n], o, cal)
    ensures var p := s.parsers[i];
      Faithful(s.(heap := s.heap[p.id := m], parsers := s.parsers[i := Parsed(p.id, p.n, o)]), cal)
  {
    var p := s.parsers[i];
    WorkKeepsFaithful(s, s.(heap := s.heap[p.id := m], parsers := s.parsers[i := Parsed(p.id, p.n, o)]), i, cal);
  }

  lemma LogKeepsFaithful(s: State, i: nat, cal: Calendar)
    requires Owned(s) && Faithful(s, cal) && ParserEnabled(s, i, DoLog)
    ensures Faithful(ParserApply(s, i, DoLog, cal), cal)
  {
    var p := s.parsers[i];
    assert ParserOk(s, p, cal);
    DecodedEntryOk(HeapAt(s, p.id), s.received[p.n], p.n, p.outcome, s.received, cal);
    WorkKeepsFaithful(s, ParserApply(s, i, DoLog, cal), i, cal);
  }

  lemma ReturnKeepsFaithful(s: State, i: nat, step: ParserStep, cal: Calendar)
    requires Owned(s) && Faithful(s, cal) && ParserEnabled(s, i, step) && (step.DoReset? || step.DoPut?)
    requires s.fault == NoFault
    ensures Faithful(ParserApply(s, i, step, cal), cal)
  {
    assert ParserOk(s, s.parsers[i], cal);
    WorkKeepsFaithful(s, ParserApply(s, i, step, cal), i, cal);
  }

  lemma ParserKeepsFaithful(s: State, i: nat, step: ParserStep, cal: Calendar)
    requires Owned(s) && Faithful(s, cal) && ParserEnabled(s, i, step) && s.fault == NoFault
    ensures Faithful(ParserApply(s, i, step, cal), cal)
  {
    assert ParserOk(s, s.parsers[i], cal);
    match step
    case Take => TakeKeepsFaithful(s, i, cal);
    case DoParse => ParseKeepsFaithful(s, i, cal);
    case DoLog => LogKeepsFaithful(s, i, cal);
    case DoReset => ReturnKeepsFaithful(s, i, step, cal);
    case DoPut => ReturnKeepsFaithful(s, i, step, cal);
    case Exit =>
  }

  lemma FaithfulKept(s: State, step: Step, cal: Calendar)
    requires Owned(s) && Orderly(s) && Faithful(s, cal) && Enabled(s, step)
    ensures Faithful(Apply(s, step, cal), cal)
  {
    match step
    case PoolDrop(id) =>
      assert Lives(s, id, InPool);
      OthersKept(s, Apply(s, step, cal), id, InPool, cal);
      forall k | 0 <= k < |s.queue| ensures s.queue[k].id != id { assert Lives(s, s.queue[k].id, InQueue); }
      if s.reader.Ready? || s.reader.Filled? || s.reader.Failed? { assert Lives(s, s.reader.id, AtReader); }
    case ByReader(r) => ReaderKeepsFaithful(s, r, cal);
    case ByParser(i, p) => ParserKeepsFaithful(s, i, p, cal);
  }

  // ---- conservation and order ---------------------------------------------

  /** The datagram a parser has taken and not yet logged. */
  predicate HasNth(p: Parser, n: nat) {
    (p.Busy? || p.Parsed?) && p.n == n
  }

  /** How many parsers carry datagram `n`. */
  function CarriedBy(ps: seq<Parser>, n: nat): nat {
    if ps == [] then 0 else (if HasNth(ps[0], n) then 1 else 0) + CarriedBy(ps[1..], n)
  }

  /** How many log lines are about datagram `n`. */
  function TimesLogged(log: seq<Entry>, n: nat): nat {
    if log == [] then 0
    else TimesLogged(log[..|log| - 1], n) + (if log[|log| - 1].n == n then 1 else 0)
  }

  /** How many datagrams have left the channel. */
  function Taken(s: State): int {
    |s.received| - |s.queue| - (if s.reader.Filled? then 1 else 0)
  }

  /** The channel and the reader hold exactly the newest datagrams in receive
      order; the log and the parsers hold each of the others exactly once. */
  ghost predicate Conserved(s: State) {
    && Taken(s) >= 0
    && (s.reader.Filled? ==> s.reader.n == |s.received| - 1)
    && (forall k :: 0 <= k < |s.queue| ==> s.queue[k].n == Taken(s) + k)
    && (forall n: nat :: TimesLogged(s.log, n) + CarriedBy(s.parsers, n) == if n < Taken(s) then 1 else 0)
  }

  /** With one parser the log lists the datagrams in receive order, and the
      parser carries the next one. */
  ghost predicate LoggedInOrder(s: State) {
    |s.parsers| == 1 ==>
      var p := s.parsers[0];
      && (forall k :: 0 <= k < |s.log| ==> s.log[k].n == k)
      && (if p.Busy? || p.Parsed? then p.n == |s.log| == Taken(s) - 1 else |s.log| == Taken(s))
  }

  lemma {:induction false} CarriedUpdate(ps: seq<Parser>, i: nat, p: Parser, n: nat)
    requires i < |ps|
    ensures CarriedBy(ps[i := p], n)
         == CarriedBy(ps, n) - (if HasNth(ps[i], n) then 1 else 0) + (if HasNth(p, n) then 1 else 0)
    decreases |ps|
  {
    var qs := ps[i := p];
    if i == 0 {
      assert qs[1..] == ps[1..];
    } else {
      CarriedUpdate(ps[1..], i - 1, p, n);
      assert qs[1..] == ps[1..][i - 1 := p];
    }
  }

  lemma ReaderConserves(s: State, step: ReaderStep)
    requires Conserved(s) && LoggedInOrder(s) && ReaderEnabled(s, step)
    ensures Conserved(ReaderApply(s, step)) && LoggedInOrder(ReaderApply(s, step))
  {
    assert Taken(ReaderApply(s, step)) == Taken(s);
  }

  /** Logging moves a datagram from its parser to the log. */
  lemma LogMoves(log: seq<Entry>, e: Entry, ps: seq<Parser>, i: nat, n: nat)
    requires i < |ps| && ps[i].Parsed? && e.n == ps[i].n
    ensures TimesLogged(log + [e], n) + CarriedBy(ps[i := Logged(ps[i].id)], n)
         == TimesLogged(log, n) + CarriedBy(ps, n)
  {
    assert (log + [e])[..|log|] == log;
    CarriedUpdate(ps, i, Logged(ps[i].id), n);
  }

  lemma LogConserves(s: State, i: nat, cal: Calendar)
    requires Conserved(s) && LoggedInOrder(s) && ParserEnabled(s, i, DoLog)
    ensures Conserved(ParserApply(s, i, DoLog, cal)) && LoggedInOrder(ParserApply(s, i, DoLog, cal))
  {
    var s' := ParserApply(s, i, DoLog, cal);
    assert Taken(s') == Taken(s);
    forall n: nat ensures TimesLogged(s'.log, n) + CarriedBy(s'.parsers, n) == if n < Taken(s') then 1 else 0 {
      LogMoves(s.log, s'.log[|s.log|], s.parsers, i, n);
    }
  }

  lemma TakeConserves(s: State, i: nat, cal: Calendar)
    requires Conserved(s) && LoggedInOrder(s) && ParserEnabled(s, i, Take)
    ensures Conserved(ParserApply(s, i, Take, cal)) && LoggedInOrder(ParserApply(s, i, Take, cal))
  {
    var s' := ParserApply(s, i, Take, cal);
    assert s.queue[0].n == Taken(s) && Taken(s') == Taken(s) + 1;
    forall n: nat ensures TimesLogged(s'.log, n) + CarriedBy(s'.parsers, n) == if n < Taken(s') then 1 else 0 {
      CarriedUpdate(s.parsers, i, s'.parsers[i], n);
    }
  }

  predicate SameLoad(p: Parser, q: Parser) {
    if p.Busy? || p.Parsed? then (q.Busy? || q.Parsed?) && q.n == p.n else !q.Busy? && !q.Parsed?
  }

  lemma SameLoadConserves(s: State, s': State, i: nat)
    requires Conserved(s) && LoggedInOrder(s) && i < |s.parsers| == |s'.parsers|
    requires s'.log == s.log && s'.queue == s.queue && s'.received == s.received && s'.reader == s.reader
    requires s'.parsers == s.parsers[i := s'.parsers[i]] && SameLoad(s.parsers[i], s'.parsers[i])
    ensures Conserved(s') && LoggedInOrder(s')
  {
    assert Taken(s') == Taken(s);
    forall n: nat ensures CarriedBy(s'.parsers, n) == CarriedBy(s.parsers, n) {
      CarriedUpdate(s.parsers, i, s'.parsers[i], n);
    }
  }

  lemma ParserConserves(s: State, i: nat, step: ParserStep, cal: Calendar)
    requires Conserved(s) && LoggedInOrder(s) && ParserEnabled(s, i, step)
    ensures Conserved(ParserApply(s, i, step, cal)) && LoggedInOrder(ParserApply(s, i, step, cal))
  {
    if step == Take {
      TakeConserves(s, i, cal);
    } else if step == DoLog {
      LogConserves(s, i, cal);
    } else {
      SameLoadConserves(s, ParserApply(s, i, step, cal), i);
    }
  }

  lemma ConservedKept(s: State, step: Step, cal: Calendar)
    requires Conserved(s) && LoggedInOrder(s) && Enabled(s, step)
    ensures Conserved(Apply(s, step, cal)) && LoggedInOrder(Apply(s, step, cal))
  {
    match step
    case PoolDrop(id) => assert Taken(Apply(s, step, cal)) == Taken(s);
    case ByReader(r) => ReaderConserves(s, r);
    case ByParser(i, p) => ParserConserves(s, i, p, cal);
  }

  // ---- whole runs ---------------------------------------------------------

  ghost predicate Good(s: State, cal: Calendar) {
    Owned(s) && Orderly(s) && Faithful(s, cal) && Conserved(s) && LoggedInOrder(s)
  }

  lemma {:induction false} NoneCarried(ps: seq<Parser>, n: nat)
    requires forall i :: 0 <= i < |ps| ==> !HasNth(ps[i], n)
    ensures CarriedBy(ps, n) == 0
    decreases |ps|
  {
    if ps != [] { NoneCarried(ps[1..], n); }
  }

  lemma InitGood(parsers: int, cal: Calendar)
    ensures Good(Init(parsers), cal) && |Init(parsers).parsers| == if parsers < 1 then 1 else parsers
  {
    forall n: nat ensures CarriedBy(Init(parsers).parsers, n) == 0 { NoneCarried(Init(parsers).parsers, n); }
  }

  /** The channel has one place per parser: with a datagram read, the reader of an open
      receiver waits exactly when all of them are taken. */
  lemma SendWaitsIff(s: State)
    requires Orderly(s) && s.reader.Filled? && s.fault == NoFault
    ensures !Enabled(s, ByReader(Send)) <==> |s.queue| == |s.parsers|
  {
  }

  /** An open receiver without a fault can always take a step. */
  lemma NeverStuckOpen(s: State, cal: Calendar)
    requires Good(s, cal) && s.fault == NoFault && !s.closed && |s.parsers| >= 1
    ensures exists step :: Enabled(s, step)
  {
    if s.reader.Filled? && |s.queue| == |s.parsers| {
      var p := s.parsers[0];
      var step := if p.Idle? then Take else if p.Busy? then DoParse else if p.Parsed? then DoLog
                  else if p.Logged? then DoReset else DoPut;
      assert Enabled(s, ByParser(0, step));
    } else {
      OpenReader(s);
    }
  }

  lemma OpenReader(s: State)
    requires Orderly(s) && s.fault == NoFault && !s.closed && (s.reader.Filled? ==> |s.queue| < |s.parsers|)
    ensures exists step :: Enabled(s, step)
  {
    match s.reader
    case Empty =>
      var id := NewId(s.heap.Keys);
      assert Enabled(s, ByReader(GetNew(id)));
    case Ready(id) => assert Enabled(s, ByReader(ReadRetry));
    case Filled(id, n) => assert Enabled(s, ByReader(Send));
    case Failed(id) => assert Enabled(s, ByReader(PutBack));
    case Released => assert Enabled(s, ByReader(CloseConn));
    case ConnClosed => assert Enabled(s, ByReader(CloseParse));
    case ParseClosed =>
    case Finished =>
  }

  /** There is always an object that was never allocated. */
  lemma {:induction false} NewId(used: set<Id>) returns (id: Id)
    ensures id !in used && forall x :: x in used ==> x < id
    decreases used
  {
    if used == {} {
      id := 0;
    } else {
      var x :| x in used;
      id := NewId(used - {x});
      if id <= x { id := x + 1; }
      assert forall y :: y in used ==> y == x || y in used - {x};
    }
  }

  lemma GoodKept(s: State, step: Step, cal: Calendar)
    requires Good(s, cal) && Enabled(s, step)
    ensures Good(Apply(s, step, cal), cal)
  {
    OwnedKept(s, step, cal);
    OrderlyKept(s, step, cal);
    FaithfulKept(s, step, cal);
    ConservedKept(s, step, cal);
  }

  /** Every state of every run of the receiver is good. */
  lemma {:induction false} RunsAreGood(run: seq<State>, steps: seq<Step>, cal: Calendar, parsers: int, k: nat)
    requires IsRun(run, steps, cal) && run[0] == Init(parsers) && k < |run|
    ensures Good(run[k], cal)
  {
    if k == 0 {
      InitGood(parsers, cal);
    } else {
      RunsAreGood(run, steps, cal, parsers, k - 1);
      assert Goes(run[k - 1], steps[k - 1], run[k - 1 + 1], cal);
      GoodKept(run[k - 1], steps[k - 1], cal);
    }
  }

  lemma StepForward(run: seq<State>, steps: seq<Step>, cal: Calendar, parsers: int, k: nat)
    requires IsRun(run, steps, cal) && run[0] == Init(parsers) && k < |steps|
    ensures Forward(run[k], run[k + 1])
  {
    assert Orderly(run[k]) by { RunsAreGood(run, steps, cal, parsers, k); }
    assert Goes(run[k], steps[k], run[k + 1], cal);
    OrderlyKept(run[k], steps[k], cal);
  }

  lemma ForwardOn(a: State, b: State, c: State)
    requires Forward(a, b) && Forward(b, c)
    ensures Forward(a, c)
  {
  }

  lemma {:induction false} ForwardChain(run: seq<State>, j: nat, k: nat)
    requires j <= k < |run| && forall i :: j <= i < k ==> Forward(run[i], run[i + 1])
    ensures Forward(run[j], run[k])
    decreases k
  {
    if j < k {
      ForwardChain(run, j, k - 1);
      assert Forward(run[k - 1], run[k - 1 + 1]);
      ForwardOn(run[j], run[k - 1], run[k]);
    }
  }

  lemma RunsGoForward(run: seq<State>, steps: seq<Step>, cal: Calendar, parsers: int, j: nat, k: nat)
    requires IsRun(run, steps, cal) && run[0] == Init(parsers) && j <= k < |run|
    ensures Forward(run[j], run[k])
  {
    forall i | j <= i < k ensures Forward(run[i], run[i + 1]) { StepForward(run, steps, cal, parsers, i); }
    ForwardChain(run, j, k);
  }

  /** In an orderly closed state the reader has one thing left to do. */
  lemma ClosedReader(s: State, step: Step)
    requires Orderly(s) && s.closed && Enabled(s, step) && step.ByReader?
    ensures step.r == CloseDone && !s.done
  {
  }

  lemma CloseCloses(s: State, cal: Calendar)
    requires Orderly(s) && Enabled(s, ByReader(CloseParse))
    ensures !s.closed && Apply(s, ByReader(CloseParse), cal).closed && s.err
  {
  }

  /** The channel is closed at most once in a run, with `err` already set, and
      nothing is sent after that. */
  lemma ClosedOnceAndLast(run: seq<State>, steps: seq<Step>, cal: Calendar, parsers: int, j: nat, k: nat)
    requires IsRun(run, steps, cal) && run[0] == Init(parsers) && j < k < |steps|
    requires steps[j] == ByReader(CloseParse)
    ensures run[j].err
    ensures !steps[k].ByReader? || steps[k].r == CloseDone
  {
    assert Goes(run[j], steps[j], run[j + 1], cal) && Goes(run[k], steps[k], run[k + 1], cal);
    RunsAreGood(run, steps, cal, parsers, j);
    CloseCloses(run[j], cal);
    RunsGoForward(run, steps, cal, parsers, j + 1, k);
    RunsAreGood(run, steps, cal, parsers, k);
    if steps[k].ByReader? { ClosedReader(run[k], steps[k]); }
  }

  // ---- draining -----------------------------------------------------------

  function ParserWeight(p: Parser): nat {
    match p
    case Busy(_, _) => 7
    case Parsed(_, _, _) => 6
    case Logged(_) => 5
    case Wiped(_) => 4
    case Idle => 1
    case Exited => 0
  }

  function ParsersWeight(ps: seq<Parser>): nat {
    if ps == [] then 0 else ParserWeight(ps[0]) + ParsersWeight(ps[1..])
  }

  /** Bounds the number of steps left once the channel is closed. */
  function Weight(s: State): nat {
    8 * |s.queue| + ParsersWeight(s.parsers) + |s.pool| + (if s.reader.Finished? then 0 else 1)
  }

  lemma {:induction false} WeightUpdate(ps: seq<Parser>, i: nat, p: Parser)
    requires i < |ps|
    ensures ParsersWeight(ps[i := p]) + ParserWeight(ps[i]) == ParsersWeight(ps) + ParserWeight(p)
    decreases |ps|
  {
    var qs := ps[i := p];
    if i == 0 {
      assert qs[1..] == ps[1..];
    } else {
      WeightUpdate(ps[1..], i - 1, p);
      assert qs[1..] == ps[1..][i - 1 := p];
    }
  }

  lemma ParserDrains(s: State, i: nat, step: ParserStep, cal: Calendar)
    requires ParserEnabled(s, i, step) && ParserApply(s, i, step, cal).fault == s.fault == NoFault
    ensures Weight(ParserApply(s, i, step, cal)) < Weight(s)
  {
    var s' := ParserApply(s, i, step, cal);
    var p := s.parsers[i];
    if step == DoPut { PutGrowsPool(s.pool, p.id); } else { assert s'.pool == s.pool; }
    MoveDrains(s, s', i, step == Take, step == DoPut);
  }

  lemma MoveDrains(s: State, s': State, i: nat, take: bool, put: bool)
    requires i < |s.parsers| == |s'.parsers| && s'.parsers == s.parsers[i := s'.parsers[i]] && s'.reader == s.reader
    requires if take then |s'.queue| + 1 == |s.queue| else s'.queue == s.queue
    requires |s'.pool| <= |s.pool| + if put then 1 else 0
    requires ParserWeight(s'.parsers[i]) + (if put then 1 else 0) < ParserWeight(s.parsers[i]) + (if take then 8 else 0)
    ensures Weight(s') < Weight(s)
  {
    WeightUpdate(s.parsers, i, s'.parsers[i]);
  }

  lemma PutGrowsPool(pool: set<Id>, id: Id)
    ensures |pool + {id}| <= |pool| + 1
  {
    if id in pool { assert pool + {id} == pool; }
  }

  /** After the close every step that does not panic brings the end closer. */
  lemma ClosedStepsDrain(s: State, step: Step, cal: Calendar)
    requires Orderly(s) && s.closed && Enabled(s, step) && Apply(s, step, cal).fault == NoFault
    ensures Weight(Apply(s, step, cal)) < Weight(s)
  {
    var s' := Apply(s, step, cal);
    match step
    case PoolDrop(id) => assert s'.pool == s.pool - {id};
    case ByReader(r) =>
    case ByParser(i, p) =>
      ParserDrains(s, i, p, cal);
  }

  ghost predicate Stuck(s: State) {
    forall step :: !Enabled(s, step)
  }

  ghost predicate Drained(s: State, cal: Calendar) {
    && s.done && s.err && s.queue == [] && (forall i :: 0 <= i < |s.parsers| ==> s.parsers[i].Exited?)
    && (forall n: nat :: TimesLogged(s.log, n) == if n < |s.received| then 1 else 0)
    && (|s.parsers| == 1 ==> |s.log| == |s.received| && forall k :: 0 <= k < |s.log| ==> s.log[k].n == k)
    && LogOk(s, cal)
  }

  /** A closed receiver that can take no step and has not panicked is finished:
      every datagram was logged exactly once, with one parser in receive order. */
  lemma StuckMeansDrained(s: State, cal: Calendar)
    requires Good(s, cal) && s.closed && s.fault == NoFault && |s.parsers| >= 1 && Stuck(s)
    ensures Drained(s, cal)
  {
    forall i | 0 <= i < |s.parsers| ensures s.parsers[i].Exited? {
      assert !Enabled(s, ByParser(i, Take)) && !Enabled(s, ByParser(i, DoParse)) && !Enabled(s, ByParser(i, DoLog));
      assert !Enabled(s, ByParser(i, DoReset)) && !Enabled(s, ByParser(i, DoPut)) && !Enabled(s, ByParser(i, Exit));
    }
    assert s.parsers[0].Exited?;
    assert !Enabled(s, ByReader(CloseDone));
    assert Taken(s) == |s.received|;
    forall n: nat ensures TimesLogged(s.log, n) == if n < |s.received| then 1 else 0 {
      NoneCarried(s.parsers, n);
    }
  }

  lemma ClosedStepInRun(run: seq<State>, steps: seq<Step>, cal: Calendar, parsers: int, j: nat, k: nat)
    requires IsRun(run, steps, cal) && run[0] == Init(parsers) && j <= k < |steps|
    requires run[j].closed && run[k + 1].fault == NoFault
    ensures Weight(run[k + 1]) < Weight(run[k]) && run[k].fault == NoFault
  {
    var s := run[k];
    assert Goes(s, steps[k], run[k + 1], cal);
    assert Orderly(s) by { RunsAreGood(run, steps, cal, parsers, k); }
    assert s.closed by { RunsGoForward(run, steps, cal, parsers, j, k); }
    ClosedStepsDrain(s, steps[k], cal);
  }

  lemma {:induction false} Countdown(w: seq<nat>, ok: seq<bool>, j: nat, k: nat)
    requires j <= k < |w| == |ok| && ok[k]
    requires forall i :: j <= i < k && ok[i + 1] ==> ok[i] && w[i + 1] < w[i]
    ensures w[k] + (k - j) <= w[j]
    decreases k
  {
    if j < k {
      assert ok[k - 1 + 1];
      Countdown(w, ok, j, k - 1);
    }
  }

  lemma ClosedRunsDrain(run: seq<State>, steps: seq<Step>, cal: Calendar, parsers: int, j: nat, k: nat)
    requires IsRun(run, steps, cal) && run[0] == Init(parsers) && j <= k < |run|
    requires run[j].closed && run[k].fault == NoFault
    ensures Weight(run[k]) + (k - j) <= Weight(run[j])
  {
    var w := seq(|run|, i requires 0 <= i < |run| => Weight(run[i]));
    var ok := seq(|run|, i requires 0 <= i < |run| => run[i].fault == NoFault);
    forall i | j <= i < k && ok[i + 1] ensures ok[i] && w[i + 1] < w[i] {
      ClosedStepInRun(run, steps, cal, parsers, j, i);
    }
    Countdown(w, ok, j, k);
  }

  /** Whatever the schedule, a run has at most Weight + 1 steps after the close, and
      one that cannot go on is drained or stopped at the slice panic. */
  lemma ClosedRunsEnd(run: seq<State>, steps: seq<Step>, cal: Calendar, parsers: int, j: nat)
    requires IsRun(run, steps, cal) && run[0] == Init(parsers) && j < |run| && run[j].closed
    ensures |steps| - j <= Weight(run[j]) + 1
    ensures
      var last := run[|steps|];
      Stuck(last) ==> last.received == run[j].received && (Drained(last, cal) || last.fault == SliceBounds)
  {
    var k := |steps|;
    RunsAreGood(run, steps, cal, parsers, k);
    RunsGoForward(run, steps, cal, parsers, j, k);
    if run[k].fault == NoFault {
      ClosedRunsDrain(run, steps, cal, parsers, j, k);
      RunsGoForward(run, steps, cal, parsers, 0, k);
      if Stuck(run[k]) { StuckMeansDrained(run[k], cal); }
    } else if j < k {
      assert Goes(run[k - 1], steps[k - 1], run[k - 1 + 1], cal);
      ClosedRunsDrain(run, steps, cal, parsers, j, k - 1);
    }
  }

  /** If every received datagram is decided, in particular if each has at least
      five bytes, nothing in the receiver ever panics. */
  lemma DecidedNeverPanics(s: State, cal: Calendar)
    requires Good(s, cal) && forall n :: 0 <= n < |s.received| ==> Decided(s.received[n].bytes)
    ensures s.fault == NoFault
    ensures forall k :: 0 <= k < |s.log| ==>
      && s.log[k].n < |s.received| && |s.received[s.log[k].n].bytes| <= BUFFER_SIZE
      && s.log[k] == Expected(s.log[k].n, s.received[s.log[k].n], cal)
  {
    forall k | 0 <= k < |s.log|
      ensures s.log[k].n < |s.received| && |s.received[s.log[k].n].bytes| <= BUFFER_SIZE
           && s.log[k] == Expected(s.log[k].n, s.received[s.log[k].n], cal)
    {
      assert EntryOk(s.log[k], s.received, cal);
    }
  }
}
