/**
 The syslog receiver as a transition system: one reader goroutine, a bounded
 channel, any number of parser goroutines, the recycling pool and the shutdown
 path. Each step is one action of one goroutine between two scheduling points;
 the pool may drop an item at any time and may hand out a recycled or a new
 message.
 */
module SyslogReceiver {
  import opened Bytes
  import opened SyslogMessage
  import opened SyslogTheorems

  /** Identity of a message object. */
  type Id = nat

  datatype Datagram = Datagram(bytes: seq<byte>, from: int, at: Time)

  /** The contents of a message object. */
  datatype Msg = Msg(buf: seq<byte>, size: nat, host: int, fields: Fields)

  /** Where the reader goroutine is. `n` is the number of the datagram it carries. */
  datatype Reader =
    | Empty | Ready(id: Id) | Filled(id: Id, n: nat)
    | Failed(id: Id) | Released | ConnClosed | ParseClosed | Finished

  /** Where a parser goroutine is. */
  datatype Parser =
    | Idle | Busy(id: Id, n: nat) | Parsed(id: Id, n: nat, outcome: Outcome)
    | Logged(id: Id) | Wiped(id: Id) | Exited

  datatype Slot = Slot(id: Id, n: nat)

  datatype Entry = Entry(n: nat, debug: bool, bytes: seq<byte>, host: int, outcome: Outcome, fields: Fields)

  /** A Go runtime panic, which ends the process. */
  datatype Fault = NoFault | SendOnClosed | CloseOfClosed | SliceBounds

  datatype Home = InPool | AtReader | InQueue | AtParser(i: nat)

  /** `received` and `home` are history variables: the datagrams read so far, and
      for each live object the place it was last moved to. */
  datatype State = State(
    heap: map<Id, Msg>, pool: set<Id>, reader: Reader, queue: seq<Slot>, parsers: seq<Parser>,
    closed: bool, done: bool, err: bool, fault: Fault,
    log: seq<Entry>, received: seq<Datagram>, home: map<Id, Home>)

  datatype ReaderStep =
    | GetPooled(id: Id) | GetNew(id: Id) | ReadOk(d: Datagram) | ReadRetry | ReadFail | Send
    | PutBack | CloseConn | CloseParse | CloseDone

  datatype ParserStep = Take | DoParse | DoLog | DoReset | DoPut | Exit

  datatype Step = PoolDrop(id: Id) | ByReader(r: ReaderStep) | ByParser(i: nat, p: ParserStep)

  function NewMsg(): Msg { Msg(Zeros(BUFFER_SIZE), 0, 0, Cleared(0)) }

  /** StartReceiver: at least one parser, and a channel with one place per parser. */
  function Init(parsers: int): State {
    var n: nat := if parsers < 1 then 1 else parsers;
    State(map[], {}, Empty, [], seq(n, _ => Idle), false, false, false, NoFault, [], [], map[])
  }

  predicate ReaderEnabled(s: State, step: ReaderStep) {
    match step
    case GetPooled(id) => s.reader == Empty && id in s.pool
    case GetNew(id) => s.reader == Empty && id !in s.heap
    case ReadOk(d) => s.reader.Ready? && |d.bytes| <= BUFFER_SIZE
    case ReadRetry => s.reader.Ready?
    case ReadFail => s.reader.Ready?
    case Send => s.reader.Filled? && (s.closed || |s.queue| < |s.parsers|)
    case PutBack => s.reader.Failed?
    case CloseConn => s.reader.Released?
    case CloseParse => s.reader.ConnClosed?
    case CloseDone => s.reader.ParseClosed?
  }

  predicate ParserEnabled(s: State, i: nat, step: ParserStep) {
    && i < |s.parsers|
    && match step
       case Take => s.parsers[i].Idle? && s.queue != []
       case DoParse => s.parsers[i].Busy?
       case DoLog => s.parsers[i].Parsed?
       case DoReset => s.parsers[i].Logged?
       case DoPut => s.parsers[i].Wiped?
       case Exit => s.parsers[i].Idle? && s.queue == [] && s.closed
  }

  predicate Enabled(s: State, step: Step) {
    && s.fault == NoFault
    && match step
       case PoolDrop(id) => id in s.pool
       case ByReader(r) => ReaderEnabled(s, r)
       case ByParser(i, p) => ParserEnabled(s, i, p)
  }

  /** ReadFromUDP overwrites a prefix of the buffer; the reader then sets time, host and size. */
  function Fill(m: Msg, d: Datagram): Msg {
    Msg(d.bytes + (if |d.bytes| <= |m.buf| then m.buf[|d.bytes|..] else []),
        |d.bytes|, d.from, m.fields.(time := d.at))
  }

  function EntryOf(n: nat, m: Msg, o: Outcome): Entry {
    Entry(n, o != Accepted || m.fields.priority % 8 == 7,
          if m.size <= |m.buf| then m.buf[..m.size] else [], m.host, o, m.fields)
  }

  function ParseMsg(m: Msg, cal: Calendar): Result {
    if m.size <= |m.buf| == BUFFER_SIZE then Parse(m.buf, m.size, m.fields, cal)
    else Result(Panicked, m.fields)
  }

  function Wipe(m: Msg): Msg { m.(fields := Cleared(m.fields.time)) }

  function HeapAt(s: State, id: Id): Msg {
    if id in s.heap then s.heap[id] else NewMsg()
  }

  function ReaderApply(s: State, step: ReaderStep): State
    requires ReaderEnabled(s, step)
  {
    match step
    case GetPooled(id) =>
      s.(pool := s.pool - {id}, reader := Ready(id), home := s.home[id := AtReader])
    case GetNew(id) =>
      s.(heap := s.heap[id := NewMsg()], reader := Ready(id), home := s.home[id := AtReader])
    case ReadOk(d) =>
      s.(heap := s.heap[s.reader.id := Fill(HeapAt(s, s.reader.id), d)],
         reader := Filled(s.reader.id, |s.received|), received := s.received + [d])
    case ReadRetry => s
    case ReadFail => s.(err := true, reader := Failed(s.reader.id))
    case Send =>
      if s.closed then s.(fault := SendOnClosed)
      else s.(queue := s.queue + [Slot(s.reader.id, s.reader.n)], reader := Empty,
              home := s.home[s.reader.id := InQueue])
    case PutBack =>
      s.(pool := s.pool + {s.reader.id}, reader := Released, home := s.home[s.reader.id := InPool])
    case CloseConn => s.(reader := ConnClosed)
    case CloseParse =>
      if s.closed then s.(fault := CloseOfClosed) else s.(closed := true, reader := ParseClosed)
    case CloseDone =>
      if s.done then s.(fault := CloseOfClosed) else s.(done := true, reader := Finished)
  }

  function ParserApply(s: State, i: nat, step: ParserStep, cal: Calendar): State
    requires ParserEnabled(s, i, step)
  {
    var p := s.parsers[i];
    match step
    case Take =>
      var x := s.queue[0];
      s.(queue := s.queue[1..], parsers := s.parsers[i := Busy(x.id, x.n)],
         home := s.home[x.id := AtParser(i)])
    case DoParse =>
      var r := ParseMsg(HeapAt(s, p.id), cal);
      if r.outcome == Panicked then s.(fault := SliceBounds)
      else s.(heap := s.heap[p.id := HeapAt(s, p.id).(fields := r.fields)],
              parsers := s.parsers[i := Parsed(p.id, p.n, r.outcome)])
    case DoLog =>
      s.(log := s.log + [EntryOf(p.n, HeapAt(s, p.id), p.outcome)], parsers := s.parsers[i := Logged(p.id)])
    case DoReset =>
      s.(heap := s.heap[p.id := Wipe(HeapAt(s, p.id))], parsers := s.parsers[i := Wiped(p.id)])
    case DoPut =>
      s.(pool := s.pool + {p.id}, parsers := s.parsers[i := Idle], home := s.home[p.id := InPool])
    case Exit => s.(parsers := s.parsers[i := Exited])
  }

  function Apply(s: State, step: Step, cal: Calendar): State
    requires Enabled(s, step)
  {
    match step
    case PoolDrop(id) => s.(pool := s.pool - {id}, heap := s.heap - {id}, home := s.home - {id})
    case ByReader(r) => ReaderApply(s, r)
    case ByParser(i, p) => ParserApply(s, i, p, cal)
  }

  /** A run of the receiver: every state follows from the one before by an enabled step. */
  ghost predicate IsRun(run: seq<State>, steps: seq<Step>, cal: Calendar) {
    && |run| == |steps| + 1
    && forall k :: 0 <= k < |steps| ==> Goes(run[k], steps[k], run[k + 1], cal)
  }

  ghost predicate Goes(s: State, step: Step, s': State, cal: Calendar) {
    Enabled(s, step) && s' == Apply(s, step, cal)
  }

  // ---- ownership ----------------------------------------------------------

  predicate ReaderHolds(r: Reader, id: Id) {
    (r.Ready? || r.Filled? || r.Failed?) && r.id == id
  }

  predicate Holding(p: Parser) {
    p.Busy? || p.Parsed? || p.Logged? || p.Wiped?
  }

  ghost predicate QueueHas(q: seq<Slot>, id: Id) {
    exists k :: 0 <= k < |q| && q[k].id == id
  }

  predicate Lives(s: State, id: Id, h: Home) {
    id in s.home && s.home[id] == h
  }

  ghost predicate PoolOwned(s: State) {
    && s.home.Keys == s.heap.Keys
    && (forall id :: id in s.pool <==> Lives(s, id, InPool))
    && (forall id :: ReaderHolds(s.reader, id) <==> Lives(s, id, AtReader))
  }

  ghost predicate QueueOwned(s: State) {
    && (forall k :: 0 <= k < |s.queue| ==> Lives(s, s.queue[k].id, InQueue))
    && (forall id :: Lives(s, id, InQueue) ==> QueueHas(s.queue, id))
    && (forall j, k :: 0 <= j < k < |s.queue| ==> s.queue[j].id != s.queue[k].id)
  }

  ghost predicate ParsersOwned(s: State) {
    && (forall i :: 0 <= i < |s.parsers| && Holding(s.parsers[i]) ==> Lives(s, s.parsers[i].id, AtParser(i)))
    && (forall id, i: nat :: Lives(s, id, AtParser(i)) ==>
          i < |s.parsers| && Holding(s.parsers[i]) && s.parsers[i].id == id)
  }

  ghost predicate Owned(s: State) {
    PoolOwned(s) && QueueOwned(s) && ParsersOwned(s)
  }

  lemma ReaderKeepsPool(s: State, step: ReaderStep)
    requires Owned(s) && ReaderEnabled(s, step)
    ensures PoolOwned(ReaderApply(s, step))
  {
    var s' := ReaderApply(s, step);
    if s.reader.Ready? || s.reader.Filled? || s.reader.Failed? { assert Lives(s, s.reader.id, AtReader); }
    assert s'.home.Keys == s'.heap.Keys;
    forall id
      ensures ReaderHolds(s'.reader, id) <==> Lives(s', id, AtReader)
      ensures id in s'.pool <==> Lives(s', id, InPool)
    {
      assert ReaderHolds(s.reader, id) <==> Lives(s, id, AtReader);
      assert id in s.pool <==> Lives(s, id, InPool);
    }
  }

  lemma ParserKeepsPool(s: State, i: nat, step: ParserStep, cal: Calendar)
    requires Owned(s) && ParserEnabled(s, i, step)
    ensures PoolOwned(ParserApply(s, i, step, cal))
  {
    var s' := ParserApply(s, i, step, cal);
    if step == Take {
      assert Lives(s, s.queue[0].id, InQueue);
      MoveKeepsPool(s, s', s.queue[0].id, AtParser(i));
    } else if step == DoPut {
      assert Lives(s, s.parsers[i].id, AtParser(i));
      MoveKeepsPool(s, s', s.parsers[i].id, InPool);
    } else {
      if step != Exit { assert Lives(s, s.parsers[i].id, AtParser(i)); }
      StayKeepsPool(s, s');
    }
  }

  lemma StayKeepsPool(s: State, s': State)
    requires PoolOwned(s) && s'.home == s.home && s'.heap.Keys == s.heap.Keys && s'.pool == s.pool && s'.reader == s.reader
    ensures PoolOwned(s')
  {
    assert forall id, h :: Lives(s', id, h) == Lives(s, id, h);
  }

  /** An object that was neither in the pool nor at the reader moves to `h`. */
  lemma MoveKeepsPool(s: State, s': State, x: Id, h: Home)
    requires PoolOwned(s) && x in s.home && s.home[x] != InPool && s.home[x] != AtReader && h != AtReader
    requires s'.home == s.home[x := h] && s'.heap == s.heap && s'.reader == s.reader
    requires s'.pool == if h == InPool then s.pool + {x} else s.pool
    ensures PoolOwned(s')
  {
    assert s'.home.Keys == s'.heap.Keys;
    forall id
      ensures ReaderHolds(s'.reader, id) <==> Lives(s', id, AtReader)
      ensures id in s'.pool <==> Lives(s', id, InPool)
    {
      assert ReaderHolds(s.reader, id) <==> Lives(s, id, AtReader);
      assert id in s.pool <==> Lives(s, id, InPool);
    }
  }

  /** Steps that leave the queue alone move nothing into or out of it. */
  lemma SameQueueOwned(s: State, s': State)
    requires QueueOwned(s) && s'.queue == s.queue
    requires forall id :: Lives(s', id, InQueue) <==> Lives(s, id, InQueue)
    ensures QueueOwned(s')
  {
  }

  lemma SendKeepsQueue(s: State)
    requires Owned(s) && ReaderEnabled(s, Send) && !s.closed
    ensures QueueOwned(ReaderApply(s, Send))
  {
    var s' := ReaderApply(s, Send);
    assert Lives(s, s.reader.id, AtReader);
    forall id | Lives(s', id, InQueue) ensures QueueHas(s'.queue, id) {
      if id == s.reader.id {
        assert s'.queue[|s.queue|].id == id;
      } else {
        assert Lives(s, id, InQueue);
        var k :| 0 <= k < |s.queue| && s.queue[k].id == id;
        assert s'.queue[k].id == id;
      }
    }
  }

  lemma TakeKeepsQueue(s: State, i: nat, cal: Calendar)
    requires Owned(s) && ParserEnabled(s, i, Take)
    ensures QueueOwned(ParserApply(s, i, Take, cal))
  {
    var s' := ParserApply(s, i, Take, cal);
    forall id | Lives(s', id, InQueue) ensures QueueHas(s'.queue, id) {
      assert Lives(s, id, InQueue);
      var k :| 0 <= k < |s.queue| && s.queue[k].id == id;
      assert s'.queue[k - 1].id == id;
    }
    forall k | 0 <= k < |s'.queue| ensures Lives(s', s'.queue[k].id, InQueue) {
      assert s'.queue[k] == s.queue[k + 1] && Lives(s, s.queue[k + 1].id, InQueue);
    }
  }

  lemma ReaderKeepsQueue(s: State, step: ReaderStep)
    requires Owned(s) && ReaderEnabled(s, step)
    ensures QueueOwned(ReaderApply(s, step))
  {
    if step == Send && !s.closed {
      SendKeepsQueue(s);
    } else {
      if s.reader.Ready? || s.reader.Filled? || s.reader.Failed? { assert Lives(s, s.reader.id, AtReader); }
      SameQueueOwned(s, ReaderApply(s, step));
    }
  }

  lemma ParserKeepsQueue(s: State, i: nat, step: ParserStep, cal: Calendar)
    requires Owned(s) && ParserEnabled(s, i, step)
    ensures QueueOwned(ParserApply(s, i, step, cal))
  {
    if step == Take {
      TakeKeepsQueue(s, i, cal);
    } else {
      if step != Exit { assert Lives(s, s.parsers[i].id, AtParser(i)); }
      SameQueueOwned(s, ParserApply(s, i, step, cal));
    }
  }

  lemma ReaderKeepsParsers(s: State, step: ReaderStep)
    requires Owned(s) && ReaderEnabled(s, step)
    ensures ParsersOwned(ReaderApply(s, step))
  {
    var s' := ReaderApply(s, step);
    if s.reader.Ready? || s.reader.Filled? || s.reader.Failed? { assert Lives(s, s.reader.id, AtReader); }
    forall id, i: nat ensures Lives(s', id, AtParser(i)) <==> Lives(s, id, AtParser(i)) {
      assert Lives(s, id, AtReader) <==> ReaderHolds(s.reader, id);
    }
  }

  lemma ParserKeepsParsers(s: State, j: nat, step: ParserStep, cal: Calendar)
    requires Owned(s) && ParserEnabled(s, j, step)
    ensures ParsersOwned(ParserApply(s, j, step, cal))
  {
    var s' := ParserApply(s, j, step, cal);
    if step == Take {
      assert Lives(s, s.queue[0].id, InQueue);
      MoveKeepsParsers(s, s', j, s.queue[0].id, AtParser(j));
    } else if step == DoPut {
      assert Lives(s, s.parsers[j].id, AtParser(j));
      MoveKeepsParsers(s, s', j, s.parsers[j].id, InPool);
    } else {
      StayKeepsParsers(s, s', j);
    }
  }

  /** Parser `j` goes on with the object it has. */
  lemma StayKeepsParsers(s: State, s': State, j: nat)
    requires ParsersOwned(s) && j < |s.parsers| == |s'.parsers| && s'.home == s.home
    requires s'.parsers == s.parsers[j := s'.parsers[j]] && Holding(s'.parsers[j]) == Holding(s.parsers[j])
    requires Holding(s.parsers[j]) ==> s'.parsers[j].id == s.parsers[j].id
    ensures ParsersOwned(s')
  {
    forall id, i: nat | Lives(s', id, AtParser(i))
      ensures i < |s'.parsers| && Holding(s'.parsers[i]) && s'.parsers[i].id == id
    {
      assert Lives(s, id, AtParser(i));
    }
    forall i | 0 <= i < |s'.parsers| && Holding(s'.parsers[i]) ensures Lives(s', s'.parsers[i].id, AtParser(i)) {
      assert Lives(s, s.parsers[i].id, AtParser(i));
    }
  }

  /** Parser `j` takes an object from elsewhere, or gives up the one it has. */
  lemma MoveKeepsParsers(s: State, s': State, j: nat, x: Id, h: Home)
    requires ParsersOwned(s) && j < |s.parsers| == |s'.parsers| && s'.parsers == s.parsers[j := s'.parsers[j]]
    requires x in s.home && s'.home == s.home[x := h]
    requires
      if h == InPool then s.home[x] == AtParser(j) && !Holding(s'.parsers[j])
      else h == AtParser(j) && s.home[x] == InQueue && !Holding(s.parsers[j]) && Holding(s'.parsers[j]) && s'.parsers[j].id == x
    ensures ParsersOwned(s')
  {
    assert Lives(s, x, s.home[x]);
    forall id, i: nat | Lives(s', id, AtParser(i))
      ensures i < |s'.parsers| && Holding(s'.parsers[i]) && s'.parsers[i].id == id
    {
      assert Lives(s, id, AtParser(i)) ==>
        i < |s.parsers| && Holding(s.parsers[i]) && s.parsers[i].id == id;
    }
    forall i | 0 <= i < |s'.parsers| && Holding(s'.parsers[i]) ensures Lives(s', s'.parsers[i].id, AtParser(i)) {
      assert Holding(s.parsers[i]) ==> Lives(s, s.parsers[i].id, AtParser(i));
    }
  }

  lemma DropKeepsOwned(s: State, id: Id, cal: Calendar)
    requires Owned(s) && Enabled(s, PoolDrop(id))
    ensures Owned(Apply(s, PoolDrop(id), cal))
  {
    var s' := Apply(s, PoolDrop(id), cal);
    assert Lives(s, id, InPool);
    forall x, h ensures Lives(s', x, h) <==> x != id && Lives(s, x, h) {}
    SameQueueOwned(s, s');
  }

  /** Every step hands each object from one holder to exactly one other. */
  lemma OwnedKept(s: State, step: Step, cal: Calendar)
    requires Owned(s) && Enabled(s, step)
    ensures Owned(Apply(s, step, cal))
  {
    match step
    case PoolDrop(id) => DropKeepsOwned(s, id, cal);
    case ByReader(r) =>
      ReaderKeepsPool(s, r);
      ReaderKeepsQueue(s, r);
      ReaderKeepsParsers(s, r);
    case ByParser(i, p) =>
      ParserKeepsPool(s, i, p, cal);
      ParserKeepsQueue(s, i, p, cal);
      ParserKeepsParsers(s, i, p, cal);
  }

  /** The places a message object can be held. */
  datatype Place = Pool | Reading | Queued(k: nat) | Parsing(i: nat)

  ghost predicate HeldAt(s: State, id: Id, p: Place) {
    match p
    case Pool => id in s.pool
    case Reading => ReaderHolds(s.reader, id)
    case Queued(k) => k < |s.queue| && s.queue[k].id == id
    case Parsing(i) => i < |s.parsers| && Holding(s.parsers[i]) && s.parsers[i].id == id
  }

  lemma OwnedMeansOneHolder(s: State, id: Id)
    requires Owned(s)
    ensures id in s.heap <==> exists p :: HeldAt(s, id, p)
    ensures forall p, q :: HeldAt(s, id, p) && HeldAt(s, id, q) ==> p == q
  {
    if id in s.heap {
      match s.home[id]
      case InPool =>
        assert Lives(s, id, InPool);
        assert HeldAt(s, id, Pool);
      case AtReader =>
        assert Lives(s, id, AtReader);
        assert HeldAt(s, id, Reading);
      case InQueue =>
        assert Lives(s, id, InQueue);
        var k :| 0 <= k < |s.queue| && s.queue[k].id == id;
        assert HeldAt(s, id, Queued(k));
      case AtParser(i) =>
        assert Lives(s, id, AtParser(i));
        assert HeldAt(s, id, Parsing(i));
    }
    forall p | HeldAt(s, id, p) ensures Lives(s, id, HomeOf(p)) {
      HeldLives(s, id, p);
    }
  }

  function HomeOf(p: Place): Home {
    match p
    case Pool => InPool
    case Reading => AtReader
    case Queued(_) => InQueue
    case Parsing(i) => AtParser(i)
  }

  lemma HeldLives(s: State, id: Id, p: Place)
    requires Owned(s) && HeldAt(s, id, p)
    ensures Lives(s, id, HomeOf(p))
  {
  }
}
