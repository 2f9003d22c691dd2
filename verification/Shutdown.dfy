/** The writer's shutdown while its main loop is alive, as the service calls it (src/engines/db_writer/service.py:103):
    the loop may hold a partial batch, or one in flight or between two attempts, and every pop, every transaction of
    either side and every chunk of the drain is a step of its own. Nothing arrives once shutdown is called: the service
    stops its subscriber first. */
module Shutdown {
  import opened Options
  import opened Writer
  import opened Sending

  datatype Loop = AtTop | Collecting(batch: seq<Event>) | Busy(sender: Sender) | Stopped

  /** `Lost` is the end of a shutdown that raises because the batch size is 0. */
  datatype Stopper =
    | NotCalled
    | Between(rest: seq<Event>)
    | Chunking(sender: Sender, rest: seq<Event>)
    | Returned
    | Lost(rest: seq<Event>)

  datatype Pop = ByLoop(event: Event) | ByDrain(event: Event)

  /** `batches` and `chunks` are the batch calls begun by the loop and by the shutdown; `failed` says that one of them
      raised or skipped a row that should have landed. */
  datatype System = System(tables: Tables, queue: seq<Event>, loop: Loop, stopper: Stopper, received: seq<Event>,
                           popped: seq<Pop>, batches: seq<seq<Event>>, chunks: seq<seq<Event>>, failed: bool)

  datatype Step =
    | Arrive(event: Event)
    /** The top of the main loop. */
    | Begin
    | PopOne
    /** The batch is full or its window has closed. */
    | Close
    | Send(fault: Fault)
    /** The call and its drain, which does not wait; `limit` events fit before the deadline. */
    | Call(limit: nat)
    | NextChunk
    | SendChunk(fault: Fault)

  function Init(tables: Tables): System {
    System(tables, [], AtTop, NotCalled, [], [], [], [], false)
  }

  function Smaller(a: nat, b: nat): nat {
    if a < b then a else b
  }

  function Drains(events: seq<Event>): seq<Pop> {
    seq(|events|, i requires 0 <= i < |events| => ByDrain(events[i]))
  }

  function Begun(s: System): System {
    if s.loop.AtTop? then s.(loop := if s.stopper.NotCalled? then Collecting([]) else Stopped) else s
  }

  function Popped(c: Settings, s: System): System {
    if s.loop.Collecting? && |s.loop.batch| < c.batchSizeMax && s.queue != []
    then s.(loop := Collecting(s.loop.batch + [s.queue[0]]), popped := s.popped + [ByLoop(s.queue[0])],
            queue := s.queue[1..])
    else s
  }

  function Closed(c: Settings, s: System): System {
    if !s.loop.Collecting? then s
    else if s.loop.batch == [] then s.(loop := AtTop)
    else s.(batches := s.batches + [s.loop.batch],
            loop := match Start(c, s.loop.batch) case Going(sender) => Busy(sender) case Over(_) => AtTop)
  }

  function Sent(c: Settings, s: System, fault: Fault): System {
    if !s.loop.Busy? then s
    else
      var (tables, p) := Transact(c, s.tables, s.loop.sender, fault);
      match p
      case Going(sender) =>
        s.(tables := tables, loop := Busy(sender), failed := s.failed || Skips(c, s.tables, s.loop.sender, fault))
      case Over(raised) => s.(tables := tables, loop := AtTop, failed := s.failed || raised)
  }

  function Called(s: System, limit: nat): System {
    if s.stopper.NotCalled? then
      var n := Smaller(limit, |s.queue|);
      s.(stopper := Between(s.queue[..n]), popped := s.popped + Drains(s.queue[..n]), queue := s.queue[n..])
    else s
  }

  function Started(c: Settings, chunk: seq<Event>, rest: seq<Event>): Stopper {
    match Start(c, chunk)
    case Going(sender) => Chunking(sender, rest)
    case Over(_) => Between(rest)
  }

  function BeginChunk(c: Settings, s: System, chunk: seq<Event>, rest: seq<Event>): System {
    s.(chunks := s.chunks + [chunk], stopper := Started(c, chunk, rest))
  }

  function Chunked(c: Settings, s: System): System {
    if !s.stopper.Between? then s
    else if s.stopper.rest == [] then s.(stopper := Returned)
    else if c.batchSizeMax == 0 then s.(stopper := Lost(s.stopper.rest), failed := true)
    else
      var n := Smaller(c.batchSizeMax, |s.stopper.rest|);
      BeginChunk(c, s, s.stopper.rest[..n], s.stopper.rest[n..])
  }

  function ChunkSent(c: Settings, s: System, fault: Fault): System {
    if !s.stopper.Chunking? then s
    else
      var (tables, p) := Transact(c, s.tables, s.stopper.sender, fault);
      match p
      case Going(sender) =>
        s.(tables := tables, stopper := Chunking(sender, s.stopper.rest),
           failed := s.failed || Skips(c, s.tables, s.stopper.sender, fault))
      case Over(raised) => s.(tables := tables, stopper := Between(s.stopper.rest), failed := s.failed || raised)
  }

  function Next(c: Settings, s: System, step: Step): System {
    match step
    case Arrive(e) => if s.stopper.NotCalled? then s.(queue := s.queue + [e], received := s.received + [e]) else s
    case Begin => Begun(s)
    case PopOne => Popped(c, s)
    case Close => Closed(c, s)
    case Send(fault) => Sent(c, s, fault)
    case Call(limit) => Called(s, limit)
    case NextChunk => Chunked(c, s)
    case SendChunk(fault) => ChunkSent(c, s, fault)
  }

  function Run(c: Settings, s: System, steps: seq<Step>): System
    decreases |steps|
  {
    if steps == [] then s else Run(c, Next(c, s, steps[0]), steps[1..])
  }

  lemma {:induction false} RunConcat(c: Settings, s: System, a: seq<Step>, b: seq<Step>)
    ensures Run(c, s, a + b) == Run(c, Run(c, s, a), b)
    decreases |a|
  {
    if a == [] {
      assert a + b == b;
    } else {
      assert (a + b)[1..] == a[1..] + b;
      RunConcat(c, Next(c, s, a[0]), a[1..], b);
    }
  }

  lemma RunOne(c: Settings, s: System, step: Step)
    ensures Run(c, s, [step]) == Next(c, s, step)
  {
    assert [step][1..] == [];
  }

  // ----- Every event in exactly one batch -----

  function Events(pops: seq<Pop>): seq<Event> {
    seq(|pops|, i requires 0 <= i < |pops| => pops[i].event)
  }

  /** What the loop popped, in order. */
  function LoopPart(pops: seq<Pop>): seq<Event> {
    if pops == [] then []
    else LoopPart(pops[..|pops| - 1]) + (if pops[|pops| - 1].ByLoop? then [pops[|pops| - 1].event] else [])
  }

  /** What the shutdown drained, in order. */
  function DrainPart(pops: seq<Pop>): seq<Event> {
    if pops == [] then []
    else DrainPart(pops[..|pops| - 1]) + (if pops[|pops| - 1].ByDrain? then [pops[|pops| - 1].event] else [])
  }

  /** The batch the loop is collecting. */
  function Collected(loop: Loop): seq<Event> {
    if loop.Collecting? then loop.batch else []
  }

  /** What the shutdown drained and has not handed out. */
  function Rest(stopper: Stopper): seq<Event> {
    if stopper.Between? || stopper.Chunking? || stopper.Lost? then stopper.rest else []
  }

  ghost predicate Sized(c: Settings, batches: seq<seq<Event>>) {
    forall i :: 0 <= i < |batches| ==> 0 < |batches[i]| <= c.batchSizeMax
  }

  /** Everything received is, in order, popped or queued; what the loop popped is in its batches and the one it
      collects; what the shutdown drained is in its chunks and what it has yet to hand out. */
  ghost predicate Accounts(c: Settings, s: System) {
    && s.received == Events(s.popped) + s.queue
    && LoopPart(s.popped) == Flatten(s.batches) + Collected(s.loop)
    && DrainPart(s.popped) == Flatten(s.chunks) + Rest(s.stopper)
    && Sized(c, s.batches) && Sized(c, s.chunks) && |Collected(s.loop)| <= c.batchSizeMax
    && (s.stopper.NotCalled? ==> s.chunks == [] && Events(s.popped) == LoopPart(s.popped))
  }

  lemma LoopPopped(pops: seq<Pop>, e: Event)
    ensures Events(pops + [ByLoop(e)]) == Events(pops) + [e]
    ensures LoopPart(pops + [ByLoop(e)]) == LoopPart(pops) + [e]
    ensures DrainPart(pops + [ByLoop(e)]) == DrainPart(pops)
  {
    assert (pops + [ByLoop(e)])[..|pops|] == pops;
  }

  lemma {:induction false} AllDrained(pops: seq<Pop>, events: seq<Event>)
    ensures Events(pops + Drains(events)) == Events(pops) + events
    ensures LoopPart(pops + Drains(events)) == LoopPart(pops)
    ensures DrainPart(pops + Drains(events)) == DrainPart(pops) + events
  {
    if events == [] {
      assert pops + Drains(events) == pops;
    } else {
      var n := |events| - 1;
      AllDrained(pops, events[..n]);
      assert (pops + Drains(events))[..|pops| + n] == pops + Drains(events[..n]);
      ConcatAssociates(DrainPart(pops), events[..n], [events[n]]);
      assert events[..n] + [events[n]] == events;
    }
  }

  lemma PopAccounts(c: Settings, s: System)
    requires Accounts(c, s)
    ensures Accounts(c, Popped(c, s))
  {
    if s.loop.Collecting? && |s.loop.batch| < c.batchSizeMax && s.queue != [] {
      LoopPopped(s.popped, s.queue[0]);
      ConcatAssociates(Events(s.popped), [s.queue[0]], s.queue[1..]);
      assert [s.queue[0]] + s.queue[1..] == s.queue;
      ConcatAssociates(Flatten(s.batches), s.loop.batch, [s.queue[0]]);
    }
  }

  lemma SizedSnoc(c: Settings, batches: seq<seq<Event>>, batch: seq<Event>)
    requires Sized(c, batches) && 0 < |batch| <= c.batchSizeMax
    ensures Sized(c, batches + [batch])
  {
  }

  lemma CloseAccounts(c: Settings, s: System)
    requires Accounts(c, s)
    ensures Accounts(c, Closed(c, s))
  {
    if s.loop.Collecting? && s.loop.batch != [] {
      FlattenSnoc(s.batches, s.loop.batch);
      SizedSnoc(c, s.batches, s.loop.batch);
      assert Flatten(s.batches) + s.loop.batch + [] == Flatten(s.batches) + s.loop.batch;
    }
  }

  lemma CallAccounts(c: Settings, s: System, limit: nat)
    requires Accounts(c, s)
    ensures Accounts(c, Called(s, limit))
  {
    if s.stopper.NotCalled? {
      var n := Smaller(limit, |s.queue|);
      AllDrained(s.popped, s.queue[..n]);
      ConcatAssociates(Events(s.popped), s.queue[..n], s.queue[n..]);
      assert s.queue[..n] + s.queue[n..] == s.queue;
      assert DrainPart(s.popped) == [];
      assert [] + s.queue[..n] == s.queue[..n];
    }
  }

  lemma ChunkSplits(list: seq<seq<Event>>, rest: seq<Event>, n: nat)
    requires n <= |rest|
    ensures Flatten(list + [rest[..n]]) + rest[n..] == Flatten(list) + rest
  {
    FlattenSnoc(list, rest[..n]);
    ConcatAssociates(Flatten(list), rest[..n], rest[n..]);
    assert rest[..n] + rest[n..] == rest;
  }

  lemma BeginChunkAccounts(c: Settings, s: System, chunk: seq<Event>, rest: seq<Event>)
    requires Accounts(c, s) && !s.stopper.NotCalled? && 0 < |chunk| <= c.batchSizeMax
    requires Flatten(s.chunks + [chunk]) + rest == Flatten(s.chunks) + Rest(s.stopper)
    ensures Accounts(c, BeginChunk(c, s, chunk, rest))
  {
    SizedSnoc(c, s.chunks, chunk);
    assert Rest(Started(c, chunk, rest)) == rest;
  }

  lemma ChunkAccounts(c: Settings, s: System)
    requires Accounts(c, s)
    ensures Accounts(c, Chunked(c, s))
  {
    if s.stopper.Between? && s.stopper.rest != [] && c.batchSizeMax > 0 {
      var n := Smaller(c.batchSizeMax, |s.stopper.rest|);
      ChunkSplits(s.chunks, s.stopper.rest, n);
      BeginChunkAccounts(c, s, s.stopper.rest[..n], s.stopper.rest[n..]);
    } else {
      SameBooks(c, s, Chunked(c, s));
    }
  }

  lemma SameBooks(c: Settings, s: System, after: System)
    requires Accounts(c, s)
    requires after.received == s.received && after.popped == s.popped && after.queue == s.queue
    requires after.batches == s.batches && after.chunks == s.chunks
    requires Collected(after.loop) == Collected(s.loop) && Rest(after.stopper) == Rest(s.stopper)
    requires after.stopper.NotCalled? ==> s.stopper.NotCalled?
    ensures Accounts(c, after)
  {
  }

  lemma StepAccounts(c: Settings, s: System, step: Step)
    requires Accounts(c, s)
    ensures Accounts(c, Next(c, s, step))
  {
    match step
    case Arrive(e) => ConcatAssociates(Events(s.popped), s.queue, [e]);
    case PopOne => PopAccounts(c, s);
    case Close => CloseAccounts(c, s);
    case Call(limit) => CallAccounts(c, s, limit);
    case NextChunk => ChunkAccounts(c, s);
    case Begin => SameBooks(c, s, Begun(s));
    case Send(fault) => SameBooks(c, s, Sent(c, s, fault));
    case SendChunk(fault) => SameBooks(c, s, ChunkSent(c, s, fault));
  }

  lemma {:induction false} RunAccounts(c: Settings, s: System, steps: seq<Step>)
    requires Accounts(c, s)
    ensures Accounts(c, Run(c, s, steps))
    decreases |steps|
  {
    if steps == [] {
    } else {
      StepAccounts(c, s, steps[0]);
      RunAccounts(c, Next(c, s, steps[0]), steps[1..]);
    }
  }

  /** In every interleaving, from the first event to the end, each event popped is in exactly one batch call, of bounded
      size, or in the one place it waits in, and both sides keep the order of arrival. */
  lemma EveryEventInOneBatch(c: Settings, initial: Tables, steps: seq<Step>)
    ensures Accounts(c, Run(c, Init(initial), steps))
  {
    assert Events([]) == [] && Flatten([]) == [];
    RunAccounts(c, Init(initial), steps);
  }

  lemma {:induction false} PartsMakeAll(pops: seq<Pop>)
    ensures multiset(Events(pops)) == multiset(LoopPart(pops)) + multiset(DrainPart(pops))
  {
    if pops == [] {
    } else {
      var front, last := pops[..|pops| - 1], pops[|pops| - 1];
      PartsMakeAll(front);
      assert Events(pops) == Events(front) + [last.event];
    }
  }

  /** Once both sides are done, every event ever received is in exactly one batch call or was left in the queue. */
  lemma AllBatchedInTheEnd(c: Settings, initial: Tables, steps: seq<Step>)
    requires var s := Run(c, Init(initial), steps); s.loop.Stopped? && s.stopper.Returned?
    ensures var s := Run(c, Init(initial), steps);
            multiset(s.received) == multiset(Flatten(s.batches)) + multiset(Flatten(s.chunks)) + multiset(s.queue)
  {
    var s := Run(c, Init(initial), steps);
    EveryEventInOneBatch(c, initial, steps);
    PartsMakeAll(s.popped);
    assert LoopPart(s.popped) == Flatten(s.batches) && DrainPart(s.popped) == Flatten(s.chunks);
  }

  function RunOf(c: Settings, initial: Tables, e: Event): System {
    Popped(c, Begun(Next(c, Init(initial), Arrive(e))))
  }

  /** An event is popped by the loop. */
  lemma HeldByLoop(c: Settings, initial: Tables, e: Event)
    requires c.batchSizeMax > 0
    ensures RunOf(c, initial, e)
            == Init(initial).(received := [e], loop := Collecting([e]), popped := [ByLoop(e)])
    ensures Run(c, Init(initial), [Arrive(e), Begin, PopOne]) == RunOf(c, initial, e)
  {
    var s := Next(c, Init(initial), Arrive(e));
    assert s.queue == [e] && [e][1..] == [];
    RunOne(c, Begun(s), PopOne);
    RunOne(c, s, Begin);
    assert [Arrive(e), Begin, PopOne][1..] == [Begin, PopOne] && [Begin, PopOne][1..] == [PopOne];
  }

  /** When shutdown returns, an event the loop had popped may be in no batch call yet. */
  lemma HeldEventOutlivesShutdown(c: Settings, initial: Tables, e: Event, limit: nat)
    requires c.batchSizeMax > 0
    ensures var s := Run(c, Init(initial), [Arrive(e), Begin, PopOne] + [Call(limit)] + [NextChunk]);
            s.stopper.Returned? && s.received == [e] && s.queue == [] && s.batches == [] && s.chunks == []
  {
    var held := [Arrive(e), Begin, PopOne];
    HeldByLoop(c, initial, e);
    RunConcat(c, Init(initial), held, [Call(limit)]);
    RunOne(c, RunOf(c, initial, e), Call(limit));
    RunConcat(c, Init(initial), held + [Call(limit)], [NextChunk]);
    RunOne(c, Called(RunOf(c, initial, e), limit), NextChunk);
  }

  // ----- What the calls of both sides store under one key -----

  /** One side: the batch calls it began, and the one that is not over. What its finished calls would store is stored,
      and what the current one has tried. */
  ghost predicate SideOk(c: Settings, tables: Tables, calls: seq<seq<Event>>, sender: Option<Sender>, t: Table,
                         key: seq<Option<string>>) {
    match sender
    case None => First(c.valid, Flatten(calls), t, key).Some? ==> At(tables, t, key).Some?
    case Some(s) =>
      && calls != [] && calls[|calls| - 1] == s.batch && Tried(c, tables, s, t, key)
      && (First(c.valid, Flatten(calls[..|calls| - 1]), t, key).Some? ==> At(tables, t, key).Some?)
  }

  function LoopSender(loop: Loop): Option<Sender> {
    if loop.Busy? then Some(loop.sender) else None
  }

  function ChunkSender(stopper: Stopper): Option<Sender> {
    if stopper.Chunking? then Some(stopper.sender) else None
  }

  /** A stored row was there from the start, or is the first one of the calls of one of the two sides. */
  ghost predicate Origin(c: Settings, initial: Tables, s: System, t: Table, key: seq<Option<string>>) {
    var was, now := At(initial, t, key), At(s.tables, t, key);
    && (was.Some? ==> now == was)
    && (was.None? && now.Some? ==>
          now == First(c.valid, Flatten(s.batches), t, key) || now == First(c.valid, Flatten(s.chunks), t, key))
  }

  ghost predicate KeyOk(c: Settings, initial: Tables, s: System, t: Table, key: seq<Option<string>>) {
    && SideOk(c, s.tables, s.batches, LoopSender(s.loop), t, key)
    && SideOk(c, s.tables, s.chunks, ChunkSender(s.stopper), t, key)
    && Origin(c, initial, s, t, key)
  }

  lemma FirstSnoc(valid: RowCheck, calls: seq<seq<Event>>, batch: seq<Event>, t: Table, key: seq<Option<string>>)
    ensures First(valid, Flatten(calls + [batch]), t, key)
            == OrElse(First(valid, Flatten(calls), t, key), First(valid, batch, t, key))
  {
    FlattenSnoc(calls, batch);
    FirstConcat(valid, Flatten(calls), batch, t, key);
  }

  lemma FirstLast(valid: RowCheck, calls: seq<seq<Event>>, t: Table, key: seq<Option<string>>)
    requires calls != []
    ensures First(valid, Flatten(calls), t, key)
            == OrElse(First(valid, Flatten(calls[..|calls| - 1]), t, key), First(valid, calls[|calls| - 1], t, key))
  {
    FirstConcat(valid, Flatten(calls[..|calls| - 1]), calls[|calls| - 1], t, key);
  }

  /** The side that does not move stays as it is: stored rows stay. */
  lemma OtherSideOk(c: Settings, tables: Tables, after: Tables, calls: seq<seq<Event>>, sender: Option<Sender>,
                    t: Table, key: seq<Option<string>>)
    requires SideOk(c, tables, calls, sender, t, key)
    requires At(tables, t, key).Some? ==> At(after, t, key) == At(tables, t, key)
    ensures SideOk(c, after, calls, sender, t, key)
  {
  }

  /** A new call is begun. */
  lemma NewCallOk(c: Settings, tables: Tables, calls: seq<seq<Event>>, batch: seq<Event>, t: Table,
                  key: seq<Option<string>>)
    requires SideOk(c, tables, calls, None, t, key) && c.retryAttempts > 0
    ensures Start(c, batch).Going?
    ensures SideOk(c, tables, calls + [batch], Some(Start(c, batch).sender), t, key)
  {
    assert (calls + [batch])[..|calls|] == calls;
  }

  function SenderOf(p: Progress): Option<Sender> {
    if p.Going? then Some(p.sender) else None
  }

  /** A transaction of one side: what it stores anew is the first row of that side's calls. */
  lemma SideMoves(c: Settings, tables: Tables, calls: seq<seq<Event>>, sender: Sender, fault: Fault, t: Table,
                  key: seq<Option<string>>)
    requires Keyed(t) && SideOk(c, tables, calls, Some(sender), t, key) && !Skips(c, tables, sender, fault)
    ensures var (after, p) := Transact(c, tables, sender, fault);
            && (At(tables, t, key).Some? ==> At(after, t, key) == At(tables, t, key))
            && (At(tables, t, key).None? && At(after, t, key).Some? ==>
                  At(after, t, key) == First(c.valid, Flatten(calls), t, key))
            && (p != Over(true) ==> SideOk(c, after, calls, SenderOf(p), t, key))
  {
    TransactKey(c, tables, sender, fault, t, key);
    FirstLast(c.valid, calls, t, key);
  }

  lemma SendKeepsKey(c: Settings, initial: Tables, s: System, fault: Fault, t: Table, key: seq<Option<string>>)
    requires Keyed(t) && KeyOk(c, initial, s, t, key) && !Sent(c, s, fault).failed
    ensures KeyOk(c, initial, Sent(c, s, fault), t, key)
  {
    if s.loop.Busy? {
      var (after, p) := Transact(c, s.tables, s.loop.sender, fault);
      SideMoves(c, s.tables, s.batches, s.loop.sender, fault, t, key);
      OtherSideOk(c, s.tables, after, s.chunks, ChunkSender(s.stopper), t, key);
      assert LoopSender(Sent(c, s, fault).loop) == SenderOf(p);
    }
  }

  lemma SendChunkKeepsKey(c: Settings, initial: Tables, s: System, fault: Fault, t: Table, key: seq<Option<string>>)
    requires Keyed(t) && KeyOk(c, initial, s, t, key) && !ChunkSent(c, s, fault).failed
    ensures KeyOk(c, initial, ChunkSent(c, s, fault), t, key)
  {
    if s.stopper.Chunking? {
      var (after, p) := Transact(c, s.tables, s.stopper.sender, fault);
      SideMoves(c, s.tables, s.chunks, s.stopper.sender, fault, t, key);
      OtherSideOk(c, s.tables, after, s.batches, LoopSender(s.loop), t, key);
      assert ChunkSender(ChunkSent(c, s, fault).stopper) == SenderOf(p);
    }
  }

  lemma CloseKeepsKey(c: Settings, initial: Tables, s: System, t: Table, key: seq<Option<string>>)
    requires KeyOk(c, initial, s, t, key) && c.retryAttempts > 0
    ensures KeyOk(c, initial, Closed(c, s), t, key)
  {
    if s.loop.Collecting? && s.loop.batch != [] {
      NewCallOk(c, s.tables, s.batches, s.loop.batch, t, key);
      FirstSnoc(c.valid, s.batches, s.loop.batch, t, key);
    }
  }

  lemma BeginChunkKeepsKey(c: Settings, initial: Tables, s: System, chunk: seq<Event>, rest: seq<Event>, t: Table,
                           key: seq<Option<string>>)
    requires KeyOk(c, initial, s, t, key) && c.retryAttempts > 0 && s.stopper.Between?
    ensures KeyOk(c, initial, BeginChunk(c, s, chunk, rest), t, key)
  {
    NewCallOk(c, s.tables, s.chunks, chunk, t, key);
    FirstSnoc(c.valid, s.chunks, chunk, t, key);
  }

  /** Nothing the key depends on moves. */
  lemma SameCalls(c: Settings, initial: Tables, s: System, after: System, t: Table, key: seq<Option<string>>)
    requires KeyOk(c, initial, s, t, key)
    requires after.tables == s.tables && after.batches == s.batches && after.chunks == s.chunks
    requires LoopSender(after.loop) == LoopSender(s.loop) && ChunkSender(after.stopper) == ChunkSender(s.stopper)
    ensures KeyOk(c, initial, after, t, key)
  {
  }

  lemma ChunkKeepsKey(c: Settings, initial: Tables, s: System, t: Table, key: seq<Option<string>>)
    requires KeyOk(c, initial, s, t, key) && c.retryAttempts > 0
    ensures KeyOk(c, initial, Chunked(c, s), t, key)
  {
    if s.stopper.Between? && s.stopper.rest != [] && c.batchSizeMax > 0 {
      var n := Smaller(c.batchSizeMax, |s.stopper.rest|);
      BeginChunkKeepsKey(c, initial, s, s.stopper.rest[..n], s.stopper.rest[n..], t, key);
      assert Chunked(c, s) == BeginChunk(c, s, s.stopper.rest[..n], s.stopper.rest[n..]);
    } else {
      SameCalls(c, initial, s, Chunked(c, s), t, key);
    }
  }

  lemma StepKeepsKey(c: Settings, initial: Tables, s: System, step: Step, t: Table, key: seq<Option<string>>)
    requires Keyed(t) && c.retryAttempts > 0
    requires !Next(c, s, step).failed ==> KeyOk(c, initial, s, t, key)
    ensures !Next(c, s, step).failed ==> KeyOk(c, initial, Next(c, s, step), t, key)
  {
    if !Next(c, s, step).failed {
      match step
      case Send(fault) => SendKeepsKey(c, initial, s, fault, t, key);
      case SendChunk(fault) => SendChunkKeepsKey(c, initial, s, fault, t, key);
      case Close => CloseKeepsKey(c, initial, s, t, key);
      case NextChunk => ChunkKeepsKey(c, initial, s, t, key);
      case _ => SameCalls(c, initial, s, Next(c, s, step), t, key);
    }
  }

  lemma StepFails(c: Settings, s: System, step: Step)
    ensures s.failed ==> Next(c, s, step).failed
  {
  }

  lemma {:induction false} RunKeepsKey(c: Settings, initial: Tables, s: System, steps: seq<Step>, t: Table,
                                       key: seq<Option<string>>)
    requires Keyed(t) && c.retryAttempts > 0
    requires !s.failed ==> KeyOk(c, initial, s, t, key)
    ensures var after := Run(c, s, steps);
            && (!after.failed ==> !s.failed && KeyOk(c, initial, after, t, key))
            && (!after.failed && At(s.tables, t, key).Some? ==> At(after.tables, t, key) == At(s.tables, t, key))
    decreases |steps|
  {
    if steps == [] {
    } else {
      var next := Next(c, s, steps[0]);
      StepFails(c, s, steps[0]);
      StepKeepsKey(c, initial, s, steps[0], t, key);
      if !next.failed {
        StepKeepsStored(c, initial, s, steps[0], t, key);
      }
      RunKeepsKey(c, initial, next, steps[1..], t, key);
    }
  }

  lemma SentKeepsStored(c: Settings, initial: Tables, s: System, fault: Fault, t: Table, key: seq<Option<string>>)
    requires Keyed(t) && KeyOk(c, initial, s, t, key) && !Sent(c, s, fault).failed
    ensures At(s.tables, t, key).Some? ==> At(Sent(c, s, fault).tables, t, key) == At(s.tables, t, key)
  {
    if s.loop.Busy? {
      SideMoves(c, s.tables, s.batches, s.loop.sender, fault, t, key);
    }
  }

  lemma ChunkSentKeepsStored(c: Settings, initial: Tables, s: System, fault: Fault, t: Table,
                             key: seq<Option<string>>)
    requires Keyed(t) && KeyOk(c, initial, s, t, key) && !ChunkSent(c, s, fault).failed
    ensures At(s.tables, t, key).Some? ==> At(ChunkSent(c, s, fault).tables, t, key) == At(s.tables, t, key)
  {
    if s.stopper.Chunking? {
      SideMoves(c, s.tables, s.chunks, s.stopper.sender, fault, t, key);
    }
  }

  lemma StepKeepsStored(c: Settings, initial: Tables, s: System, step: Step, t: Table, key: seq<Option<string>>)
    requires Keyed(t) && KeyOk(c, initial, s, t, key) && !Next(c, s, step).failed
    ensures At(s.tables, t, key).Some? ==> At(Next(c, s, step).tables, t, key) == At(s.tables, t, key)
  {
    match step
    case Send(fault) => SentKeepsStored(c, initial, s, fault, t, key);
    case SendChunk(fault) => ChunkSentKeepsStored(c, initial, s, fault, t, key);
    case _ =>
  }
}
