/** When a shutdown over a live main loop still leaves the keyed tables as one clean pass over the events in order of
    arrival: exactly when no key that is not stored yet has one first row in what the loop holds or may still pop and
    another in what the shutdown drains. */
module Overtaking {
  import opened Options
  import opened Writer
  import opened Sending
  import opened Shutdown

  function Drained(s: System, limit: nat): seq<Event> {
    s.queue[..Smaller(limit, |s.queue|)]
  }

  function Left(s: System, limit: nat): seq<Event> {
    s.queue[Smaller(limit, |s.queue|)..]
  }

  /** The batch the loop is collecting, sending, or about to send again. */
  function Held(s: System): seq<Event> {
    match s.loop
    case Collecting(batch) => batch
    case Busy(sender) => sender.batch
    case _ => []
  }

  /** What the loop may still pop into the batch it is collecting. */
  function Room(c: Settings, s: System, limit: nat): seq<Event> {
    if s.loop.Collecting? && |s.loop.batch| <= c.batchSizeMax
    then Left(s, limit)[..Smaller(c.batchSizeMax - |s.loop.batch|, |Left(s, limit)|)]
    else []
  }

  /** At the call, the loop's side and the drained events hold different rows for a key that is not stored yet. */
  ghost predicate ConflictAt(c: Settings, s: System, limit: nat, t: Table, key: seq<Option<string>>) {
    var mine := First(c.valid, Held(s) + Room(c, s, limit), t, key);
    var drained := First(c.valid, Drained(s, limit), t, key);
    At(s.tables, t, key).None? && mine.Some? && drained.Some? && mine != drained
  }

  ghost predicate NoConflict(c: Settings, s: System, limit: nat) {
    forall t, key :: Keyed(t) ==> !ConflictAt(c, s, limit, t, key)
  }

  /** Both sides are done and no batch call raised. */
  predicate Settled(s: System) {
    s.loop.Stopped? && s.stopper.Returned? && !s.failed
  }

  /** Under this key there is what one clean pass over everything popped, in order of arrival, leaves there. */
  ghost predicate AgreesAt(c: Settings, initial: Tables, s: System, t: Table, key: seq<Option<string>>) {
    At(s.tables, t, key) == Stored(t, CleanPass(c.valid, Events(s.popped), t, ContentIn(initial, t)), key)
  }

  ghost predicate Agrees(c: Settings, initial: Tables, s: System) {
    forall t, key :: Keyed(t) ==> AgreesAt(c, initial, s, t, key)
  }

  // ----- What can happen after the call -----

  /** From the call on, the loop has popped `ext` into the batch it was collecting and nothing else was popped. */
  ghost predicate Since(c: Settings, s0: System, limit: nat, s: System, ext: seq<Event>) {
    && !s.stopper.NotCalled?
    && ext + s.queue == Left(s0, limit)
    && LoopPart(s.popped) == LoopPart(s0.popped) + ext
    && DrainPart(s.popped) == Drained(s0, limit)
    && Events(s.popped) == Events(s0.popped) + Drained(s0, limit) + ext
    && (if s0.loop.Collecting? then
          |s0.loop.batch| + |ext| <= c.batchSizeMax && (s.loop.Collecting? ==> s.loop.batch == s0.loop.batch + ext)
        else ext == [] && !s.loop.Collecting?)
  }

  lemma SinceCall(c: Settings, s0: System, limit: nat)
    requires Accounts(c, s0) && s0.stopper.NotCalled?
    ensures Since(c, s0, limit, Called(s0, limit), [])
  {
    AllDrained(s0.popped, Drained(s0, limit));
    assert DrainPart(s0.popped) == [];
    assert [] + Drained(s0, limit) == Drained(s0, limit);
    assert [] + Left(s0, limit) == Left(s0, limit);
    assert LoopPart(s0.popped) + [] == LoopPart(s0.popped);
    var events := Events(s0.popped) + Drained(s0, limit);
    assert events + [] == events;
  }

  lemma SincePop(c: Settings, s0: System, limit: nat, s: System, ext: seq<Event>) returns (more: seq<Event>)
    requires Since(c, s0, limit, s, ext)
    ensures Since(c, s0, limit, Popped(c, s), more)
  {
    more := ext;
    if s.loop.Collecting? && |s.loop.batch| < c.batchSizeMax && s.queue != [] {
      var e := s.queue[0];
      more := ext + [e];
      LoopPopped(s.popped, e);
      assert [e] + s.queue[1..] == s.queue;
      ConcatAssociates(ext, [e], s.queue[1..]);
      ConcatAssociates(LoopPart(s0.popped), ext, [e]);
      ConcatAssociates(Events(s0.popped) + Drained(s0, limit), ext, [e]);
      ConcatAssociates(s0.loop.batch, ext, [e]);
    }
  }

  /** A step that pops nothing. */
  lemma SinceSame(c: Settings, s0: System, limit: nat, s: System, after: System, ext: seq<Event>)
    requires Since(c, s0, limit, s, ext) && after.queue == s.queue && after.popped == s.popped
    requires !after.stopper.NotCalled? && (after.loop.Collecting? ==> after.loop == s.loop)
    ensures Since(c, s0, limit, after, ext)
  {
  }

  lemma SinceStep(c: Settings, s0: System, limit: nat, s: System, ext: seq<Event>, step: Step)
    returns (more: seq<Event>)
    requires Since(c, s0, limit, s, ext)
    ensures Since(c, s0, limit, Next(c, s, step), more)
  {
    more := ext;
    if step.PopOne? {
      more := SincePop(c, s0, limit, s, ext);
    } else {
      SinceSame(c, s0, limit, s, Next(c, s, step), ext);
    }
  }

  lemma {:induction false} SinceRun(c: Settings, s0: System, limit: nat, s: System, ext: seq<Event>, steps: seq<Step>)
    returns (more: seq<Event>)
    requires Since(c, s0, limit, s, ext)
    ensures Since(c, s0, limit, Run(c, s, steps), more)
    decreases |steps|
  {
    if steps == [] {
      more := ext;
    } else {
      more := SinceStep(c, s0, limit, s, ext, steps[0]);
      more := SinceRun(c, s0, limit, Next(c, s, steps[0]), more, steps[1..]);
    }
  }

  // ----- Without a conflict every run ends clean -----

  /** What the loop had popped before the call would store, under a key not stored yet, what its held batch would. */
  lemma HeldFirst(c: Settings, initial: Tables, s: System, t: Table, key: seq<Option<string>>)
    requires Accounts(c, s) && KeyOk(c, initial, s, t, key)
    ensures At(s.tables, t, key).None? ==>
              First(c.valid, LoopPart(s.popped), t, key) == First(c.valid, Held(s), t, key)
    ensures First(c.valid, Flatten(s.batches), t, key).Some? ==>
              First(c.valid, LoopPart(s.popped), t, key) == First(c.valid, Flatten(s.batches), t, key)
  {
    FirstConcat(c.valid, Flatten(s.batches), Collected(s.loop), t, key);
    if s.loop.Busy? {
      FirstLast(c.valid, s.batches, t, key);
      assert Flatten(s.batches) + [] == Flatten(s.batches);
    }
  }

  /** Seen from one key: what was there at the start, at the call and in the end; what the loop had popped, what it
      popped later and could have popped, and what was drained. */
  lemma OneKey(was: Option<Row>, atCall: Option<Row>, end: Option<Row>, mine: Option<Row>, held: Option<Row>,
               ext: Option<Row>, room: Option<Row>, drained: Option<Row>)
    requires was.Some? ==> atCall == was
    requires was.None? && atCall.Some? ==> atCall == mine
    requires atCall.None? ==> mine == held
    requires atCall.Some? ==> end == atCall
    requires OrElse(mine, ext).Some? || drained.Some? ==> end.Some?
    requires was.None? && end.Some? ==> end == OrElse(mine, ext) || end == drained
    requires ext.Some? ==> room == ext
    requires atCall.None? && OrElse(held, room).Some? && drained.Some? ==> OrElse(held, room) == drained
    ensures end == OrElse(was, OrElse(OrElse(mine, drained), ext))
  {
  }

  lemma ExtFirst(c: Settings, s0: System, limit: nat, s: System, ext: seq<Event>, t: Table, key: seq<Option<string>>)
    requires Since(c, s0, limit, s, ext)
    ensures First(c.valid, ext, t, key).Some? ==>
              First(c.valid, Room(c, s0, limit), t, key) == First(c.valid, ext, t, key)
  {
    if ext == [] {
    } else {
      var room := Room(c, s0, limit);
      assert ext == Left(s0, limit)[..|ext|];
      assert room == ext + room[|ext|..];
      FirstConcat(c.valid, ext, room[|ext|..], t, key);
    }
  }

  /** What the end of a run stores under a key, by origin. */
  lemma EndOrigin(c: Settings, initial: Tables, s0: System, limit: nat, s: System, ext: seq<Event>, t: Table,
                  key: seq<Option<string>>)
    requires Accounts(c, s) && KeyOk(c, initial, s, t, key) && Since(c, s0, limit, s, ext) && Settled(s)
    ensures var mine := First(c.valid, LoopPart(s0.popped) + ext, t, key);
            var drained := First(c.valid, Drained(s0, limit), t, key);
            && (mine.Some? || drained.Some? ==> At(s.tables, t, key).Some?)
            && (At(initial, t, key).None? && At(s.tables, t, key).Some? ==>
                  At(s.tables, t, key) == mine || At(s.tables, t, key) == drained)
  {
    assert Flatten(s.batches) + [] == Flatten(s.batches) && Flatten(s.chunks) + [] == Flatten(s.chunks);
  }

  lemma CallOrigin(c: Settings, initial: Tables, s0: System, t: Table, key: seq<Option<string>>)
    requires Accounts(c, s0) && KeyOk(c, initial, s0, t, key) && s0.stopper.NotCalled?
    ensures At(initial, t, key).None? && At(s0.tables, t, key).Some? ==>
              At(s0.tables, t, key) == First(c.valid, LoopPart(s0.popped), t, key)
  {
    HeldFirst(c, initial, s0, t, key);
    FirstNothing(c.valid, t, key);
  }

  lemma FirstNothing(valid: RowCheck, t: Table, key: seq<Option<string>>)
    ensures First(valid, Flatten([]), t, key) == None
  {
  }

  lemma CleanByParts(c: Settings, initial: Tables, s0: System, limit: nat, s: System, ext: seq<Event>, t: Table,
                     key: seq<Option<string>>)
    requires Keyed(t) && Accounts(c, s0) && s0.stopper.NotCalled? && Since(c, s0, limit, s, ext)
    ensures Stored(t, CleanPass(c.valid, Events(s.popped), t, ContentIn(initial, t)), key)
            == OrElse(At(initial, t, key),
                      OrElse(OrElse(First(c.valid, LoopPart(s0.popped), t, key),
                                    First(c.valid, Drained(s0, limit), t, key)),
                             First(c.valid, ext, t, key)))
  {
    StoredClean(c.valid, Events(s.popped), t, ContentIn(initial, t), key);
    FirstConcat(c.valid, Events(s0.popped) + Drained(s0, limit), ext, t, key);
    FirstConcat(c.valid, Events(s0.popped), Drained(s0, limit), t, key);
  }

  lemma NoConflictAgreesAt(c: Settings, initial: Tables, s0: System, limit: nat, s: System, ext: seq<Event>, t: Table,
                           key: seq<Option<string>>)
    requires Keyed(t) && Accounts(c, s0) && Accounts(c, s) && s0.stopper.NotCalled?
    requires KeyOk(c, initial, s0, t, key) && KeyOk(c, initial, s, t, key)
    requires At(s0.tables, t, key).Some? ==> At(s.tables, t, key) == At(s0.tables, t, key)
    requires Since(c, s0, limit, s, ext) && Settled(s) && !ConflictAt(c, s0, limit, t, key)
    ensures AgreesAt(c, initial, s, t, key)
  {
    HeldFirst(c, initial, s0, t, key);
    CallOrigin(c, initial, s0, t, key);
    EndOrigin(c, initial, s0, limit, s, ext, t, key);
    ExtFirst(c, s0, limit, s, ext, t, key);
    CleanByParts(c, initial, s0, limit, s, ext, t, key);
    FirstConcat(c.valid, LoopPart(s0.popped), ext, t, key);
    FirstConcat(c.valid, Held(s0), Room(c, s0, limit), t, key);
    OneKey(At(initial, t, key), At(s0.tables, t, key), At(s.tables, t, key),
           First(c.valid, LoopPart(s0.popped), t, key), First(c.valid, Held(s0), t, key),
           First(c.valid, ext, t, key), First(c.valid, Room(c, s0, limit), t, key),
           First(c.valid, Drained(s0, limit), t, key));
  }

  /** The state at a call: reached from the initial tables, no batch call raised, shutdown not called yet. */
  ghost predicate AtCall(c: Settings, initial: Tables, s: System) {
    && Accounts(c, s) && s.stopper.NotCalled? && !s.failed
    && forall t, key :: Keyed(t) ==> KeyOk(c, initial, s, t, key)
  }

  lemma ReachedAtCall(c: Settings, initial: Tables, pre: seq<Step>)
    requires c.retryAttempts > 0
    requires var s := Run(c, Init(initial), pre); s.stopper.NotCalled? && !s.failed
    ensures AtCall(c, initial, Run(c, Init(initial), pre))
  {
    EveryEventInOneBatch(c, initial, pre);
    forall t, key | Keyed(t)
      ensures KeyOk(c, initial, Run(c, Init(initial), pre), t, key)
    {
      FirstNothing(c.valid, t, key);
      RunKeepsKey(c, initial, Init(initial), pre, t, key);
    }
  }

  lemma CalledKeepsKey(c: Settings, initial: Tables, s0: System, limit: nat, t: Table, key: seq<Option<string>>)
    requires KeyOk(c, initial, s0, t, key) && s0.stopper.NotCalled?
    ensures KeyOk(c, initial, Called(s0, limit), t, key)
  {
    SameCalls(c, initial, s0, Called(s0, limit), t, key);
  }

  lemma NoConflictAgrees(c: Settings, initial: Tables, s0: System, limit: nat, post: seq<Step>)
    requires c.retryAttempts > 0 && AtCall(c, initial, s0) && NoConflict(c, s0, limit)
    requires Settled(Run(c, Called(s0, limit), post))
    ensures Agrees(c, initial, Run(c, Called(s0, limit), post))
  {
    var s1, s := Called(s0, limit), Run(c, Called(s0, limit), post);
    SinceCall(c, s0, limit);
    var ext := SinceRun(c, s0, limit, s1, [], post);
    CallAccounts(c, s0, limit);
    RunAccounts(c, s1, post);
    forall t, key | Keyed(t)
      ensures AgreesAt(c, initial, s, t, key)
    {
      CalledKeepsKey(c, initial, s0, limit, t, key);
      RunKeepsKey(c, initial, s1, post, t, key);
      NoConflictAgreesAt(c, initial, s0, limit, s, ext, t, key);
    }
  }

  // ----- With a conflict some run does not -----

  /** What is left of a batch call: tables, then transactions of the current one. */
  function RowsLeft(s: Sender): nat {
    if s.table >= |TablesOf(s.batch)| then 0
    else
      match s.mode
      case Bulk => |RowsAt(s)| + 2
      case OneByOne(next) => if next <= |RowsAt(s)| then |RowsAt(s)| - next + 1 else 0
  }

  function TablesLeft(s: Sender): nat {
    if s.table >= |TablesOf(s.batch)| then 0 else |TablesOf(s.batch)| - s.table
  }

  /** A transaction that goes through brings its call nearer its end. */
  lemma CleanProgress(c: Settings, tables: Tables, s: Sender)
    ensures var p := Transact(c, tables, s, NoFault).1;
            && p != Over(true)
            && (p.Going? ==> p.sender.batch == s.batch)
            && (p.Going? ==> TablesLeft(p.sender) < TablesLeft(s)
                             || (TablesLeft(p.sender) == TablesLeft(s) && RowsLeft(p.sender) < RowsLeft(s)))
  {
  }

  /** Every transaction of these steps goes through. */
  predicate FaultFree(steps: seq<Step>) {
    forall i :: 0 <= i < |steps| ==> Clean(steps[i])
  }

  predicate Clean(step: Step) {
    (step.Send? ==> step.fault == NoFault) && (step.SendChunk? ==> step.fault == NoFault)
  }

  lemma {:induction false} SendOut(c: Settings, s: System) returns (steps: seq<Step>)
    requires s.loop.Busy?
    ensures FaultFree(steps)
    ensures var z := Run(c, s, steps); z == s.(tables := z.tables, loop := AtTop)
    decreases TablesLeft(s.loop.sender), RowsLeft(s.loop.sender)
  {
    CleanProgress(c, s.tables, s.loop.sender);
    var next := Sent(c, s, NoFault);
    if next.loop.Busy? {
      steps := SendOut(c, next);
    } else {
      steps := [];
    }
    assert ([Send(NoFault)] + steps)[1..] == steps;
    steps := [Send(NoFault)] + steps;
  }

  /** The loop closes its batch, sends it and stops. */
  lemma LoopToEnd(c: Settings, s: System) returns (steps: seq<Step>)
    requires !s.stopper.NotCalled?
    ensures FaultFree(steps)
    ensures var z := Run(c, s, steps); z == s.(tables := z.tables, loop := Stopped, batches := z.batches)
  {
    if s.loop.Stopped? {
      steps := [];
    } else if s.loop.AtTop? {
      steps := [Begin];
      RunOne(c, s, Begin);
    } else if s.loop.Busy? {
      var out := SendOut(c, s);
      RunConcat(c, s, out, [Begin]);
      RunOne(c, Run(c, s, out), Begin);
      steps := out + [Begin];
    } else {
      var closed := Closed(c, s);
      var rest := ClosedToEnd(c, closed);
      assert ([Close] + rest)[1..] == rest;
      steps := [Close] + rest;
    }
  }

  lemma ClosedToEnd(c: Settings, s: System) returns (steps: seq<Step>)
    requires !s.stopper.NotCalled? && (s.loop.AtTop? || s.loop.Busy?)
    ensures FaultFree(steps)
    ensures var z := Run(c, s, steps); z == s.(tables := z.tables, loop := Stopped)
  {
    var out: seq<Step> := [];
    if s.loop.Busy? {
      out := SendOut(c, s);
    }
    RunConcat(c, s, out, [Begin]);
    RunOne(c, Run(c, s, out), Begin);
    steps := out + [Begin];
  }

  /** The loop fills its batch from what the drain left. */
  lemma {:induction false} PopAll(c: Settings, s: System) returns (steps: seq<Step>)
    requires s.loop.Collecting?
    ensures FaultFree(steps)
    ensures var z := Run(c, s, steps);
            && z.loop.Collecting? && (|z.loop.batch| >= c.batchSizeMax || z.queue == [])
            && z == s.(loop := z.loop, queue := z.queue, popped := z.popped)
    decreases |s.queue|
  {
    if |s.loop.batch| < c.batchSizeMax && s.queue != [] {
      steps := PopAll(c, Popped(c, s));
      assert ([PopOne] + steps)[1..] == steps;
      steps := [PopOne] + steps;
    } else {
      steps := [];
    }
  }

  /** What is stored under the key comes from the drained events. */
  ghost predicate FromChunks(c: Settings, s: System, t: Table, key: seq<Option<string>>) {
    At(s.tables, t, key).Some? ==> At(s.tables, t, key) == First(c.valid, Flatten(s.chunks), t, key)
  }

  /** The shutdown's side moves and nothing else. */
  ghost predicate OnlyChunks(s: System, z: System) {
    z == s.(tables := z.tables, stopper := z.stopper, chunks := z.chunks)
  }

  lemma RunFirst(c: Settings, s: System, step: Step, rest: seq<Step>)
    ensures Run(c, s, [step] + rest) == Run(c, Next(c, s, step), rest)
  {
    assert ([step] + rest)[1..] == rest;
  }

  predicate ChunkSteps(steps: seq<Step>) {
    forall i :: 0 <= i < |steps| ==> steps[i].NextChunk? || steps[i].SendChunk?
  }

  lemma {:induction false} OneChunk(c: Settings, s: System) returns (steps: seq<Step>)
    requires s.stopper.Chunking?
    ensures var z := Run(c, s, steps); OnlyChunks(s, z) && z.stopper == Between(s.stopper.rest)
    ensures ChunkSteps(steps) && FaultFree(steps)
    decreases TablesLeft(s.stopper.sender), RowsLeft(s.stopper.sender)
  {
    CleanProgress(c, s.tables, s.stopper.sender);
    var next := ChunkSent(c, s, NoFault);
    steps := [];
    if next.stopper.Chunking? {
      steps := OneChunk(c, next);
    }
    RunFirst(c, s, SendChunk(NoFault), steps);
    steps := [SendChunk(NoFault)] + steps;
  }

  /** The shutdown hands out and sends all its chunks. */
  lemma {:induction false} AllChunks(c: Settings, s: System) returns (steps: seq<Step>)
    requires s.stopper.Between? && c.batchSizeMax > 0
    ensures var z := Run(c, s, steps); OnlyChunks(s, z) && z.stopper.Returned?
    ensures ChunkSteps(steps) && FaultFree(steps)
    decreases |s.stopper.rest|
  {
    if s.stopper.rest == [] {
      steps := [NextChunk];
      RunOne(c, s, NextChunk);
    } else {
      var begun := Chunked(c, s);
      var out: seq<Step> := [];
      if begun.stopper.Chunking? {
        out := OneChunk(c, begun);
      }
      var rest := AllChunks(c, Run(c, begun, out));
      RunConcat(c, begun, out, rest);
      RunFirst(c, s, NextChunk, out + rest);
      steps := [NextChunk] + (out + rest);
    }
  }

  lemma ChunkStepFromChunks(c: Settings, initial: Tables, s: System, step: Step, t: Table, key: seq<Option<string>>)
    requires Keyed(t) && (step.NextChunk? || step.SendChunk?) && KeyOk(c, initial, s, t, key)
    requires !Next(c, s, step).failed
    requires FromChunks(c, s, t, key)
    ensures FromChunks(c, Next(c, s, step), t, key)
  {
    if step.SendChunk? && s.stopper.Chunking? {
      SideMoves(c, s.tables, s.chunks, s.stopper.sender, step.fault, t, key);
    } else if step.NextChunk? && s.stopper.Between? && s.stopper.rest != [] && c.batchSizeMax > 0 {
      var n := Smaller(c.batchSizeMax, |s.stopper.rest|);
      FirstSnoc(c.valid, s.chunks, s.stopper.rest[..n], t, key);
    }
  }

  /** While only the shutdown moves, what is stored under the key comes from what it drained. */
  lemma {:induction false} RunFromChunks(c: Settings, initial: Tables, s: System, steps: seq<Step>, t: Table,
                                         key: seq<Option<string>>)
    requires Keyed(t) && c.retryAttempts > 0 && ChunkSteps(steps) && !Run(c, s, steps).failed
    requires KeyOk(c, initial, s, t, key) && FromChunks(c, s, t, key)
    ensures FromChunks(c, Run(c, s, steps), t, key)
    decreases |steps|
  {
    if steps == [] {
    } else {
      RunKeepsKey(c, initial, Next(c, s, steps[0]), steps[1..], t, key) by {
        StepKeepsKey(c, initial, s, steps[0], t, key);
      }
      ChunkStepFromChunks(c, initial, s, steps[0], t, key);
      StepKeepsKey(c, initial, s, steps[0], t, key);
      RunFromChunks(c, initial, Next(c, s, steps[0]), steps[1..], t, key);
    }
  }

  /** The loop's side alone, to its end: it pops all it has room for. */
  lemma LoopAlone(c: Settings, s0: System, limit: nat, s: System, ext: seq<Event>) returns (steps: seq<Step>)
    requires Since(c, s0, limit, s, ext) && (s0.loop.Collecting? ==> s.loop.Collecting?)
    ensures FaultFree(steps)
    ensures var z := Run(c, s, steps);
            && z == s.(tables := z.tables, loop := Stopped, queue := z.queue, popped := z.popped, batches := z.batches)
            && Since(c, s0, limit, z, Room(c, s0, limit))
  {
    var pops: seq<Step> := [];
    if s.loop.Collecting? {
      pops := PopAll(c, s);
    }
    var full := Run(c, s, pops);
    var more := SinceRun(c, s0, limit, s, ext, pops);
    if s.loop.Collecting? {
      assert more == Left(s0, limit)[..|more|];
      assert more == Room(c, s0, limit);
    }
    var out := LoopToEnd(c, full);
    RunConcat(c, s, pops, out);
    SinceSame(c, s0, limit, full, Run(c, full, out), more);
    steps := pops + out;
  }

  /** The loop finishes before the shutdown begins its first chunk: what it holds is stored. */
  lemma LoopFirst(c: Settings, initial: Tables, s0: System, limit: nat, t: Table, key: seq<Option<string>>)
    returns (steps: seq<Step>)
    requires c.batchSizeMax > 0 && c.retryAttempts > 0 && Keyed(t) && AtCall(c, initial, s0)
    requires ConflictAt(c, s0, limit, t, key)
    ensures FaultFree(steps)
    ensures var z := Run(c, Called(s0, limit), steps);
            && Settled(z) && Since(c, s0, limit, z, Room(c, s0, limit))
            && At(z.tables, t, key) == First(c.valid, Held(s0) + Room(c, s0, limit), t, key)
  {
    var mine := LoopThrough(c, initial, s0, limit, t, key);
    var rest := DrainAfter(c, initial, s0, limit, Run(c, Called(s0, limit), mine), t, key);
    RunConcat(c, Called(s0, limit), mine, rest);
    steps := mine + rest;
  }

  lemma LoopThrough(c: Settings, initial: Tables, s0: System, limit: nat, t: Table, key: seq<Option<string>>)
    returns (steps: seq<Step>)
    requires c.batchSizeMax > 0 && c.retryAttempts > 0 && Keyed(t) && AtCall(c, initial, s0)
    requires ConflictAt(c, s0, limit, t, key)
    ensures FaultFree(steps)
    ensures var mid := Run(c, Called(s0, limit), steps);
            && mid.loop.Stopped? && mid.stopper.Between? && !mid.failed
            && Since(c, s0, limit, mid, Room(c, s0, limit)) && KeyOk(c, initial, mid, t, key)
            && At(mid.tables, t, key) == First(c.valid, Held(s0) + Room(c, s0, limit), t, key)
  {
    var s1 := Called(s0, limit);
    SinceCall(c, s0, limit);
    CallAccounts(c, s0, limit);
    CalledKeepsKey(c, initial, s0, limit, t, key);
    steps := LoopAlone(c, s0, limit, s1, []);
    RunKeepsKey(c, initial, s1, steps, t, key);
    RunAccounts(c, s1, steps);
    LoopStored(c, initial, s0, limit, Run(c, s1, steps), t, key);
  }

  /** With no chunk begun, what is stored under the key comes from the loop. */
  lemma LoopStored(c: Settings, initial: Tables, s0: System, limit: nat, mid: System, t: Table,
                   key: seq<Option<string>>)
    requires AtCall(c, initial, s0) && Keyed(t) && ConflictAt(c, s0, limit, t, key)
    requires Accounts(c, mid) && KeyOk(c, initial, mid, t, key) && mid.loop.Stopped? && mid.chunks == []
    requires Since(c, s0, limit, mid, Room(c, s0, limit))
    ensures At(mid.tables, t, key) == First(c.valid, Held(s0) + Room(c, s0, limit), t, key)
  {
    MineFirst(c, initial, s0, limit, t, key);
    NotStoredBefore(c, initial, s0, t, key);
    LoopOrigin(c, initial, mid, t, key);
    LoopPopsBatched(c, mid);
  }

  lemma NotStoredBefore(c: Settings, initial: Tables, s0: System, t: Table, key: seq<Option<string>>)
    requires AtCall(c, initial, s0) && Keyed(t) && At(s0.tables, t, key).None?
    ensures At(initial, t, key).None?
  {
    assert KeyOk(c, initial, s0, t, key);
  }

  lemma LoopOrigin(c: Settings, initial: Tables, s: System, t: Table, key: seq<Option<string>>)
    requires KeyOk(c, initial, s, t, key) && s.loop.Stopped? && s.chunks == [] && At(initial, t, key).None?
    ensures At(s.tables, t, key) == First(c.valid, Flatten(s.batches), t, key)
  {
    FirstNothing(c.valid, t, key);
  }

  lemma LoopPopsBatched(c: Settings, s: System)
    requires Accounts(c, s) && s.loop.Stopped?
    ensures LoopPart(s.popped) == Flatten(s.batches)
  {
    assert Flatten(s.batches) + [] == Flatten(s.batches);
  }

  lemma MineFirst(c: Settings, initial: Tables, s0: System, limit: nat, t: Table, key: seq<Option<string>>)
    requires AtCall(c, initial, s0) && Keyed(t) && ConflictAt(c, s0, limit, t, key)
    ensures First(c.valid, LoopPart(s0.popped) + Room(c, s0, limit), t, key)
            == First(c.valid, Held(s0) + Room(c, s0, limit), t, key)
  {
    HeldFirst(c, initial, s0, t, key);
    FirstConcat(c.valid, LoopPart(s0.popped), Room(c, s0, limit), t, key);
    FirstConcat(c.valid, Held(s0), Room(c, s0, limit), t, key);
  }

  /** The shutdown then sends all its chunks, which cannot change a stored row. */
  lemma DrainAfter(c: Settings, initial: Tables, s0: System, limit: nat, mid: System, t: Table,
                   key: seq<Option<string>>)
    returns (steps: seq<Step>)
    requires c.batchSizeMax > 0 && c.retryAttempts > 0 && Keyed(t) && KeyOk(c, initial, mid, t, key)
    requires mid.loop.Stopped? && mid.stopper.Between? && !mid.failed && At(mid.tables, t, key).Some?
    requires Since(c, s0, limit, mid, Room(c, s0, limit))
    ensures FaultFree(steps)
    ensures var z := Run(c, mid, steps);
            && Settled(z) && Since(c, s0, limit, z, Room(c, s0, limit))
            && At(z.tables, t, key) == At(mid.tables, t, key)
  {
    steps := AllChunks(c, mid);
    RunKeepsKey(c, initial, mid, steps, t, key);
    SinceSame(c, s0, limit, mid, Run(c, mid, steps), Room(c, s0, limit));
  }

  /** With all drained events sent by the shutdown alone, what is stored under the key comes from them. */
  lemma DrainStored(c: Settings, initial: Tables, s0: System, limit: nat, mid: System, t: Table,
                    key: seq<Option<string>>)
    requires Keyed(t) && ConflictAt(c, s0, limit, t, key) && Since(c, s0, limit, mid, [])
    requires Accounts(c, mid) && KeyOk(c, initial, mid, t, key) && FromChunks(c, mid, t, key) && mid.stopper.Returned?
    ensures At(mid.tables, t, key) == First(c.valid, Drained(s0, limit), t, key)
  {
    assert Flatten(mid.chunks) + [] == Flatten(mid.chunks);
  }

  /** The shutdown sends all it drained before the loop moves on: it is stored. */
  lemma DrainAlone(c: Settings, initial: Tables, s0: System, limit: nat, t: Table, key: seq<Option<string>>)
    returns (steps: seq<Step>)
    requires c.batchSizeMax > 0 && c.retryAttempts > 0 && Keyed(t) && AtCall(c, initial, s0)
    requires ConflictAt(c, s0, limit, t, key)
    ensures FaultFree(steps)
    ensures var mid := Run(c, Called(s0, limit), steps);
            && OnlyChunks(Called(s0, limit), mid) && mid.stopper.Returned? && !mid.failed
            && Since(c, s0, limit, mid, []) && KeyOk(c, initial, mid, t, key)
            && At(mid.tables, t, key) == First(c.valid, Drained(s0, limit), t, key)
  {
    var s1 := Called(s0, limit);
    SinceCall(c, s0, limit);
    CallAccounts(c, s0, limit);
    CalledKeepsKey(c, initial, s0, limit, t, key);
    steps := AllChunks(c, s1);
    SinceSame(c, s0, limit, s1, Run(c, s1, steps), []);
    RunAccounts(c, s1, steps);
    RunKeepsKey(c, initial, s1, steps, t, key);
    RunFromChunks(c, initial, s1, steps, t, key);
    DrainStored(c, initial, s0, limit, Run(c, s1, steps), t, key);
  }

  /** Then the loop finishes, which cannot change a stored row. */
  lemma LoopAfter(c: Settings, initial: Tables, s0: System, limit: nat, mid: System, t: Table, key: seq<Option<string>>)
    returns (steps: seq<Step>)
    requires c.retryAttempts > 0 && Keyed(t) && KeyOk(c, initial, mid, t, key) && At(mid.tables, t, key).Some?
    requires mid.stopper.Returned? && !mid.failed && Since(c, s0, limit, mid, [])
    requires s0.loop.Collecting? ==> mid.loop.Collecting?
    ensures FaultFree(steps)
    ensures var z := Run(c, mid, steps);
            && Settled(z) && Since(c, s0, limit, z, Room(c, s0, limit))
            && At(z.tables, t, key) == At(mid.tables, t, key)
  {
    steps := LoopAlone(c, s0, limit, mid, []);
    RunKeepsKey(c, initial, mid, steps, t, key);
  }

  lemma DrainFirst(c: Settings, initial: Tables, s0: System, limit: nat, t: Table, key: seq<Option<string>>)
    returns (steps: seq<Step>)
    requires c.batchSizeMax > 0 && c.retryAttempts > 0 && Keyed(t) && AtCall(c, initial, s0)
    requires ConflictAt(c, s0, limit, t, key)
    ensures FaultFree(steps)
    ensures var z := Run(c, Called(s0, limit), steps);
            && Settled(z) && Since(c, s0, limit, z, Room(c, s0, limit))
            && At(z.tables, t, key) == First(c.valid, Drained(s0, limit), t, key)
  {
    var drain := DrainAlone(c, initial, s0, limit, t, key);
    var rest := LoopAfter(c, initial, s0, limit, Run(c, Called(s0, limit), drain), t, key);
    RunConcat(c, Called(s0, limit), drain, rest);
    steps := drain + rest;
  }

  /** Two runs without a fault from a conflict pop the same events and end with different rows under its key. */
  lemma ConflictDisagrees(c: Settings, initial: Tables, s0: System, limit: nat, t: Table, key: seq<Option<string>>)
    returns (steps: seq<Step>)
    requires c.batchSizeMax > 0 && c.retryAttempts > 0 && Keyed(t) && AtCall(c, initial, s0)
    requires ConflictAt(c, s0, limit, t, key)
    ensures FaultFree(steps)
    ensures var z := Run(c, Called(s0, limit), steps); Settled(z) && !AgreesAt(c, initial, z, t, key)
  {
    var a := LoopFirst(c, initial, s0, limit, t, key);
    var b := DrainFirst(c, initial, s0, limit, t, key);
    CleanByParts(c, initial, s0, limit, Run(c, Called(s0, limit), a), Room(c, s0, limit), t, key);
    CleanByParts(c, initial, s0, limit, Run(c, Called(s0, limit), b), Room(c, s0, limit), t, key);
    steps := if AgreesAt(c, initial, Run(c, Called(s0, limit), a), t, key) then b else a;
  }

  /** From any state in which the service may call shutdown: every run in which both sides end and no call raises leaves
      the keyed tables as one clean pass in order of arrival, exactly when there is no conflict at the call. */
  lemma ShutdownIsCleanIff(c: Settings, initial: Tables, pre: seq<Step>, limit: nat)
    requires c.batchSizeMax > 0 && c.retryAttempts > 0
    requires var s := Run(c, Init(initial), pre); s.stopper.NotCalled? && !s.failed
    ensures var s := Run(c, Init(initial), pre);
            (forall post :: Settled(Run(c, Called(s, limit), post)) ==>
                              Agrees(c, initial, Run(c, Called(s, limit), post)))
            <==> NoConflict(c, s, limit)
  {
    var s := Run(c, Init(initial), pre);
    ReachedAtCall(c, initial, pre);
    if NoConflict(c, s, limit) {
      forall post | Settled(Run(c, Called(s, limit), post))
        ensures Agrees(c, initial, Run(c, Called(s, limit), post))
      {
        NoConflictAgrees(c, initial, s, limit, post);
      }
    } else {
      var t, key :| Keyed(t) && ConflictAt(c, s, limit, t, key);
      var post := ConflictDisagrees(c, initial, s, limit, t, key);
      assert !Agrees(c, initial, Run(c, Called(s, limit), post));
    }
  }

  lemma FirstOne(valid: RowCheck, e: Event, t: Table)
    requires Lands(valid, e) && e.table == t
    ensures First(valid, [e], t, KeyOf(t, e.row)) == Some(e.row)
  {
    var one := [e];
    assert one[..|one| - 1] == [] && RowsFor(one, t) == [e.row];
    var row := [e.row];
    assert row[..|row| - 1] == [] && Accepted(valid, t, row) == [e.row];
    assert [] + [e.row] == [e.row];
    StoredSnoc(t, [], e.row, KeyOf(t, e.row));
  }

  /** A conflict a service can meet: the loop holds one row of a key when the next is queued and shutdown drains it. */
  lemma NextRowConflicts(c: Settings, initial: Tables, held: Event, next: Event, limit: nat)
    requires c.batchSizeMax > 0 && limit > 0 && Lands(c.valid, held) && Lands(c.valid, next)
    requires held.table == next.table && Keyed(held.table) && held.row != next.row
    requires KeyOf(held.table, held.row) == KeyOf(held.table, next.row)
    requires At(initial, held.table, KeyOf(held.table, held.row)).None?
    ensures var pre := [Arrive(held), Begin, PopOne] + [Arrive(next)];
            !NoConflict(c, Run(c, Init(initial), pre), limit)
  {
    var pre, t := [Arrive(held), Begin, PopOne] + [Arrive(next)], held.table;
    HeldByLoop(c, initial, held);
    RunConcat(c, Init(initial), [Arrive(held), Begin, PopOne], [Arrive(next)]);
    RunOne(c, RunOf(c, initial, held), Arrive(next));
    var s := Run(c, Init(initial), pre);
    assert s.queue == [next] && Held(s) == [held] && s.tables == initial;
    assert Smaller(limit, |s.queue|) == 1;
    assert Drained(s, limit) == [next] && Left(s, limit) == [];
    assert Room(c, s, limit) == [];
    assert Held(s) + Room(c, s, limit) == [held];
    FirstOne(c.valid, held, t);
    FirstOne(c.valid, next, t);
    assert ConflictAt(c, s, limit, t, KeyOf(t, held.row));
  }

  // ----- What is in a batch call when shutdown returns -----

  /** Every event popped so far is in a batch call. */
  ghost predicate AllInCalls(s: System) {
    multiset(Events(s.popped)) == multiset(Flatten(s.batches)) + multiset(Flatten(s.chunks))
  }

  lemma InCallsIffNothingCollected(c: Settings, s: System)
    requires Accounts(c, s) && s.stopper.Returned?
    ensures AllInCalls(s) <==> Collected(s.loop) == []
  {
    PartsMakeAll(s.popped);
    assert DrainPart(s.popped) == Flatten(s.chunks);
    assert multiset(LoopPart(s.popped)) == multiset(Flatten(s.batches)) + multiset(Collected(s.loop));
    assert |multiset(Events(s.popped))|
        == |multiset(Flatten(s.batches))| + |multiset(Flatten(s.chunks))| + |Collected(s.loop)|;
  }

  /** The loop holds nothing it has popped outside a batch call, and can pop nothing more. */
  predicate NothingCollected(c: Settings, s: System, limit: nat) {
    s.loop.Collecting? ==> s.loop.batch == [] && Room(c, s, limit) == []
  }

  lemma NothingMoreCollected(c: Settings, s0: System, limit: nat, s: System, ext: seq<Event>)
    requires Since(c, s0, limit, s, ext) && NothingCollected(c, s0, limit)
    ensures Collected(s.loop) == []
  {
    if s0.loop.Collecting? {
      assert |ext| <= |Room(c, s0, limit)|;
    }
  }

  /** The loop pops an event if it holds none, and keeps its window open until shutdown returns. */
  lemma StillCollecting(c: Settings, s: System, limit: nat) returns (post: seq<Step>)
    requires Accounts(c, s) && s.stopper.NotCalled? && !NothingCollected(c, s, limit)
    ensures var z := Run(c, Called(s, limit), post); z.stopper.Returned? && Collected(z.loop) != []
  {
    var s1 := Called(s, limit);
    var pop := if s.loop.batch == [] then [PopOne] else [];
    if s.loop.batch == [] {
      RunOne(c, s1, PopOne);
    }
    var held := Run(c, s1, pop);
    var rest := AllChunks(c, held);
    RunConcat(c, s1, pop, rest);
    post := pop + rest;
  }

  /** From any state in which the service may call shutdown: in every run everything popped is in a batch call by the
      time shutdown returns, exactly when the loop is not collecting, or is collecting nothing and has nothing left it
      may pop. */
  lemma AllInCallsAtReturnIff(c: Settings, initial: Tables, pre: seq<Step>, limit: nat)
    requires Run(c, Init(initial), pre).stopper.NotCalled?
    ensures var s := Run(c, Init(initial), pre);
            (forall post :: Run(c, Called(s, limit), post).stopper.Returned? ==>
                              AllInCalls(Run(c, Called(s, limit), post)))
            <==> NothingCollected(c, s, limit)
  {
    var s := Run(c, Init(initial), pre);
    EveryEventInOneBatch(c, initial, pre);
    CallAccounts(c, s, limit);
    if NothingCollected(c, s, limit) {
      forall post | Run(c, Called(s, limit), post).stopper.Returned?
        ensures AllInCalls(Run(c, Called(s, limit), post))
      {
        SinceCall(c, s, limit);
        var ext := SinceRun(c, s, limit, Called(s, limit), [], post);
        RunAccounts(c, Called(s, limit), post);
        NothingMoreCollected(c, s, limit, Run(c, Called(s, limit), post), ext);
        InCallsIffNothingCollected(c, Run(c, Called(s, limit), post));
      }
    } else {
      var post := StillCollecting(c, s, limit);
      RunAccounts(c, Called(s, limit), post);
      InCallsIffNothingCollected(c, Run(c, Called(s, limit), post));
      assert !AllInCalls(Run(c, Called(s, limit), post));
    }
  }
}
