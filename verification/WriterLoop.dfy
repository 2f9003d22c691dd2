/** The consuming side of the database writer (src/persistence/writer.py): the batches it collects from its queue, its
    main loop, and its shutdown while that loop is idle. */
module WriterLoop {
  import opened Writer

  /** What the producers append at those polls. */
  function Arrivals(arriving: nat -> seq<Event>, from: nat, until: nat): seq<Event> {
    if until <= from then [] else Arrivals(arriving, from, until - 1) + arriving(until - 1)
  }

  lemma ReceivedMore(received: seq<Event>, arriving: nat -> seq<Event>, from: nat, mid: nat, until: nat)
    requires from <= mid <= until
    ensures received + Arrivals(arriving, from, mid) + Arrivals(arriving, mid, until)
            == received + Arrivals(arriving, from, until)
  {
    ArrivalsSplit(arriving, from, mid, until);
    ConcatAssociates(received, Arrivals(arriving, from, mid), Arrivals(arriving, mid, until));
  }

  lemma {:induction false} ArrivalsSplit(arriving: nat -> seq<Event>, from: nat, mid: nat, until: nat)
    requires from <= mid <= until
    ensures Arrivals(arriving, from, until) == Arrivals(arriving, from, mid) + Arrivals(arriving, mid, until)
  {
    if mid < until {
      ArrivalsSplit(arriving, from, mid, until - 1);
      ConcatAssociates(Arrivals(arriving, from, mid), Arrivals(arriving, mid, until - 1), arriving(until - 1));
    }
  }

  lemma OnePoll(batch: seq<Event>, queue: seq<Event>, before: seq<Event>, received: seq<Event>, arrived: seq<Event>,
                more: seq<Event>)
    requires batch + queue == before + arrived
    ensures batch + (queue + more) == before + (arrived + more)
    ensures received + arrived + more == received + (arrived + more)
  {
    ConcatAssociates(batch, queue, more);
    ConcatAssociates(before, arrived, more);
    ConcatAssociates(received, arrived, more);
  }

  lemma Regrouped(done: seq<Event>, before: seq<Event>, arrived: seq<Event>, batch: seq<Event>, queue: seq<Event>)
    requires batch + queue == before + arrived
    ensures done + before + arrived == done + batch + queue
  {
    ConcatAssociates(done, before, arrived);
    ConcatAssociates(done, batch, queue);
  }

  lemma NothingElse(done: seq<Event>, batch: seq<Event>, queue: seq<Event>)
    ensures done + batch + [] + queue == done + batch + queue && done + [] == done
  {
    assert done + batch + [] == done + batch;
  }

  lemma PopFirst(batch: seq<Event>, queue: seq<Event>)
    requires queue != []
    ensures batch + [queue[0]] + queue[1..] == batch + queue
  {
  }

  /** The batch window was open at all of those polls. */
  ghost predicate AllOpen(timeUp: nat -> bool, from: nat, until: nat) {
    forall p :: from <= p < until ==> !timeUp(p)
  }

  /** At how many of those polls it had closed. */
  function Closings(timeUp: nat -> bool, from: nat, until: nat): nat {
    if until <= from then 0 else Closings(timeUp, from, until - 1) + if timeUp(until - 1) then 1 else 0
  }

  lemma {:induction false} OpenPolls(timeUp: nat -> bool, start: nat, from: nat, until: nat)
    requires start <= from <= until && AllOpen(timeUp, from, until)
    ensures Closings(timeUp, start, until) == Closings(timeUp, start, from)
  {
    if from < until {
      OpenPolls(timeUp, start, from, until - 1);
    }
  }

  /** What is left of a backlog after that many full batches. */
  function Backlog(waiting: nat, batches: nat, size: nat): nat {
    if batches * size <= waiting then waiting - batches * size else 0
  }

  lemma BacklogStep(waiting: nat, batches: nat, size: nat, arrived: nat, more: nat, queue: nat, queue': nat,
                    closed: bool)
    requires queue <= Backlog(waiting, batches, size) + arrived
    requires queue' == 0 || (closed && queue' <= queue + more) || (!closed && queue' + size == queue + more)
    ensures queue' <= Backlog(waiting, if closed then batches else batches + 1, size) + arrived + more
  {
    assert (batches + 1) * size == batches * size + size;
  }

  /** The consuming side. Producers append to the queue while it waits (`arriving`, poll by poll); the batch
      window may have closed at any poll (`timeUp`). The ghost fields record everything ever received and every batch
      handed to the writer. */
  class AsyncDatabaseWriter {
    const db: Database
    const batchSizeMax: nat
    const retryAttempts: int
    const timeUp: nat -> bool
    const arriving: nat -> seq<Event>
    var queue: seq<Event>
    var polls: nat
    ghost var received: seq<Event>
    ghost var batches: seq<seq<Event>>
    /** Every batch call so far returned normally and skipped no row. */
    ghost var clean: bool
    ghost const initial: Tables

    constructor (db: Database, batchSizeMax: nat, retryAttempts: int, timeUp: nat -> bool, arriving: nat -> seq<Event>)
      ensures Valid() && this.db == db && queue == [] && received == [] && batches == [] && initial == db.tables
      ensures this.batchSizeMax == batchSizeMax && this.retryAttempts == retryAttempts
      ensures this.timeUp == timeUp && this.arriving == arriving
    {
      this.db, this.batchSizeMax, this.retryAttempts := db, batchSizeMax, retryAttempts;
      this.timeUp, this.arriving := timeUp, arriving;
      queue, polls, received, batches, clean, initial := [], 0, [], [], true, db.tables;
    }

    /** Everything received is, in order, in exactly one batch of bounded size or still queued; as long as every batch
        call returned, the keyed tables are those of one clean pass over all batched events. */
    ghost predicate Valid()
      reads this, db
    {
      && received == Flatten(batches) + queue
      && (forall i :: 0 <= i < |batches| ==> 0 < |batches[i]| <= batchSizeMax)
      && (clean && retryAttempts > 0 ==> KeyedClean(db.valid, Flatten(batches), initial, db.tables))
    }

    /** A clean run is still clean if nothing since that transaction was harmful. */
    ghost predicate CleanSince(from: nat, was: bool)
      reads this, db
    {
      from <= db.tick && (was && Harmless(db.faults, from, db.tick, retryAttempts) ==> clean)
    }

    lemma StaysHarmless(from: nat, mid: nat)
      requires from <= mid <= db.tick
      ensures Harmless(db.faults, from, db.tick, retryAttempts) ==>
                Harmless(db.faults, from, mid, retryAttempts) && Harmless(db.faults, mid, db.tick, retryAttempts)
    {
      if Harmless(db.faults, from, db.tick, retryAttempts) {
        HarmlessSplit(db.faults, from, mid, db.tick, retryAttempts);
      }
    }

    /** From that poll on until this one a batch of n was collected: a full one with the window open at every poll, or
        one that was cut off because the window had closed at the last poll or nothing was left. */
    ghost predicate Collects(from: nat, until: nat, n: nat, drained: bool) {
      if n == batchSizeMax then until == from + n && AllOpen(timeUp, from, until)
      else
        && n < batchSizeMax && until == from + n + 1 && AllOpen(timeUp, from, until - 1)
        && (timeUp(until - 1) || drained)
    }

    /** Pops up to batchSizeMax events, fewer when the window closes or the queue stays empty. */
    method CollectBatch() returns (batch: seq<Event>)
      requires Valid()
      modifies this`queue, this`polls, this`received
      ensures batch + queue == old(queue) + Arrivals(arriving, old(polls), polls)
      ensures received == old(received) + Arrivals(arriving, old(polls), polls)
      ensures Collects(old(polls), polls, |batch|, queue == [])
      ensures received == Flatten(batches) + batch + queue
    {
      batch := [];
      assert old(queue) + [] == old(queue) == batch + queue;
      while |batch| < batchSizeMax
        modifies this`queue, this`polls, this`received
        invariant |batch| <= batchSizeMax && polls == old(polls) + |batch| && AllOpen(timeUp, old(polls), polls)
        invariant batch + queue == old(queue) + Arrivals(arriving, old(polls), polls)
        invariant received == old(received) + Arrivals(arriving, old(polls), polls)
      {
        OnePoll(batch, queue, old(queue), old(received), Arrivals(arriving, old(polls), polls), arriving(polls));
        queue, received, polls := queue + arriving(polls), received + arriving(polls), polls + 1;
        if timeUp(polls - 1) {
          break;
        }
        if queue == [] {
          break;
        }
        PopFirst(batch, queue);
        batch, queue := batch + [queue[0]], queue[1..];
      }
      Regrouped(Flatten(batches), old(queue), Arrivals(arriving, old(polls), polls), batch, queue);
    }

    /** Hands one batch over; an exception drops it. */
    method Write(batch: seq<Event>, ghost rest: seq<Event>)
      requires received == Flatten(batches) + batch + rest + queue
      requires 0 < |batch| <= batchSizeMax
      requires forall i :: 0 <= i < |batches| ==> 0 < |batches[i]| <= batchSizeMax
      requires clean && retryAttempts > 0 ==> KeyedClean(db.valid, Flatten(batches), initial, db.tables)
      modifies this`batches, this`clean, db
      ensures batches == old(batches) + [batch]
      ensures received == Flatten(batches) + rest + queue
      ensures clean ==> old(clean)
      ensures CleanSince(old(db.tick), old(clean))
      ensures clean && retryAttempts > 0 ==> KeyedClean(db.valid, Flatten(batches), initial, db.tables)
    {
      ghost var before, skips := db.tables, db.skips;
      FlattenSnoc(batches, batch);
      var out, attempts := WriteBatchWithRetries(db, batch, retryAttempts);
      if out.Done? && db.skips == skips {
        if clean && retryAttempts > 0 {
          CleanPassesCompose(db.valid, Flatten(batches), batch, initial, before, db.tables);
        }
      } else {
        clean := false;
      }
      batches := batches + [batch];
    }

    /** One pass of the main loop. */
    method Pass() returns (ghost batch: seq<Event>)
      requires Valid()
      modifies this`queue, this`polls, this`received, this`batches, this`clean, db
      ensures Valid() && CleanSince(old(db.tick), old(clean))
      ensures batch + queue == old(queue) + Arrivals(arriving, old(polls), polls)
      ensures received == old(received) + Arrivals(arriving, old(polls), polls)
      ensures Collects(old(polls), polls, |batch|, queue == []) && old(polls) <= polls
      ensures batches == old(batches) + if batch == [] then [] else [batch]
    {
      var collected := CollectBatch();
      batch := collected;
      HandOver(collected);
    }

    /** Writes what was collected, if anything was. */
    method HandOver(batch: seq<Event>)
      requires received == Flatten(batches) + batch + queue && |batch| <= batchSizeMax
      requires forall i :: 0 <= i < |batches| ==> 0 < |batches[i]| <= batchSizeMax
      requires clean && retryAttempts > 0 ==> KeyedClean(db.valid, Flatten(batches), initial, db.tables)
      modifies this`batches, this`clean, db
      ensures Valid() && CleanSince(old(db.tick), old(clean))
      ensures batches == old(batches) + if batch == [] then [] else [batch]
    {
      NothingElse(Flatten(batches), batch, queue);
      if batch != [] {
        Write(batch, []);
        NothingElse(Flatten(batches), [], queue);
      }
    }

    /** With the window open, a pass that finds an event collects one. */
    lemma OpenWindowCollects(from: nat, until: nat, before: seq<Event>, batch: seq<Event>, after: seq<Event>)
      requires Collects(from, until, |batch|, after == []) && batch + after == before + Arrivals(arriving, from, until)
      requires batchSizeMax > 0 && !timeUp(from) && before + arriving(from) != []
      ensures batch != []
    {
      assert Arrivals(arriving, from, from) == [];
      assert Arrivals(arriving, from, from + 1) == arriving(from);
    }

    /** After that many passes the backlog has shrunk by a full batch for each pass that no closed window cut short, or
        the queue was emptied meanwhile, however many events arrived. */
    ghost predicate Served(passes: nat, from: nat, until: nat, waiting: nat, queue: nat) {
      && from <= until && Closings(timeUp, from, until) <= passes
      && queue <= Backlog(waiting, passes - Closings(timeUp, from, until), batchSizeMax)
                  + |Arrivals(arriving, from, until)|
    }

    /** The main loop, for any number of passes before the stop event is seen. */
    method Run(passes: nat)
      requires Valid()
      modifies this`queue, this`polls, this`received, this`batches, this`clean, db
      ensures Valid() && old(batches) <= batches && CleanSince(old(db.tick), old(clean))
      ensures received == old(received) + Arrivals(arriving, old(polls), polls)
      ensures Served(passes, old(polls), polls, |old(queue)|, |queue|)
    {
      assert old(received) + [] == old(received);
      for p := 0 to passes
        invariant Valid() && old(batches) <= batches && CleanSince(old(db.tick), old(clean))
        invariant received == old(received) + Arrivals(arriving, old(polls), polls)
        invariant Served(p, old(polls), polls, |old(queue)|, |queue|)
      {
        ghost var tick, poll, waiting := db.tick, polls, queue;
        ghost var batch := Pass();
        StaysHarmless(old(db.tick), tick);
        ServedMore(p, old(polls), poll, polls, |old(queue)|, waiting, batch, queue);
        ReceivedMore(old(received), arriving, old(polls), poll, polls);
      }
    }

    lemma ServedMore(passes: nat, from: nat, mid: nat, until: nat, waiting: nat, before: seq<Event>, batch: seq<Event>,
                     after: seq<Event>)
      requires Served(passes, from, mid, waiting, |before|) && Collects(mid, until, |batch|, after == [])
      requires batch + after == before + Arrivals(arriving, mid, until)
      ensures Served(passes + 1, from, until, waiting, |after|)
    {
      var closed := Closings(timeUp, from, until) > Closings(timeUp, from, mid);
      assert |batch| + |after| == |before| + |Arrivals(arriving, mid, until)|;
      ArrivalsSplit(arriving, from, mid, until);
      PassClosings(from, mid, until, |batch|, after == []);
      BacklogStep(waiting, passes - Closings(timeUp, from, mid), batchSizeMax, |Arrivals(arriving, from, mid)|,
                  |Arrivals(arriving, mid, until)|, |before|, |after|, closed);
    }

    lemma PassClosings(start: nat, from: nat, until: nat, n: nat, drained: bool)
      requires start <= from && Collects(from, until, n, drained)
      ensures Closings(timeUp, start, from) <= Closings(timeUp, start, until) <= Closings(timeUp, start, from) + 1
      ensures Closings(timeUp, start, until) == Closings(timeUp, start, from) ==> n == batchSizeMax || drained
      ensures from <= until
    {
      if n == batchSizeMax {
        OpenPolls(timeUp, start, from, until);
      } else {
        OpenPolls(timeUp, start, from, until - 1);
      }
    }

    /** Pops queued events without waiting, up to the deadline. */
    method Drain(drainLimit: nat) returns (remaining: seq<Event>)
      modifies this`queue
      ensures remaining + queue == old(queue)
      ensures |remaining| == if drainLimit < |old(queue)| then drainLimit else |old(queue)|
    {
      remaining := [];
      while queue != [] && |remaining| < drainLimit
        invariant remaining + queue == old(queue) && |remaining| <= drainLimit
        decreases |queue|
      {
        remaining, queue := remaining + [queue[0]], queue[1..];
      }
    }

    /** Those batches have the maximal size. */
    ghost predicate AllFull(all: seq<seq<Event>>, from: int, until: int) {
      forall i :: 0 <= from <= i < until && i < |all| ==> |all[i]| == batchSizeMax
    }

    /** Writes a tail in chunks of batchSizeMax, of which only the last may be smaller; with a batch size of 0
        there is no such chunk, and a tail is lost. */
    method WriteChunks(remaining: seq<Event>) returns (raised: bool)
      requires received == Flatten(batches) + remaining + queue
      requires forall i :: 0 <= i < |batches| ==> 0 < |batches[i]| <= batchSizeMax
      requires clean && retryAttempts > 0 ==> KeyedClean(db.valid, Flatten(batches), initial, db.tables)
      modifies this`batches, this`clean, db
      ensures raised <==> batchSizeMax == 0 && remaining != []
      ensures old(batches) <= batches && (raised ==> batches == old(batches) && db.tables == old(db.tables))
      ensures AllFull(batches, |old(batches)|, |batches| - 1)
      ensures !raised ==> Valid()
      ensures CleanSince(old(db.tick), old(clean))
    {
      assert remaining[0..] == remaining;
      if batchSizeMax == 0 && remaining != [] {
        return true;
      }
      var i := 0;
      while i < |remaining|
        invariant 0 <= i <= |remaining| && old(batches) <= batches
        invariant AllFull(batches, |old(batches)|, if i < |remaining| then |batches| else |batches| - 1)
        invariant CleanSince(old(db.tick), old(clean))
        invariant received == Flatten(batches) + remaining[i..] + queue
        invariant forall j :: 0 <= j < |batches| ==> 0 < |batches[j]| <= batchSizeMax
        invariant clean && retryAttempts > 0 ==> KeyedClean(db.valid, Flatten(batches), initial, db.tables)
      {
        var end := if i + batchSizeMax <= |remaining| then i + batchSizeMax else |remaining|;
        assert remaining[i..] == remaining[i..end] + remaining[end..];
        ConcatAssociates(Flatten(batches), remaining[i..end], remaining[end..]);
        ghost var tick := db.tick;
        Write(remaining[i..end], remaining[end..]);
        StaysHarmless(old(db.tick), tick);
        i := end;
      }
      assert remaining[i..] == [] && Flatten(batches) + [] == Flatten(batches);
      raised := false;
    }

    /** Stops, drains up to `drainLimit` queued events (as many as fit before the deadline) and writes them in chunks,
        while the main loop holds no batch; Shutdown.dfy has the runs in which it does. */
    method Shutdown(drainLimit: nat) returns (raised: bool)
      requires Valid()
      modifies this`queue, this`batches, this`clean, db
      ensures received == old(received) && old(batches) <= batches
      ensures |queue| == if drainLimit < |old(queue)| then |old(queue)| - drainLimit else 0
      ensures raised <==> batchSizeMax == 0 && drainLimit > 0 && old(queue) != []
      ensures raised ==> batches == old(batches) && db.tables == old(db.tables)
      ensures AllFull(batches, |old(batches)|, |batches| - 1)
      ensures !raised ==> Valid()
      ensures CleanSince(old(db.tick), old(clean))
      ensures !raised && |old(queue)| <= drainLimit ==> Flatten(batches) == received
    {
      var remaining := Drain(drainLimit);
      ConcatAssociates(Flatten(batches), remaining, queue);
      raised := WriteChunks(remaining);
      assert queue == [] ==> Flatten(batches) + queue == Flatten(batches);
    }
  }
}
