/** The byte-bounded hand-off between the coroutine that reads an archive and the one that feeds it
    to a restore tool, under every interleaving of the two. */
module ReadAhead {
  import opened Prelude

  type Error = int

  /** What the source will do: yield these chunks, then end or fail. */
  datatype Source = Source(chunks: seq<Bytes>, failure: Option<Error>)

  const CANCELLED: Error := -1

  datatype Buffer = Buffer(chunks: seq<Bytes>, size: int, closed: bool, failure: Option<Error>)

  datatype Producer =
    | Pulling(next: nat)            // waiting for the source's chunk `next`
    | Putting(next: nat)            // waiting for room for it
    | Finishing(failure: Option<Error>)
    | Filled

  datatype Consumer = Getting | Writing | Ended | Raised(error: Error) | Stopping | Closed

  datatype State = State(buffer: Buffer, producer: Producer, consumer: Consumer, delivered: seq<Bytes>)

  datatype Event =
    | SourceYields | SourceStops | PutProceeds | ProducerCloses
    | GetProceeds | WriteDone | ConsumerStops | ConsumerCloses | FillerCancelled

  const START := State(Buffer([], 0, false, None), Pulling(0), Getting, [])

  /** `put` may go on: there is room, or nobody will read any more. */
  predicate PutReady(b: Buffer, maxBytes: int) {
    b.size < maxBytes || b.closed
  }

  predicate GetReady(b: Buffer) {
    b.chunks != [] || b.closed
  }

  function Put(b: Buffer, chunk: Bytes): Buffer {
    if b.closed then b else b.(chunks := b.chunks + [chunk], size := b.size + |chunk|)
  }

  function Close(b: Buffer, failure: Option<Error>): Buffer {
    b.(closed := true, failure := failure)
  }

  predicate Enabled(src: Source, maxBytes: int, st: State, e: Event) {
    match e
    case SourceYields => st.producer.Pulling? && st.producer.next < |src.chunks|
    case SourceStops => st.producer == Pulling(|src.chunks|)
    case PutProceeds => st.producer.Putting? && st.producer.next < |src.chunks| && PutReady(st.buffer, maxBytes)
    case ProducerCloses => st.producer.Finishing?
    case GetProceeds => st.consumer == Getting && GetReady(st.buffer)
    case WriteDone => st.consumer == Writing
    case ConsumerStops => st.consumer == Getting || st.consumer == Writing
    case ConsumerCloses => st.consumer == Ended || st.consumer.Raised? || st.consumer == Stopping
    case FillerCancelled => st.consumer == Closed && (st.producer.Pulling? || st.producer.Putting?)
  }

  function Step(src: Source, maxBytes: int, st: State, e: Event): State
    requires Enabled(src, maxBytes, st, e)
  {
    match e
    case SourceYields => st.(producer := Putting(st.producer.next))
    case SourceStops => st.(producer := Finishing(src.failure))
    case PutProceeds =>
      st.(producer := Pulling(st.producer.next + 1), buffer := Put(st.buffer, src.chunks[st.producer.next]))
    case ProducerCloses => st.(producer := Filled, buffer := Close(st.buffer, st.producer.failure))
    case GetProceeds =>
      if st.buffer.chunks != [] then
        var chunk := st.buffer.chunks[0];
        st.(buffer := st.buffer.(chunks := st.buffer.chunks[1..], size := st.buffer.size - |chunk|),
            consumer := Writing, delivered := st.delivered + [chunk])
      else if st.buffer.failure.Some? then st.(consumer := Raised(st.buffer.failure.value))
      else st.(consumer := Ended)
    case WriteDone => st.(consumer := Getting)
    case ConsumerStops => st.(consumer := Stopping)
    case ConsumerCloses => st.(consumer := Closed, buffer := Close(st.buffer, None))
    case FillerCancelled => st.(producer := Finishing(Some(CANCELLED)))
  }

  // ---------------------------------------------------------------- the buffer itself

  /** The buffer object. `Put` and `Get` are what runs once their wait has ended. */
  class ReadAheadBuffer {
    const maxBytes: int
    var chunks: seq<Bytes>
    var size: int
    var closed: bool
    var failure: Option<Error>

    ghost function View(): Buffer
      reads this
    {
      Buffer(chunks, size, closed, failure)
    }

    ghost predicate Valid()
      reads this
    {
      size == Total(chunks)
    }

    constructor (maxBytes: int)
      ensures Valid() && View() == Buffer([], 0, false, None) && this.maxBytes == maxBytes
    {
      this.maxBytes := maxBytes;
      chunks, size, closed, failure := [], 0, false, None;
    }

    method PutChunk(chunk: Bytes)
      requires Valid() && PutReady(View(), maxBytes)
      modifies this
      ensures Valid() && View() == Put(old(View()), chunk)
      ensures size < maxBytes + |chunk| || closed
    {
      if closed { return; }
      TotalAppend(chunks, chunk);
      chunks := chunks + [chunk];
      size := size + |chunk|;
    }

    /** The next chunk; once the producer has closed and the buffer is drained, its failure or
        the end of the stream. */
    method GetChunk() returns (chunk: Option<Bytes>, raised: Option<Error>)
      requires Valid() && GetReady(View())
      modifies this
      ensures Valid() && closed == old(closed) && failure == old(failure)
      ensures if old(chunks) != [] then
          chunk == Some(old(chunks)[0]) && raised == None && chunks == old(chunks)[1..]
        else
          chunk == None && raised == old(failure) && chunks == []
    {
      if chunks != [] {
        TotalFirst(chunks);
        chunk, raised := Some(chunks[0]), None;
        size := size - |chunks[0]|;
        chunks := chunks[1..];
      } else {
        chunk, raised := None, failure;
      }
    }

    method CloseBuffer(failure: Option<Error>)
      requires Valid()
      modifies this
      ensures Valid() && View() == Close(old(View()), failure)
    {
      closed := true;
      this.failure := failure;
    }
  }

  function Total(chunks: seq<Bytes>): nat {
    if chunks == [] then 0 else |chunks[0]| + Total(chunks[1..])
  }

  lemma {:induction false} TotalAppend(chunks: seq<Bytes>, chunk: Bytes)
    ensures Total(chunks + [chunk]) == Total(chunks) + |chunk|
  {
    if chunks == [] {
      assert chunks + [chunk] == [chunk] && [chunk][1..] == [];
    } else {
      assert (chunks + [chunk])[1..] == chunks[1..] + [chunk];
      TotalAppend(chunks[1..], chunk);
    }
  }

  lemma TotalFirst(chunks: seq<Bytes>)
    requires chunks != []
    ensures Total(chunks) == |chunks[0]| + Total(chunks[1..])
  {
  }

  // ---------------------------------------------------------------- invariant

  /** How many of the source's chunks the producer has put. */
  function Produced(src: Source, p: Producer): nat {
    if p.Pulling? || p.Putting? then p.next else |src.chunks|
  }

  ghost predicate SizeInv(maxBytes: int, b: Buffer) {
    && b.size == Total(b.chunks)
    && (b.chunks != [] ==> Total(b.chunks[..|b.chunks| - 1]) < maxBytes)
  }

  ghost predicate FlowInv(src: Source, st: State) {
    && (st.producer.Pulling? ==> st.producer.next <= |src.chunks|)
    && (st.producer.Putting? ==> st.producer.next < |src.chunks|)
    && st.delivered <= src.chunks
    && (st.consumer != Closed ==>
          && st.delivered + st.buffer.chunks == src.chunks[..Produced(src, st.producer)]
          && (st.buffer.closed <==> st.producer == Filled)
          && (st.producer.Finishing? ==> st.producer.failure == src.failure)
          && (st.buffer.closed ==> st.buffer.failure == src.failure))
    && (st.consumer == Ended ==> st.delivered == src.chunks && src.failure == None)
    && (st.consumer.Raised? ==> st.delivered == src.chunks && src.failure == Some(st.consumer.error))
  }

  lemma SizeKept(src: Source, maxBytes: int, st: State, e: Event)
    requires SizeInv(maxBytes, st.buffer) && Enabled(src, maxBytes, st, e)
    ensures SizeInv(maxBytes, Step(src, maxBytes, st, e).buffer)
  {
    var b := st.buffer;
    if e == PutProceeds && !b.closed {
      TotalAppend(b.chunks, src.chunks[st.producer.next]);
      assert (b.chunks + [src.chunks[st.producer.next]])[..|b.chunks|] == b.chunks;
    } else if e == GetProceeds && |b.chunks| > 1 {
      TotalFirst(b.chunks);
      assert b.chunks[1..][..|b.chunks| - 2] == b.chunks[..|b.chunks| - 1][1..];
    }
  }

  lemma FlowKept(src: Source, maxBytes: int, st: State, e: Event)
    requires FlowInv(src, st) && Enabled(src, maxBytes, st, e)
    ensures FlowInv(src, Step(src, maxBytes, st, e))
  {
    var b := st.buffer;
    if e == PutProceeds {
      var n := st.producer.next;
      assert src.chunks[..n + 1] == src.chunks[..n] + [src.chunks[n]];
      assert st.delivered + (b.chunks + [src.chunks[n]]) == (st.delivered + b.chunks) + [src.chunks[n]];
    } else if e == GetProceeds && b.chunks != [] {
      assert st.delivered + b.chunks == (st.delivered + [b.chunks[0]]) + b.chunks[1..];
    } else if e == GetProceeds {
      assert st.delivered + [] == st.delivered && src.chunks[..|src.chunks|] == src.chunks;
    }
  }

  // ---------------------------------------------------------------- runs

  ghost predicate IsRun(src: Source, maxBytes: int, states: seq<State>, events: seq<Event>) {
    && |states| == |events| + 1 && states[0] == START
    && forall i | 0 <= i < |events| :: StepAt(src, maxBytes, states, events, i)
  }

  predicate StepAt(src: Source, maxBytes: int, states: seq<State>, events: seq<Event>, i: nat)
    requires i < |events| && |states| == |events| + 1
  {
    Enabled(src, maxBytes, states[i], events[i]) && states[i + 1] == Step(src, maxBytes, states[i], events[i])
  }

  lemma {:induction false} RunKeepsInv(src: Source, maxBytes: int, states: seq<State>, events: seq<Event>, n: nat)
    requires IsRun(src, maxBytes, states, events) && n < |states|
    ensures SizeInv(maxBytes, states[n].buffer) && FlowInv(src, states[n])
  {
    if n > 0 {
      RunKeepsInv(src, maxBytes, states, events, n - 1);
      assert StepAt(src, maxBytes, states, events, n - 1);
      SizeKept(src, maxBytes, states[n - 1], events[n - 1]);
      FlowKept(src, maxBytes, states[n - 1], events[n - 1]);
    }
  }

  /** The counter is the bytes really buffered, and the window overruns by less than one chunk:
      everything but the newest chunk fits strictly inside it. */
  lemma BytesAreBounded(src: Source, maxBytes: int, states: seq<State>, events: seq<Event>, n: nat)
    requires IsRun(src, maxBytes, states, events) && n < |states|
    ensures var b := states[n].buffer;
      && b.size == Total(b.chunks)
      && (b.chunks != [] ==> b.size < maxBytes + |b.chunks[|b.chunks| - 1]|)
  {
    var b := states[n].buffer;
    RunKeepsInv(src, maxBytes, states, events, n);
    if b.chunks != [] {
      var last := |b.chunks| - 1;
      TotalAppend(b.chunks[..last], b.chunks[last]);
      assert b.chunks == b.chunks[..last] + [b.chunks[last]];
    }
  }

  /** What has been delivered is always the source's own chunks, in order, from the start; the end
      of the stream is reported only after all of them and only if the source ended cleanly; a
      failure is raised only after all of them, and it is the source's. */
  lemma DeliveredInOrder(src: Source, maxBytes: int, states: seq<State>, events: seq<Event>, n: nat)
    requires IsRun(src, maxBytes, states, events) && n < |states|
    ensures states[n].delivered <= src.chunks
    ensures states[n].consumer == Ended ==> states[n].delivered == src.chunks && src.failure == None
    ensures states[n].consumer.Raised? ==>
      states[n].delivered == src.chunks && src.failure == Some(states[n].consumer.error)
  {
    RunKeepsInv(src, maxBytes, states, events, n);
  }

  predicate ProducerWaits(maxBytes: int, st: State) {
    st.producer.Putting? && !PutReady(st.buffer, maxBytes)
  }

  predicate ConsumerWaits(st: State) {
    st.consumer == Getting && !GetReady(st.buffer)
  }

  ghost predicate CanDeadlock(src: Source, maxBytes: int) {
    exists states: seq<State>, events: seq<Event>, n: nat ::
      IsRun(src, maxBytes, states, events) && n < |states| && ProducerWaits(maxBytes, states[n]) && ConsumerWaits(states[n])
  }

  /** The two wait on each other in some run exactly when the window is empty and there is
      something to send: any positive window rules it out. */
  lemma DeadlockExactly(src: Source, maxBytes: int)
    ensures CanDeadlock(src, maxBytes) <==> maxBytes <= 0 && src.chunks != []
  {
    if states: seq<State>, events: seq<Event>, n: nat :|
        IsRun(src, maxBytes, states, events) && n < |states| && ProducerWaits(maxBytes, states[n]) && ConsumerWaits(states[n])
    {
      RunKeepsInv(src, maxBytes, states, events, n);
      assert states[n].buffer.size == 0;
    }
    if maxBytes <= 0 && src.chunks != [] {
      var next := Step(src, maxBytes, START, SourceYields);
      var states, events := [START, next], [SourceYields];
      assert StepAt(src, maxBytes, states, events, 0);
      assert IsRun(src, maxBytes, states, events);
      assert ProducerWaits(maxBytes, states[1]) && ConsumerWaits(states[1]);
    }
  }

  /** While the consumer still reads, some step of the pair is possible: neither is ever stuck
      waiting for a close that cannot come. */
  lemma AlwaysProgress(src: Source, maxBytes: int, states: seq<State>, events: seq<Event>, n: nat)
    requires IsRun(src, maxBytes, states, events) && n < |states| && maxBytes > 0
    requires states[n].consumer == Getting
    ensures || Enabled(src, maxBytes, states[n], GetProceeds) || Enabled(src, maxBytes, states[n], SourceYields)
      || Enabled(src, maxBytes, states[n], SourceStops) || Enabled(src, maxBytes, states[n], PutProceeds)
      || Enabled(src, maxBytes, states[n], ProducerCloses)
  {
    RunKeepsInv(src, maxBytes, states, events, n);
  }

  /** At every moment of every run: a producer with a chunk in hand goes on exactly while the bytes
      buffered are fewer than the window or the buffer is closed, a consumer exactly while something is
      buffered or the buffer is closed, and it is closed exactly once one of them is done. */
  lemma {:induction false} WaitsExactly(src: Source, maxBytes: int, states: seq<State>, events: seq<Event>, n: nat)
    requires IsRun(src, maxBytes, states, events) && n < |states|
    ensures var st := states[n];
      && (Enabled(src, maxBytes, st, PutProceeds) <==> st.producer.Putting? && (Total(st.buffer.chunks) < maxBytes || st.buffer.closed))
      && (Enabled(src, maxBytes, st, GetProceeds) <==> st.consumer == Getting && (st.buffer.chunks != [] || st.buffer.closed))
      && (st.buffer.closed <==> st.producer == Filled || st.consumer == Closed)
  {
    RunKeepsInv(src, maxBytes, states, events, n);
    if n > 0 {
      WaitsExactly(src, maxBytes, states, events, n - 1);
      assert StepAt(src, maxBytes, states, events, n - 1);
    }
  }

  // ---------------------------------------------------------------- termination

  /** The consumer never stopped early: it ends only once the producer has. */
  predicate Undisturbed(src: Source, st: State) {
    && st.consumer != Stopping
    && (st.consumer == Ended || st.consumer.Raised? || st.consumer == Closed ==>
          st.producer == Filled && st.delivered == src.chunks)
  }

  /** How many steps the pair still has to take. */
  function Left(src: Source, st: State): int {
    var producer := match st.producer
      case Pulling(k) => 2 * (|src.chunks| - k) + 2
      case Putting(k) => 2 * (|src.chunks| - k) + 1
      case Finishing(_) => 1
      case Filled => 0;
    var undelivered := |src.chunks| - |st.delivered|;
    var consumer := match st.consumer
      case Getting => 2 * undelivered + 2
      case Writing => 2 * undelivered + 3
      case Ended => 1
      case Raised(_) => 1
      case Stopping => 1
      case Closed => 0;
    producer + consumer
  }

  lemma EveryStepCounts(src: Source, maxBytes: int, st: State, e: Event)
    requires FlowInv(src, st) && Undisturbed(src, st) && Enabled(src, maxBytes, st, e) && e != ConsumerStops
    ensures var next := Step(src, maxBytes, st, e); Undisturbed(src, next) && Left(src, next) == Left(src, st) - 1
  {
    if e == GetProceeds && st.buffer.chunks == [] {
      assert st.delivered + [] == st.delivered && src.chunks[..|src.chunks|] == src.chunks;
    }
  }

  /** A run in which the consumer does not stop early takes four steps for each chunk and four more, less
      what is still to do: no run is longer, however the two interleave. */
  lemma {:induction false} StepsLeft(src: Source, maxBytes: int, states: seq<State>, events: seq<Event>, n: nat)
    requires IsRun(src, maxBytes, states, events) && n < |states| && ConsumerStops !in events[..n]
    ensures Undisturbed(src, states[n]) && n + Left(src, states[n]) == 4 * |src.chunks| + 4
    ensures Left(src, states[n]) >= 0
  {
    RunKeepsInv(src, maxBytes, states, events, n);
    if n > 0 {
      assert events[..n] == events[..n - 1] + [events[n - 1]];
      StepsLeft(src, maxBytes, states, events, n - 1);
      RunKeepsInv(src, maxBytes, states, events, n - 1);
      assert StepAt(src, maxBytes, states, events, n - 1);
      EveryStepCounts(src, maxBytes, states[n - 1], events[n - 1]);
    }
  }

  /** With a positive window every run the consumer does not cut short comes to its end: when no step is
      left to take, the whole source has been delivered, in exactly that many steps. */
  lemma EveryRunDelivers(src: Source, maxBytes: int, states: seq<State>, events: seq<Event>)
    requires IsRun(src, maxBytes, states, events) && maxBytes > 0 && ConsumerStops !in events
    requires forall e: Event | e != ConsumerStops :: !Enabled(src, maxBytes, states[|events|], e)
    ensures states[|events|].delivered == src.chunks && states[|events|].consumer == Closed
    ensures |events| == 4 * |src.chunks| + 4
  {
    var last := states[|events|];
    assert events[..|events|] == events;
    StepsLeft(src, maxBytes, states, events, |events|);
    if last.consumer == Getting { AlwaysProgress(src, maxBytes, states, events, |events|); }
    assert !Enabled(src, maxBytes, last, WriteDone) && !Enabled(src, maxBytes, last, ConsumerCloses);
  }
}
