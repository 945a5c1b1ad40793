/** A reader fed by a thread of its own: the thread fills buffers and sends them over a
    channel, the caller takes them apart. Every interleaving of the two is covered. */
module BackgroundReaders {
  import opened Wire
  import opened Repeats
  import opened SeqReaders

  /** Where the producer's loop stands. */
  datatype Producer = Filling(buffer: bytes) | Sending(buffer: bytes) | Stopped

  /** `delivered` and `ended` remember what the caller was given. */
  datatype State = State(
    source: bytes,
    producer: Producer,
    queue: seq<bytes>,
    current: Option<bytes>,
    position: nat,
    delivered: bytes,
    ended: bool)

  function Start(all: bytes): State {
    State(all, Filling([]), [], None, 0, [], false)
  }

  function Held(p: Producer): bytes {
    if p.Stopped? then [] else p.buffer
  }

  /** What is left of the buffer being taken apart. */
  function Pending(s: State): bytes {
    if s.current.Some? && s.position <= |s.current.value| then s.current.value[s.position..] else []
  }

  // ----- the steps

  /** One action of the producer. A read of the source gives `n` bytes; none means its end. */
  predicate ProducerStep(size: nat, s: State, n: nat, s': State) {
    match s.producer
    case Filling(b) =>
      if |b| >= size then s' == s.(producer := Sending(b))
      else if s.source == [] then s' == s.(producer := Sending(b))
      else
        && 0 < n <= |s.source| && n <= size - |b|
        && s' == s.(source := s.source[n..], producer := Filling(b + s.source[..n]))
    case Sending(b) =>
      s' == s.(queue := s.queue + [b], producer := if b == [] then Stopped else Filling([]))
    case Stopped => false
  }

  datatype Answer = Got(data: bytes) | Failed

  /** One call of `read`. It waits while the channel is empty and the producer still there. */
  predicate ReadStep(s: State, room: nat, answer: Answer, s': State) {
    if Pending(s) != [] then
      var n := Min(|Pending(s)|, room);
      && answer == Got(Pending(s)[..n])
      && s' == s.(position := s.position + n, delivered := s.delivered + Pending(s)[..n])
    else if s.queue != [] then
      var chunk := s.queue[0];
      var n := Min(|chunk|, room);
      && answer == Got(chunk[..n])
      && s' == s.(queue := s.queue[1..],
                  current := if chunk == [] then s.current else if n < |chunk| then Some(chunk) else None,
                  position := if chunk == [] then s.position else if n < |chunk| then n else 0,
                  delivered := s.delivered + chunk[..n],
                  ended := s.ended || chunk == [])
    else
      s.producer.Stopped? && answer == Failed && s' == s
  }

  datatype Event = Produce(n: nat) | Read(room: nat, answer: Answer)

  predicate Step(size: nat, s: State, e: Event, s': State) {
    match e
    case Produce(n) => ProducerStep(size, s, n, s')
    case Read(room, answer) => ReadStep(s, room, answer, s')
  }

  // ----- the invariant

  /** The queue holds full chunks, and once the producer has stopped one empty chunk at its
      end, until that has been received. */
  predicate QueueHolds(s: State) {
    && (forall i :: 0 <= i < |s.queue| && s.queue[i] == [] ==> i == |s.queue| - 1 && s.producer.Stopped?)
    && (s.producer.Stopped? ==> s.source == [] && (s.ended <==> s.queue == []))
    && (s.producer.Stopped? && s.queue != [] ==> s.queue[|s.queue| - 1] == [])
    && (s.ended ==> s.producer.Stopped? && Pending(s) == [])
  }

  /** Delivered, then the rest of the current buffer, then the queue, then what the producer
      holds, then what it has not read: always the source, in order. */
  predicate Inv(all: bytes, s: State) {
    && QueueHolds(s)
    && s.delivered + (Pending(s) + (Flatten(s.queue) + (Held(s.producer) + s.source))) == all
    && (s.producer.Sending? && s.producer.buffer == [] ==> s.source == [])
  }

  lemma StartHolds(all: bytes)
    ensures Inv(all, Start(all))
  {
    assert Flatten<byte>([]) == [];
    assert [] + ([] + ([] + ([] + all))) == all;
  }

  lemma ProducerKeeps(all: bytes, size: nat, s: State, n: nat, s': State)
    requires Inv(all, s) && size > 0 && ProducerStep(size, s, n, s')
    ensures Inv(all, s')
  {
    hide Flatten;
    match s.producer
    case Filling(b) =>
      if |b| < size && s.source != [] {
        assert (b + s.source[..n]) + s.source[n..] == b + s.source;
      }
    case Sending(b) =>
      FlattenSnoc(s.queue, b);
      Cat2(Flatten(s.queue), b, s.source);
      assert [] + s.source == s.source;
  }

  lemma ReadKeeps(all: bytes, s: State, room: nat, answer: Answer, s': State)
    requires Inv(all, s) && ReadStep(s, room, answer, s')
    ensures Inv(all, s')
  {
    hide Flatten;
    var behind := Held(s.producer) + s.source;
    if Pending(s) != [] {
      var p, n := Pending(s), Min(|Pending(s)|, room);
      assert Pending(s') == p[n..];
      TakeFront(s.delivered, p, n, Flatten(s.queue) + behind);
    } else if s.queue != [] {
      var chunk := s.queue[0];
      var n := Min(|chunk|, room);
      FlattenCons(s.queue);
      assert Pending(s') == chunk[n..];
      assert [] + (Flatten(s.queue) + behind) == Flatten(s.queue) + behind;
      Cat2(chunk, Flatten(s.queue[1..]), behind);
      TakeFront(s.delivered, chunk, n, Flatten(s.queue[1..]) + behind);
    }
  }

  lemma FlattenCons(parts: seq<bytes>)
    requires parts != []
    ensures Flatten(parts) == parts[0] + Flatten(parts[1..])
  {
  }

  lemma TakeFront(a: bytes, p: bytes, n: nat, rest: bytes)
    requires n <= |p|
    ensures (a + p[..n]) + (p[n..] + rest) == a + (p + rest)
  {
    assert p[..n] + p[n..] == p;
    Cat2(p[..n], p[n..], rest);
    Cat2(a, p[..n], p[n..] + rest);
  }

  // ----- whole runs

  /** A run: the events and the states between them. */
  predicate IsRun(size: nat, states: seq<State>, events: seq<Event>) {
    |states| == |events| + 1 && forall i :: 0 <= i < |events| ==> Step(size, states[i], events[i], states[i + 1])
  }

  lemma {:induction false} RunKeeps(all: bytes, size: nat, states: seq<State>, events: seq<Event>, i: nat)
    requires size > 0 && IsRun(size, states, events) && states[0] == Start(all) && i < |states|
    ensures Inv(all, states[i])
  {
    hide Inv, ProducerStep, ReadStep;
    if i == 0 {
      StartHolds(all);
    } else {
      RunKeeps(all, size, states, events, i - 1);
      assert Step(size, states[i - 1], events[i - 1], states[i]);
      match events[i - 1]
      case Produce(n) => ProducerKeeps(all, size, states[i - 1], n, states[i]);
      case Read(room, answer) => ReadKeeps(all, states[i - 1], room, answer, states[i]);
    }
  }

  /** In every run: what was delivered is a prefix of the source; a read that gives nothing
      into a buffer with room comes only when everything was delivered; no read fails before
      that; and afterwards every further read does. */
  lemma EndIsTheEnd(all: bytes, size: nat, states: seq<State>, events: seq<Event>, i: nat)
    requires size > 0 && IsRun(size, states, events) && states[0] == Start(all) && i < |events|
    ensures states[i].delivered <= all
    ensures events[i].Read? && events[i].room > 0 && events[i].answer == Got([]) ==>
      states[i].delivered == all && states[i + 1].ended
    ensures events[i].Read? ==> (events[i].answer == Failed <==> states[i].ended)
    ensures events[i].Read? && events[i].answer == Failed ==> states[i].delivered == all
  {
    hide Flatten;
    var s := states[i];
    RunKeeps(all, size, states, events, i);
    assert Step(size, s, events[i], states[i + 1]);
    if events[i].Read? && Pending(s) == [] && (s.queue == [] || s.queue[0] == []) {
      NothingElse(all, s);
    }
  }

  /** With no current buffer and the end of the channel in sight, all is delivered. */
  lemma NothingElse(all: bytes, s: State)
    requires Inv(all, s) && Pending(s) == [] && s.producer.Stopped? && (s.queue == [] || s.queue[0] == [])
    ensures s.delivered == all && (s.queue == [] || |s.queue| == 1)
  {
    assert s.queue != [] ==> s.queue[1..] == [];
    assert Flatten(s.queue) == [];
  }

  /** No reachable state is stuck before the end: the producer can go on, or the caller can. */
  lemma NeverStuck(all: bytes, size: nat, s: State, room: nat)
    requires size > 0 && Inv(all, s) && !s.ended && room > 0
    ensures (exists n: nat, s': State :: ProducerStep(size, s, n, s'))
         || (exists d: bytes, s': State :: ReadStep(s, room, Got(d), s'))
  {
    match s.producer
    case Filling(b) =>
      if |b| >= size || s.source == [] {
        assert ProducerStep(size, s, 0, s.(producer := Sending(b)));
      } else {
        assert ProducerStep(size, s, 1, s.(source := s.source[1..], producer := Filling(b + s.source[..1])));
      }
    case Sending(b) =>
      assert ProducerStep(size, s, 0, s.(queue := s.queue + [b], producer := if b == [] then Stopped else Filling([])));
    case Stopped =>
      if Pending(s) != [] {
        var n := Min(|Pending(s)|, room);
        assert ReadStep(s, room, Got(Pending(s)[..n]), s.(position := s.position + n, delivered := s.delivered + Pending(s)[..n]));
      } else {
        var chunk := s.queue[0];
        var n := Min(|chunk|, room);
        assert ReadStep(s, room, Got(chunk[..n]), s.(queue := s.queue[1..],
          current := if chunk == [] then s.current else if n < |chunk| then Some(chunk) else None,
          position := if chunk == [] then s.position else if n < |chunk| then n else 0,
          delivered := s.delivered + chunk[..n],
          ended := s.ended || chunk == []));
      }
  }

  // ----- every run comes to its end

  function Phase(p: Producer): nat {
    match p
    case Filling(b) => 6 * |b| + 3
    case Sending(b) => 6 * |b| + 2
    case Stopped => 0
  }

  function QueueWork(queue: seq<bytes>): nat {
    if queue == [] then 0 else QueueWork(queue[..|queue| - 1]) + 2 * |queue[|queue| - 1]| + 1
  }

  /** Work left to do: every byte costs less the further it has come. */
  function Work(s: State): nat {
    8 * |s.source| + Phase(s.producer) + QueueWork(s.queue) + |Pending(s)|
  }

  lemma {:induction false} QueueWorkFirst(queue: seq<bytes>)
    requires queue != []
    ensures QueueWork(queue) == QueueWork(queue[1..]) + 2 * |queue[0]| + 1
  {
    if |queue| > 1 {
      QueueWorkFirst(queue[..|queue| - 1]);
      assert queue[..|queue| - 1][1..] == queue[1..][..|queue| - 2];
    }
  }

  /** Every step that is not a failing read, or a read without room, does some of the work. So
      a run with room in its reads ends, and by `NeverStuck` it ends with everything delivered. */
  lemma StepsWork(size: nat, s: State, e: Event, s': State)
    requires size > 0 && QueueHolds(s) && Step(size, s, e, s')
    requires e.Read? ==> e.room > 0 && e.answer != Failed
    ensures Work(s') < Work(s)
  {
    match e
    case Produce(n) =>
      if s.producer.Sending? {
        assert (s.queue + [s.producer.buffer])[..|s.queue|] == s.queue;
      }
    case Read(room, answer) =>
      if Pending(s) == [] {
        QueueWorkFirst(s.queue);
      }
  }

  lemma {:induction false} RunIsBounded(all: bytes, size: nat, states: seq<State>, events: seq<Event>, i: nat)
    requires size > 0 && IsRun(size, states, events) && states[0] == Start(all) && i <= |events|
    requires forall k :: 0 <= k < |events| && events[k].Read? ==> events[k].room > 0 && events[k].answer != Failed
    ensures i + Work(states[i]) <= 8 * |all| + 3
  {
    hide Inv, ProducerStep, ReadStep, Work;
    if i == 0 {
      StartWork(all);
    } else {
      RunIsBounded(all, size, states, events, i - 1);
      RunKeeps(all, size, states, events, i - 1);
      QueueOfInv(all, states[i - 1]);
      assert Step(size, states[i - 1], events[i - 1], states[i]);
      StepsWork(size, states[i - 1], events[i - 1], states[i]);
    }
  }

  lemma StartWork(all: bytes)
    ensures Work(Start(all)) == 8 * |all| + 3
  {
  }

  lemma QueueOfInv(all: bytes, s: State)
    requires Inv(all, s)
    ensures QueueHolds(s)
  {
  }

  /** Once ended, everything has been delivered. */
  lemma EndedHasAll(all: bytes, s: State)
    requires Inv(all, s) && s.ended
    ensures s.delivered == all
  {
    NothingElse(all, s);
  }

  // ----- the program's two halves

  class Channel {
    var queue: seq<bytes>
    var closed: bool

    constructor ()
      ensures queue == [] && !closed
    {
      queue, closed := [], false;
    }
  }

  /** The thread, one action at a time. */
  class Worker {
    const source: Input
    const channel: Channel
    const size: nat
    var producer: Producer

    constructor (source: Input, channel: Channel, size: nat)
      requires !channel.closed
      ensures this.source == source && this.channel == channel && this.size == size && producer == Filling([])
    {
      this.source, this.channel, this.size, producer := source, channel, size, Filling([]);
    }

    ghost predicate Shows(s: State)
      reads this, source, channel
    {
      && s.source == source.rest && s.producer == producer && s.queue == channel.queue
      && channel.closed == producer.Stopped?
    }

    /** One read into the buffer, or one send; the thread ends after sending an empty buffer. */
    method Turn(ghost s: State) returns (ghost n: nat, ghost s': State)
      requires Shows(s) && !producer.Stopped?
      modifies this, source, channel
      ensures Shows(s') && ProducerStep(size, s, n, s')
    {
      match producer
      case Filling(buffer) =>
        if |buffer| < size {
          var chunk := source.Read(size - |buffer|);
          n := |chunk|;
          if chunk == [] {
            producer := Sending(buffer);
          } else {
            producer := Filling(buffer + chunk);
          }
        } else {
          n := 0;
          producer := Sending(buffer);
        }
        s' := s.(source := source.rest, producer := producer);
      case Sending(buffer) =>
        n := 0;
        channel.queue := channel.queue + [buffer];
        if buffer == [] {
          producer := Stopped;
          channel.closed := true;
        } else {
          producer := Filling([]);
        }
        s' := s.(queue := channel.queue, producer := producer);
    }
  }

  class BackgroundReader {
    const channel: Channel
    var current: Option<bytes>
    var position: nat

    constructor (channel: Channel)
      ensures this.channel == channel && current == None && position == 0
    {
      this.channel, current, position := channel, None, 0;
    }

    ghost predicate Shows(s: State)
      reads this, channel
    {
      && s.current == current && s.position == position && s.queue == channel.queue
      && channel.closed == s.producer.Stopped?
    }

    /** `read`, in a state in which it does not have to wait. */
    method Read(room: nat, ghost s: State) returns (answer: Answer, ghost s': State)
      requires Shows(s) && (Pending(s) != [] || channel.queue != [] || channel.closed)
      modifies this, channel
      ensures Shows(s') && ReadStep(s, room, answer, s')
    {
      if current.Some? && position < |current.value| {
        var n := Min(|current.value| - position, room);
        answer := Got(current.value[position..position + n]);
        assert Pending(s)[..n] == current.value[position..position + n];
        position := position + n;
        s' := s.(position := position, delivered := s.delivered + answer.data);
        return;
      }
      if channel.queue == [] {
        return Failed, s;
      }
      var buffer := channel.queue[0];
      channel.queue := channel.queue[1..];
      if buffer == [] {
        s' := s.(queue := channel.queue, ended := true);
        assert s.delivered + [] == s.delivered;
        return Got([]), s';
      }
      var n := Min(|buffer|, room);
      if n < |buffer| {
        current, position := Some(buffer), n;
      } else {
        current, position := None, 0;
      }
      answer := Got(buffer[..n]);
      s' := s.(queue := channel.queue, current := current, position := position, delivered := s.delivered + buffer[..n]);
    }
  }
}
