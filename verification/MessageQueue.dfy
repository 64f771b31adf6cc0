// The send queue (common/libmessage/MessageQueue.cpp:5-40, MessageQueue.h:16-20) over
// boost::circular_buffer.
module MessageQueue {

  class TcpMessage {
  }

  // ---------- boost::circular_buffer, as its documentation defines it ----------

  datatype Ring<T> = Ring(items: seq<T>, capacity: nat) {
    predicate Full() { |items| == capacity }

    // A full ring drops its oldest item.
    function PushBack(x: T): Ring<T> {
      if capacity == 0 then this
      else if Full() then this.(items := items[1..] + [x])
      else this.(items := items + [x])
    }

    function PopFront(): Ring<T>
      requires |items| > 0
    {
      this.(items := items[1..])
    }

    // A smaller capacity keeps the oldest items.
    function SetCapacity(c: nat): Ring<T> {
      Ring(if |items| <= c then items else items[..c], c)
    }
  }

  const INIT_SIZE: nat := 0x100
  const MAX_SIZE: nat := 100000
  const LARGEST: nat := 0x2_0000

  function Capacity(k: nat): (c: nat)
    ensures c >= INIT_SIZE
  {
    if k == 0 then INIT_SIZE else 2 * Capacity(k - 1)
  }

  // INIT_SIZE, doubled at most nine times.
  predicate IsCapacity(c: nat) { exists k: nat :: k <= 9 && c == Capacity(k) }

  lemma CapacityUnfolds(k: nat)
    requires k <= 10
    ensures k == 8 ==> Capacity(k) == 0x1_0000
    ensures k == 9 ==> Capacity(k) == LARGEST
    ensures k < 9 ==> Capacity(k) <= 0x1_0000
  {
    assert Capacity(4) == 0x1000;
    assert Capacity(8) == 0x1_0000;
  }

  // Only the largest capacity is above MAX_SIZE.
  lemma CapacityGrows(c: nat)
    requires IsCapacity(c)
    ensures c > MAX_SIZE <==> c == LARGEST
    ensures c <= MAX_SIZE ==> IsCapacity(2 * c)
    ensures INIT_SIZE <= c <= LARGEST
  {
    var k: nat :| k <= 9 && c == Capacity(k);
    CapacityUnfolds(k);
    if c <= MAX_SIZE {
      assert k + 1 <= 9 && 2 * c == Capacity(k + 1);
    }
  }

  // ---------- The queue ----------

  class MessageQueue {
    var queue: Ring<TcpMessage?>

    ghost predicate Valid()
      reads this
    {
      IsSound(queue)
    }

    constructor ()
      ensures Valid() && queue == Ring([], 0x100)
    {
      queue := Ring([], INIT_SIZE);
      new;
      NewQueueIsSound<TcpMessage?>();
    }

    // Never at the expense of an older message.
    method Push(msg: TcpMessage?) returns (ok: bool)
      requires Valid()
      modifies this
      ensures Valid()
      ensures (queue, if ok then Accepted else Refused) == SourceStep(old(queue), Call.Push(msg))
      ensures ok <==> |old(queue.items)| < 0x2_0000
      ensures queue.items == if ok then old(queue.items) + [msg] else old(queue.items)
      ensures queue.capacity == if ok && |old(queue.items)| == old(queue.capacity) then 2 * old(queue.capacity) else old(queue.capacity)
    {
      hide IsSound;
      StepRefinesFifo(queue, Call.Push(msg));
      var allSize := |queue.items|;
      if queue.Full() {
        if MAX_SIZE < allSize {
          return false;
        }
        queue := queue.SetCapacity(allSize + allSize);
      }
      queue := queue.PushBack(msg);
      ok := true;
    }

    // A null pointer stands for the empty queue.
    method Pop() returns (msg: TcpMessage?)
      requires Valid()
      modifies this
      ensures Valid() && queue.capacity == old(queue.capacity)
      ensures (queue, if old(queue.items) == [] then Nothing else Message(msg)) == SourceStep(old(queue), Call.Pop)
      ensures old(queue.items) == [] ==> msg == null && queue.items == []
      ensures old(queue.items) != [] ==> old(queue.items) == [msg] + queue.items
    {
      if |queue.items| == 0 {
        return null;
      }
      msg := queue.items[0];
      queue := queue.PopFront();
    }

    method Front() returns (msg: TcpMessage?)
      ensures (queue, if queue.items == [] then Nothing else Message(msg)) == SourceStep(queue, Call.Front)
      ensures msg == if queue.items == [] then null else queue.items[0]
    {
      if |queue.items| == 0 {
        return null;
      }
      msg := queue.items[0];
    }
  }

  // ---------- Runs ----------

  datatype Call<T> = Push(msg: T) | Pop | Front

  // What a call answers: Refused is the source's false, Nothing its null pointer.
  datatype Answer<T> = Accepted | Refused | Message(msg: T) | Nothing

  // The calls as the source answers them.
  function SourceStep<T>(q: Ring<T>, call: Call<T>): (Ring<T>, Answer<T>) {
    match call
    case Push(m) =>
      if q.Full() && MAX_SIZE < |q.items| then (q, Refused)
      else ((if q.Full() then q.SetCapacity(2 * |q.items|) else q).PushBack(m), Accepted)
    case Pop => if |q.items| == 0 then (q, Nothing) else (q.PopFront(), Message(q.items[0]))
    case Front => if |q.items| == 0 then (q, Nothing) else (q, Message(q.items[0]))
  }

  // An unbounded first-in first-out queue that accepts no more than LARGEST messages.
  function FifoStep<T>(held: seq<T>, call: Call<T>): (seq<T>, Answer<T>) {
    match call
    case Push(m) => if |held| < LARGEST then (held + [m], Accepted) else (held, Refused)
    case Pop => if |held| == 0 then (held, Nothing) else (held[1..], Message(held[0]))
    case Front => if |held| == 0 then (held, Nothing) else (held, Message(held[0]))
  }

  function SourceRun<T>(q: Ring<T>, calls: seq<Call<T>>): (Ring<T>, seq<Answer<T>>)
    decreases |calls|
  {
    if |calls| == 0 then (q, [])
    else
      var (q1, answer) := SourceStep(q, calls[0]);
      var (q2, answers) := SourceRun(q1, calls[1..]);
      (q2, [answer] + answers)
  }

  function FifoRun<T>(held: seq<T>, calls: seq<Call<T>>): (seq<T>, seq<Answer<T>>)
    decreases |calls|
  {
    if |calls| == 0 then (held, [])
    else
      var (h1, answer) := FifoStep(held, calls[0]);
      var (h2, answers) := FifoRun(h1, calls[1..]);
      (h2, [answer] + answers)
  }

  // A run is its first call, and the run of the others from there.
  lemma RunsUnfold<T>(q: Ring<T>, held: seq<T>, call: Call<T>, calls: seq<Call<T>>)
    ensures SourceRun(q, [call] + calls) ==
      (SourceRun(SourceStep(q, call).0, calls).0, [SourceStep(q, call).1] + SourceRun(SourceStep(q, call).0, calls).1)
    ensures FifoRun(held, [call] + calls) ==
      (FifoRun(FifoStep(held, call).0, calls).0, [FifoStep(held, call).1] + FifoRun(FifoStep(held, call).0, calls).1)
  {
    hide SourceStep, FifoStep;
    assert ([call] + calls)[1..] == calls;
  }

  ghost predicate IsSound<T>(q: Ring<T>) { IsCapacity(q.capacity) && |q.items| <= q.capacity }

  lemma SoundMeans<T>(q: Ring<T>)
    requires IsSound(q)
    ensures |q.items| <= q.capacity
    ensures q.capacity in {0x100, 0x200, 0x400, 0x800, 0x1000, 0x2000, 0x4000, 0x8000, 0x1_0000, 0x2_0000}
  {
    var k: nat :| k <= 9 && q.capacity == Capacity(k);
    assert Capacity(3) == 0x800;
    assert Capacity(6) == 0x4000;
    assert Capacity(9) == 0x2_0000;
  }

  lemma StepRefinesFifo<T>(q: Ring<T>, call: Call<T>)
    requires IsSound(q)
    ensures IsSound(SourceStep(q, call).0)
    ensures FifoStep(q.items, call) == (SourceStep(q, call).0.items, SourceStep(q, call).1)
  {
    hide IsCapacity;
    CapacityGrows(q.capacity);
  }

  // In every run from the empty queue, the ring answers each call as the plain queue does
  // and holds the same messages.
  lemma {:induction false} RunRefinesFifo<T>(q: Ring<T>, calls: seq<Call<T>>)
    requires IsSound(q)
    ensures IsSound(SourceRun(q, calls).0)
    ensures FifoRun(q.items, calls) == (SourceRun(q, calls).0.items, SourceRun(q, calls).1)
    decreases |calls|
  {
    hide IsSound, SourceStep, FifoStep;
    if |calls| > 0 {
      StepRefinesFifo(q, calls[0]);
      RunRefinesFifo(SourceStep(q, calls[0]).0, calls[1..]);
    }
  }

  lemma NewQueueIsSound<T>()
    ensures IsSound<T>(Ring([], INIT_SIZE))
  {
    assert INIT_SIZE == Capacity(0);
  }

  // Conservation: the messages that were accepted are those that pop returned, in the same
  // order, and those that are still held.
  function AcceptedBy<T>(call: Call<T>, answer: Answer<T>): seq<T> {
    if call.Push? && answer.Accepted? then [call.msg] else []
  }

  function TakenBy<T>(call: Call<T>, answer: Answer<T>): seq<T> {
    if call.Pop? && answer.Message? then [answer.msg] else []
  }

  function AcceptedIn<T>(calls: seq<Call<T>>, answers: seq<Answer<T>>): seq<T>
    requires |calls| == |answers|
  {
    if |calls| == 0 then []
    else AcceptedBy(calls[0], answers[0]) + AcceptedIn(calls[1..], answers[1..])
  }

  function TakenIn<T>(calls: seq<Call<T>>, answers: seq<Answer<T>>): seq<T>
    requires |calls| == |answers|
  {
    if |calls| == 0 then []
    else TakenBy(calls[0], answers[0]) + TakenIn(calls[1..], answers[1..])
  }

  lemma {:induction false} NothingLost<T>(q: Ring<T>, calls: seq<Call<T>>)
    requires IsSound(q)
    ensures |SourceRun(q, calls).1| == |calls|
    ensures var (last, answers) := SourceRun(q, calls);
      q.items + AcceptedIn(calls, answers) == TakenIn(calls, answers) + last.items
    decreases |calls|
  {
    hide IsSound, SourceStep;
    if |calls| > 0 {
      var (q1, answer) := SourceStep(q, calls[0]);
      var (last, answers) := SourceRun(q1, calls[1..]);
      StepRefinesFifo(q, calls[0]);
      NothingLost(q1, calls[1..]);
      StepLosesNothing(q, calls[0]);
      assert SourceRun(q, calls).1[1..] == answers;
      Chained(q.items, AcceptedBy(calls[0], answer), TakenBy(calls[0], answer), q1.items,
              AcceptedIn(calls[1..], answers), TakenIn(calls[1..], answers), last.items);
    }
  }

  lemma StepLosesNothing<T>(q: Ring<T>, call: Call<T>)
    requires IsSound(q)
    ensures var (q1, answer) := SourceStep(q, call);
      q.items + AcceptedBy(call, answer) == TakenBy(call, answer) + q1.items
  {
    hide IsSound, SourceStep;
    StepRefinesFifo(q, call);
  }

  lemma Chained<T>(held: seq<T>, accepted: seq<T>, taken: seq<T>, held1: seq<T>, accepted1: seq<T>, taken1: seq<T>, held2: seq<T>)
    requires held + accepted == taken + held1 && held1 + accepted1 == taken1 + held2
    ensures held + (accepted + accepted1) == (taken + taken1) + held2
  {
    calc {
      held + (accepted + accepted1);
      (held + accepted) + accepted1;
      (taken + held1) + accepted1;
      taken + (held1 + accepted1);
      taken + (taken1 + held2);
      (taken + taken1) + held2;
    }
  }
}
