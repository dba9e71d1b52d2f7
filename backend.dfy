/** The two queue backends, as sequences: the in-process concurrent queue
    (enqueue at the tail, dequeue at the head) and a list in the shared store
    (push on the left, pop on the right). Both are first-in, first-out. */
module Backend {

  /** What a non-blocking pop yields: nothing, or the item and what remains. */
  datatype Pop<T> = Empty | Popped(item: T, rest: seq<T>)

  /** `ConcurrentQueue.Enqueue`: the item joins the tail. */
  function Enqueue<T>(q: seq<T>, x: T): (r: seq<T>)
    ensures |r| == |q| + 1 && r[|q|] == x
    ensures r[..|q|] == q
  {
    q + [x]
  }

  /** `ConcurrentQueue.TryDequeue`: removes the head, if there is one. */
  function TryDequeue<T>(q: seq<T>): (r: Pop<T>)
    ensures r.Empty? <==> q == []
    ensures r.Popped? ==> [r.item] + r.rest == q
  {
    if q == [] then Empty else Popped(q[0], q[1..])
  }

  /** `ListLeftPush`: the value joins the left end of the list. */
  function ListLeftPush<T>(l: seq<T>, x: T): (r: seq<T>)
    ensures |r| == |l| + 1 && r[0] == x
    ensures r[1..] == l
  {
    [x] + l
  }

  /** `ListRightPop`: removes the rightmost value, if there is one. */
  function ListRightPop<T>(l: seq<T>): (r: Pop<T>)
    ensures r.Empty? <==> l == []
    ensures r.Popped? ==> r.rest + [r.item] == l
  {
    if l == [] then Empty else Popped(l[|l| - 1], l[..|l| - 1])
  }

  /** The items a run of `TryDequeue` calls yields, in order, until the queue is empty. */
  function DrainQueue<T>(q: seq<T>): seq<T>
    decreases |q|
  {
    match TryDequeue(q)
    case Empty => []
    case Popped(x, rest) => [x] + DrainQueue(rest)
  }

  /** The values a run of `ListRightPop` calls yields, in order, until the list is empty. */
  function DrainList<T>(l: seq<T>): seq<T>
    decreases |l|
  {
    match ListRightPop(l)
    case Empty => []
    case Popped(x, rest) => [x] + DrainList(rest)
  }

  /** Enqueue every item of `xs`, first to last. */
  function EnqueueAll<T>(q: seq<T>, xs: seq<T>): seq<T>
    decreases |xs|
  {
    if xs == [] then q else EnqueueAll(Enqueue(q, xs[0]), xs[1..])
  }

  /** Left-push every value of `xs`, first to last. */
  function LeftPushAll<T>(l: seq<T>, xs: seq<T>): seq<T>
    decreases |xs|
  {
    if xs == [] then l else LeftPushAll(ListLeftPush(l, xs[0]), xs[1..])
  }

  lemma {:induction false} DrainQueueEnqueue<T>(q: seq<T>, x: T)
    ensures DrainQueue(Enqueue(q, x)) == DrainQueue(q) + [x]
    decreases |q|
  {
    if q == [] {
      assert Enqueue(q, x) == [x];
      assert TryDequeue([x]) == Popped(x, []);
    } else {
      assert TryDequeue(Enqueue(q, x)) == Popped(q[0], Enqueue(q[1..], x));
      DrainQueueEnqueue(q[1..], x);
    }
  }

  lemma {:induction false} DrainListLeftPush<T>(l: seq<T>, x: T)
    ensures DrainList(ListLeftPush(l, x)) == DrainList(l) + [x]
    decreases |l|
  {
    if l == [] {
      assert ListLeftPush(l, x) == [x];
      assert ListRightPop([x]) == Popped(x, []);
    } else {
      var n := |l|;
      assert ListRightPop(ListLeftPush(l, x)) == Popped(l[n - 1], ListLeftPush(l[..n - 1], x));
      DrainListLeftPush(l[..n - 1], x);
    }
  }

  /** The in-memory queue is FIFO: items enqueued after the current contents come
      out after them, in the order they were enqueued. */
  lemma {:induction false} QueueIsFifo<T>(q: seq<T>, xs: seq<T>)
    ensures DrainQueue(EnqueueAll(q, xs)) == DrainQueue(q) + xs
    decreases |xs|
  {
    if xs != [] {
      QueueIsFifo(Enqueue(q, xs[0]), xs[1..]);
      DrainQueueEnqueue(q, xs[0]);
      assert [xs[0]] + xs[1..] == xs;
    }
  }

  /** The shared-store list is FIFO too: left pushes are popped from the right
      in the order they were pushed. */
  lemma {:induction false} ListIsFifo<T>(l: seq<T>, xs: seq<T>)
    ensures DrainList(LeftPushAll(l, xs)) == DrainList(l) + xs
    decreases |xs|
  {
    if xs != [] {
      ListIsFifo(ListLeftPush(l, xs[0]), xs[1..]);
      DrainListLeftPush(l, xs[0]);
      assert [xs[0]] + xs[1..] == xs;
    }
  }

  /** Both backends hand out what was pushed onto an empty queue in push order. */
  lemma BackendsAgree<T>(xs: seq<T>)
    ensures DrainQueue(EnqueueAll([], xs)) == xs
    ensures DrainList(LeftPushAll([], xs)) == xs
  {
    QueueIsFifo([], xs);
    ListIsFifo([], xs);
  }

  const Int32Modulus: int := 0x1_0000_0000

  /** C#'s unchecked `(int)` conversion of a 64-bit length: keep the low 32 bits,
      read them as a two's-complement number. */
  function Int32Cast(n: int): (r: int)
    ensures -0x8000_0000 <= r < 0x8000_0000
    ensures -0x8000_0000 <= n < 0x8000_0000 ==> r == n
    ensures (r - n) % Int32Modulus == 0
  {
    var m := n % Int32Modulus;
    if m >= 0x8000_0000 then m - Int32Modulus else m
  }
}
