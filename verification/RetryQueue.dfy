// storage/influxdb.go: processRetries, the bounded retry queue with exponential backoff.

/** Enqueueing is a step of the environment (nothing in the repository enqueues); the worker's
    dequeue and its verdict on the item are separate steps, so the queue may fill in between. */
module RetryQueue {
  import opened Basics

  const MAX_RETRIES := 3
  const INITIAL_BACKOFF := 1
  const MAX_BACKOFF := 30
  const CAPACITY := 100

  // `id` tells items apart; the code does not have it.
  datatype Item = Item(id: nat, attempts: int)

  function Pow2(n: nat): nat { if n == 0 then 1 else 2 * Pow2(n - 1) }

  // In seconds: 2^attempts, capped; the doubling loop of ComputeBackoff computes it.
  function Backoff(attempts: int): int {
    Min(if attempts <= 0 then 1 else Pow2(attempts), MAX_BACKOFF)
  }

  lemma {:induction false} Pow2Grows(m: nat, n: nat)
    requires m <= n
    ensures Pow2(m) <= Pow2(n)
  {
    if m < n { Pow2Grows(m, n - 1); }
  }

  method ComputeBackoff(attempts: int) returns (backoff: int)
    ensures backoff == Backoff(attempts)
    ensures attempts <= 0 ==> backoff == 1
    ensures 0 < attempts <= 4 ==> backoff == Pow2(attempts)
    ensures attempts > 4 ==> backoff == 30
  {
    backoff := INITIAL_BACKOFF;
    var i := 0;
    while i < attempts
      invariant 0 <= i && (i <= attempts || i == 0)
      invariant backoff == Pow2(i) <= MAX_BACKOFF
    {
      backoff := backoff * 2;
      if backoff > MAX_BACKOFF {
        backoff := MAX_BACKOFF;
        Pow2Grows(i + 1, attempts);
        break;
      }
      i := i + 1;
    }
    if attempts > 4 {
      assert Pow2(5) == 2 * Pow2(4) == 32;
      Pow2Grows(5, attempts);
    }
  }

  // ---------- The queue as a state machine ----------

  datatype Worker = Idle | Holding(item: Item)

  // What has happened to one entered item; Dropped covers a full queue and used-up retries.
  datatype Fate = Pending | Delivered | Overflowed | Exhausted

  datatype Book = Book(writes: nat, waited: int, fate: Fate)

  datatype System = System(queue: seq<Item>, worker: Worker, books: map<nat, Book>)

  datatype Action = Enqueue(id: nat) | Dequeue | Settle(ok: bool)

  predicate Enabled(s: System, a: Action) {
    match a
    case Enqueue(id) => id !in s.books && |s.queue| < CAPACITY
    case Dequeue => s.worker == Idle && s.queue != []
    case Settle(_) => s.worker.Holding?
  }

  // The books of an item once it has waited and, with retries left, been written; it goes back to
  // the queue exactly when it is still Pending.
  function Verdict(item: Item, b: Book, ok: bool, room: bool): Book {
    var waited := b.waited + Backoff(item.attempts);
    if item.attempts >= MAX_RETRIES then Book(b.writes, waited, Exhausted)
    else Book(b.writes + 1, waited, if ok then Delivered else if room then Pending else Overflowed)
  }

  function BookOf(books: map<nat, Book>, id: nat): Book {
    if id in books then books[id] else Book(0, 0, Pending)
  }

  function Step(s: System, a: Action): System
    requires Enabled(s, a)
  {
    match a
    case Enqueue(id) => s.(queue := s.queue + [Item(id, 0)], books := s.books[id := Book(0, 0, Pending)])
    case Dequeue => s.(queue := s.queue[1..], worker := Holding(s.queue[0]))
    case Settle(ok) =>
      var item := s.worker.item;
      var b := Verdict(item, BookOf(s.books, item.id), ok, |s.queue| < CAPACITY);
      System(if b.fate == Pending then s.queue + [Again(item)] else s.queue, Idle, s.books[item.id := b])
  }

  function Again(item: Item): Item { item.(attempts := item.attempts + 1) }

  // The items in the worker's hands or the queue, in the order they will be settled.
  function InFlight(s: System): seq<Item> {
    (if s.worker.Holding? then [s.worker.item] else []) + s.queue
  }

  // A pending item has used exactly its attempts, and waited for each of them in full.
  predicate Kept(item: Item, b: Book) {
    0 <= item.attempts <= MAX_RETRIES && b == Book(item.attempts, Pow2(item.attempts) - 1, Pending)
  }

  // Each item in flight is on the books, once, and nothing else is pending.
  predicate Tracked(items: seq<Item>, books: map<nat, Book>) {
    && (forall i :: 0 <= i < |items| ==> items[i].id in books && Kept(items[i], books[items[i].id]))
    && (forall i, j :: 0 <= i < j < |items| ==> items[i].id != items[j].id)
    && (forall id :: id in books && books[id].fate == Pending ==> exists i :: 0 <= i < |items| && items[i].id == id)
    && (forall id :: id in books ==> Bounded(books[id]))
  }

  predicate Inv(s: System) { Tracked(InFlight(s), s.books) }

  // The whole story of an item, whatever its fate.
  predicate Bounded(b: Book) {
    match b.fate
    case Pending => b.writes <= 3 && b.waited == Pow2(b.writes) - 1
    case Delivered => 1 <= b.writes <= 3 && b.waited == Pow2(b.writes) - 1
    case Overflowed => 1 <= b.writes <= 3 && b.waited == Pow2(b.writes) - 1
    case Exhausted => b.writes == 3 && b.waited == 15
  }

  lemma {:induction false} SmallPowers()
    ensures Pow2(0) == 1 && Pow2(1) == 2 && Pow2(2) == 4 && Pow2(3) == 8 && Pow2(4) == 16
  {
    assert Pow2(3) == 2 * Pow2(2) && Pow2(4) == 2 * Pow2(3);
  }

  lemma {:induction false} Enter(items: seq<Item>, books: map<nat, Book>, id: nat)
    requires Tracked(items, books) && id !in books
    ensures Tracked(items + [Item(id, 0)], books[id := Book(0, 0, Pending)])
  {
    var items', books' := items + [Item(id, 0)], books[id := Book(0, 0, Pending)];
    SmallPowers();
    assert items'[|items|].id == id;
    forall k | k in books' && books'[k].fate == Pending
      ensures exists i :: 0 <= i < |items'| && items'[i].id == k
    {
      if k != id {
        var i :| 0 <= i < |items| && items[i].id == k;
        assert items'[i].id == k;
      }
    }
  }

  lemma {:induction false} Retire(items: seq<Item>, books: map<nat, Book>, b: Book)
    requires items != [] && Tracked(items, books) && b.fate != Pending && Bounded(b)
    ensures Tracked(items[1..], books[items[0].id := b])
  {
    var rest, books' := items[1..], books[items[0].id := b];
    forall k | k in books' && books'[k].fate == Pending
      ensures exists i :: 0 <= i < |rest| && rest[i].id == k
    {
      var i :| 0 <= i < |items| && items[i].id == k;
      assert rest[i - 1].id == k;
    }
  }

  lemma {:induction false} Requeue(items: seq<Item>, books: map<nat, Book>, b: Book)
    requires items != [] && Tracked(items, books) && Kept(Again(items[0]), b) && Bounded(b)
    ensures Tracked(items[1..] + [Again(items[0])], books[items[0].id := b])
  {
    var again := Again(items[0]);
    var items', books' := items[1..] + [again], books[again.id := b];
    assert items'[|items| - 1] == again;
    forall k | k in books' && books'[k].fate == Pending
      ensures exists i :: 0 <= i < |items'| && items'[i].id == k
    {
      if k != again.id {
        var i :| 0 <= i < |items| && items[i].id == k;
        assert items'[i - 1].id == k;
      }
    }
  }

  // One more settlement keeps an item's books straight.
  lemma {:induction false} VerdictKeepsBooks(item: Item, b: Book, ok: bool, room: bool)
    requires Kept(item, b)
    ensures var b' := Verdict(item, b, ok, room);
            Bounded(b') && (b'.fate == Pending ==> Kept(Again(item), b'))
  {
    SmallPowers();
    assert item.attempts == 0 || item.attempts == 1 || item.attempts == 2 || item.attempts == 3;
  }

  lemma {:induction false} SettleKeepsInv(s: System, ok: bool)
    requires Inv(s) && Enabled(s, Settle(ok))
    ensures Inv(Step(s, Settle(ok)))
  {
    var s', items, item := Step(s, Settle(ok)), InFlight(s), s.worker.item;
    assert items[0] == item && items[1..] == s.queue;
    var b := Verdict(item, s.books[item.id], ok, |s.queue| < CAPACITY);
    VerdictKeepsBooks(item, s.books[item.id], ok, |s.queue| < CAPACITY);
    if b.fate == Pending { Requeue(items, s.books, b); } else { Retire(items, s.books, b); }
    assert InFlight(s') == s'.queue;
  }

  lemma {:induction false} StepKeepsInv(s: System, a: Action)
    requires Inv(s) && Enabled(s, a)
    ensures Inv(Step(s, a))
  {
    match a
    case Enqueue(id) =>
      Enter(InFlight(s), s.books, id);
      assert InFlight(Step(s, a)) == InFlight(s) + [Item(id, 0)];
    case Dequeue => assert InFlight(Step(s, a)) == InFlight(s);
    case Settle(ok) => SettleKeepsInv(s, ok);
  }

  predicate Legal(s: System, acts: seq<Action>)
    decreases |acts|
  {
    acts != [] ==> Enabled(s, acts[0]) && Legal(Step(s, acts[0]), acts[1..])
  }

  function Run(s: System, acts: seq<Action>): System
    requires Legal(s, acts)
    decreases |acts|
  {
    if acts == [] then s else Run(Step(s, acts[0]), acts[1..])
  }

  const EMPTY := System([], Idle, map[])

  lemma {:induction false} RunKeepsInv(s: System, acts: seq<Action>)
    requires Inv(s) && Legal(s, acts)
    ensures Inv(Run(s, acts))
    decreases |acts|
  {
    if acts != [] {
      StepKeepsInv(s, acts[0]);
      RunKeepsInv(Step(s, acts[0]), acts[1..]);
    }
  }

  // However enqueueing interleaves, an item is written at most three times and waits at most
  // fifteen seconds; one that is given up for good used all three writes and all fifteen seconds.
  lemma {:induction false} EveryItemIsBounded(acts: seq<Action>, id: nat)
    requires Legal(EMPTY, acts) && id in Run(EMPTY, acts).books
    ensures var s := Run(EMPTY, acts);
            var b := s.books[id];
            && b.writes <= 3 && b.waited <= 15
            && (b.fate == Exhausted ==> b.writes == 3 && b.waited == 15)
            && (b.fate == Pending <==> exists i :: 0 <= i < |InFlight(s)| && InFlight(s)[i].id == id)
  {
    RunKeepsInv(EMPTY, acts);
    var s := Run(EMPTY, acts);
    SmallPowers();
    assert Bounded(s.books[id]);
    var w := s.books[id].writes;
    assert w == 0 || w == 1 || w == 2 || w == 3;
  }

  // ---------- What earns an item its fate ----------

  // The action is a write of this item, which still has retries left.
  predicate Writes(s: System, a: Action, id: nat) {
    a.Settle? && s.worker.Holding? && s.worker.item.id == id && s.worker.item.attempts < 3
  }

  function WritesOf(s: System, acts: seq<Action>, id: nat): nat
    requires Legal(s, acts)
    decreases |acts|
  {
    if acts == [] then 0
    else (if Writes(s, acts[0], id) then 1 else 0) + WritesOf(Step(s, acts[0]), acts[1..], id)
  }

  // Writes of the item that succeeded.
  function SuccessesOf(s: System, acts: seq<Action>, id: nat): nat
    requires Legal(s, acts)
    decreases |acts|
  {
    if acts == [] then 0
    else (if Writes(s, acts[0], id) && acts[0].ok then 1 else 0) + SuccessesOf(Step(s, acts[0]), acts[1..], id)
  }

  // Writes of the item that failed while the queue was full.
  function DropsOf(s: System, acts: seq<Action>, id: nat): nat
    requires Legal(s, acts)
    decreases |acts|
  {
    if acts == [] then 0
    else
      (if Writes(s, acts[0], id) && !acts[0].ok && |s.queue| >= 100 then 1 else 0)
      + DropsOf(Step(s, acts[0]), acts[1..], id)
  }

  function Is(b: bool): nat { if b then 1 else 0 }

  lemma {:induction false} StepEarns(s: System, a: Action, id: nat)
    requires Inv(s) && Enabled(s, a)
    ensures var b, b' := BookOf(s.books, id), BookOf(Step(s, a).books, id);
            && b'.writes == b.writes + Is(Writes(s, a, id))
            && Is(b'.fate == Delivered) == Is(b.fate == Delivered) + Is(Writes(s, a, id) && a.ok)
            && Is(b'.fate == Overflowed)
               == Is(b.fate == Overflowed) + Is(Writes(s, a, id) && !a.ok && |s.queue| >= 100)
  {
    if a.Settle? { assert InFlight(s)[0] == s.worker.item; }
  }

  lemma {:induction false} RunEarns(s: System, acts: seq<Action>, id: nat)
    requires Inv(s) && Legal(s, acts)
    ensures var b, b' := BookOf(s.books, id), BookOf(Run(s, acts).books, id);
            && b'.writes == b.writes + WritesOf(s, acts, id)
            && Is(b'.fate == Delivered) == Is(b.fate == Delivered) + SuccessesOf(s, acts, id)
            && Is(b'.fate == Overflowed) == Is(b.fate == Overflowed) + DropsOf(s, acts, id)
    decreases |acts|
  {
    if acts != [] {
      StepEarns(s, acts[0], id);
      StepKeepsInv(s, acts[0]);
      RunEarns(Step(s, acts[0]), acts[1..], id);
    }
  }

  // However enqueueing interleaves: an item's books count its writes; it is delivered exactly if one
  // of them succeeded, which happens at most once; and it is dropped before its last retry exactly
  // if one failed while the queue was full.
  lemma {:induction false} FatesAreEarned(acts: seq<Action>, id: nat)
    requires Legal(EMPTY, acts) && id in Run(EMPTY, acts).books
    ensures var b := Run(EMPTY, acts).books[id];
            && b.writes == WritesOf(EMPTY, acts, id)
            && SuccessesOf(EMPTY, acts, id) == (if b.fate == Delivered then 1 else 0)
            && DropsOf(EMPTY, acts, id) == (if b.fate == Overflowed then 1 else 0)
  {
    RunEarns(EMPTY, acts, id);
  }

  // ---------- With nothing entering, the queue drains ----------

  // How many more times an item can be settled.
  function Weight(item: Item): nat {
    if item.attempts < MAX_RETRIES then MAX_RETRIES + 1 - item.attempts else 1
  }

  function Load(items: seq<Item>): nat {
    if items == [] then 0 else Weight(items[0]) + Load(items[1..])
  }

  lemma {:induction false} LoadAppend(items: seq<Item>, item: Item)
    ensures Load(items + [item]) == Load(items) + Weight(item)
  {
    if items == [] {
      assert [item][1..] == [];
    } else {
      LoadAppend(items[1..], item);
      assert (items + [item])[1..] == items[1..] + [item];
    }
  }

  // Every settlement strictly lowers the load.
  lemma {:induction false} SettleLowersLoad(s: System, ok: bool)
    requires Enabled(s, Settle(ok))
    ensures Load(InFlight(Step(s, Settle(ok)))) < Load(InFlight(s))
  {
    var item := s.worker.item;
    assert InFlight(s)[1..] == s.queue && InFlight(s)[0] == item;
    assert InFlight(Step(s, Settle(ok))) == Step(s, Settle(ok)).queue;
    LoadAppend(s.queue, Again(item));
  }

  // One undisturbed iteration: the item just taken leaves room for its own requeue.
  lemma {:induction false} Iteration(s: System, ok: bool)
    requires Inv(s) && s.worker == Idle && s.queue != [] && |s.queue| <= CAPACITY
    ensures var item, s' := s.queue[0], Step(Step(s, Dequeue), Settle(ok));
            && Inv(s') && s'.worker == Idle
            && s'.queue == s.queue[1..] + (if item.attempts < MAX_RETRIES && !ok then [Again(item)] else [])
            && Load(s'.queue) < Load(s.queue)
            && SettledFrom(s.books, s'.books)
  {
    var held := Step(s, Dequeue);
    StepKeepsInv(s, Dequeue);
    assert InFlight(s) == s.queue == InFlight(held);
    hide Tracked, SettledFrom;
    StepKeepsInv(held, Settle(ok));
    SettleLowersLoad(held, ok);
    assert InFlight(Step(held, Settle(ok))) == Step(held, Settle(ok)).queue;
    IterationBooks(s, ok);
  }

  lemma {:induction false} IterationBooks(s: System, ok: bool)
    requires Inv(s) && s.worker == Idle && s.queue != [] && |s.queue| <= CAPACITY
    ensures var s' := Step(Step(s, Dequeue), Settle(ok));
            && s'.worker == Idle && SettledFrom(s.books, s'.books)
            && s'.queue == s.queue[1..] + (if s.queue[0].attempts < MAX_RETRIES && !ok then [Again(s.queue[0])] else [])
  {
    assert InFlight(s)[0] == s.queue[0];
  }

  class RetryWorker {
    var queue: seq<Item>
    ghost var world: System

    ghost predicate Valid()
      reads this
    {
      world.queue == queue && world.worker == Idle && Inv(world)
    }

    constructor (queue: seq<Item>, ghost start: System)
      requires Inv(start) && start.worker == Idle && start.queue == queue
      ensures world == start && Valid()
    {
      this.queue, world := queue, start;
    }

    // One iteration of processRetries: take an item, wait, try it, and requeue it if that failed.
    // The write's outcome is arbitrary.
    method ProcessNext() returns (backoff: int, ghost ok: bool)
      requires Valid() && queue != [] && |queue| <= CAPACITY
      modifies this
      ensures Valid() && |queue| <= CAPACITY
      ensures backoff == Backoff(old(queue)[0].attempts) && 1 <= backoff <= MAX_BACKOFF
      ensures Load(queue) < Load(old(queue))
      ensures world == Step(Step(old(world), Dequeue), Settle(ok))
      ensures SettledFrom(old(world).books, world.books)
    {
      var item := queue[0];
      backoff := ComputeBackoff(item.attempts);
      Pow2Grows(0, if item.attempts > 0 then item.attempts else 0);
      queue := queue[1..];
      var written: bool := *;
      ok := written;
      Iteration(world, ok);
      if item.attempts < MAX_RETRIES {
        if !written {
          if |queue| < CAPACITY {
            queue := queue + [Again(item)];
          }
        }
      }
      world := Step(Step(world, Dequeue), Settle(ok));
    }

    // The loop of processRetries while nothing else enqueues.  It ends with an empty queue and no
    // item pending, after at most Load iterations; every item that was pending is then delivered,
    // or was given up after its three writes.
    method ProcessRetries() returns (iterations: nat, waited: int)
      requires Valid() && |queue| <= CAPACITY
      modifies this
      ensures Valid() && queue == []
      ensures iterations <= Load(old(queue)) && iterations <= waited <= MAX_BACKOFF * iterations
      ensures forall id :: id in world.books <==> id in old(world).books
      ensures forall id :: id in old(world).books ==> Resolved(old(world).books[id], world.books[id])
    {
      iterations, waited := 0, 0;
      while queue != []
        invariant Valid() && |queue| <= CAPACITY
        invariant iterations + Load(queue) <= Load(old(queue)) && iterations <= waited <= MAX_BACKOFF * iterations
        invariant SettledFrom(old(world).books, world.books)
        decreases Load(queue)
      {
        var backoff, ok := ProcessNext();
        waited := waited + backoff;
        iterations := iterations + 1;
      }
      assert InFlight(world) == [];
    }
  }

  // Nothing enters, nothing overflows, and what was settled stays as it was.
  ghost predicate SettledFrom(old_: map<nat, Book>, new_: map<nat, Book>) {
    && (forall id :: id in new_ <==> id in old_)
    && (forall id :: id in old_ && old_[id].fate != Pending ==> new_[id] == old_[id])
    && (forall id :: id in old_ && old_[id].fate == Pending ==> new_[id].fate != Overflowed)
  }

  predicate Resolved(before: Book, after: Book) {
    if before.fate != Pending then after == before
    else
      || (after.fate == Delivered && after.writes <= 3)
      || (after.fate == Exhausted && after.writes == 3 && after.waited == 15)
  }
}
