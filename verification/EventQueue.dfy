/** The generation event queue: producer threads put items and wake asynchronous consumers, which may
    be cancelled while they wait. Every step below is what one thread does in one go; steps of
    different threads interleave freely. */
module EventQueue {
  type Item = int

  /** A `put` call, after its item entered the queue. */
  datatype Producer =
    | Enqueued                       // about to copy the waiters
    | Waking(left: seq<nat>)         // the futures still to be woken

  /** How a wait ends: with an item, to look again, or cancelled. */
  datatype Ending = Got(item: Item) | Again | Cancelled

  /** A `get_async` call. */
  datatype Consumer =
    | Starting
    | Registered(future: nat)
    | Suspended(future: nat)
    | Leaving(future: nat, ending: Ending)   // about to take its future off the waiters
    | Finished(ending: Ending)

  datatype Queue = Queue(
    items: seq<Item>,
    waiters: set<nat>,
    done: seq<bool>,                 // per future ever created: is its result set
    closed: set<nat>,                // futures whose event loop is closed
    posted: set<nat>,                // futures with a wake-up call posted to their loop
    producers: seq<Producer>,
    consumers: seq<Consumer>,
    enqueued: seq<Item>,             // everything ever put, in order
    taken: seq<(nat, Item)>)         // everything ever taken, in order, and by whom
  {
    /** The future of a wait is set, or a call to set it is posted, or a producer will post it. */
    ghost predicate WakeIsComing(f: nat) {
      || (f < |done| && done[f])
      || f in posted
      || exists p {:trigger producers[p]} | 0 <= p < |producers| :: Commits(producers[p], f)
    }

    ghost predicate Commits(p: Producer, f: nat) {
      p.Enqueued? || f in p.left
    }

    /** While a consumer waits its future is registered, and an item in the queue will wake it. */
    ghost predicate ConsumerOk(c: Consumer) {
      && (c.Registered? || c.Suspended? || c.Leaving? ==> c.future < |done|)
      && (c.Registered? || c.Suspended? ==> c.future in waiters || c.future in closed)
      && (c.Suspended? && c.future !in closed && items != [] ==> WakeIsComing(c.future))
    }

    ghost predicate OwnFuture(j: nat, k: nat)
      requires j < |consumers| && k < |consumers|
    {
      var (c, d) := (consumers[j], consumers[k]);
      j != k && (c.Registered? || c.Suspended? || c.Leaving?) && (d.Registered? || d.Suspended? || d.Leaving?) ==>
        c.future != d.future
    }

    predicate Holds(k: nat, item: Item) {
      k < |consumers| && (consumers[k] == Finished(Got(item))
        || (consumers[k].Leaving? && consumers[k].ending == Got(item)))
    }

    /** What was taken is held by who took it, and nobody holds anything else. */
    ghost predicate DeliveredOk() {
      && (forall i {:trigger taken[i]} | 0 <= i < |taken| :: Holds(taken[i].0, taken[i].1))
      && (forall i, j | 0 <= i < j < |taken| :: taken[i].0 != taken[j].0)
      && (forall k: nat, x {:trigger Holds(k, x)} | Holds(k, x) :: (k, x) in taken)
    }

    ghost predicate Inv() {
      && enqueued == Items(taken) + items
      && DeliveredOk()
      && (forall k {:trigger consumers[k]} | 0 <= k < |consumers| :: ConsumerOk(consumers[k]))
      && (forall j: nat, k: nat {:trigger OwnFuture(j, k)} | j < |consumers| && k < |consumers| :: OwnFuture(j, k))
    }
  }

  function Items(taken: seq<(nat, Item)>): (xs: seq<Item>)
    ensures |xs| == |taken| && forall i | 0 <= i < |taken| :: xs[i] == taken[i].1
  {
    seq(|taken|, i requires 0 <= i < |taken| => taken[i].1)
  }

  // ---------- steps ----------

  datatype Action =
    | CallPut(item: Item) | CopyWaiters(p: nat, order: seq<nat>) | Post(p: nat) | Wake(f: nat)
    | CallGet | Register(k: nat) | TakeOrWait(k: nat) | Resume(k: nat) | Cancel(k: nat) | Discard(k: nat)
    | CloseLoop(f: nat)

  predicate Enabled(q: Queue, a: Action) {
    match a
    case CallPut(_) | CallGet | CloseLoop(_) => true
    case CopyWaiters(p, order) =>
      p < |q.producers| && q.producers[p].Enqueued? && forall f | f in q.waiters :: f in order
    case Post(p) => p < |q.producers| && q.producers[p].Waking? && q.producers[p].left != []
    case Wake(f) => f in q.posted && f < |q.done|
    case Register(k) => k < |q.consumers| && q.consumers[k].Starting?
    case TakeOrWait(k) => k < |q.consumers| && q.consumers[k].Registered?
    case Resume(k) => k < |q.consumers| && q.consumers[k].Suspended? && q.consumers[k].future < |q.done|
      && q.done[q.consumers[k].future]
    case Cancel(k) => k < |q.consumers| && q.consumers[k].Suspended?
    case Discard(k) => k < |q.consumers| && q.consumers[k].Leaving?
  }

  function At(q: Queue, k: nat, c: Consumer): Queue
    requires k < |q.consumers|
  {
    q.(consumers := q.consumers[k := c])
  }

  function Step(q: Queue, a: Action): Queue
    requires Enabled(q, a)
  {
    match a
    case CallPut(x) => q.(items := q.items + [x], enqueued := q.enqueued + [x], producers := q.producers + [Enqueued])
    case CopyWaiters(p, order) => q.(producers := q.producers[p := Waking(order)])
    // A closed loop refuses the call, and the waiter is dropped.
    case Post(p) =>
      var f := q.producers[p].left[0];
      var n := q.(producers := q.producers[p := Waking(q.producers[p].left[1..])]);
      if f in q.closed then n.(waiters := n.waiters - {f}) else n.(posted := n.posted + {f})
    case Wake(f) => q.(done := q.done[f := true], posted := q.posted - {f})
    case CallGet => q.(consumers := q.consumers + [Starting])
    case Register(k) => At(q, k, Registered(|q.done|)).(done := q.done + [false], waiters := q.waiters + {|q.done|})
    case TakeOrWait(k) =>
      var f := q.consumers[k].future;
      if q.items == [] then At(q, k, Suspended(f))
      else At(q, k, Leaving(f, Got(q.items[0]))).(items := q.items[1..], taken := q.taken + [(k, q.items[0])])
    case Resume(k) => At(q, k, Leaving(q.consumers[k].future, Again))
    case Cancel(k) => At(q, k, Leaving(q.consumers[k].future, Cancelled))
    case Discard(k) =>
      var c := q.consumers[k];
      At(q, k, if c.ending.Again? then Starting else Finished(c.ending)).(waiters := q.waiters - {c.future})
    case CloseLoop(f) => q.(closed := q.closed + {f})
  }

  // ---------- every step keeps the invariant ----------

  /** A step that neither adds items nor touches consumers, and takes no wake-up back. */
  lemma WakersInv(q: Queue, n: Queue)
    requires q.Inv() && n
      == q.(waiters := n.waiters, done := n.done, closed := n.closed, posted := n.posted, producers := n.producers)
    requires |n.done| == |q.done| && q.closed <= n.closed
    requires forall f | f in q.waiters :: f in n.waiters || f in n.closed
    requires forall f: nat {:trigger n.WakeIsComing(f)} | q.WakeIsComing(f) && (f in q.waiters || f in q.closed)
      && f !in n.closed :: n.WakeIsComing(f)
    ensures n.Inv()
  {
    hide Queue.WakeIsComing;
    forall k | 0 <= k < |n.consumers|
      ensures n.ConsumerOk(n.consumers[k])
    {
      assert q.ConsumerOk(q.consumers[k]);
    }
    forall j: nat, k: nat | j < |n.consumers| && k < |n.consumers|
      ensures n.OwnFuture(j, k)
    {
      assert q.OwnFuture(j, k);
    }
    SameDelivered(q, n);
  }

  lemma SameDelivered(q: Queue, n: Queue)
    requires q.DeliveredOk() && n.consumers == q.consumers && n.taken == q.taken
    ensures n.DeliveredOk()
  {
    forall i | 0 <= i < |n.taken|
      ensures n.Holds(n.taken[i].0, n.taken[i].1)
    {
      assert q.Holds(q.taken[i].0, q.taken[i].1);
    }
    forall k: nat, x | n.Holds(k, x)
      ensures (k, x) in n.taken
    {
      assert q.Holds(k, x);
    }
  }

  /** The commitment of a producer other than `p` stands. */
  lemma StillCommitted(q: Queue, n: Queue, p: nat, f: nat)
    requires q.WakeIsComing(f) && p < |q.producers| == |n.producers|
    requires forall i | 0 <= i < |q.producers| && i != p :: n.producers[i] == q.producers[i]
    requires forall g | 0 <= g < |q.done| :: g < |n.done| && (q.done[g] ==> n.done[g])
    requires f in q.posted ==> f in n.posted
    requires q.Commits(q.producers[p], f) ==> n.Commits(n.producers[p], f) || f in n.posted
    ensures n.WakeIsComing(f)
  {
    if !(f < |q.done| && q.done[f]) && f !in q.posted {
      var i :| 0 <= i < |q.producers| && q.Commits(q.producers[i], f);
      assert n.Commits(n.producers[i], f) || f in n.posted;
    }
  }

  lemma CallPutInv(q: Queue, x: Item)
    requires q.Inv()
    ensures Step(q, CallPut(x)).Inv()
  {
    var n := Step(q, CallPut(x));
    forall f: nat
      ensures n.WakeIsComing(f)
    {
      assert n.Commits(n.producers[|q.producers|], f);
    }
    hide Queue.WakeIsComing;
    forall k | 0 <= k < |n.consumers|
      ensures n.ConsumerOk(n.consumers[k])
    {
      assert q.ConsumerOk(q.consumers[k]);
    }
    forall j: nat, k: nat | j < |n.consumers| && k < |n.consumers|
      ensures n.OwnFuture(j, k)
    {
      assert q.OwnFuture(j, k);
    }
    SameDelivered(q, n);
  }

  lemma CopyWaitersInv(q: Queue, p: nat, order: seq<nat>)
    requires q.Inv() && Enabled(q, CopyWaiters(p, order))
    ensures Step(q, CopyWaiters(p, order)).Inv()
  {
    var n := Step(q, CopyWaiters(p, order));
    forall f: nat | q.WakeIsComing(f) && (f in q.waiters || f in q.closed) && f !in n.closed
      ensures n.WakeIsComing(f)
    {
      StillCommitted(q, n, p, f);
    }
    WakersInv(q, n);
  }

  lemma PostInv(q: Queue, p: nat)
    requires q.Inv() && Enabled(q, Post(p))
    ensures Step(q, Post(p)).Inv()
  {
    var n := Step(q, Post(p));
    forall f: nat | q.WakeIsComing(f) && (f in q.waiters || f in q.closed) && f !in n.closed
      ensures n.WakeIsComing(f)
    {
      StillCommitted(q, n, p, f);
    }
    WakersInv(q, n);
  }

  lemma WakeInv(q: Queue, f: nat)
    requires q.Inv() && Enabled(q, Wake(f))
    ensures Step(q, Wake(f)).Inv()
  {
    var n := Step(q, Wake(f));
    forall g: nat | q.WakeIsComing(g)
      ensures n.WakeIsComing(g)
    {
      if !(g < |n.done| && n.done[g]) && g !in n.posted {
        var i :| 0 <= i < |q.producers| && q.Commits(q.producers[i], g);
        assert n.Commits(n.producers[i], g);
      }
    }
    WakersInv(q, n);
  }

  lemma CloseLoopInv(q: Queue, f: nat)
    requires q.Inv()
    ensures Step(q, CloseLoop(f)).Inv()
  {
    var n := Step(q, CloseLoop(f));
    forall g: nat | q.WakeIsComing(g)
      ensures n.WakeIsComing(g)
    {
      if !(g < |n.done| && n.done[g]) && g !in n.posted {
        var i :| 0 <= i < |q.producers| && q.Commits(q.producers[i], g);
        assert n.Commits(n.producers[i], g);
      }
    }
    WakersInv(q, n);
  }

  /** A step of consumer `k`, whose new place is in order, that leaves the other consumers' futures
      alone and adds no item. */
  lemma ConsumerInv(q: Queue, n: Queue, k: nat)
    requires q.Inv() && k < |q.consumers| == |n.consumers|
    requires n == q.(consumers := q.consumers[k := n.consumers[k]], items := n.items, waiters := n.waiters,
      done := n.done, taken := n.taken)
    requires |q.done| <= |n.done| && n.done[..|q.done|] == q.done
    requires n.items != [] ==> q.items != []
    requires n.enqueued == Items(n.taken) + n.items && n.DeliveredOk()
    requires n.ConsumerOk(n.consumers[k])
    requires forall f | f in q.waiters && f !in n.waiters ::
      !q.consumers[k].Starting? && !q.consumers[k].Finished? && f == q.consumers[k].future
    requires n.consumers[k].Starting? || n.consumers[k].Finished? || n.consumers[k].future == |q.done|
      || (!q.consumers[k].Starting? && !q.consumers[k].Finished? && n.consumers[k].future == q.consumers[k].future)
    ensures n.Inv()
  {
    forall j: nat, i: nat | j < |n.consumers| && i < |n.consumers|
      ensures n.OwnFuture(j, i)
    {
      assert q.OwnFuture(j, i) && q.ConsumerOk(q.consumers[j]) && q.ConsumerOk(q.consumers[i]);
    }
    forall j | 0 <= j < |n.consumers|
      ensures n.ConsumerOk(n.consumers[j])
    {
      if j != k {
        OtherConsumer(q, n, k, j);
      }
    }
  }

  lemma OtherConsumer(q: Queue, n: Queue, k: nat, j: nat)
    requires q.Inv() && k < |q.consumers| && j < |q.consumers| && j != k
    requires n == q.(consumers := n.consumers, items := n.items, waiters := n.waiters, done := n.done, taken := n.taken)
    requires |q.done| <= |n.done| && n.done[..|q.done|] == q.done
    requires n.items != [] ==> q.items != []
    requires forall f | f in q.waiters && f !in n.waiters ::
      !q.consumers[k].Starting? && !q.consumers[k].Finished? && f == q.consumers[k].future
    ensures n.ConsumerOk(q.consumers[j])
  {
    assert q.OwnFuture(j, k) && q.ConsumerOk(q.consumers[j]);
    var c := q.consumers[j];
    if c.Suspended? && c.future !in q.closed && n.items != [] {
      var f := c.future;
      if f < |q.done| && q.done[f] {
        assert n.done[f] == n.done[..|q.done|][f];
      } else if f !in q.posted {
        var i :| 0 <= i < |q.producers| && q.Commits(q.producers[i], f);
        assert n.Commits(n.producers[i], f);
      }
      assert n.WakeIsComing(f);
    }
  }

  /** A consumer that neither held an item nor takes one changes nothing about who holds what. */
  lemma NothingTaken(q: Queue, n: Queue, k: nat)
    requires q.DeliveredOk() && k < |q.consumers| && |n.consumers| == |q.consumers| && n.taken == q.taken
    requires forall j: nat | j < |q.consumers| && j != k :: n.consumers[j] == q.consumers[j]
    requires forall x {:trigger q.Holds(k, x)} :: n.Holds(k, x) <==> q.Holds(k, x)
    ensures n.DeliveredOk()
  {
    forall i | 0 <= i < |n.taken|
      ensures n.Holds(n.taken[i].0, n.taken[i].1)
    {
      assert q.Holds(q.taken[i].0, q.taken[i].1);
    }
    forall j: nat, x | n.Holds(j, x)
      ensures (j, x) in n.taken
    {
      assert q.Holds(j, x);
    }
  }

  lemma TakenInv(q: Queue, k: nat)
    requires q.Inv() && Enabled(q, TakeOrWait(k)) && q.items != []
    ensures var n := Step(q, TakeOrWait(k)); n.DeliveredOk() && n.enqueued == Items(n.taken) + n.items
  {
    var n := Step(q, TakeOrWait(k));
    assert Items(n.taken) == Items(q.taken) + [q.items[0]];
    forall x
      ensures !q.Holds(k, x)
    {
    }
    forall i | 0 <= i < |n.taken|
      ensures n.Holds(n.taken[i].0, n.taken[i].1) && (i < |q.taken| ==> n.taken[i].0 != k)
    {
      if i < |q.taken| {
        assert q.Holds(q.taken[i].0, q.taken[i].1);
      }
    }
    forall j: nat, x | n.Holds(j, x)
      ensures (j, x) in n.taken
    {
      if j == k {
        assert n.taken[|q.taken|] == (k, q.items[0]);
      } else {
        assert q.Holds(j, x);
      }
    }
  }

  lemma ConsumerStepInv(q: Queue, a: Action)
    requires q.Inv() && Enabled(q, a) && (a.Register? || a.TakeOrWait? || a.Resume? || a.Cancel? || a.Discard?)
    ensures Step(q, a).Inv()
  {
    var n := Step(q, a);
    assert q.ConsumerOk(q.consumers[a.k]);
    if a.TakeOrWait? && q.items != [] {
      TakenInv(q, a.k);
    } else {
      NothingTaken(q, n, a.k);
    }
    ConsumerInv(q, n, a.k);
  }

  lemma CallGetInv(q: Queue)
    requires q.Inv()
    ensures Step(q, CallGet).Inv()
  {
    var n := Step(q, CallGet);
    forall k | 0 <= k < |n.consumers|
      ensures n.ConsumerOk(n.consumers[k])
    {
      if k < |q.consumers| {
        assert q.ConsumerOk(q.consumers[k]);
        assert q.consumers[k].Suspended? && q.WakeIsComing(q.consumers[k].future) ==>
          n.WakeIsComing(q.consumers[k].future);
      }
    }
    forall j: nat, k: nat | j < |n.consumers| && k < |n.consumers|
      ensures n.OwnFuture(j, k)
    {
      assert j < |q.consumers| && k < |q.consumers| ==> q.OwnFuture(j, k);
    }
    forall i | 0 <= i < |n.taken|
      ensures n.Holds(n.taken[i].0, n.taken[i].1)
    {
      assert q.Holds(q.taken[i].0, q.taken[i].1);
    }
    forall k: nat, x | n.Holds(k, x)
      ensures (k, x) in n.taken
    {
      assert q.Holds(k, x);
    }
  }

  lemma StepInv(q: Queue, a: Action)
    requires q.Inv() && Enabled(q, a)
    ensures Step(q, a).Inv()
  {
    hide Step, Enabled, Queue.Inv;
    match a
    case CallPut(x) => CallPutInv(q, x);
    case CopyWaiters(p, order) => CopyWaitersInv(q, p, order);
    case Post(p) => PostInv(q, p);
    case Wake(f) => WakeInv(q, f);
    case CallGet => CallGetInv(q);
    case CloseLoop(f) => CloseLoopInv(q, f);
    case _ => ConsumerStepInv(q, a);
  }

  // ---------- every run ----------

  function Initial(): Queue {
    Queue([], {}, [], {}, {}, [], [], [], [])
  }

  ghost predicate IsStep(q: Queue, n: Queue) {
    exists a :: Enabled(q, a) && n == Step(q, a)
  }

  ghost predicate IsRun(run: seq<Queue>) {
    && run != [] && run[0] == Initial()
    && forall i {:trigger run[i]} | 0 < i < |run| :: IsStep(run[i-1], run[i])
  }

  lemma {:induction false} EveryRun(run: seq<Queue>, i: nat)
    requires IsRun(run) && i < |run|
    ensures run[i].Inv()
  {
    if i > 0 {
      EveryRun(run, i - 1);
      assert IsStep(run[i-1], run[i]);
      var a :| Enabled(run[i-1], a) && run[i] == Step(run[i-1], a);
      hide *;
      StepInv(run[i-1], a);
    }
  }

  /** A step on the way to the wake-up of this very consumer is enabled: its own, the posted call for
      its future, or one of a producer that is committed to this future. */
  ghost predicate SomeWakerCanStep(q: Queue, k: nat)
    requires k < |q.consumers| && q.consumers[k].Suspended?
  {
    || Enabled(q, Resume(k)) || Enabled(q, Wake(q.consumers[k].future))
    || exists p: nat, order {:trigger CopyWaiters(p, order)} ::
         CommittedCanStep(q, p, order, q.consumers[k].future)
  }

  ghost predicate CommittedCanStep(q: Queue, p: nat, order: seq<nat>, f: nat) {
    p < |q.producers| && q.Commits(q.producers[p], f) && (Enabled(q, Post(p)) || Enabled(q, CopyWaiters(p, order)))
  }

  /** No wake-up is lost: in every interleaving, a consumer suspended on an open loop while the queue
      holds an item has its future set, or a call to set it is posted, or a producer is still
      committed to posting one. So some step on the way to its own wake-up can be taken. */
  lemma NoLostWakeup(run: seq<Queue>, i: nat, k: nat)
    requires IsRun(run) && i < |run| && k < |run[i].consumers|
    requires run[i].consumers[k].Suspended? && run[i].consumers[k].future !in run[i].closed && run[i].items != []
    ensures run[i].WakeIsComing(run[i].consumers[k].future)
    ensures SomeWakerCanStep(run[i], k)
  {
    EveryRun(run, i);
    hide IsRun;
    WakersCanStep(run[i], k);
  }

  lemma WakersCanStep(q: Queue, k: nat)
    requires q.Inv() && k < |q.consumers|
    requires q.consumers[k].Suspended? && q.consumers[k].future !in q.closed && q.items != []
    ensures q.WakeIsComing(q.consumers[k].future)
    ensures SomeWakerCanStep(q, k)
  {
    var f := q.consumers[k].future;
    assert q.ConsumerOk(q.consumers[k]);
    hide Queue.Inv;
    if !q.done[f] && f !in q.posted {
      var p: nat :| p < |q.producers| && q.Commits(q.producers[p], f);
      var order := Listing(q.waiters);
      assert CommittedCanStep(q, p, order, f) && CopyWaiters(p, order) == CopyWaiters(p, order);
    }
  }

  lemma Listing(s: set<nat>) returns (order: seq<nat>)
    ensures forall f | f in s :: f in order
    decreases s
  {
    if s == {} {
      order := [];
    } else {
      var f :| f in s;
      var rest := Listing(s - {f});
      order := [f] + rest;
    }
  }

  /** Once every producer is through and every posted call has run, whoever still waits although
      there is an item has been woken. */
  lemma QuietMeansWoken(run: seq<Queue>, i: nat, k: nat)
    requires IsRun(run) && i < |run| && k < |run[i].consumers|
    requires run[i].consumers[k].Suspended? && run[i].consumers[k].future !in run[i].closed && run[i].items != []
    requires run[i].posted == {} && forall p | p in run[i].producers :: p == Waking([])
    ensures Enabled(run[i], Resume(k))
  {
    EveryRun(run, i);
    hide IsRun;
    MustBeWoken(run[i], k);
  }

  lemma MustBeWoken(q: Queue, k: nat)
    requires q.Inv() && k < |q.consumers|
    requires q.consumers[k].Suspended? && q.consumers[k].future !in q.closed && q.items != []
    requires q.posted == {} && forall p | p in q.producers :: p == Waking([])
    ensures Enabled(q, Resume(k))
  {
    assert q.ConsumerOk(q.consumers[k]);
    assert forall p | 0 <= p < |q.producers| :: q.producers[p] in q.producers;
  }

  /** Items are delivered in the order they were put, each to one consumer, and the rest is still in
      the queue. */
  lemma DeliveredOnceInOrder(run: seq<Queue>, i: nat)
    requires IsRun(run) && i < |run|
    ensures run[i].enqueued == Items(run[i].taken) + run[i].items
    ensures forall k: nat, x {:trigger run[i].Holds(k, x)} :: run[i].Holds(k, x) <==> (k, x) in run[i].taken
    ensures forall a, b | 0 <= a < b < |run[i].taken| :: run[i].taken[a].0 != run[i].taken[b].0
  {
    EveryRun(run, i);
    var q := run[i];
    forall k: nat, x | (k, x) in q.taken
      ensures q.Holds(k, x)
    {
      var a :| 0 <= a < |q.taken| && q.taken[a] == (k, x);
      assert q.Holds(q.taken[a].0, q.taken[a].1);
    }
  }

  /** A wait that is cancelled takes nothing, not then and not as it leaves. */
  lemma CancelledTakesNothing(q: Queue, k: nat)
    requires q.Inv() && Enabled(q, Cancel(k))
    ensures var n := Step(q, Cancel(k));
      && Enabled(n, Discard(k)) && var e := Step(n, Discard(k));
      && e.items == n.items == q.items && e.taken == n.taken == q.taken && e.consumers[k] == Finished(Cancelled)
      && e.Inv() && forall x :: (k, x) !in e.taken
  {
    var n := Step(q, Cancel(k));
    StepInv(q, Cancel(k));
    StepInv(n, Discard(k));
    var e := Step(n, Discard(k));
    forall i | 0 <= i < |e.taken|
      ensures e.taken[i].0 != k
    {
      assert e.Holds(e.taken[i].0, e.taken[i].1);
    }
  }

  // ---------- the code ----------

  /** The queue with the calls under way on it; each method is what one thread does in one go. */
  class GenerationEventQueue {
    var items: seq<Item>
    var waiters: set<nat>
    var done: seq<bool>
    var closed: set<nat>
    var posted: set<nat>
    var producers: seq<Producer>
    var consumers: seq<Consumer>
    var enqueued: seq<Item>
    var taken: seq<(nat, Item)>

    function Value(): Queue
      reads this
    {
      Queue(items, waiters, done, closed, posted, producers, consumers, enqueued, taken)
    }

    constructor ()
      ensures Value() == Initial() && Value().Inv()
    {
      items, waiters, done, closed, posted := [], {}, [], {}, {};
      producers, consumers, enqueued, taken := [], [], [], [];
    }

    method Put(item: Item)
      modifies this
      ensures Value() == Step(old(Value()), CallPut(item))
    {
      items := items + [item];
      enqueued := enqueued + [item];
      producers := producers + [Enqueued];
    }

    /** `tuple(self._waiters)`, under the lock. */
    method CopyWaiterSet(p: nat) returns (order: seq<nat>)
      requires p < |producers| && producers[p].Enqueued?
      modifies `producers
      ensures Enabled(old(Value()), CopyWaiters(p, order)) && Value() == Step(old(Value()), CopyWaiters(p, order))
      ensures forall f | f in order :: f in waiters
    {
      order := [];
      var left := waiters;
      while left != {}
        invariant left <= waiters
        invariant forall f :: f in order <==> f in waiters - left
      {
        var f :| f in left;
        order := order + [f];
        left := left - {f};
      }
      producers := producers[p := Waking(order)];
    }

    /** `loop.call_soon_threadsafe(self._wake, future)`. */
    method PostNext(p: nat)
      requires Enabled(Value(), Post(p))
      modifies this
      ensures Value() == Step(old(Value()), Post(p))
    {
      var future := producers[p].left[0];
      producers := producers[p := Waking(producers[p].left[1..])];
      if future in closed {
        waiters := waiters - {future};
      } else {
        posted := posted + {future};
      }
    }

    /** `_wake`, called by the consumer's event loop. */
    method WakeFuture(f: nat)
      requires Enabled(Value(), Wake(f))
      modifies this
      ensures Value() == Step(old(Value()), Wake(f))
    {
      posted := posted - {f};
      if !done[f] {
        done := done[f := true];
      }
    }

    method RegisterWaiter(k: nat)
      requires Enabled(Value(), Register(k))
      modifies this
      ensures Value() == Step(old(Value()), Register(k))
    {
      var future := |done|;
      done := done + [false];
      waiters := waiters + {future};
      consumers := consumers[k := Registered(future)];
    }

    /** `get_nowait`, or else the start of the wait. */
    method GetNowait(k: nat)
      requires Enabled(Value(), TakeOrWait(k))
      modifies this
      ensures Value() == Step(old(Value()), TakeOrWait(k))
    {
      var future := consumers[k].future;
      if items == [] {
        consumers := consumers[k := Suspended(future)];
      } else {
        var item := items[0];
        items := items[1..];
        taken := taken + [(k, item)];
        consumers := consumers[k := Leaving(future, Got(item))];
      }
    }

    /** The end of the wait: its future was set, or the caller cancelled it. */
    method EndWait(k: nat, cancelled: bool)
      requires Enabled(Value(), if cancelled then Cancel(k) else Resume(k))
      modifies this
      ensures Value() == Step(old(Value()), if cancelled then Cancel(k) else Resume(k))
    {
      var future := consumers[k].future;
      consumers := consumers[k := Leaving(future, if cancelled then Cancelled else Again)];
    }

    /** The `finally` clause, then the end of the call or the next turn of its loop. */
    method DiscardWaiter(k: nat)
      requires Enabled(Value(), Discard(k))
      modifies this
      ensures Value() == Step(old(Value()), Discard(k))
    {
      var c := consumers[k];
      waiters := waiters - {c.future};
      consumers := consumers[k := if c.ending.Again? then Starting else Finished(c.ending)];
    }
  }
}
