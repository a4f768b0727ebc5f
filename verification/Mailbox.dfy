/**
 What the mailbox promises to its users: a bounded FIFO of positions that are first
 reserved and then published. The head can only be popped once it is published.
 */
module MailboxSpec {

  datatype Cell<V> = Cell(value: V, published: bool)

  type Queue<V> = seq<Cell<V>>

  function Reserve<V>(q: Queue<V>, v: V): Queue<V> {
    q + [Cell(v, false)]
  }

  function Publish<V>(q: Queue<V>, k: nat): Queue<V>
    requires k < |q|
  {
    q[k := q[k].(published := true)]
  }

  /** One abstract action, or none. */
  ghost predicate SpecStep<V(!new)>(q: Queue<V>, q': Queue<V>, popped: seq<V>, popped': seq<V>) {
    || (q' == q && popped' == popped)
    || (popped' == popped && exists v :: q' == Reserve(q, v))
    || (popped' == popped && exists k: nat :: k < |q| && !q[k].published && q' == Publish(q, k))
    || (q != [] && q[0].published && q' == q[1..] && popped' == popped + [q[0].value])
  }
}

/**
 The lock-free mailbox as a step system: any number of producers, one consumer, one
 access to shared memory per step, sequentially consistent. Positions are unbounded;
 position k lives in slot k % capacity.
 */
module Mailbox {
  import opened MailboxSpec
  import opened Arith
  import opened Wrappers

  /** Program counters of a producer inside TryEmplace(value). */
  datatype Producer<V> =
    | Outside
    | HasPosition(value: V, pos: nat)
    | HasSequence(value: V, pos: nat, sequence: nat)
    | Reserved(value: V, pos: nat)
    | Constructed(value: V, pos: nat)

  /** Program counters of the consumer inside TryPop(). */
  datatype Consumer<V> =
    | Resting
    | AtSlot(pos: nat)
    | Ready(pos: nat)
    | Taken(pos: nat)
    | Released(pos: nat)

  /**
   `sequences`, `storage`, `enqueue`, `dequeue` are the mailbox. `reserved` lists who
   reserved which position with which value, `popped` what TryPop took, `accepted` the
   values whose TryEmplace returned true, per producer.
   */
  datatype State<V> = State(
    capacity: nat, sequences: seq<nat>, storage: seq<Option<V>>, enqueue: nat, dequeue: nat,
    producers: seq<Producer<V>>, consumer: Consumer<V>,
    reserved: seq<(nat, V)>, popped: seq<V>, accepted: seq<seq<V>>)

  datatype Step<V> =
    | Enter(i: nat, value: V)
    | LoadSequence(i: nat)
    | Full(i: nat)
    | Retry(i: nat)
    | CasFails(i: nat)
    | CasSucceeds(i: nat)
    | Construct(i: nat)
    | PublishStep(i: nat)
    | LoadDequeue
    | HeadNotReady
    | HeadReady
    | Take
    | ReleaseSlot
    | Advance

  function Slot<V>(s: State<V>, pos: nat): nat
    requires s.capacity > 0
  {
    pos % s.capacity
  }

  ghost predicate Shape<V>(s: State<V>) {
    && s.capacity >= 2 && |s.sequences| == s.capacity && |s.storage| == s.capacity
    && |s.accepted| == |s.producers|
  }

  ghost predicate Enabled<V>(s: State<V>, t: Step<V>)
    requires Shape(s)
  {
    match t
    case Enter(i, _) => i < |s.producers| && s.producers[i].Outside?
    case LoadSequence(i) => i < |s.producers| && s.producers[i].HasPosition?
    case Full(i) => i < |s.producers| && s.producers[i].HasSequence? && s.producers[i].sequence < s.producers[i].pos
    case Retry(i) => i < |s.producers| && s.producers[i].HasSequence? && s.producers[i].sequence > s.producers[i].pos
    case CasFails(i) => i < |s.producers| && s.producers[i].HasSequence?
      && s.producers[i].sequence == s.producers[i].pos
    case CasSucceeds(i) =>
      i < |s.producers| && s.producers[i].HasSequence? && s.producers[i].sequence == s.producers[i].pos == s.enqueue
    case Construct(i) => i < |s.producers| && s.producers[i].Reserved?
    case PublishStep(i) => i < |s.producers| && s.producers[i].Constructed?
    case LoadDequeue => s.consumer.Resting?
    case HeadNotReady => s.consumer.AtSlot? && s.sequences[Slot(s, s.consumer.pos)] != s.consumer.pos + 1
    case HeadReady => s.consumer.AtSlot? && s.sequences[Slot(s, s.consumer.pos)] == s.consumer.pos + 1
    case Take => s.consumer.Ready?
    case ReleaseSlot => s.consumer.Taken?
    case Advance => s.consumer.Released?
  }

  /** What the consumer reads from the slot; an empty slot would be read before construction. */
  ghost predicate ReadsValue<V>(s: State<V>)
    requires Shape(s)
  {
    s.consumer.Ready? ==> s.storage[Slot(s, s.consumer.pos)].Some?
  }

  ghost function Next<V>(s: State<V>, t: Step<V>): State<V>
    requires Shape(s) && Enabled(s, t) && ReadsValue(s)
  {
    match t
    case Enter(i, v) => s.(producers := s.producers[i := HasPosition(v, s.enqueue)])
    case LoadSequence(i) =>
      var p := s.producers[i];
      s.(producers := s.producers[i := HasSequence(p.value, p.pos, s.sequences[Slot(s, p.pos)])])
    case Full(i) => s.(producers := s.producers[i := Outside])
    case Retry(i) => s.(producers := s.producers[i := HasPosition(s.producers[i].value, s.enqueue)])
    case CasFails(i) => s.(producers := s.producers[i := HasPosition(s.producers[i].value, s.enqueue)])
    case CasSucceeds(i) =>
      var p := s.producers[i];
      s.(enqueue := s.enqueue + 1, producers := s.producers[i := Reserved(p.value, p.pos)],
         reserved := s.reserved + [(i, p.value)])
    case Construct(i) =>
      var p := s.producers[i];
      s.(storage := s.storage[Slot(s, p.pos) := Some(p.value)],
         producers := s.producers[i := Constructed(p.value, p.pos)])
    case PublishStep(i) =>
      var p := s.producers[i];
      s.(sequences := s.sequences[Slot(s, p.pos) := p.pos + 1], producers := s.producers[i := Outside],
         accepted := s.accepted[i := s.accepted[i] + [p.value]])
    case LoadDequeue => s.(consumer := AtSlot(s.dequeue))
    case HeadNotReady => s.(consumer := Resting)
    case HeadReady => s.(consumer := Ready(s.consumer.pos))
    case Take =>
      var k := Slot(s, s.consumer.pos);
      s.(consumer := Taken(s.consumer.pos), popped := s.popped + [s.storage[k].value], storage := s.storage[k := None])
    case ReleaseSlot =>
      s.(sequences := s.sequences[Slot(s, s.consumer.pos) := s.consumer.pos + s.capacity],
         consumer := Released(s.consumer.pos))
    case Advance => s.(dequeue := s.consumer.pos + 1, consumer := Resting)
  }

  ghost predicate Initial<V>(s: State<V>) {
    && Shape(s) && (forall k | 0 <= k < s.capacity :: s.sequences[k] == k && s.storage[k].None?)
    && s.enqueue == 0 && s.dequeue == 0 && s.consumer.Resting? && s.reserved == [] && s.popped == []
    && (forall i | 0 <= i < |s.producers| :: s.producers[i].Outside? && s.accepted[i] == [])
  }

  // ------------------------------------------------------------------
  // Invariant
  // ------------------------------------------------------------------

  /** Positions whose slots the consumer has released. */
  function ReleasedCount<V>(s: State<V>): nat {
    s.dequeue + if s.consumer.Released? then 1 else 0
  }

  /** Position `k` is reserved by producer `i` and not yet published. */
  ghost predicate Holds<V>(s: State<V>, i: nat, k: nat) {
    i < |s.producers| && (s.producers[i].Reserved? || s.producers[i].Constructed?) && s.producers[i].pos == k
  }

  /** The sequence of the slot of `k` tells the state of position `k`. */
  ghost predicate CellInv<V>(s: State<V>, k: nat)
    requires Shape(s)
  {
    var q := s.sequences[Slot(s, k)];
    && (q == k || (q == k + 1 && k < s.enqueue))
    && (q == k && k < s.enqueue ==> exists i :: Holds(s, i, k))
    && (q == k + 1 && k < |s.reserved| && !(s.consumer == Taken(k)) ==> s.storage[Slot(s, k)] == Some(s.reserved[k].1))
  }

  ghost predicate ProducerInv<V>(s: State<V>, i: nat)
    requires Shape(s) && i < |s.producers|
  {
    match s.producers[i]
    case Outside => true
    case HasPosition(_, pos) => pos <= s.enqueue
    case HasSequence(_, pos, q) => pos <= s.enqueue && (q == pos ==> pos < ReleasedCount(s) + s.capacity)
    case Reserved(v, pos) => HolderInv(s, i, v, pos)
    case Constructed(v, pos) => HolderInv(s, i, v, pos) && s.storage[Slot(s, pos)] == Some(v)
  }

  ghost predicate HolderInv<V>(s: State<V>, i: nat, v: V, pos: nat)
    requires Shape(s)
  {
    && ReleasedCount(s) <= pos < s.enqueue && pos < |s.reserved| && s.reserved[pos] == (i, v)
    && s.sequences[Slot(s, pos)] == pos
  }

  ghost predicate ConsumerInv<V>(s: State<V>)
    requires Shape(s)
  {
    && |s.popped| == s.dequeue + (if s.consumer.Taken? || s.consumer.Released? then 1 else 0)
    && (!s.consumer.Resting? ==> s.consumer.pos == s.dequeue)
    && (s.consumer.Ready? || s.consumer.Taken? ==> s.sequences[Slot(s, s.dequeue)] == s.dequeue + 1)
    && |s.popped| <= |s.reserved|
    && (forall k | 0 <= k < |s.popped| :: s.popped[k] == s.reserved[k].1)
  }

  /** The values producer `i` reserved positions for, in position order. */
  function ReservedBy<V>(r: seq<(nat, V)>, i: nat): seq<V> {
    if r == [] then []
    else ReservedBy(r[..|r| - 1], i) + if r[|r| - 1].0 == i then [r[|r| - 1].1] else []
  }

  /** What producer `i` reserved is what TryEmplace returned true for, plus what it is about to publish. */
  ghost predicate OrderInv<V>(s: State<V>, i: nat)
    requires Shape(s) && i < |s.producers|
  {
    var p := s.producers[i];
    ReservedBy(s.reserved, i) == s.accepted[i] + if p.Reserved? || p.Constructed? then [p.value] else []
  }

  ghost predicate Inv<V>(s: State<V>) {
    && Shape(s) && |s.reserved| == s.enqueue && s.enqueue <= ReleasedCount(s) + s.capacity
    && ReleasedCount(s) <= s.enqueue
    && (forall k: nat | InRange(s, k) :: CellInv(s, k))
    && (forall i: nat | i < |s.producers| :: ProducerInv(s, i))
    && (forall i: nat | i < |s.producers| :: OrderInv(s, i))
    && ConsumerInv(s)
  }

  /** Two positions in one window of `capacity` positions have different slots. */
  lemma SameSlot(a: nat, b: nat, lo: nat, capacity: nat)
    requires capacity > 0 && lo <= a < lo + capacity && lo <= b < lo + capacity && a % capacity == b % capacity
    ensures a == b
  {
    if a < b {
      SameRemainderGap(a, b, capacity);
    } else if b < a {
      SameRemainderGap(b, a, capacity);
    }
  }

  /** The window in which slots and positions correspond. */
  ghost predicate InRange<V>(s: State<V>, k: nat) {
    ReleasedCount(s) <= k < ReleasedCount(s) + s.capacity
  }

  /** Steps that leave sequences, storage and reservations alone. */
  lemma CellsUntouched<V>(s: State<V>, s': State<V>)
    requires Inv(s) && Shape(s')
    requires s'.capacity == s.capacity && s'.sequences == s.sequences && s'.storage == s.storage
    requires s'.enqueue == s.enqueue && s'.reserved == s.reserved && ReleasedCount(s') == ReleasedCount(s)
    requires s'.consumer.Taken? == s.consumer.Taken?
    requires s.consumer.Taken? ==> s'.consumer == s.consumer
    requires forall i, k | Holds(s, i, k) :: Holds(s', i, k)
    ensures forall k: nat | InRange(s', k) :: CellInv(s', k)
  {
    forall k: nat | InRange(s', k) ensures CellInv(s', k) {
      assert CellInv(s, k);
    }
  }

  /** The state of the slot of any position up to `enqueue`, as a producer reads it. */
  lemma SlotRead<V>(s: State<V>, pos: nat)
    requires Inv(s) && pos <= s.enqueue
    ensures var q := s.sequences[Slot(s, pos)];
            && (q == pos ==> InRange(s, pos))
            && (q < pos ==> pos == s.enqueue == ReleasedCount(s) + s.capacity)
  {
    var k := InWindow(pos, ReleasedCount(s), s.capacity);
    assert CellInv(s, k);
    if k < pos {
      SameRemainderGap(k, pos, s.capacity);
    }
  }

  /** Producer steps before the reservation. */
  lemma BrowseKeeps<V>(s: State<V>, t: Step<V>)
    requires Inv(s) && Enabled(s, t)
    requires t.Enter? || t.LoadSequence? || t.Full? || t.Retry? || t.CasFails?
    requires ReadsValue(s)
    ensures Inv(Next(s, t))
  {
    var s' := Next(s, t);
    forall i, k | Holds(s, i, k) ensures Holds(s', i, k) {
    }
    CellsUntouched(s, s');
    forall j: nat | j < |s'.producers| ensures ProducerInv(s', j) && OrderInv(s', j) {
      assert ProducerInv(s, j) && OrderInv(s, j);
      BrowseProducer(s, t, j);
    }
  }

  lemma BrowseProducer<V>(s: State<V>, t: Step<V>, j: nat)
    requires Inv(s) && Enabled(s, t) && j < |s.producers|
    requires t.Enter? || t.LoadSequence? || t.Full? || t.Retry? || t.CasFails?
    requires ReadsValue(s) && ProducerInv(s, j) && Shape(Next(s, t)) && |Next(s, t).producers| == |s.producers|
    ensures ProducerInv(Next(s, t), j)
  {
    if t.LoadSequence? && t.i == j {
      SlotRead(s, s.producers[j].pos);
    }
  }

  lemma CasCells<V>(s: State<V>, i: nat)
    requires Inv(s) && Enabled(s, CasSucceeds(i)) && ReadsValue(s)
    ensures var s' := Next(s, CasSucceeds(i)); forall k: nat | InRange(s', k) :: CellInv(s', k)
  {
    var s' := Next(s, CasSucceeds(i));
    forall k: nat | InRange(s', k) ensures CellInv(s', k) {
      assert CellInv(s, k);
      if k == s.enqueue {
        assert Holds(s', i, k);
      } else if s.sequences[Slot(s, k)] == k && k < s.enqueue {
        var j :| Holds(s, j, k);
        assert Holds(s', j, k);
      }
    }
  }

  lemma CasKeeps<V>(s: State<V>, i: nat)
    requires Inv(s) && Enabled(s, CasSucceeds(i)) && ReadsValue(s)
    ensures Inv(Next(s, CasSucceeds(i)))
  {
    var s' := Next(s, CasSucceeds(i));
    CasCells(s, i);
    assert ProducerInv(s, i) && InRange(s, s.enqueue) && CellInv(s, s.enqueue);
    assert s'.reserved[..|s'.reserved| - 1] == s.reserved;
    forall j: nat | j < |s'.producers| ensures ProducerInv(s', j) && OrderInv(s', j) {
      assert ProducerInv(s, j) && OrderInv(s, j);
    }
  }

  /** A holder's slot belongs to no other position in use. */
  lemma HolderAlone<V>(s: State<V>, i: nat, k: nat)
    requires Inv(s) && i < |s.producers| && (s.producers[i].Reserved? || s.producers[i].Constructed?) && InRange(s, k)
    ensures InRange(s, s.producers[i].pos)
    ensures k != s.producers[i].pos ==> Slot(s, k) != Slot(s, s.producers[i].pos)
  {
    assert ProducerInv(s, i);
    if k != s.producers[i].pos && Slot(s, k) == Slot(s, s.producers[i].pos) {
      SameSlot(k, s.producers[i].pos, ReleasedCount(s), s.capacity);
    }
  }

  lemma ConstructCell<V>(s: State<V>, i: nat, k: nat)
    requires Inv(s) && Enabled(s, Construct(i)) && ReadsValue(s) && Shape(Next(s, Construct(i))) && InRange(s, k)
    ensures CellInv(Next(s, Construct(i)), k)
  {
    assert ProducerInv(s, i) && CellInv(s, k);
    HolderAlone(s, i, k);
    if s.sequences[Slot(s, k)] == k && k < s.enqueue {
      var j :| Holds(s, j, k);
      assert Holds(Next(s, Construct(i)), j, k);
    }
  }

  lemma ConstructKeeps<V>(s: State<V>, i: nat)
    requires Inv(s) && Enabled(s, Construct(i)) && ReadsValue(s)
    ensures Inv(Next(s, Construct(i)))
  {
    var s' := Next(s, Construct(i));
    assert ProducerInv(s, i);
    forall k: nat | InRange(s', k) ensures CellInv(s', k) {
      ConstructCell(s, i, k);
    }
    forall j: nat | j < |s'.producers| ensures ProducerInv(s', j) && OrderInv(s', j) {
      assert ProducerInv(s, j) && OrderInv(s, j);
      if s.producers[j].Constructed? {
        HolderAlone(s, i, s.producers[j].pos);
      }
    }
  }

  lemma PublishCell<V>(s: State<V>, i: nat, k: nat)
    requires Inv(s) && Enabled(s, PublishStep(i)) && ReadsValue(s) && Shape(Next(s, PublishStep(i))) && InRange(s, k)
    ensures CellInv(Next(s, PublishStep(i)), k)
  {
    assert ProducerInv(s, i) && CellInv(s, k);
    HolderAlone(s, i, k);
    if k != s.producers[i].pos && s.sequences[Slot(s, k)] == k && k < s.enqueue {
      var j :| Holds(s, j, k);
      assert Holds(Next(s, PublishStep(i)), j, k);
    }
  }

  lemma PublishKeeps<V>(s: State<V>, i: nat)
    requires Inv(s) && Enabled(s, PublishStep(i)) && ReadsValue(s)
    ensures Inv(Next(s, PublishStep(i)))
  {
    var s' := Next(s, PublishStep(i));
    assert ProducerInv(s, i);
    forall k: nat | InRange(s', k) ensures CellInv(s', k) {
      PublishCell(s, i, k);
    }
    forall j: nat | j < |s'.producers| ensures ProducerInv(s', j) && OrderInv(s', j) {
      assert ProducerInv(s, j) && OrderInv(s, j);
      if j != i && (s.producers[j].Reserved? || s.producers[j].Constructed?) {
        HolderAlone(s, i, s.producers[j].pos);
      }
    }
    if s.consumer.Ready? || s.consumer.Taken? {
      assert InRange(s, s.dequeue);
      HolderAlone(s, i, s.dequeue);
    }
  }

  /** Consumer steps that write nothing. */
  lemma LookKeeps<V>(s: State<V>, t: Step<V>)
    requires Inv(s) && Enabled(s, t) && ReadsValue(s)
    requires t.LoadDequeue? || t.HeadNotReady? || t.HeadReady? || t.Advance?
    ensures Inv(Next(s, t))
  {
    var s' := Next(s, t);
    forall i, k | Holds(s, i, k) ensures Holds(s', i, k) {
    }
    CellsUntouched(s, s');
    forall j: nat | j < |s'.producers| ensures ProducerInv(s', j) && OrderInv(s', j) {
      assert ProducerInv(s, j) && OrderInv(s, j);
    }
  }

  /** A slot the consumer found ready holds the value of whoever reserved the position. */
  lemma ReadyHoldsValue<V>(s: State<V>)
    requires Inv(s) && s.consumer.Ready?
    ensures s.dequeue < |s.reserved| && InRange(s, s.dequeue)
    ensures s.storage[Slot(s, s.dequeue)] == Some(s.reserved[s.dequeue].1)
  {
    assert CellInv(s, s.dequeue);
  }

  lemma TakeKeeps<V>(s: State<V>)
    requires Inv(s) && s.consumer.Ready? && ReadsValue(s)
    ensures Inv(Next(s, Take))
  {
    var s' := Next(s, Take);
    ReadyHoldsValue(s);
    forall k: nat | InRange(s', k) ensures CellInv(s', k) {
      assert CellInv(s, k);
      if Slot(s, k) == Slot(s, s.dequeue) {
        SameSlot(k, s.dequeue, ReleasedCount(s), s.capacity);
      }
      if s.sequences[Slot(s, k)] == k && k < s.enqueue {
        var j :| Holds(s, j, k);
        assert Holds(s', j, k);
      }
    }
    forall j: nat | j < |s'.producers| ensures ProducerInv(s', j) && OrderInv(s', j) {
      assert ProducerInv(s, j) && OrderInv(s, j);
      if s.producers[j].Constructed? {
        HolderAlone(s, j, s.dequeue);
      }
    }
  }

  lemma ReleaseKeeps<V>(s: State<V>)
    requires Inv(s) && s.consumer.Taken? && ReadsValue(s)
    ensures Inv(Next(s, ReleaseSlot))
  {
    var s', d := Next(s, ReleaseSlot), s.dequeue;
    assert InRange(s, d);
    ModShift(d, 1, s.capacity);
    assert d + 1 * s.capacity == d + s.capacity;
    forall k: nat | InRange(s', k) ensures CellInv(s', k) {
      if k == d + s.capacity {
        assert Slot(s', k) == Slot(s, d);
      } else {
        assert CellInv(s, k);
        if Slot(s, k) == Slot(s, d) {
          SameSlot(k, d, ReleasedCount(s), s.capacity);
        }
        if s.sequences[Slot(s, k)] == k && k < s.enqueue {
          var j :| Holds(s, j, k);
          assert Holds(s', j, k);
        }
      }
    }
    forall j: nat | j < |s'.producers| ensures ProducerInv(s', j) && OrderInv(s', j) {
      assert ProducerInv(s, j) && OrderInv(s, j);
      if s.producers[j].Reserved? || s.producers[j].Constructed? {
        HolderAlone(s, j, d);
      }
    }
  }

  /** Every access to shared memory by anyone keeps the invariant, and the consumer never reads an empty slot. */
  lemma StepKeepsInv<V>(s: State<V>, t: Step<V>)
    requires Inv(s) && Enabled(s, t)
    ensures ReadsValue(s) && Inv(Next(s, t))
  {
    if s.consumer.Ready? {
      ReadyHoldsValue(s);
    }
    match t
    case CasSucceeds(i) => CasKeeps(s, i);
    case Construct(i) => ConstructKeeps(s, i);
    case PublishStep(i) => PublishKeeps(s, i);
    case Take => TakeKeeps(s);
    case ReleaseSlot => ReleaseKeeps(s);
    case LoadDequeue => LookKeeps(s, t);
    case HeadNotReady => LookKeeps(s, t);
    case HeadReady => LookKeeps(s, t);
    case Advance => LookKeeps(s, t);
    case Enter(_, _) => BrowseKeeps(s, t);
    case LoadSequence(_) => BrowseKeeps(s, t);
    case Full(_) => BrowseKeeps(s, t);
    case Retry(_) => BrowseKeeps(s, t);
    case CasFails(_) => BrowseKeeps(s, t);
  }

  lemma InitialInv<V>(s: State<V>)
    requires Initial(s)
    ensures Inv(s)
  {
    forall k: nat | InRange(s, k) ensures CellInv(s, k) {
      assert k % s.capacity == k;
    }
  }

  // ------------------------------------------------------------------
  // Refinement of the FIFO of reserved and published positions
  // ------------------------------------------------------------------

  function CellAt<V>(reserved: seq<(nat, V)>, sequences: seq<nat>, k: nat): Cell<V>
    requires k < |reserved| && |sequences| > 0
  {
    Cell(reserved[k].1, sequences[k % |sequences|] == k + 1)
  }

  /** Positions `lo` and up. */
  function Cells<V>(reserved: seq<(nat, V)>, sequences: seq<nat>, lo: nat): (r: Queue<V>)
    requires lo <= |reserved| && |sequences| > 0
    ensures |r| == |reserved| - lo
    ensures forall j: nat | j < |r| :: r[j] == CellAt(reserved, sequences, lo + j)
    decreases |reserved| - lo
  {
    if lo == |reserved| then [] else [CellAt(reserved, sequences, lo)] + Cells(reserved, sequences, lo + 1)
  }

  /** The reserved positions not yet popped, in order. */
  ghost function Contents<V>(s: State<V>): Queue<V>
    requires Inv(s)
  {
    Cells(s.reserved, s.sequences, |s.popped|)
  }

  /** The cells of two states agree where their sequences do. */
  lemma CellsAgree<V>(s: State<V>, s': State<V>)
    requires Inv(s) && Inv(s') && s'.reserved == s.reserved && s'.popped == s.popped
    requires forall k: nat | |s.popped| <= k < |s.reserved| ::
             CellAt(s'.reserved, s'.sequences, k) == CellAt(s.reserved, s.sequences, k)
    ensures Contents(s') == Contents(s)
  {
  }

  lemma QuietRefines<V>(s: State<V>, s': State<V>)
    requires Inv(s) && Inv(s') && s'.reserved == s.reserved && s'.popped == s.popped && s'.sequences == s.sequences
    ensures Contents(s') == Contents(s)
  {
  }

  lemma CasRefines<V>(s: State<V>, i: nat)
    requires Inv(s) && Enabled(s, CasSucceeds(i)) && ReadsValue(s) && Inv(Next(s, CasSucceeds(i)))
    ensures Contents(Next(s, CasSucceeds(i))) == Reserve(Contents(s), s.producers[i].value)
  {
    var s', k := Next(s, CasSucceeds(i)), s.enqueue;
    assert ProducerInv(s, i) && InRange(s, k) && CellInv(s, k);
    assert CellAt(s'.reserved, s'.sequences, k) == Cell(s.producers[i].value, false);
    assert forall j: nat | |s.popped| <= j < k ::
        CellAt(s'.reserved, s'.sequences, j) == CellAt(s.reserved, s.sequences, j);
  }

  lemma PublishRefines<V>(s: State<V>, i: nat)
    requires Inv(s) && Enabled(s, PublishStep(i)) && ReadsValue(s) && Inv(Next(s, PublishStep(i)))
    ensures var pos := s.producers[i].pos;
            && |s.popped| <= pos < s.enqueue && !Contents(s)[pos - |s.popped|].published
            && Contents(Next(s, PublishStep(i))) == Publish(Contents(s), pos - |s.popped|)
  {
    var s', pos := Next(s, PublishStep(i)), s.producers[i].pos;
    assert ProducerInv(s, i);
    NotPopped(s, i);
    forall k: nat | |s.popped| <= k < s.enqueue
      ensures CellAt(s'.reserved, s'.sequences, k)
           == if k == pos then Cell(s.reserved[k].1, true) else CellAt(s.reserved, s.sequences, k)
    {
      PublishedCell(s, i, k);
    }
  }

  lemma PublishedCell<V>(s: State<V>, i: nat, k: nat)
    requires Inv(s) && Enabled(s, PublishStep(i)) && ReadsValue(s) && |s.popped| <= k < s.enqueue
    requires Shape(Next(s, PublishStep(i)))
    ensures CellAt(Next(s, PublishStep(i)).reserved, Next(s, PublishStep(i)).sequences, k)
         == if k == s.producers[i].pos then Cell(s.reserved[k].1, true) else CellAt(s.reserved, s.sequences, k)
  {
    assert ProducerInv(s, i);
    ContentsSlots(s, k);
    HolderAlone(s, i, k);
  }

  /** A constructed value is not published, so its position was not popped. */
  lemma NotPopped<V>(s: State<V>, i: nat)
    requires Inv(s) && i < |s.producers| && s.producers[i].Constructed?
    ensures |s.popped| <= s.producers[i].pos < s.enqueue
  {
    assert ProducerInv(s, i);
  }

  lemma ContentsSlots<V>(s: State<V>, k: nat)
    requires Inv(s) && |s.popped| <= k < s.enqueue
    ensures InRange(s, k)
  {
  }

  lemma ReleaseRefines<V>(s: State<V>)
    requires Inv(s) && s.consumer.Taken? && ReadsValue(s) && Inv(Next(s, ReleaseSlot))
    ensures Contents(Next(s, ReleaseSlot)) == Contents(s)
  {
    var s' := Next(s, ReleaseSlot);
    forall k: nat | |s.popped| <= k < s.enqueue
      ensures CellAt(s'.reserved, s'.sequences, k) == CellAt(s.reserved, s.sequences, k)
    {
      if Slot(s, k) == Slot(s, s.dequeue) {
        SameSlot(k, s.dequeue, ReleasedCount(s), s.capacity);
      }
    }
    CellsAgree(s, s');
  }

  lemma TakeRefines<V>(s: State<V>)
    requires Inv(s) && s.consumer.Ready? && ReadsValue(s) && Inv(Next(s, Take))
    ensures Contents(s) != [] && Contents(s)[0].published && Contents(Next(s, Take)) == Contents(s)[1..]
    ensures Next(s, Take).popped == s.popped + [Contents(s)[0].value]
  {
    ReadyHoldsValue(s);
    assert Contents(s)[0] == CellAt(s.reserved, s.sequences, s.dequeue);
  }

  /** Each step reserves at the tail, publishes one reserved cell, pops a published head, or changes nothing. */
  lemma StepRefines<V(!new)>(s: State<V>, t: Step<V>)
    requires Inv(s) && Enabled(s, t)
    ensures ReadsValue(s) && Inv(Next(s, t))
    ensures SpecStep(Contents(s), Contents(Next(s, t)), s.popped, Next(s, t).popped)
  {
    StepKeepsInv(s, t);
    if t.CasSucceeds? {
      CasRefines(s, t.i);
    } else if t.PublishStep? {
      PublishRefines(s, t.i);
    } else if t.Take? {
      TakeRefines(s);
    } else if t.ReleaseSlot? {
      ReleaseRefines(s);
    } else {
      QuietRefines(s, Next(s, t));
    }
  }

  ghost predicate StepAt<V>(ss: seq<State<V>>, ts: seq<Step<V>>, n: nat)
    requires |ss| == |ts| + 1 && n < |ts|
  {
    Takes(ss[n], ts[n], ss[n + 1])
  }

  ghost predicate IsRun<V>(ss: seq<State<V>>, ts: seq<Step<V>>) {
    && |ss| == |ts| + 1 && Initial(ss[0])
    && forall n | 0 <= n < |ts| :: StepAt(ss, ts, n)
  }

  ghost predicate Takes<V>(s: State<V>, t: Step<V>, s': State<V>) {
    Shape(s) && Enabled(s, t) && (ReadsValue(s) ==> s' == Next(s, t))
  }

  lemma {:induction false} RunKeepsInv<V>(ss: seq<State<V>>, ts: seq<Step<V>>, n: nat)
    requires IsRun(ss, ts) && n < |ss|
    ensures Inv(ss[n])
  {
    if n == 0 {
      InitialInv(ss[0]);
    } else {
      RunKeepsInv(ss, ts, n - 1);
      assert StepAt(ss, ts, n - 1);
      StepKeepsInv(ss[n - 1], ts[n - 1]);
    }
  }

  /** The k-th successful pop returns the value of the producer that reserved position k. */
  lemma PopsWhatWasReserved<V>(ss: seq<State<V>>, ts: seq<Step<V>>, n: nat, k: nat)
    requires IsRun(ss, ts) && n < |ss| && k < |ss[n].popped|
    ensures k < |ss[n].reserved| && ss[n].popped[k] == ss[n].reserved[k].1
  {
    RunKeepsInv(ss, ts, n);
  }

  /** Each producer's accepted values are popped in the order it sent them. */
  lemma ProducerOrderKept<V>(ss: seq<State<V>>, ts: seq<Step<V>>, n: nat, i: nat)
    requires IsRun(ss, ts) && n < |ss| && i < |ss[n].producers| && Shape(ss[n])
    ensures ss[n].accepted[i] <= ReservedBy(ss[n].reserved, i)
    ensures ss[n].producers[i].Outside? ==> ss[n].accepted[i] == ReservedBy(ss[n].reserved, i)
  {
    RunKeepsInv(ss, ts, n);
    assert OrderInv(ss[n], i);
  }

  /** TryEmplace refuses only if, when it read the slot, all `capacity` slots were reserved and unreleased. */
  lemma FullIsExact<V>(ss: seq<State<V>>, ts: seq<Step<V>>, n: nat, i: nat)
    requires IsRun(ss, ts) && n < |ts| && ts[n] == LoadSequence(i)
    requires i < |ss[n + 1].producers| && ss[n + 1].producers[i].HasSequence?
    requires ss[n + 1].producers[i].sequence < ss[n + 1].producers[i].pos
    ensures ss[n].enqueue - ReleasedCount(ss[n]) == ss[n].capacity
  {
    RunKeepsInv(ss, ts, n);
    assert StepAt(ss, ts, n);
    StepKeepsInv(ss[n], ts[n]);
    assert ProducerInv(ss[n], i);
    SlotRead(ss[n], ss[n].producers[i].pos);
  }

  /** Only a LoadSequence of its own gives a producer a sequence. */
  lemma LoadsItself<V>(s: State<V>, t: Step<V>, i: nat)
    requires Shape(s) && Enabled(s, t) && ReadsValue(s) && i < |s.producers|
    ensures |Next(s, t).producers| == |s.producers|
    ensures Next(s, t).producers[i].HasSequence? && t != LoadSequence(i) ==> Next(s, t).producers[i] == s.producers[i]
  {
  }

  /** Producer `i` loaded the sequence it has at step `m`, and did nothing since. */
  ghost predicate LoadedAt<V>(ss: seq<State<V>>, ts: seq<Step<V>>, m: nat, n: nat, i: nat) {
    && m < n < |ss| && n <= |ts| && ts[m] == LoadSequence(i) && i < |ss[n].producers|
    && forall j | m < j <= n :: i < |ss[j].producers| && ss[j].producers[i] == ss[n].producers[i]
  }

  lemma {:induction false} LastLoad<V>(ss: seq<State<V>>, ts: seq<Step<V>>, n: nat, i: nat) returns (m: nat)
    requires IsRun(ss, ts) && n < |ss| && i < |ss[n].producers| && ss[n].producers[i].HasSequence?
    ensures LoadedAt(ss, ts, m, n, i)
    decreases n
  {
    if n > 0 {
      m := n - 1;
      RunKeepsInv(ss, ts, m);
      assert StepAt(ss, ts, m);
      StepKeepsInv(ss[m], ts[m]);
      LoadsItself(ss[m], ts[m], i);
      if ts[m] != LoadSequence(i) {
        m := LastLoad(ss, ts, n - 1, i);
      }
    }
  }

  /**
   Every refusal goes back to a moment at which the mailbox was full: the producer's last
   read of a slot, after which it did nothing but refuse.
   */
  lemma RefusedWhenFull<V>(ss: seq<State<V>>, ts: seq<Step<V>>, n: nat, i: nat) returns (m: nat)
    requires IsRun(ss, ts) && n < |ts| && ts[n] == Full(i)
    ensures LoadedAt(ss, ts, m, n, i) && ss[m].enqueue - ReleasedCount(ss[m]) == ss[m].capacity
    ensures |ss[m].reserved| - |ss[m].popped| + (if ss[m].consumer.Taken? then 1 else 0) == ss[m].capacity
  {
    RunKeepsInv(ss, ts, n);
    assert StepAt(ss, ts, n);
    m := LastLoad(ss, ts, n, i);
    FullIsExact(ss, ts, m, i);
    RunKeepsInv(ss, ts, m);
  }

  // ------------------------------------------------------------------
  // Answers: a pop of a published head and a push into a free slot succeed
  // ------------------------------------------------------------------

  /** TryPop returns nothing. */
  ghost predicate GivesUp<V>(s: State<V>, s': State<V>) {
    !s.consumer.Resting? && s'.consumer.Resting? && s'.dequeue == s.dequeue
  }

  ghost predicate HeadPublished<V>(s: State<V>) {
    Inv(s) && Contents(s) != [] && Contents(s)[0].published
  }

  lemma HeadOfContents<V>(s: State<V>)
    requires Inv(s) && |s.popped| == s.dequeue
    ensures HeadPublished(s) <==> s.sequences[Slot(s, s.dequeue)] == s.dequeue + 1
    ensures HeadPublished(s) ==> s.dequeue < |s.reserved| && Contents(s)[0].value == s.reserved[s.dequeue].1
    ensures !HeadPublished(s) ==> s.dequeue == s.enqueue || exists i :: Holds(s, i, s.dequeue)
  {
    assert InRange(s, s.dequeue) && CellInv(s, s.dequeue);
    if s.dequeue < s.enqueue {
      assert Contents(s)[0] == CellAt(s.reserved, s.sequences, s.dequeue);
    }
  }

  /**
   TryPop returns nothing only if, when it read the slot, nothing was reserved at the head
   or a producer that had reserved it had not published it.
   */
  lemma EmptyIsExact<V>(ss: seq<State<V>>, ts: seq<Step<V>>, n: nat)
    requires IsRun(ss, ts) && n < |ts| && GivesUp(ss[n], ss[n + 1])
    ensures ss[n].consumer.AtSlot? && |ss[n].popped| == ss[n].dequeue && !HeadPublished(ss[n])
    ensures ss[n].dequeue == ss[n].enqueue || exists i :: Holds(ss[n], i, ss[n].dequeue)
  {
    RunKeepsInv(ss, ts, n);
    assert StepAt(ss, ts, n);
    StepKeepsInv(ss[n], ts[n]);
    HeadOfContents(ss[n]);
  }

  /** The head from position `d` on is published, or was popped. */
  ghost predicate Passed<V>(s: State<V>, d: nat) {
    |s.popped| > d || (|s.popped| == d && HeadPublished(s))
  }

  lemma StaysPublished<V(!new)>(s: State<V>, t: Step<V>, d: nat)
    requires Inv(s) && Enabled(s, t) && Passed(s, d)
    ensures ReadsValue(s) && Passed(Next(s, t), d)
  {
    StepRefines(s, t);
  }

  lemma {:induction false} RunPassed<V(!new)>(ss: seq<State<V>>, ts: seq<Step<V>>, n: nat, m: nat, d: nat)
    requires IsRun(ss, ts) && n <= m < |ss| && Passed(ss[n], d)
    ensures Passed(ss[m], d)
    decreases m
  {
    if n < m {
      RunPassed(ss, ts, n, m - 1, d);
      RunKeepsInv(ss, ts, m - 1);
      assert StepAt(ss, ts, m - 1);
      StaysPublished(ss[m - 1], ts[m - 1], d);
    }
  }

  /** Whatever the producers do meanwhile, no TryPop returns nothing before a published head was popped. */
  lemma PublishedIsPopped<V(!new)>(ss: seq<State<V>>, ts: seq<Step<V>>, n: nat, m: nat)
    requires IsRun(ss, ts) && n <= m < |ts| && HeadPublished(ss[n]) && GivesUp(ss[m], ss[m + 1])
    ensures |ss[m].popped| > |ss[n].popped|
  {
    RunPassed(ss, ts, n, m, |ss[n].popped|);
    EmptyIsExact(ss, ts, m);
  }

  ghost predicate Leads<V>(s: State<V>, ts: seq<Step<V>>, s': State<V>)
    decreases |ts|
  {
    if ts == [] then s == s'
    else Shape(s) && Enabled(s, ts[0]) && ReadsValue(s) && Leads(Next(s, ts[0]), ts[1..], s')
  }

  lemma Leads5<V>(
    s: State<V>, a: Step<V>, s1: State<V>, b: Step<V>, s2: State<V>, c: Step<V>, s3: State<V>, d: Step<V>, s4: State<V>,
    e: Step<V>, s5: State<V>)
    requires Shape(s) && Enabled(s, a) && ReadsValue(s) && s1 == Next(s, a)
    requires Shape(s1) && Enabled(s1, b) && ReadsValue(s1) && s2 == Next(s1, b)
    requires Shape(s2) && Enabled(s2, c) && ReadsValue(s2) && s3 == Next(s2, c)
    requires Shape(s3) && Enabled(s3, d) && ReadsValue(s3) && s4 == Next(s3, d)
    requires Shape(s4) && Enabled(s4, e) && ReadsValue(s4) && s5 == Next(s4, e)
    ensures Leads(s, [a, b, c, d, e], s5)
  {
    assert [a, b, c, d, e][1..] == [b, c, d, e] && [b, c, d, e][1..] == [c, d, e];
    assert [c, d, e][1..] == [d, e] && [d, e][1..] == [e] && [e][1..] == [];
    assert Leads(s4, [e], s5);
    assert Leads(s3, [d, e], s5);
    assert Leads(s2, [c, d, e], s5);
    assert Leads(s1, [b, c, d, e], s5);
  }

  /** A producer inside TryEmplace can always take its next step. */
  lemma ProducerGoesOn<V>(s: State<V>, i: nat) returns (t: Step<V>)
    requires Inv(s) && i < |s.producers| && !s.producers[i].Outside?
    ensures Enabled(s, t) && ReadsValue(s) && i < |Next(s, t).producers|
    ensures Next(s, t).producers[i].Outside? || Next(s, t).producers[i] != s.producers[i]
    ensures s.producers[i].HasSequence? && s.producers[i].sequence < s.producers[i].pos ==> t == Full(i)
  {
    if s.consumer.Ready? {
      ReadyHoldsValue(s);
    }
    match s.producers[i]
    case HasPosition(_, _) => t := LoadSequence(i);
    case HasSequence(_, pos, q) => t := if q < pos then Full(i) else if q > pos then Retry(i) else CasFails(i);
    case Reserved(_, _) => t := Construct(i);
    case Constructed(_, _) => t := PublishStep(i);
  }

  /** The consumer can always take its next step. */
  lemma ConsumerGoesOn<V>(s: State<V>) returns (t: Step<V>)
    requires Inv(s)
    ensures Enabled(s, t) && ReadsValue(s) && Next(s, t).consumer != s.consumer
  {
    if s.consumer.Ready? {
      ReadyHoldsValue(s);
    }
    match s.consumer
    case Resting => t := LoadDequeue;
    case AtSlot(pos) => t := if s.sequences[Slot(s, pos)] == pos + 1 then HeadReady else HeadNotReady;
    case Ready(_) => t := Take;
    case Taken(_) => t := ReleaseSlot;
    case Released(_) => t := Advance;
  }

  /** In any state of a run with a published head, five steps of a resting consumer pop it. */
  lemma PopSucceeds<V>(ss: seq<State<V>>, ts: seq<Step<V>>, n: nat) returns (s': State<V>)
    requires IsRun(ss, ts) && n < |ss| && ss[n].consumer.Resting? && HeadPublished(ss[n])
    ensures Leads(ss[n], [LoadDequeue, HeadReady, Take, ReleaseSlot, Advance], s') && ss[n].dequeue < |ss[n].reserved|
    ensures s'.popped == ss[n].popped + [ss[n].reserved[ss[n].dequeue].1] && s'.dequeue == ss[n].dequeue + 1
    ensures s'.consumer.Resting? && s'.enqueue == ss[n].enqueue && s'.reserved == ss[n].reserved
    ensures s'.producers == ss[n].producers && s'.accepted == ss[n].accepted
  {
    var s := ss[n];
    HeadOfContents(s);
    var s1 := Next(s, LoadDequeue);
    StepKeepsInv(s, LoadDequeue);
    var s2 := Next(s1, HeadReady);
    StepKeepsInv(s1, HeadReady);
    ReadyHoldsValue(s2);
    var s3 := Next(s2, Take);
    StepKeepsInv(s2, Take);
    var s4 := Next(s3, ReleaseSlot);
    StepKeepsInv(s3, ReleaseSlot);
    s' := Next(s4, Advance);
    Leads5(s, LoadDequeue, s1, HeadReady, s2, Take, s3, ReleaseSlot, s4, Advance, s');
  }

  lemma FreeSlot<V>(s: State<V>)
    requires Inv(s) && s.enqueue - ReleasedCount(s) < s.capacity
    ensures s.sequences[Slot(s, s.enqueue)] == s.enqueue
  {
    assert InRange(s, s.enqueue) && CellInv(s, s.enqueue);
  }

  /** In any state of a run with a free slot, five steps of a producer bring its value in. */
  lemma EmplaceSucceeds<V>(ss: seq<State<V>>, ts: seq<Step<V>>, n: nat, i: nat, v: V) returns (s': State<V>)
    requires IsRun(ss, ts) && n < |ss| && i < |ss[n].producers| && ss[n].producers[i].Outside?
    requires ss[n].enqueue - ReleasedCount(ss[n]) < ss[n].capacity
    ensures Leads(ss[n], [Enter(i, v), LoadSequence(i), CasSucceeds(i), Construct(i), PublishStep(i)], s')
    ensures i < |ss[n].accepted| && s'.reserved == ss[n].reserved + [(i, v)]
    ensures s'.accepted == ss[n].accepted[i := ss[n].accepted[i] + [v]] && s'.enqueue == ss[n].enqueue + 1
    ensures s'.popped == ss[n].popped && s'.consumer == ss[n].consumer && s'.producers == ss[n].producers
  {
    var s := ss[n];
    RunKeepsInv(ss, ts, n);
    FreeSlot(s);
    StepKeepsInv(s, Enter(i, v));
    var s1 := Next(s, Enter(i, v));
    StepKeepsInv(s1, LoadSequence(i));
    var s2 := Next(s1, LoadSequence(i));
    StepKeepsInv(s2, CasSucceeds(i));
    var s3 := Next(s2, CasSucceeds(i));
    StepKeepsInv(s3, Construct(i));
    var s4 := Next(s3, Construct(i));
    StepKeepsInv(s4, PublishStep(i));
    s' := Next(s4, PublishStep(i));
    Leads5(s, Enter(i, v), s1, LoadSequence(i), s2, CasSucceeds(i), s3, Construct(i), s4, PublishStep(i), s');
    assert s'.producers == s.producers;
  }

  /** The reported size exceeds the capacity by at most one, and only between the consumer's two stores. */
  lemma SizeBound<V>(ss: seq<State<V>>, ts: seq<Step<V>>, n: nat)
    requires IsRun(ss, ts) && n < |ss|
    ensures ss[n].dequeue <= ss[n].enqueue
    ensures ss[n].enqueue - ss[n].dequeue <= ss[n].capacity + if ss[n].consumer.Released? then 1 else 0
  {
    RunKeepsInv(ss, ts, n);
  }

  // ------------------------------------------------------------------
  // Machine integers
  // ------------------------------------------------------------------

  const WORD64 := 0x1_0000_0000_0000_0000

  /** The signed 64-bit reading of a word. */
  function Signed(x: int): int
    requires 0 <= x < WORD64
  {
    if x < WORD64 / 2 then x else x - WORD64
  }

  /** On 64-bit words the difference takes the same branch, as long as the true distance fits. */
  lemma WrappedDifference(sequence: nat, position: nat)
    requires -(WORD64 / 2) <= sequence - position < WORD64 / 2
    ensures Signed((sequence % WORD64 - position % WORD64) % WORD64) == sequence - position
  {
    var q := sequence / WORD64 - position / WORD64;
    var d := sequence - position;
    assert sequence % WORD64 - position % WORD64 == d - q * WORD64;
    ModShift(d, -q, WORD64);
    assert (d - q * WORD64) % WORD64 == d % WORD64;
    if d >= 0 {
      DivModUnique(d, 0, d, WORD64);
    } else {
      DivModUnique(d, -1, d + WORD64, WORD64);
    }
  }
}
