/** The SCQ ring as third-party/lfqueue/src/scq.rs stores it: every counter and every entry is a w-bit
    word, and every test and update of an entry is bit arithmetic on it.  The ring has n = 2^k slots,
    so that its order is k - 1. */
module ScqWords {
  import opened Bits
  import opened PackedEntries
  import R = ScqRing
  import opened ScqRing

  type WordPc = PcOf<nat>

  datatype WordRing = WordRing(
    w: nat,
    k: nat,
    finalizable: bool,
    finalized: bool,
    head: nat,
    tail: nat,
    threshold: int,
    entries: seq<nat>,
    threads: seq<WordPc>)

  /** lfring_map(ticket, n) */
  function SlotAt(q: WordRing, t: nat): nat { And(q.w, t, Pow2(q.k) - 1) }

  /** Indexing the array; the model reads a zero where the code would panic. */
  function WordAt(q: WordRing, t: nat): nat { if SlotAt(q, t) < |q.entries| then q.entries[SlotAt(q, t)] else 0 }

  function StoreAt(q: WordRing, t: nat, x: nat): WordRing {
    if SlotAt(q, t) < |q.entries| then q.(entries := q.entries[SlotAt(q, t) := x]) else q
  }

  function Capacity(q: WordRing): nat
    requires q.k > 0
  {
    Pow2(q.k - 1)
  }

  /** lfring_threshold3(half, n) */
  function Threshold3(q: WordRing): int
    requires q.k > 0
  {
    Capacity(q) + Pow2(q.k) - 1
  }

  function Moved(q: WordRing, tid: nat, pc: WordPc): WordRing
    requires tid < |q.threads|
  {
    q.(threads := q.threads[tid := pc])
  }

  function Add(q: WordRing, x: nat, y: nat): nat { (x + y) % Pow2(q.w) }

  // ---- enqueue --------------------------------------------------------------------------------------

  function Found(q: WordRing, i: nat, t: nat, x: nat): WordPc {
    if q.finalizable then EnqSeal(i, t, x) else EnqCas(i, t, x)
  }

  function TestWord(q: WordRing, i: nat, t: nat): WordPc {
    var entry := WordAt(q, t);
    var ecycle := ModUp(q.w, q.k, entry);
    if Order(q.w, ecycle, Cycle(q.w, q.k, t)) < 0 then
      if entry == ecycle then Found(q, i, t, entry)
      else if entry == Xor(q.w, ecycle, Pow2(q.k)) then EnqHead(i, t, entry)
      else EnqTail(i)
    else EnqTail(i)
  }

  function EnqueueWord(q: WordRing, tid: nat, spurious: bool): WordRing
    requires tid < |q.threads| && q.k > 0
  {
    match q.threads[tid]
    case EnqTail(i) => Moved(q.(tail := Add(q, q.tail, 1)), tid, EnqLoad(i, q.tail))
    case EnqLoad(i, t) => Moved(q, tid, TestWord(q, i, t))
    case EnqHead(i, t, x) => Moved(q, tid, if Order(q.w, q.head, t) <= 0 then Found(q, i, t, x) else EnqTail(i))
    case EnqSeal(i, t, x) => Moved(q, tid, if q.finalized then Reply(R.Enqueue(i), Finalized) else EnqCas(i, t, x))
    case EnqCas(i, t, x) =>
      if !spurious && WordAt(q, t) == x then Moved(StoreAt(q, t, Insert(q.w, q.k, t, i)), tid, EnqThreshold(i, t))
      else Moved(q, tid, EnqLoad(i, t))
    case EnqThreshold(i, t) =>
      Moved(q, tid, if q.threshold != Threshold3(q) then EnqReset(i, t) else Reply(R.Enqueue(i), Enqueued(t)))
    case EnqReset(i, t) => Moved(q.(threshold := Threshold3(q)), tid, Reply(R.Enqueue(i), Enqueued(t)))
    case _ => q
  }

  // ---- dequeue --------------------------------------------------------------------------------------

  /** entry_new */
  function NewWord(q: WordRing, x: nat, h: nat): nat
    requires Pow2(q.k) < Pow2(q.w)
  {
    if Or(q.w, x, Pow2(q.k)) != ModUp(q.w, q.k, x) then MarkUnsafe(q.w, q.k, x) else Advance(q.w, q.k, x, h)
  }

  function LookAt(q: WordRing, h: nat, attempt: nat): WordPc
    requires Pow2(q.k) < Pow2(q.w)
  {
    var entry := WordAt(q, h);
    var ecycle, hcycle := ModUp(q.w, q.k, entry), Cycle(q.w, q.k, h);
    if ecycle == hcycle then DeqTake(h, entry)
    else if Or(q.w, entry, Pow2(q.k)) != ecycle then
      if entry == MarkUnsafe(q.w, q.k, entry) then DeqTail(h)
      else if Order(q.w, ecycle, hcycle) < 0 then DeqCas(h, attempt, entry)
      else DeqTail(h)
    else if attempt + 1 <= 10 then DeqLoad(h, attempt + 1)
    else if Order(q.w, ecycle, hcycle) < 0 then DeqCas(h, attempt + 1, entry)
    else DeqTail(h)
  }

  function DequeueWord(q: WordRing, tid: nat, spurious: bool): WordRing
    requires tid < |q.threads| && Pow2(q.k) < Pow2(q.w)
  {
    match q.threads[tid]
    case DeqThreshold => Moved(q, tid, if q.threshold < 0 then Reply(R.Dequeue, Nothing) else DeqHead)
    case DeqHead => Moved(q.(head := Add(q, q.head, 1)), tid, DeqLoad(q.head, 0))
    case DeqLoad(h, attempt) => Moved(q, tid, LookAt(q, h, attempt))
    case DeqCas(h, attempt, x) =>
      if !spurious && WordAt(q, h) == x then Moved(StoreAt(q, h, NewWord(q, x, h)), tid, DeqTail(h))
      else Moved(q, tid, DeqLoad(h, attempt))
    case DeqTake(h, x) =>
      Moved(StoreAt(q, h, Consume(q.w, q.k, WordAt(q, h))), tid, Reply(R.Dequeue, Got(IndexOf(q.w, q.k, x), h)))
    case _ => q
  }

  function LeaveWord(q: WordRing, tid: nat, spurious: bool): WordRing
    requires tid < |q.threads|
  {
    match q.threads[tid]
    case DeqTail(h) =>
      Moved(q, tid, if Order(q.w, q.tail, Add(q, h, 1)) <= 0 then CatchCas(q.tail, Add(q, h, 1)) else DeqNext)
    case CatchCas(t, h) =>
      if !spurious && q.tail == t then Moved(q.(tail := h), tid, DeqLast) else Moved(q, tid, CatchHead)
    case CatchHead => Moved(q, tid, CatchTail(q.head))
    case CatchTail(h) => Moved(q, tid, if Order(q.w, q.tail, h) >= 0 then DeqLast else CatchCas(q.tail, h))
    case DeqLast => Moved(q.(threshold := q.threshold - 1), tid, Reply(R.Dequeue, Nothing))
    case DeqNext =>
      Moved(q.(threshold := q.threshold - 1), tid, if q.threshold <= 0 then Reply(R.Dequeue, Nothing) else DeqHead)
    case _ => q
  }

  // ---- steps ----------------------------------------------------------------------------------------

  predicate Entering(pc: WordPc) {
    pc.EnqTail? || pc.EnqLoad? || pc.EnqHead? || pc.EnqSeal? || pc.EnqCas? || pc.EnqThreshold? || pc.EnqReset?
  }

  predicate Fetching(pc: WordPc) { pc.DeqThreshold? || pc.DeqHead? || pc.DeqLoad? || pc.DeqCas? || pc.DeqTake? }

  predicate GivingUp(pc: WordPc) {
    pc.DeqTail? || pc.CatchCas? || pc.CatchHead? || pc.CatchTail? || pc.DeqLast? || pc.DeqNext?
  }

  function Begin(q: WordRing, op: Op): WordPc
    requires q.k > 0
  {
    match op
    case Enqueue(i) => if i >= Capacity(q) then Reply(op, TooLarge) else EnqTail(i)
    case Dequeue => DeqThreshold
  }

  function StepWord(q: WordRing, tid: nat, act: Action): WordRing
    requires q.k > 0 && Pow2(q.k) < Pow2(q.w)
  {
    match act
    case Seal => if q.finalizable then q.(finalized := true) else q
    case Start(op) => if tid < |q.threads| && q.threads[tid].Rest? then Moved(q, tid, Begin(q, op)) else q
    case Run(spurious) =>
      if tid >= |q.threads| then q
      else
        var pc := q.threads[tid];
        if Entering(pc) then EnqueueWord(q, tid, spurious)
        else if Fetching(pc) then DequeueWord(q, tid, spurious)
        else if GivingUp(pc) then LeaveWord(q, tid, spurious)
        else Moved(q, tid, Rest)
  }

  // ---- new rings --------------------------------------------------------------------------------------

  /** All ones: -1 as an unsigned word. */
  function MinusOne(w: nat): nat { Pow2(w) - 1 }

  function NewEmpty(w: nat, k: nat, finalizable: bool, threads: nat): WordRing {
    WordRing(w, k, finalizable, false, 0, 0, -1, seq(Pow2(k), i => MinusOne(w)), seq(threads, i => Rest))
  }

  /** Filled directly: slot i of the first half holds n + i. */
  function FullWord(w: nat, k: nat, i: nat): nat
    requires k > 0
  {
    if i < Pow2(k - 1) then Pow2(k) + i else MinusOne(w)
  }

  function NewFull(w: nat, k: nat, finalizable: bool, threads: nat): WordRing
    requires k > 0
  {
    WordRing(w, k, finalizable, false, 0, Pow2(k - 1), Pow2(k - 1) + Pow2(k) - 1,
             seq(Pow2(k), i requires i >= 0 => FullWord(w, k, i)), seq(threads, i => Rest))
  }
}
