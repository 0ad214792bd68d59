/**
 The agent's log shipping buffer (kuiper-agent-lib/src/log_upload.rs): a bounded queue that drops its oldest lines,
 batches capped by count and size, and a batch put back when its upload fails. Text is ASCII, so lengths are bytes.
 */
module LogUpload {
  import opened Common

  const BUFFER_CAPACITY: nat := 5_000
  const MAX_BATCH: nat := 500
  const MAX_BATCH_BYTES: nat := 1_048_576

  datatype Line = Line(timestamp: int, level: string, target: string, message: string)

  datatype Record = Record(line: Line, no: nat)

  datatype Batch = Batch(records: seq<Record>, dropped: nat)

  datatype Buffer = Buffer(records: seq<Record>, dropped: nat, nextSeq: nat) {
    function Push(line: Line): Buffer {
      var full := |records| >= BUFFER_CAPACITY;
      Buffer((if full then records[1..] else records) + [Record(line, nextSeq)],
             dropped + if full then 1 else 0,
             nextSeq + 1)
    }

    function PushAll(lines: seq<Line>): Buffer
      decreases |lines|
    {
      if lines == [] then this else PushAll(lines[..|lines| - 1]).Push(lines[|lines| - 1])
    }

    function NextBatch(): Batch {
      Batch(records[..BatchSize(records)], dropped)
    }

    function AfterTake(): Buffer {
      Buffer(records[BatchSize(records)..], 0, nextSeq)
    }

    /** How many of `n` requeued records still fit. */
    function Fitting(n: nat): (r: nat)
      ensures r <= n
    {
      var free := Sub(BUFFER_CAPACITY, |records|);
      if n <= free then n else free
    }

    /** The newest records that fit go back to the front, the others are dropped. */
    function Requeue(batch: Batch): Buffer {
      var n := |batch.records|;
      var k := Fitting(n);
      Buffer(batch.records[n - k..] + records, dropped + batch.dropped + (n - k), nextSeq)
    }
  }

  // ---------- batches ----------

  function Size(r: Record): nat { |r.line.message| + |r.line.target| }

  function Bytes(records: seq<Record>): nat {
    if records == [] then 0 else Bytes(records[..|records| - 1]) + Size(records[|records| - 1])
  }

  /** How far the loop over the oldest records gets, having taken `n`. */
  function BatchSizeFrom(records: seq<Record>, n: nat): (r: nat)
    requires n <= |records|
    ensures n <= r <= |records|
    decreases |records| - n
  {
    if n < |records| && n < MAX_BATCH && (n == 0 || Bytes(records[..n + 1]) <= MAX_BATCH_BYTES)
    then BatchSizeFrom(records, n + 1) else n
  }

  function BatchSize(records: seq<Record>): (r: nat)
    ensures r <= |records|
  {
    BatchSizeFrom(records, 0)
  }

  lemma {:induction false} BatchSizeFromMeaning(records: seq<Record>, n: nat)
    requires n <= |records| && n <= MAX_BATCH
    requires n > 1 ==> Bytes(records[..n]) <= MAX_BATCH_BYTES
    ensures var r := BatchSizeFrom(records, n);
            && r <= MAX_BATCH && (r > 1 ==> Bytes(records[..r]) <= MAX_BATCH_BYTES)
            && (r == 0 ==> records == [])
            && (r < |records| && r < MAX_BATCH ==> Bytes(records[..r + 1]) > MAX_BATCH_BYTES)
    decreases |records| - n
  {
    if n < |records| && n < MAX_BATCH && (n == 0 || Bytes(records[..n + 1]) <= MAX_BATCH_BYTES) {
      BatchSizeFromMeaning(records, n + 1);
    }
  }

  /** A batch is the longest run of the oldest records within both caps, except that a record too big for any batch
      goes alone; it is only empty when nothing waits. */
  lemma BatchMeaning(records: seq<Record>)
    ensures var n := BatchSize(records);
            && n <= MAX_BATCH && (n > 1 ==> Bytes(records[..n]) <= MAX_BATCH_BYTES)
            && (n == 0 <==> records == [])
            && (n < |records| && n < MAX_BATCH ==> Bytes(records[..n + 1]) > MAX_BATCH_BYTES)
  {
    BatchSizeFromMeaning(records, 0);
  }

  // ---------- a failed upload leaves no trace ----------

  function Stamped(lines: seq<Line>, from: nat): seq<Record> {
    seq(|lines|, i requires 0 <= i < |lines| => Record(lines[i], from + i))
  }

  function Newest(records: seq<Record>): seq<Record> {
    records[Sub(|records|, BUFFER_CAPACITY)..]
  }

  /** Pushing keeps the newest records that fit and counts the others. */
  lemma {:induction false} PushAllKeepsNewest(b: Buffer, lines: seq<Line>)
    requires |b.records| <= BUFFER_CAPACITY
    ensures var all := b.records + Stamped(lines, b.nextSeq);
            b.PushAll(lines)
            == Buffer(Newest(all), b.dropped + Sub(|all|, BUFFER_CAPACITY), b.nextSeq + |lines|)
    decreases |lines|
  {
    var all := b.records + Stamped(lines, b.nextSeq);
    if lines == [] {
      assert Newest(all) == b.records;
    } else {
      var init, last := lines[..|lines| - 1], lines[|lines| - 1];
      PushAllKeepsNewest(b, init);
      var before := b.records + Stamped(init, b.nextSeq);
      assert all == before + [Record(last, b.nextSeq + |init|)];
    }
  }

  /** Taking a batch, failing to send it while any lines are pushed, and putting it back leaves exactly what pushing
      those lines alone would have left. */
  lemma {:induction false} FailedUploadIsInvisible(b: Buffer, lines: seq<Line>)
    requires |b.records| <= BUFFER_CAPACITY
    ensures b.AfterTake().PushAll(lines).Requeue(b.NextBatch()) == b.PushAll(lines)
  {
    InvisibleAt(b, BatchSize(b.records), lines);
  }

  /** Wherever the batch ends. */
  lemma {:induction false} InvisibleAt(b: Buffer, n: nat, lines: seq<Line>)
    requires |b.records| <= BUFFER_CAPACITY && n <= |b.records|
    ensures Buffer(b.records[n..], 0, b.nextSeq).PushAll(lines).Requeue(Batch(b.records[..n], b.dropped))
            == b.PushAll(lines)
  {
    var taken := Buffer(b.records[n..], 0, b.nextSeq);
    var batch, stamped, next := b.records[..n], Stamped(lines, b.nextSeq), b.nextSeq + |lines|;
    var waiting := taken.records + stamped;
    PushAllKeepsNewest(taken, lines);
    PuttingBack(batch, waiting, b.dropped, next);
    SplitAssociates(b.records, n, stamped);
    PushAllKeepsNewest(b, lines);
    calc {
      taken.PushAll(lines).Requeue(Batch(batch, b.dropped));
      Buffer(Newest(waiting), Sub(|waiting|, BUFFER_CAPACITY), next).Requeue(Batch(batch, b.dropped));
      Buffer(Newest(batch + waiting), b.dropped + Sub(|batch + waiting|, BUFFER_CAPACITY), next);
      b.PushAll(lines);
    }
  }

  lemma SplitAssociates(xs: seq<Record>, n: nat, ys: seq<Record>)
    requires n <= |xs|
    ensures xs + ys == xs[..n] + (xs[n..] + ys)
  {
    assert xs == xs[..n] + xs[n..];
  }

  /** Requeueing a batch onto the newest of what came after it leaves the newest of both. */
  lemma PuttingBack(batch: seq<Record>, waiting: seq<Record>, dropped: nat, nextSeq: nat)
    ensures Buffer(Newest(waiting), Sub(|waiting|, BUFFER_CAPACITY), nextSeq).Requeue(Batch(batch, dropped))
            == Buffer(Newest(batch + waiting), dropped + Sub(|batch + waiting|, BUFFER_CAPACITY), nextSeq)
  {
    var k := Buffer(Newest(waiting), 0, 0).Fitting(|batch|);
    RecordsPutBack(batch, waiting, k);
    DroppedPutBack(|batch|, |waiting|, k);
  }

  lemma RecordsPutBack(batch: seq<Record>, waiting: seq<Record>, k: nat)
    requires k == Buffer(Newest(waiting), 0, 0).Fitting(|batch|)
    ensures batch[|batch| - k..] + Newest(waiting) == Newest(batch + waiting)
  {
    var start := Sub(|batch + waiting|, BUFFER_CAPACITY);
    if |waiting| >= BUFFER_CAPACITY {
      assert k == 0 && start == |batch| + Sub(|waiting|, BUFFER_CAPACITY);
      assert (batch + waiting)[start..] == waiting[Sub(|waiting|, BUFFER_CAPACITY)..];
    } else {
      assert Newest(waiting) == waiting && start == |batch| - k;
      assert (batch + waiting)[start..] == batch[start..] + waiting;
    }
  }

  lemma DroppedPutBack(batch: nat, waiting: nat, k: nat)
    requires var free := Sub(BUFFER_CAPACITY, waiting - Sub(waiting, BUFFER_CAPACITY));
             k == if batch <= free then batch else free
    ensures Sub(waiting, BUFFER_CAPACITY) + (batch - k) == Sub(batch + waiting, BUFFER_CAPACITY)
  {
  }

  lemma RequeueNothing(b: Buffer, records: seq<Record>, dropped: nat)
    ensures b.Requeue(Batch(records[|records|..], dropped)) == b.(dropped := b.dropped + dropped)
  {
    assert records[|records|..] == [];
    assert [] + b.records == b.records;
  }

  lemma RequeueOneMore(b: Buffer, records: seq<Record>, dropped: nat)
    requires records != []
    ensures var r := b.Requeue(Batch(records[1..], dropped));
            b.Requeue(Batch(records, dropped)) ==
            if |r.records| >= BUFFER_CAPACITY then r.(dropped := r.dropped + 1)
            else r.(records := [records[0]] + r.records)
  {
    var n := |records|;
    assert |records[1..]| == n - 1;
    if b.Fitting(n) > b.Fitting(n - 1) {
      assert records == [records[0]] + records[1..];
    } else {
      assert records[1..][n - 1 - b.Fitting(n)..] == records[n - b.Fitting(n)..];
    }
  }

  // ---------- where every line ends up, over whole runs ----------

  /** A buffer with one uploader, and a ledger of what happened to every sequence number. */
  datatype Shipping = Shipping(
    buffer: Buffer,
    inFlight: Option<Batch>,
    /** Records the coordinator has acked, in order */
    acked: seq<Record>,
    /** Pushed out of the full buffer, which `dropped` counts */
    lost: set<nat>,
    /** Thrown away on purpose: refused by the coordinator, or buffered when upload was turned off */
    discarded: set<nat>,
    /** Drop counts that went out with an acked batch, and ones that were thrown away */
    reported: nat,
    forgotten: nat)

  datatype Event = Push(line: Line) | Take | Acked | Refused | Unsupported | Failed | Disable

  function Numbers(records: seq<Record>): set<nat> {
    if records == [] then {} else Numbers(records[..|records| - 1]) + {records[|records| - 1].no}
  }

  /** A batch with no records and nothing dropped isn't sent: the loop goes back to waiting. */
  function Taken(b: Buffer): Option<Batch> {
    if b.NextBatch() == Batch([], 0) then None else Some(b.NextBatch())
  }

  predicate Enabled(s: Shipping, e: Event) {
    match e
    case Push(_) => true
    case Disable => true
    case Take => s.inFlight.None?
    case _ => s.inFlight.Some?
  }

  function Next(s: Shipping, e: Event): Shipping
    requires Enabled(s, e)
  {
    match e
    case Push(line) =>
      var full := |s.buffer.records| >= BUFFER_CAPACITY;
      s.(buffer := s.buffer.Push(line), lost := s.lost + if full then {s.buffer.records[0].no} else {})
    case Take => s.(buffer := s.buffer.AfterTake(), inFlight := Taken(s.buffer))
    case Acked =>
      s.(inFlight := None, acked := s.acked + s.inFlight.value.records,
         reported := s.reported + s.inFlight.value.dropped)
    case Refused => Discard(s)
    case Unsupported => TurnOff(Discard(s))
    case Failed =>
      var batch := s.inFlight.value;
      var k := s.buffer.Fitting(|batch.records|);
      s.(inFlight := None, buffer := s.buffer.Requeue(batch),
         lost := s.lost + Numbers(batch.records[..|batch.records| - k]))
    case Disable => TurnOff(s)
  }

  function Discard(s: Shipping): Shipping
    requires s.inFlight.Some?
  {
    s.(inFlight := None, discarded := s.discarded + Numbers(s.inFlight.value.records),
       forgotten := s.forgotten + s.inFlight.value.dropped)
  }

  function TurnOff(s: Shipping): Shipping {
    s.(buffer := Buffer([], 0, s.buffer.nextSeq), discarded := s.discarded + Numbers(s.buffer.records),
       forgotten := s.forgotten + s.buffer.dropped)
  }

  function Flying(s: Shipping): seq<Record> {
    if s.inFlight.Some? then s.inFlight.value.records else []
  }

  function FlyingDrops(s: Shipping): nat {
    if s.inFlight.Some? then s.inFlight.value.dropped else 0
  }

  /** Everything not lost or discarded, in the order it is or will be delivered. */
  function InOrder(s: Shipping): seq<Record> {
    s.acked + Flying(s) + s.buffer.records
  }

  predicate AllBelow(xs: set<nat>, ys: set<nat>) {
    forall x, y :: x in xs && y in ys ==> x < y
  }

  predicate Increasing(records: seq<Record>) {
    records == [] ||
    (Increasing(records[..|records| - 1]) && AllBelow(Numbers(records[..|records| - 1]), {records[|records| - 1].no}))
  }

  ghost predicate Partition(live: set<nat>, lost: set<nat>, discarded: set<nat>, next: nat) {
    && live !! lost && live !! discarded && lost !! discarded
    && (forall n: nat :: n < next <==> n in live || n in lost || n in discarded)
  }

  /** `live` records in order, with every number below `next` exactly one of live, lost or discarded, and as many lost
      as are in drop counts. */
  ghost predicate Balanced(live: seq<Record>, lost: set<nat>, discarded: set<nat>, next: nat, drops: nat) {
    Increasing(live) && Partition(Numbers(live), lost, discarded, next) && |lost| == drops
  }

  function Drops(s: Shipping): nat {
    s.buffer.dropped + FlyingDrops(s) + s.reported + s.forgotten
  }

  ghost predicate Inv(s: Shipping) {
    && |s.buffer.records| <= BUFFER_CAPACITY
    && Balanced(InOrder(s), s.lost, s.discarded, s.buffer.nextSeq, Drops(s))
  }

  lemma {:induction false} NumbersAppend(xs: seq<Record>, ys: seq<Record>)
    ensures Numbers(xs + ys) == Numbers(xs) + Numbers(ys)
  {
    if ys == [] {
      assert xs + ys == xs;
    } else {
      assert (xs + ys)[..|xs + ys| - 1] == xs + ys[..|ys| - 1];
      NumbersAppend(xs, ys[..|ys| - 1]);
    }
  }

  lemma {:induction false} IncreasingAppend(xs: seq<Record>, ys: seq<Record>)
    ensures Increasing(xs + ys) <==> Increasing(xs) && Increasing(ys) && AllBelow(Numbers(xs), Numbers(ys))
  {
    if ys == [] {
      assert xs + ys == xs;
    } else {
      var init, last := ys[..|ys| - 1], ys[|ys| - 1];
      assert (xs + ys)[..|xs + ys| - 1] == xs + init;
      IncreasingAppend(xs, init);
      NumbersAppend(xs, init);
    }
  }

  lemma {:induction false} IncreasingSize(xs: seq<Record>)
    requires Increasing(xs)
    ensures |Numbers(xs)| == |xs|
  {
    if xs != [] {
      IncreasingSize(xs[..|xs| - 1]);
      assert xs[|xs| - 1].no !in Numbers(xs[..|xs| - 1]);
    }
  }

  lemma {:induction false} NumbersHas(xs: seq<Record>, i: nat)
    requires i < |xs|
    ensures xs[i].no in Numbers(xs)
  {
    if i < |xs| - 1 {
      NumbersHas(xs[..|xs| - 1], i);
    }
  }

  lemma {:induction false} IncreasingMeansInOrder(xs: seq<Record>, i: nat, j: nat)
    requires Increasing(xs) && i < j < |xs|
    ensures xs[i].no < xs[j].no
  {
    if j == |xs| - 1 {
      NumbersHas(xs[..j], i);
    } else {
      IncreasingMeansInOrder(xs[..|xs| - 1], i, j);
    }
  }

  lemma PartsBelow(front: set<nat>, out: set<nat>, back: set<nat>)
    requires AllBelow(front, out) && AllBelow(front + out, back)
    ensures AllBelow(front, back) && front + back !! out
  {
    forall x, y | x in front && y in back ensures x < y {
      assert x in front + out;
    }
    forall x | x in out ensures x !in front + back {
      assert x in front + out;
    }
  }

  /** Taking a middle part out of increasing records leaves the others increasing. */
  lemma MoveOut(front: seq<Record>, out: seq<Record>, back: seq<Record>)
    requires Increasing(front + out + back)
    ensures Increasing(front + back)
    ensures Numbers(front + out + back) == Numbers(front + back) + Numbers(out)
    ensures Numbers(front + back) !! Numbers(out)
    ensures |Numbers(out)| == |out|
  {
    IncreasingAppend(front + out, back);
    IncreasingAppend(front, out);
    NumbersAppend(front + out, back);
    NumbersAppend(front, out);
    NumbersAppend(front, back);
    PartsBelow(Numbers(front), Numbers(out), Numbers(back));
    IncreasingAppend(front, back);
    IncreasingSize(out);
  }

  lemma TakeOut(front: seq<Record>, out: seq<Record>, back: seq<Record>,
                lost: set<nat>, discarded: set<nat>, next: nat, drops: nat)
    requires Balanced(front + out + back, lost, discarded, next, drops)
    ensures Balanced(front + back, lost + Numbers(out), discarded, next, drops + |out|)
    ensures Balanced(front + back, lost, discarded + Numbers(out), next, drops)
  {
    MoveOut(front, out, back);
  }

  lemma AddOne(records: seq<Record>, added: Record, lost: set<nat>, discarded: set<nat>, drops: nat)
    requires Balanced(records, lost, discarded, added.no, drops)
    ensures Balanced(records + [added], lost, discarded, added.no + 1, drops)
  {
    assert Numbers([added]) == {added.no};
    NumbersAppend(records, [added]);
    IncreasingAppend(records, [added]);
  }

  lemma NextInv(s: Shipping, e: Event)
    requires Inv(s) && Enabled(s, e)
    ensures Inv(Next(s, e))
  {
    match e
    case Push(line) => PushInv(s, line);
    case Take =>
      var n := BatchSize(s.buffer.records);
      assert s.buffer.records == s.buffer.records[..n] + s.buffer.records[n..];
      assert InOrder(Next(s, e)) == InOrder(s);
    case Acked => assert InOrder(Next(s, e)) == InOrder(s);
    case Refused => DiscardInv(s);
    case Unsupported =>
      DiscardInv(s);
      TurnOffInv(Discard(s));
    case Failed => FailedInv(s);
    case Disable => TurnOffInv(s);
  }

  lemma PushInv(s: Shipping, line: Line)
    requires Inv(s)
    ensures Inv(Next(s, Push(line)))
  {
    if |s.buffer.records| >= BUFFER_CAPACITY {
      PushFullInv(s, line);
    } else {
      PushIn(s.acked + Flying(s), s.buffer.records, Record(line, s.buffer.nextSeq), s.lost, s.discarded, Drops(s));
      assert s.lost + {} == s.lost;
    }
  }

  lemma PushFullInv(s: Shipping, line: Line)
    requires Inv(s) && |s.buffer.records| >= BUFFER_CAPACITY
    ensures Inv(Next(s, Push(line)))
  {
    PushOut(s.acked + Flying(s), s.buffer.records, Record(line, s.buffer.nextSeq), s.lost, s.discarded, Drops(s));
  }

  lemma PushIn(front: seq<Record>, waiting: seq<Record>, added: Record, lost: set<nat>, discarded: set<nat>, drops: nat)
    requires Balanced(front + waiting, lost, discarded, added.no, drops)
    ensures Balanced(front + (waiting + [added]), lost, discarded, added.no + 1, drops)
  {
    AddOne(front + waiting, added, lost, discarded, drops);
    Regroup(front, waiting, [added]);
  }

  lemma PushOut(front: seq<Record>, waiting: seq<Record>, added: Record, lost: set<nat>, discarded: set<nat>,
                drops: nat)
    requires Balanced(front + waiting, lost, discarded, added.no, drops) && waiting != []
    ensures Balanced(front + (waiting[1..] + [added]), lost + {waiting[0].no}, discarded, added.no + 1, drops + 1)
  {
    FirstOut(front, waiting);
    TakeOut(front, [waiting[0]], waiting[1..], lost, discarded, added.no, drops);
    AddOne(front + waiting[1..], added, lost + {waiting[0].no}, discarded, drops + 1);
    Regroup(front, waiting[1..], [added]);
  }

  lemma Regroup(a: seq<Record>, b: seq<Record>, c: seq<Record>)
    ensures a + b + c == a + (b + c)
  {
  }

  lemma FirstOut(front: seq<Record>, records: seq<Record>)
    requires records != []
    ensures front + records == front + [records[0]] + records[1..]
    ensures Numbers([records[0]]) == {records[0].no}
  {
  }

  lemma DiscardInv(s: Shipping)
    requires Inv(s) && s.inFlight.Some?
    ensures Inv(Discard(s))
  {
    TakeOut(s.acked, Flying(s), s.buffer.records, s.lost, s.discarded, s.buffer.nextSeq, Drops(s));
    assert InOrder(Discard(s)) == s.acked + s.buffer.records;
  }

  lemma TurnOffInv(s: Shipping)
    requires Inv(s)
    ensures Inv(TurnOff(s))
  {
    var front := s.acked + Flying(s);
    assert InOrder(s) == front + s.buffer.records + [];
    TakeOut(front, s.buffer.records, [], s.lost, s.discarded, s.buffer.nextSeq, Drops(s));
    assert InOrder(TurnOff(s)) == front + [];
  }

  lemma FailedInv(s: Shipping)
    requires Inv(s) && s.inFlight.Some?
    ensures Inv(Next(s, Failed))
  {
    var batch := Flying(s);
    PutBack(s.acked, batch, |batch| - s.buffer.Fitting(|batch|), s.buffer.records, s.lost, s.discarded,
            s.buffer.nextSeq, Drops(s));
    assert s.acked + [] == s.acked;
  }

  lemma PutBack(acked: seq<Record>, batch: seq<Record>, d: nat, waiting: seq<Record>,
                lost: set<nat>, discarded: set<nat>, next: nat, drops: nat)
    requires Balanced(acked + batch + waiting, lost, discarded, next, drops) && d <= |batch|
    ensures Balanced(acked + (batch[d..] + waiting), lost + Numbers(batch[..d]), discarded, next, drops + d)
  {
    PrefixOut(acked, batch, d, waiting);
    TakeOut(acked, batch[..d], batch[d..] + waiting, lost, discarded, next, drops);
  }

  lemma PrefixOut(front: seq<Record>, records: seq<Record>, d: nat, back: seq<Record>)
    requires d <= |records|
    ensures front + records + back == front + records[..d] + (records[d..] + back)
  {
    assert records == records[..d] + records[d..];
  }

  predicate Legal(s: Shipping, events: seq<Event>)
    decreases |events|
  {
    events == [] || (Enabled(s, events[0]) && Legal(Next(s, events[0]), events[1..]))
  }

  function Run(s: Shipping, events: seq<Event>): Shipping
    requires Legal(s, events)
    decreases |events|
  {
    if events == [] then s else Run(Next(s, events[0]), events[1..])
  }

  function Empty(): Shipping { Shipping(Buffer([], 0, 0), None, [], {}, {}, 0, 0) }

  lemma {:induction false} RunInv(s: Shipping, events: seq<Event>)
    requires Inv(s) && Legal(s, events)
    ensures Inv(Run(s, events))
    decreases |events|
  {
    if events != [] {
      NextInv(s, events[0]);
      RunInv(Next(s, events[0]), events[1..]);
    }
  }

  /** On every run each line is delivered in order, waiting in order, counted as dropped, or discarded on purpose: never
      two of these, and never none. */
  lemma NothingGoesMissing(events: seq<Event>)
    requires Legal(Empty(), events)
    ensures Inv(Run(Empty(), events))
  {
    RunInv(Empty(), events);
  }

  lemma {:induction false} RunOneMore(s: Shipping, events: seq<Event>, e: Event)
    requires Legal(s, events) && Enabled(Run(s, events), e)
    ensures Legal(s, events + [e]) && Run(s, events + [e]) == Next(Run(s, events), e)
    decreases |events|
  {
    if events == [] {
      assert events + [e] == [e];
    } else {
      assert (events + [e])[1..] == events[1..] + [e];
      RunOneMore(Next(s, events[0]), events[1..], e);
    }
  }

  // ---------- the shared buffer ----------

  datatype Outcome = Sent | RefusedByCoordinator | UnsupportedByCoordinator | Lost

  /** One turn of the uploader: lines logged while it waits, and while the call is under way, and how that ends. A
      session that ends mid-call loses the call like any other failure. */
  datatype Turn = Turn(before: seq<Line>, during: seq<Line>, outcome: Outcome)

  class LogCapture {
    var records: seq<Record>
    var dropped: nat
    var nextSeq: nat
    var enabled: bool

    function Contents(): Buffer
      reads this
    {
      Buffer(records, dropped, nextSeq)
    }

    constructor ()
      ensures Contents() == Empty().buffer && enabled
    {
      records, dropped, nextSeq, enabled := [], 0, 0, true;
    }

    method Push(line: Line)
      modifies this`records, this`dropped, this`nextSeq
      ensures Contents() == old(Contents()).Push(line)
    {
      if |records| >= BUFFER_CAPACITY {
        records := records[1..];
        dropped := dropped + 1;
      }
      records := records + [Record(line, nextSeq)];
      nextSeq := nextSeq + 1;
    }

    method TakeBatch() returns (batch: Batch)
      modifies this`records, this`dropped
      ensures batch == old(Contents()).NextBatch()
      ensures Contents() == old(Contents()).AfterTake()
    {
      var n, bytes := 0, 0;
      while n < |records| && n < MAX_BATCH
        invariant n <= |records| && n <= MAX_BATCH
        invariant bytes == Bytes(records[..n])
        invariant BatchSize(records) == BatchSizeFrom(records, n)
      {
        assert records[..n + 1][..n] == records[..n];
        bytes := bytes + Size(records[n]);
        if n > 0 && bytes > MAX_BATCH_BYTES {
          break;
        }
        n := n + 1;
      }
      batch := Batch(records[..n], dropped);
      records, dropped := records[n..], 0;
    }

    method Requeue(batch: Batch)
      modifies this`records, this`dropped
      ensures Contents() == old(Contents()).Requeue(batch)
    {
      RequeueNothing(Contents(), batch.records, batch.dropped);
      dropped := dropped + batch.dropped;
      var i := |batch.records|;
      while i > 0
        invariant 0 <= i <= |batch.records|
        invariant Contents() == old(Contents()).Requeue(Batch(batch.records[i..], batch.dropped))
      {
        i := i - 1;
        RequeueOneMore(old(Contents()), batch.records[i..], batch.dropped);
        assert batch.records[i..][1..] == batch.records[i + 1..];
        if |records| >= BUFFER_CAPACITY {
          dropped := dropped + 1;
        } else {
          records := [batch.records[i]] + records;
        }
      }
      assert batch.records[0..] == batch.records;
    }

    method Disable()
      modifies this`records, this`dropped, this`enabled
      ensures !enabled && Contents() == Buffer([], 0, old(nextSeq))
    {
      enabled := false;
      records, dropped := [], 0;
    }

    /** One session of the uploader. What it does to the buffer is a run of the ledger, and it returns what was acked.
        Returns early when the coordinator doesn't support uploads. */
    method UploadLoop(turns: seq<Turn>, ghost start: Shipping) returns (acked: seq<Record>, ghost events: seq<Event>)
      requires start.buffer == Contents() && start.inFlight.None?
      modifies this
      ensures Legal(start, events)
      ensures Run(start, events).buffer == Contents() && Run(start, events).inFlight.None?
      ensures Run(start, events).acked == start.acked + acked
      ensures !enabled ==> exists t :: t in turns && t.outcome.UnsupportedByCoordinator?
    {
      enabled := true;
      acked, events := [], [];
      ghost var s := start;
      for i := 0 to |turns|
        invariant Legal(start, events) && Run(start, events) == s
        invariant s.buffer == Contents() && s.inFlight.None? && s.acked == start.acked + acked
        invariant enabled
      {
        var batch, ack;
        batch, s, events := Collect(turns[i].before, start, events);
        if batch.records == [] && batch.dropped == 0 {
          continue;
        }
        ack, s, events := Send(batch, turns[i], start, events);
        assert start.acked + acked + ack == start.acked + (acked + ack);
        acked := acked + ack;
        if !enabled {
          assert turns[i] in turns;
          return;
        }
      }
    }

    /** Waiting for the next batch, and taking it. */
    method Collect(lines: seq<Line>, ghost start: Shipping, ghost before: seq<Event>)
      returns (batch: Batch, ghost s: Shipping, ghost events: seq<Event>)
      requires Legal(start, before) && Run(start, before).buffer == Contents() && Run(start, before).inFlight.None?
      modifies this`records, this`dropped, this`nextSeq
      ensures Legal(start, events) && s == Run(start, events)
      ensures s.buffer == Contents() && s.acked == Run(start, before).acked
      ensures s.inFlight == if batch == Batch([], 0) then None else Some(batch)
      ensures batch == old(Contents()).PushAll(lines).NextBatch()
    {
      s, events := LogLines(lines, start, before);
      batch := TakeBatch();
      RunOneMore(start, events, Take);
      s, events := Next(s, Take), events + [Take];
    }

    /** The call that sends a batch, up to its outcome. */
    method Send(batch: Batch, turn: Turn, ghost start: Shipping, ghost before: seq<Event>)
      returns (ack: seq<Record>, ghost s: Shipping, ghost events: seq<Event>)
      requires Legal(start, before) && Run(start, before).buffer == Contents()
      requires Run(start, before).inFlight == Some(batch)
      modifies this
      ensures Legal(start, events) && s == Run(start, events)
      ensures s.buffer == Contents() && s.inFlight.None? && s.acked == Run(start, before).acked + ack
      ensures ack == if turn.outcome.Sent? then batch.records else []
      ensures enabled == (old(enabled) && !turn.outcome.UnsupportedByCoordinator?)
      ensures turn.outcome.Lost? ==> Contents() == old(Contents()).PushAll(turn.during).Requeue(batch)
    {
      s, events := LogLines(turn.during, start, before);
      ack := [];
      ghost var e;
      match turn.outcome {
        case Sent =>
          e := Acked;
          ack := batch.records;
        case RefusedByCoordinator =>
          e := Refused;
        case UnsupportedByCoordinator =>
          e := Unsupported;
          Disable();
        case Lost =>
          e := Failed;
          Requeue(batch);
      }
      RunOneMore(start, events, e);
      s, events := Next(s, e), events + [e];
    }

    /** Lines logged by the rest of the agent, between two steps of the uploader. */
    method LogLines(lines: seq<Line>, ghost start: Shipping, ghost before: seq<Event>)
      returns (ghost s: Shipping, ghost events: seq<Event>)
      requires Legal(start, before) && Run(start, before).buffer == Contents()
      modifies this`records, this`dropped, this`nextSeq
      ensures Legal(start, events) && s == Run(start, events)
      ensures s.buffer == Contents() == old(Contents()).PushAll(lines)
      ensures s.inFlight == Run(start, before).inFlight && s.acked == Run(start, before).acked
    {
      events := before;
      s := Run(start, events);
      for i := 0 to |lines|
        invariant Legal(start, events) && s == Run(start, events)
        invariant s.buffer == Contents() == old(Contents()).PushAll(lines[..i])
        invariant s.inFlight == Run(start, before).inFlight && s.acked == Run(start, before).acked
      {
        assert lines[..i + 1][..i] == lines[..i];
        Push(lines[i]);
        RunOneMore(start, events, Event.Push(lines[i]));
        s, events := Next(s, Event.Push(lines[i])), events + [Event.Push(lines[i])];
      }
      assert lines[..|lines|] == lines;
    }
  }
}
