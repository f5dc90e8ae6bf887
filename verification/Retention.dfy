/**
 * Rolling sample retention: what pruning one sample at a time keeps, compared with pruning
 * the full history at once.
 */
module Retention {
  import opened Common

  datatype Stamped<+T> = Stamped(timestamp: real, value: T)

  datatype RollingWindow = RollingWindow(windowMs: real, maxSamples: int, retentionMs: real)

  function KeepFrom<T>(samples: seq<Stamped<T>>, cutoff: real): seq<Stamped<T>> {
    if samples == [] then []
    else if samples[0].timestamp >= cutoff then [samples[0]] + KeepFrom(samples[1..], cutoff)
    else KeepFrom(samples[1..], cutoff)
  }

  /** The last n elements; none when n is not positive. */
  function LastN<T>(s: seq<T>, n: int): seq<T> {
    if |s| <= n then s else if n <= 0 then [] else s[|s| - n..]
  }

  function RetainAll<T>(samples: seq<Stamped<T>>, now: real, c: RollingWindow): seq<Stamped<T>> {
    LastN(KeepFrom(samples, now - c.retentionMs), c.maxSamples)
  }

  /** The pruning variant that also looks at `windowMs`. */
  function PruneSamples<T>(samples: seq<Stamped<T>>, now: real, c: RollingWindow): seq<Stamped<T>> {
    var pruned := LastN(KeepFrom(samples, now - c.retentionMs), c.maxSamples);
    Filter(pruned, (s: Stamped<T>) => s.timestamp >= now - c.windowMs || |pruned| <= c.maxSamples)
  }

  /** `windowMs` never drops a sample: the two pruning functions agree on every input. */
  lemma PruneEqualsRetain<T>(samples: seq<Stamped<T>>, now: real, c: RollingWindow)
    ensures PruneSamples(samples, now, c) == RetainAll(samples, now, c)
  {
    hide KeepFrom, Filter;
    var pruned := LastN(KeepFrom(samples, now - c.retentionMs), c.maxSamples);
    assert pruned == [] || |pruned| <= c.maxSamples;
    FilterAll(pruned, (s: Stamped<T>) => s.timestamp >= now - c.windowMs || |pruned| <= c.maxSamples);
  }

  // ------------------------------------------------------------ runs of one list

  datatype SampleOp<+T> = Record(sample: Stamped<T>) | PruneAt(now: real)

  function TimeOf<T>(op: SampleOp<T>): real { if op.Record? then op.sample.timestamp else op.now }

  /** The list after recording and pruning one step at a time. */
  function Held<T>(c: RollingWindow, ops: seq<SampleOp<T>>): seq<Stamped<T>> {
    if ops == [] then []
    else
      var before := Held(c, ops[..|ops| - 1]);
      match ops[|ops| - 1]
      case Record(sample) => RetainAll(before + [sample], sample.timestamp, c)
      case PruneAt(now) => PruneSamples(before, now, c)
  }

  /** Every sample ever recorded. */
  function History<T>(ops: seq<SampleOp<T>>): seq<Stamped<T>> {
    if ops == [] then []
    else
      var op := ops[|ops| - 1];
      History(ops[..|ops| - 1]) + if op.Record? then [op.sample] else []
  }

  predicate Monotone<T>(ops: seq<SampleOp<T>>) {
    forall i, j | 0 <= i < j < |ops| :: TimeOf(ops[i]) <= TimeOf(ops[j])
  }

  ghost predicate Ordered<T>(s: seq<Stamped<T>>) {
    forall i, j | 0 <= i < j < |s| :: s[i].timestamp <= s[j].timestamp
  }

  lemma {:induction false} KeepAppend<T>(a: seq<Stamped<T>>, b: seq<Stamped<T>>, cutoff: real)
    ensures KeepFrom(a + b, cutoff) == KeepFrom(a, cutoff) + KeepFrom(b, cutoff)
  {
    if a == [] {
      assert a + b == b;
    } else {
      assert (a + b)[1..] == a[1..] + b;
      KeepAppend(a[1..], b, cutoff);
    }
  }

  lemma {:induction false} KeepEverything<T>(s: seq<Stamped<T>>, cutoff: real)
    requires forall i | 0 <= i < |s| :: s[i].timestamp >= cutoff
    ensures KeepFrom(s, cutoff) == s
  {
    if s != [] {
      KeepEverything(s[1..], cutoff);
    }
  }

  /** On a time-ordered list, keeping from a cutoff is dropping a prefix. */
  lemma {:induction false} KeepIsSuffix<T>(s: seq<Stamped<T>>, cutoff: real)
    requires Ordered(s)
    ensures |KeepFrom(s, cutoff)| <= |s| && KeepFrom(s, cutoff) == s[|s| - |KeepFrom(s, cutoff)|..]
    ensures forall i | 0 <= i < |s| :: s[i].timestamp >= cutoff <==> i >= |s| - |KeepFrom(s, cutoff)|
  {
    if s == [] {
    } else if s[0].timestamp >= cutoff {
      KeepEverything(s, cutoff);
    } else {
      var rest := s[1..];
      KeepIsSuffix(rest, cutoff);
      var k := |rest| - |KeepFrom(rest, cutoff)|;
      assert rest[k..] == s[k + 1..];
      forall i | 1 <= i < |s| ensures s[i].timestamp >= cutoff <==> i >= k + 1 {
        assert rest[i - 1] == s[i];
      }
    }
  }

  lemma {:induction false} KeepTwice<T>(s: seq<Stamped<T>>, early: real, late: real)
    requires early <= late
    ensures KeepFrom(KeepFrom(s, early), late) == KeepFrom(s, late)
  {
    if s != [] {
      KeepTwice(s[1..], early, late);
    }
  }

  lemma {:induction false} KeepNothing<T>(s: seq<Stamped<T>>, cutoff: real)
    requires forall i | 0 <= i < |s| :: s[i].timestamp < cutoff
    ensures KeepFrom(s, cutoff) == []
  {
    if s != [] {
      KeepNothing(s[1..], cutoff);
    }
  }

  /** On a time-ordered list, limiting the count and cutting by time commute. */
  lemma {:induction false} KeepOfLast<T>(s: seq<Stamped<T>>, cutoff: real, n: int)
    requires Ordered(s)
    ensures KeepFrom(LastN(s, n), cutoff) == LastN(KeepFrom(s, cutoff), n)
  {
    hide KeepFrom;
    KeepIsSuffix(s, cutoff);
    var last, kept := LastN(s, n), KeepFrom(s, cutoff);
    var d, k := |s| - |last|, |s| - |kept|;
    assert last == s[d..] && kept == s[k..];
    if k <= d {
      KeepEverything(last, cutoff);
    } else {
      assert last == s[d..k] + kept;
      KeepAppend(s[d..k], kept, cutoff);
      KeepNothing(s[d..k], cutoff);
      KeepEverything(kept, cutoff);
    }
  }

  lemma LastOfLast<T>(a: seq<T>, b: seq<T>, n: int)
    ensures LastN(LastN(a, n) + b, n) == LastN(a + b, n)
  {
  }

  lemma {:induction false} HistoryOrdered<T>(ops: seq<SampleOp<T>>)
    requires Monotone(ops)
    ensures Ordered(History(ops))
    ensures ops != [] ==> forall i | 0 <= i < |History(ops)| :: History(ops)[i].timestamp <= TimeOf(ops[|ops| - 1])
  {
    if ops != [] {
      HistoryOrdered(ops[..|ops| - 1]);
    }
  }

  /** One more pruning step keeps the held list equal to the batch result. */
  lemma StepIsBatch<T>(c: RollingWindow, history: seq<Stamped<T>>, extra: seq<Stamped<T>>, early: real, late: real)
    requires Ordered(history) && early <= late
    ensures RetainAll(RetainAll(history, early, c) + extra, late, c) == RetainAll(history + extra, late, c)
  {
    var from, to, n := early - c.retentionMs, late - c.retentionMs, c.maxSamples;
    var kept := KeepFrom(history, from);
    KeepIsSuffix(history, from);
    KeepAppend(LastN(kept, n), extra, to);
    KeepAppend(history, extra, to);
    KeepOfLast(kept, to, n);
    KeepTwice(history, from, to);
    LastOfLast(KeepFrom(history, to), KeepFrom(extra, to), n);
  }

  /**
   * After any run of records and prunes with non-decreasing times, the held samples are the
   * last maxSamples of the full history with timestamp at least the last time minus retention.
   */
  lemma {:induction false} IncrementalIsBatch<T>(c: RollingWindow, ops: seq<SampleOp<T>>)
    requires ops != [] && Monotone(ops)
    ensures Held(c, ops) == RetainAll(History(ops), TimeOf(ops[|ops| - 1]), c)
  {
    var before, op := ops[..|ops| - 1], ops[|ops| - 1];
    var extra := if op.Record? then [op.sample] else [];
    if op.PruneAt? { PruneEqualsRetain(Held(c, before), op.now, c); }
    assert Held(c, before) + [] == Held(c, before);
    if before == [] {
      assert [] + extra == extra;
    } else {
      IncrementalIsBatch(c, before);
      HistoryOrdered(before);
      assert before[|before| - 1] == ops[|ops| - 2];
      StepIsBatch(c, History(before), extra, TimeOf(before[|before| - 1]), TimeOf(op));
    }
  }

  /** The held list after one more operation. */
  lemma HeldOneMore<T>(c: RollingWindow, ops: seq<SampleOp<T>>, op: SampleOp<T>)
    ensures Held(c, ops + [op]) ==
            if op.Record? then RetainAll(Held(c, ops) + [op.sample], op.sample.timestamp, c) else PruneSamples(Held(c, ops), op.now, c)
  {
    assert (ops + [op])[..|ops|] == ops;
  }

  lemma KeepOne<T>(x: Stamped<T>, cutoff: real)
    ensures KeepFrom([x], cutoff) == if x.timestamp >= cutoff then [x] else []
  {
    assert [x][1..] == [];
  }

  /**
   * Non-decreasing times are needed: with retention 50, recording at times 0, 100 and 20
   * holds only the last two samples, though all three are within 50 of the last time.
   */
  lemma OutOfOrderDiffers(a: Stamped<int>, b: Stamped<int>, d: Stamped<int>)
    requires a.timestamp == 0.0 && b.timestamp == 100.0 && d.timestamp == 20.0
    ensures var c, ops := RollingWindow(10.0, 5, 50.0), [Record(a), Record(b), Record(d)];
            Held(c, ops) == [b, d] && RetainAll(History(ops), 20.0, c) == [a, b, d]
  {
    var c, ops := RollingWindow(10.0, 5, 50.0), [Record(a), Record(b), Record(d)];
    assert ops[..2][..1] == [Record(a)] && ops[..2][1] == Record(b) && ops[..2][..1][..0] == [];
    KeepOne(a, -50.0);
    assert [] + [a] == [a];
    assert Held(c, ops[..2][..1]) == [a];
    KeepAppend([a], [b], 50.0);
    KeepOne(a, 50.0);
    KeepOne(b, 50.0);
    assert Held(c, ops[..2]) == [b];
    KeepEverything([b] + [d], -30.0);
    assert History(ops[..2][..1]) == [a];
    assert History(ops[..2]) == [a] + [b];
    assert [a] + [b] + [d] == [a, b, d];
    KeepEverything([a, b, d], -30.0);
  }

  // ------------------------------------------------- runs whose clock goes back

  function Cutoff<T>(c: RollingWindow, op: SampleOp<T>): real { TimeOf(op) - c.retentionMs }

  predicate IsRecord<T>(ops: seq<SampleOp<T>>, i: int) { 0 <= i < |ops| && ops[i].Record? }

  /** The i-th operation recorded a sample that is not older than the cutoff. */
  predicate IsRecent<T>(ops: seq<SampleOp<T>>, i: int, cutoff: real) {
    IsRecord(ops, i) && ops[i].sample.timestamp >= cutoff
  }

  /** Record k is no older than any cutoff from its own time up to operation j. */
  predicate Alive<T>(c: RollingWindow, ops: seq<SampleOp<T>>, k: int, j: int) {
    0 <= k <= j < |ops| && forall m | k <= m <= j :: IsRecent(ops, k, Cutoff(c, ops[m]))
  }

  function AliveAfter<T>(c: RollingWindow, ops: seq<SampleOp<T>>, i: int, j: int): set<int> {
    set k | i < k <= j && Alive(c, ops, k, j)
  }

  /** At every operation from its own on, record i is recent and fewer than maxSamples later ones have been all along. */
  predicate Survives<T>(c: RollingWindow, ops: seq<SampleOp<T>>, i: int) {
    IsRecord(ops, i) && forall j | i <= j < |ops| :: Alive(c, ops, i, j) && |AliveAfter(c, ops, i, j)| < c.maxSamples
  }

  function RecentAfter<T>(ops: seq<SampleOp<T>>, i: int, cutoff: real): set<int> {
    set k | i < k < |ops| && IsRecent(ops, k, cutoff)
  }

  /** Record i is among the last maxSamples that the last operation's cutoff admits. */
  predicate IsSelected<T>(c: RollingWindow, ops: seq<SampleOp<T>>, i: int)
    requires ops != []
  {
    var cutoff := Cutoff(c, ops[|ops| - 1]);
    IsRecent(ops, i, cutoff) && |RecentAfter(ops, i, cutoff)| < c.maxSamples
  }

  predicate Ascends(at: seq<int>) { forall p, q | 0 <= p < q < |at| :: at[p] < at[q] }

  /** Ascending positions of records. */
  predicate PositionsOk<T>(ops: seq<SampleOp<T>>, at: seq<int>) {
    Ascends(at) && forall p | 0 <= p < |at| :: IsRecord(ops, at[p])
  }

  /** The samples of the records at some positions. */
  function SamplesAt<T>(ops: seq<SampleOp<T>>, at: seq<int>): (samples: seq<Stamped<T>>)
    requires PositionsOk(ops, at)
    ensures |samples| == |at|
  {
    seq(|at|, p requires 0 <= p < |at| && IsRecord(ops, at[p]) => ops[at[p]].sample)
  }

  function KeepAt<T>(ops: seq<SampleOp<T>>, at: seq<int>, cutoff: real): seq<int> {
    Filter(at, i => IsRecent(ops, i, cutoff))
  }

  function RecordHere<T>(ops: seq<SampleOp<T>>, n: int): seq<int> { if IsRecord(ops, n) then [n] else [] }

  function SampleHere<T>(ops: seq<SampleOp<T>>, n: int): seq<Stamped<T>> { if IsRecord(ops, n) then [ops[n].sample] else [] }

  /** The positions of the records that are held. */
  function HeldAt<T>(c: RollingWindow, ops: seq<SampleOp<T>>): seq<int> {
    if ops == [] then []
    else
      var n := |ops| - 1;
      LastN(KeepAt(ops, HeldAt(c, ops[..n]) + RecordHere(ops, n), Cutoff(c, ops[n])), c.maxSamples)
  }

  /** The positions of all records among the first n operations. */
  function RecordsAt<T>(ops: seq<SampleOp<T>>, n: nat): seq<int>
    requires n <= |ops|
  {
    if n == 0 then [] else RecordsAt(ops, n - 1) + RecordHere(ops, n - 1)
  }

  function BatchAt<T>(c: RollingWindow, ops: seq<SampleOp<T>>): seq<int>
    requires ops != []
  {
    LastN(KeepAt(ops, RecordsAt(ops, |ops|), Cutoff(c, ops[|ops| - 1])), c.maxSamples)
  }

  // ------------------------------------------------------- ascending positions

  lemma {:induction false} FilterAscends(at: seq<int>, keep: int -> bool)
    requires Ascends(at)
    ensures Ascends(Filter(at, keep))
  {
    if at != [] {
      var tail := at[1..];
      FilterAscends(tail, keep);
      forall i <- tail ensures at[0] < i {
        var p :| 0 <= p < |tail| && tail[p] == i;
      }
      AscendsCons(at[0], Filter(tail, keep));
    }
  }

  lemma {:induction false} AscendsCons(i: int, at: seq<int>)
    requires Ascends(at) && forall k <- at :: i < k
    ensures Ascends([i] + at)
  {
    var r := [i] + at;
    forall p, q | 0 <= p < q < |r| ensures r[p] < r[q] {
      assert r[q] == at[q - 1] && r[q] in at;
      assert p > 0 ==> r[p] == at[p - 1];
    }
  }

  function Above(at: seq<int>, i: int): set<int> { set k | k in at && k > i }

  lemma {:induction false} AboveSize(at: seq<int>, p: nat)
    requires Ascends(at) && p < |at|
    ensures |Above(at, at[p])| == |at| - p - 1
    decreases |at| - p
  {
    if p == |at| - 1 {
      assert Above(at, at[p]) == {};
    } else {
      AboveSize(at, p + 1);
      assert Above(at, at[p]) == Above(at, at[p + 1]) + {at[p + 1]};
    }
  }

  /** The last n of ascending positions are those with fewer than n above them. */
  lemma {:induction false} LastNByRank(at: seq<int>, n: int, i: int)
    requires Ascends(at)
    ensures Ascends(LastN(at, n)) && |LastN(at, n)| <= |at|
    ensures i in LastN(at, n) <==> i in at && |Above(at, i)| < n
  {
    var last := LastN(at, n);
    var d := |at| - |last|;
    assert last == at[d..];
    if i in at {
      var p :| 0 <= p < |at| && at[p] == i;
      AboveSize(at, p);
      if p >= d { assert last[p - d] == i; }
      if i in last {
        var q :| 0 <= q < |last| && last[q] == i;
        assert at[d + q] == at[p];
      }
    }
  }

  ghost predicate AgreeWhereTheyDiffer(x: seq<int>, y: seq<int>)
    requires |x| == |y|
  {
    forall p | 0 <= p < |x| :: (x[p] < y[p] ==> y[p] in x) && (y[p] < x[p] ==> x[p] in y)
  }

  lemma {:induction false} LastIsGreatest(at: seq<int>)
    requires Ascends(at) && at != []
    ensures forall i <- at :: i <= at[|at| - 1] && (i < at[|at| - 1] ==> i in at[..|at| - 1])
  {
    forall i <- at ensures i <= at[|at| - 1] && (i < at[|at| - 1] ==> i in at[..|at| - 1]) {
      var p :| 0 <= p < |at| && at[p] == i;
      if p < |at| - 1 { assert at[..|at| - 1][p] == i; }
    }
  }

  lemma {:induction false} AgreeOnPrefix(x: seq<int>, y: seq<int>)
    requires Ascends(x) && Ascends(y) && |x| == |y| && x != [] && AgreeWhereTheyDiffer(x, y)
    ensures var n := |x| - 1; x[n] == y[n] && AgreeWhereTheyDiffer(x[..n], y[..n])
  {
    var n := |x| - 1;
    LastIsGreatest(x);
    LastIsGreatest(y);
    assert x[n] == y[n];
    forall p | 0 <= p < n
      ensures (x[p] < y[p] ==> y[p] in x[..n]) && (y[p] < x[p] ==> x[p] in y[..n]) {
      assert x[p] < x[n] && y[p] < y[n];
    }
  }

  lemma {:induction false} AscendsPrefix(at: seq<int>)
    requires Ascends(at) && at != []
    ensures Ascends(at[..|at| - 1]) && at == at[..|at| - 1] + [at[|at| - 1]]
  {
  }

  /** Ascending positions that agree on where they differ are the same. */
  lemma {:induction false} SameFromTheEnd(x: seq<int>, y: seq<int>)
    requires Ascends(x) && Ascends(y) && |x| == |y| && AgreeWhereTheyDiffer(x, y)
    ensures x == y
  {
    if x != [] {
      hide AgreeWhereTheyDiffer, Ascends;
      AgreeOnPrefix(x, y);
      AscendsPrefix(x);
      AscendsPrefix(y);
      SameFromTheEnd(x[..|x| - 1], y[..|y| - 1]);
    }
  }

  lemma {:induction false} AscendingSize(at: seq<int>)
    requires Ascends(at)
    ensures |set k | k in at| == |at|
  {
    if at != [] {
      var n := |at| - 1;
      AscendingSize(at[..n]);
      assert at == at[..n] + [at[n]];
      assert (set k | k in at) == (set k | k in at[..n]) + {at[n]};
    }
  }

  lemma {:induction false} SameMembers(x: seq<int>, y: seq<int>)
    requires Ascends(x) && Ascends(y) && forall k :: k in x <==> k in y
    ensures x == y
  {
    AscendingSize(x);
    AscendingSize(y);
    assert (set k | k in x) == (set k | k in y);
    SameFromTheEnd(x, y);
  }

  // ------------------------------------------------------- positions and samples

  lemma {:induction false} TailPositions<T>(ops: seq<SampleOp<T>>, at: seq<int>)
    requires at != [] && PositionsOk(ops, at)
    ensures PositionsOk(ops, at[1..]) && IsRecord(ops, at[0])
    ensures SamplesAt(ops, at) == [ops[at[0]].sample] + SamplesAt(ops, at[1..])
  {
  }

  lemma {:induction false} KeepAtTail<T>(ops: seq<SampleOp<T>>, at: seq<int>, cutoff: real)
    requires at != []
    ensures KeepAt(ops, at, cutoff) == (if IsRecent(ops, at[0], cutoff) then [at[0]] else []) + KeepAt(ops, at[1..], cutoff)
  {
  }

  lemma {:induction false} KeepFromCons<T>(x: Stamped<T>, s: seq<Stamped<T>>, cutoff: real)
    ensures KeepFrom([x] + s, cutoff) == (if x.timestamp >= cutoff then [x] else []) + KeepFrom(s, cutoff)
  {
    assert ([x] + s)[1..] == s;
  }

  lemma {:induction false} KeepAtPositions<T>(ops: seq<SampleOp<T>>, at: seq<int>, cutoff: real)
    requires PositionsOk(ops, at)
    ensures PositionsOk(ops, KeepAt(ops, at, cutoff))
  {
    FilterAscends(at, i => IsRecent(ops, i, cutoff));
    KeptIs(ops, at, cutoff);
    forall p | 0 <= p < |KeepAt(ops, at, cutoff)| ensures IsRecord(ops, KeepAt(ops, at, cutoff)[p]) {
      assert KeepAt(ops, at, cutoff)[p] in KeepAt(ops, at, cutoff);
    }
  }

  lemma {:induction false} KeepSamplesAt<T>(ops: seq<SampleOp<T>>, at: seq<int>, cutoff: real)
    requires PositionsOk(ops, at)
    ensures PositionsOk(ops, KeepAt(ops, at, cutoff))
    ensures KeepFrom(SamplesAt(ops, at), cutoff) == SamplesAt(ops, KeepAt(ops, at, cutoff))
  {
    KeepAtPositions(ops, at, cutoff);
    if at != [] {
      hide KeepAt, KeepFrom, SamplesAt, PositionsOk;
      var rest := at[1..];
      TailPositions(ops, at);
      KeepSamplesAt(ops, rest, cutoff);
      KeepAtTail(ops, at, cutoff);
      KeepFromCons(ops[at[0]].sample, SamplesAt(ops, rest), cutoff);
      var kept := KeepAt(ops, at, cutoff);
      if IsRecent(ops, at[0], cutoff) {
        TailPositions(ops, kept);
        assert kept[0] == at[0] && kept[1..] == KeepAt(ops, rest, cutoff);
      } else {
        assert kept == KeepAt(ops, rest, cutoff);
      }
    }
  }

  lemma {:induction false} LastSamplesAt<T>(ops: seq<SampleOp<T>>, at: seq<int>, n: int)
    requires PositionsOk(ops, at)
    ensures PositionsOk(ops, LastN(at, n))
    ensures LastN(SamplesAt(ops, at), n) == SamplesAt(ops, LastN(at, n))
  {
    if |at| > n && n > 0 {
      var d := |at| - n;
      var last := at[d..];
      assert forall p | 0 <= p < n :: last[p] == at[d + p];
      assert forall p | 0 <= p < n :: IsRecord(ops, last[p]);
      assert SamplesAt(ops, at)[d..] == SamplesAt(ops, last);
    }
  }

  /** Retaining samples is retaining the positions of their records. */
  lemma {:induction false} RetainSamplesAt<T>(c: RollingWindow, ops: seq<SampleOp<T>>, at: seq<int>, now: real)
    requires PositionsOk(ops, at)
    ensures var kept := KeepAt(ops, at, now - c.retentionMs); var last := LastN(kept, c.maxSamples);
            && PositionsOk(ops, kept) && PositionsOk(ops, last)
            && RetainAll(SamplesAt(ops, at), now, c) == SamplesAt(ops, last)
  {
    hide KeepAt, KeepFrom, LastN, PositionsOk, SamplesAt;
    KeepSamplesAt(ops, at, now - c.retentionMs);
    LastSamplesAt(ops, KeepAt(ops, at, now - c.retentionMs), c.maxSamples);
  }

  lemma {:induction false} PositionsOneMore<T>(ops: seq<SampleOp<T>>, at: seq<int>)
    requires ops != [] && PositionsOk(ops[..|ops| - 1], at)
    ensures var n := |ops| - 1; var more := at + RecordHere(ops, n);
            && PositionsOk(ops, more)
            && SamplesAt(ops, more) == SamplesAt(ops[..n], at) + SampleHere(ops, n)
  {
    assert forall p | 0 <= p < |at| :: IsRecord(ops[..|ops| - 1], at[p]);
  }

  /** Recording and pruning alike retain from what was held before. */
  lemma {:induction false} HeldRetains<T>(c: RollingWindow, ops: seq<SampleOp<T>>)
    requires ops != []
    ensures var n := |ops| - 1;
            Held(c, ops) == RetainAll(Held(c, ops[..n]) + SampleHere(ops, n), TimeOf(ops[n]), c)
  {
    var n := |ops| - 1;
    hide RetainAll, PruneSamples;
    if ops[n].PruneAt? {
      PruneEqualsRetain(Held(c, ops[..n]), ops[n].now, c);
      assert Held(c, ops[..n]) + [] == Held(c, ops[..n]);
    }
  }

  lemma {:induction false} HeldAtRetains<T>(c: RollingWindow, ops: seq<SampleOp<T>>)
    requires ops != []
    ensures var n := |ops| - 1;
            HeldAt(c, ops) ==
            LastN(KeepAt(ops, HeldAt(c, ops[..n]) + RecordHere(ops, n), TimeOf(ops[n]) - c.retentionMs), c.maxSamples)
  {
    hide KeepAt, LastN;
  }

  /** The positions stand for the samples. */
  ghost predicate StandFor<T>(ops: seq<SampleOp<T>>, at: seq<int>, samples: seq<Stamped<T>>) {
    PositionsOk(ops, at) && SamplesAt(ops, at) == samples
  }

  lemma {:induction false} StandForNothing<T>()
    ensures StandFor<T>([], [], [])
  {
  }

  lemma {:induction false} StandForOneMore<T>(ops: seq<SampleOp<T>>, at: seq<int>, samples: seq<Stamped<T>>)
    requires ops != [] && StandFor(ops[..|ops| - 1], at, samples)
    ensures var n := |ops| - 1; StandFor(ops, at + RecordHere(ops, n), samples + SampleHere(ops, n))
  {
    PositionsOneMore(ops, at);
    hide PositionsOk, SamplesAt, RecordHere, SampleHere;
  }

  lemma {:induction false} StandForRetained<T>(c: RollingWindow, ops: seq<SampleOp<T>>, at: seq<int>, samples: seq<Stamped<T>>, now: real)
    requires StandFor(ops, at, samples)
    ensures StandFor(ops, LastN(KeepAt(ops, at, now - c.retentionMs), c.maxSamples), RetainAll(samples, now, c))
  {
    RetainSamplesAt(c, ops, at, now);
    hide PositionsOk, SamplesAt, KeepAt, LastN, RetainAll;
  }

  lemma {:induction false} NothingHeld<T>(c: RollingWindow, ops: seq<SampleOp<T>>)
    requires ops == []
    ensures StandFor(ops, HeldAt(c, ops), Held(c, ops))
  {
    StandForNothing<T>();
  }

  lemma {:induction false} HeldPositions<T>(c: RollingWindow, ops: seq<SampleOp<T>>)
    ensures StandFor(ops, HeldAt(c, ops), Held(c, ops))
  {
    hide Held, HeldAt, LastN, KeepAt, RetainAll, RecordHere, SampleHere, StandFor;
    if ops == [] {
      NothingHeld(c, ops);
    } else {
      var n := |ops| - 1;
      HeldPositions(c, ops[..n]);
      StandForOneMore(ops, HeldAt(c, ops[..n]), Held(c, ops[..n]));
      HeldRetains(c, ops);
      HeldAtRetains(c, ops);
      StandForRetained(c, ops, HeldAt(c, ops[..n]) + RecordHere(ops, n), Held(c, ops[..n]) + SampleHere(ops, n), TimeOf(ops[n]));
    }
  }

  lemma {:induction false} RecordPositions<T>(ops: seq<SampleOp<T>>, n: nat)
    requires n <= |ops|
    ensures StandFor(ops[..n], RecordsAt(ops, n), History(ops[..n]))
  {
    if n == 0 {
      StandForNothing<T>();
    } else {
      hide StandFor, SamplesAt;
      RecordPositions(ops, n - 1);
      assert ops[..n][..n - 1] == ops[..n - 1];
      StandForOneMore(ops[..n], RecordsAt(ops, n - 1), History(ops[..n - 1]));
    }
  }

  lemma {:induction false} RecordsAtHolds<T>(ops: seq<SampleOp<T>>, n: nat, i: int)
    requires n <= |ops|
    ensures i in RecordsAt(ops, n) <==> i < n && IsRecord(ops, i)
  {
    if n > 0 { RecordsAtHolds(ops, n - 1, i); }
  }

  /** The records of a whole run, by position. */
  lemma {:induction false} AllRecords<T>(ops: seq<SampleOp<T>>)
    ensures StandFor(ops, RecordsAt(ops, |ops|), History(ops))
    ensures forall i :: i in RecordsAt(ops, |ops|) <==> IsRecord(ops, i)
  {
    hide StandFor, RecordsAt, History;
    assert ops[..|ops|] == ops;
    RecordPositions(ops, |ops|);
    forall i ensures i in RecordsAt(ops, |ops|) <==> IsRecord(ops, i) { RecordsAtHolds(ops, |ops|, i); }
  }

  lemma {:induction false} BatchPositions<T>(c: RollingWindow, ops: seq<SampleOp<T>>)
    requires ops != []
    ensures StandFor(ops, BatchAt(c, ops), RetainAll(History(ops), TimeOf(ops[|ops| - 1]), c))
    ensures forall i :: i in BatchAt(c, ops) <==> IsSelected(c, ops, i)
  {
    hide RetainAll, LastN, RecordsAt, History, KeepAt, SamplesAt, RecentAfter, IsRecent;
    var at, cutoff := RecordsAt(ops, |ops|), Cutoff(c, ops[|ops| - 1]);
    AllRecords(ops);
    KeepAtPositions(ops, at, cutoff);
    StandForRetained(c, ops, at, History(ops), TimeOf(ops[|ops| - 1]));
    forall i ensures i in BatchAt(c, ops) <==> IsSelected(c, ops, i) {
      SelectedByRank(c, ops, at, cutoff, i);
    }
  }

  lemma {:induction false} SelectedByRank<T>(c: RollingWindow, ops: seq<SampleOp<T>>, at: seq<int>, cutoff: real, i: int)
    requires PositionsOk(ops, KeepAt(ops, at, cutoff)) && forall k :: k in at <==> IsRecord(ops, k)
    ensures i in LastN(KeepAt(ops, at, cutoff), c.maxSamples) <==>
            IsRecent(ops, i, cutoff) && |RecentAfter(ops, i, cutoff)| < c.maxSamples
  {
    hide LastN;
    var kept := KeepAt(ops, at, cutoff);
    LastNByRank(kept, c.maxSamples, i);
    assert forall k :: k in kept <==> IsRecent(ops, k, cutoff);
    if i >= 0 { assert Above(kept, i) == RecentAfter(ops, i, cutoff); }
  }

  // ------------------------------------------------------------- who survives

  lemma {:induction false} AliveOfPrefix<T>(c: RollingWindow, ops: seq<SampleOp<T>>, n: nat, i: int, j: int)
    requires j < n <= |ops|
    ensures Alive(c, ops[..n], i, j) <==> Alive(c, ops, i, j)
    ensures AliveAfter(c, ops[..n], i, j) == AliveAfter(c, ops, i, j)
  {
    forall k ensures Alive(c, ops[..n], k, j) <==> Alive(c, ops, k, j) { AlivePointwise(c, ops, n, k, j); }
    hide Alive;
  }

  lemma {:induction false} AlivePointwise<T>(c: RollingWindow, ops: seq<SampleOp<T>>, n: nat, k: int, j: int)
    requires j < n <= |ops|
    ensures Alive(c, ops[..n], k, j) <==> Alive(c, ops, k, j)
  {
    if 0 <= k <= j {
      assert forall m | k <= m <= j :: IsRecent(ops[..n], k, Cutoff(c, ops[..n][m])) <==> IsRecent(ops, k, Cutoff(c, ops[m]));
    }
  }

  lemma {:induction false} AliveOneMore<T>(c: RollingWindow, ops: seq<SampleOp<T>>, k: int, j: int)
    requires 0 <= k < j < |ops|
    ensures Alive(c, ops, k, j) <==> Alive(c, ops, k, j - 1) && IsRecent(ops, k, Cutoff(c, ops[j]))
  {
  }

  /** What the last operation adds to surviving. */
  lemma {:induction false} SurvivesOneMore<T>(c: RollingWindow, ops: seq<SampleOp<T>>, i: int)
    requires ops != []
    ensures var n := |ops| - 1;
            Survives(c, ops, i) <==>
            && IsRecent(ops, i, Cutoff(c, ops[n])) && (i == n || Survives(c, ops[..n], i))
            && |AliveAfter(c, ops, i, n)| < c.maxSamples
  {
    var n := |ops| - 1;
    if 0 <= i < n {
      forall j | i <= j < n
        ensures Alive(c, ops[..n], i, j) <==> Alive(c, ops, i, j)
        ensures AliveAfter(c, ops[..n], i, j) == AliveAfter(c, ops, i, j) {
        AliveOfPrefix(c, ops, n, i, j);
      }
      AliveOneMore(c, ops, i, n);
      hide Alive, AliveAfter;
      if Survives(c, ops[..n], i) { assert Alive(c, ops, i, n - 1); }
      if Survives(c, ops, i) { assert Alive(c, ops, i, n); }
    } else if i == n {
      assert Alive(c, ops, n, n) <==> IsRecent(ops, n, Cutoff(c, ops[n]));
    }
  }

  /** A later record that was recent all along survives when an earlier one does. */
  lemma {:induction false} LaterSurvives<T>(c: RollingWindow, ops: seq<SampleOp<T>>, i: int, k: int)
    requires Survives(c, ops, i) && i < k && Alive(c, ops, k, |ops| - 1)
    ensures Survives(c, ops, k)
  {
    forall j | k <= j < |ops| ensures Alive(c, ops, k, j) && |AliveAfter(c, ops, k, j)| < c.maxSamples {
      assert Alive(c, ops, i, j);
      FewerAliveAfter(c, ops, i, k, j);
    }
  }

  lemma {:induction false} FewerAliveAfter<T>(c: RollingWindow, ops: seq<SampleOp<T>>, i: int, k: int, j: int)
    requires i <= k
    ensures |AliveAfter(c, ops, k, j)| <= |AliveAfter(c, ops, i, j)|
  {
    hide Alive;
    SubsetSize(AliveAfter(c, ops, k, j), AliveAfter(c, ops, i, j));
  }

  lemma {:induction false} SubsetSize(a: set<int>, b: set<int>)
    requires a <= b
    ensures |a| <= |b|
  {
    assert b == a + (b - a);
  }

  /** The held records that are recent at the last operation, above i, are those recent all along. */
  lemma {:induction false} AboveIsAlive<T>(c: RollingWindow, ops: seq<SampleOp<T>>, kept: seq<int>, i: int)
    requires ops != [] && (i == |ops| - 1 || Survives(c, ops[..|ops| - 1], i))
    requires var n := |ops| - 1; forall k :: k in kept <==>
               IsRecent(ops, k, Cutoff(c, ops[n])) && (k == n || Survives(c, ops[..n], k))
    ensures Above(kept, i) == AliveAfter(c, ops, i, |ops| - 1)
  {
    var n := |ops| - 1;
    forall k | k > i ensures k in kept <==> k <= n && Alive(c, ops, k, n) {
      if k == n {
        assert Alive(c, ops, n, n) <==> IsRecent(ops, n, Cutoff(c, ops[n]));
      } else if k < n {
        AliveOneMore(c, ops, k, n);
        AliveOfPrefix(c, ops, n, k, n - 1);
        if Alive(c, ops, k, n) { LaterSurvives(c, ops[..n], i, k); }
        if Survives(c, ops[..n], k) { assert Alive(c, ops[..n], k, n - 1); }
        hide Alive, Survives;
      } else {
        assert !IsRecent(ops, k, Cutoff(c, ops[n]));
      }
    }
    hide Alive, Survives, IsRecent;
  }

  lemma {:induction false} KeptIs<T>(ops: seq<SampleOp<T>>, at: seq<int>, cutoff: real)
    ensures forall k :: k in KeepAt(ops, at, cutoff) <==> k in at && IsRecent(ops, k, cutoff)
  {
  }

  ghost predicate HoldsSurvivors<T>(c: RollingWindow, ops: seq<SampleOp<T>>) {
    forall i :: i in HeldAt(c, ops) <==> Survives(c, ops, i)
  }

  lemma {:induction false} SurvivorStep<T>(c: RollingWindow, ops: seq<SampleOp<T>>, i: int)
    requires ops != [] && HoldsSurvivors(c, ops[..|ops| - 1])
    ensures i in HeldAt(c, ops) <==> Survives(c, ops, i)
  {
    hide KeepAt, LastN, Survives, PositionsOk, SamplesAt, Held, AliveAfter, IsRecent, Above, HeldAt;
    var n := |ops| - 1;
    var at, cutoff := HeldAt(c, ops[..n]) + RecordHere(ops, n), Cutoff(c, ops[n]);
    var kept := KeepAt(ops, at, cutoff);
    HeldAtRetains(c, ops);
    HeldPositions(c, ops[..n]);
    PositionsOneMore(ops, HeldAt(c, ops[..n]));
    KeepSamplesAt(ops, at, cutoff);
    assert Ascends(kept) by { PositionsAscend(ops, kept); }
    KeptIs(ops, at, cutoff);
    LastNByRank(kept, c.maxSamples, i);
    SurvivesOneMore(c, ops, i);
    assert forall k :: k in at <==> k in HeldAt(c, ops[..n]) || (k == n && IsRecord(ops, n));
    RecentIsRecord(ops, n, cutoff);
    if i == n || Survives(c, ops[..n], i) { AboveIsAlive(c, ops, kept, i); }
  }

  lemma {:induction false} PositionsAscend<T>(ops: seq<SampleOp<T>>, at: seq<int>)
    requires PositionsOk(ops, at)
    ensures Ascends(at)
  {
  }

  lemma {:induction false} RecentIsRecord<T>(ops: seq<SampleOp<T>>, i: int, cutoff: real)
    ensures IsRecent(ops, i, cutoff) ==> IsRecord(ops, i)
  {
  }

  /** The held records are exactly the survivors. */
  lemma {:induction false} HeldAreSurvivors<T>(c: RollingWindow, ops: seq<SampleOp<T>>)
    ensures HoldsSurvivors(c, ops)
  {
    if ops != [] {
      hide HeldAt, Survives;
      HeldAreSurvivors(c, ops[..|ops| - 1]);
      forall i ensures i in HeldAt(c, ops) <==> Survives(c, ops, i) {
        SurvivorStep(c, ops, i);
      }
    } else {
      assert forall i :: !Survives(c, ops, i);
    }
  }

  // ------------------------------------------------- held against batch, exactly

  /** A record that is selected has only selected ones of the recent records above it. */
  lemma {:induction false} SelectedIsUpward<T>(c: RollingWindow, ops: seq<SampleOp<T>>, i: int, k: int)
    requires ops != [] && IsSelected(c, ops, i) && i < k && IsRecent(ops, k, Cutoff(c, ops[|ops| - 1]))
    ensures IsSelected(c, ops, k)
  {
    var cutoff := Cutoff(c, ops[|ops| - 1]);
    SubsetSize(RecentAfter(ops, k, cutoff), RecentAfter(ops, i, cutoff));
  }

  /** Of two records with the same time, the later one survives if the earlier one does. */
  lemma {:induction false} SameTimeSurvives<T>(c: RollingWindow, ops: seq<SampleOp<T>>, i: int, k: int)
    requires Survives(c, ops, i) && i < k && IsRecord(ops, k) && ops[k].sample.timestamp == ops[i].sample.timestamp
    ensures Survives(c, ops, k)
  {
    assert Alive(c, ops, i, |ops| - 1);
    forall m | k <= m <= |ops| - 1 ensures IsRecent(ops, k, Cutoff(c, ops[m])) {
      assert IsRecent(ops, i, Cutoff(c, ops[m]));
    }
    LaterSurvives(c, ops, i, k);
  }

  lemma {:induction false} SurvivorIsRecent<T>(c: RollingWindow, ops: seq<SampleOp<T>>, i: int)
    requires Survives(c, ops, i)
    ensures IsRecent(ops, i, Cutoff(c, ops[|ops| - 1]))
  {
    assert Alive(c, ops, i, |ops| - 1);
  }

  /** Equal samples, held and in the batch, come from the same records. */
  lemma {:induction false} SameSamplesSamePositions<T>(c: RollingWindow, ops: seq<SampleOp<T>>, x: seq<int>, y: seq<int>)
    requires ops != [] && PositionsOk(ops, x) && PositionsOk(ops, y) && SamplesAt(ops, x) == SamplesAt(ops, y)
    requires (forall i :: i in x <==> Survives(c, ops, i)) && (forall i :: i in y <==> IsSelected(c, ops, i))
    ensures x == y
  {
    hide Survives, IsSelected, IsRecent;
    forall p | 0 <= p < |x| ensures (x[p] < y[p] ==> y[p] in x) && (y[p] < x[p] ==> x[p] in y) {
      assert SamplesAt(ops, x)[p] == SamplesAt(ops, y)[p];
      assert x[p] in x && y[p] in y && IsRecord(ops, x[p]) && IsRecord(ops, y[p]);
      if x[p] < y[p] { SameTimeSurvives(c, ops, x[p], y[p]); }
      if y[p] < x[p] {
        SurvivorIsRecent(c, ops, x[p]);
        SelectedIsUpward(c, ops, y[p], x[p]);
      }
    }
    SameFromTheEnd(x, y);
  }

  lemma {:induction false} LastHolds(at: seq<int>, n: int)
    ensures forall p | |at| - |LastN(at, n)| <= p < |at| :: at[p] in LastN(at, n)
  {
    var last := LastN(at, n);
    forall p | |at| - |last| <= p < |at| ensures at[p] in last {
      assert last[p - (|at| - |last|)] == at[p];
    }
  }

  /** Ascending positions that fall off the end of a full list lie below everything kept. */
  lemma {:induction false} DroppedIsBelow(at: seq<int>, n: int, i: int)
    requires Ascends(at) && i in at && i !in LastN(at, n) && n >= 1
    ensures |LastN(at, n)| == n && forall k <- LastN(at, n) :: i < k
  {
    var last := LastN(at, n);
    var d := |at| - |last|;
    assert last == at[d..];
    var p :| 0 <= p < |at| && at[p] == i;
    LastHolds(at, n);
    forall k <- last ensures i < k {
      var q :| 0 <= q < |last| && last[q] == k;
      assert at[d + q] == k;
    }
  }

  /** If all selected records survive, every survivor is selected: the batch leaves no room for another. */
  lemma {:induction false} SurvivorIsSelected<T>(c: RollingWindow, ops: seq<SampleOp<T>>, i: int)
    requires ops != [] && Survives(c, ops, i) && forall k | IsSelected(c, ops, k) :: Survives(c, ops, k)
    ensures i in BatchAt(c, ops)
  {
    var n := |ops| - 1;
    var kept := KeepAt(ops, RecordsAt(ops, |ops|), Cutoff(c, ops[n]));
    var batch := BatchAt(c, ops);
    SurvivorIsRecent(c, ops, i);
    AllRecords(ops);
    KeptIs(ops, RecordsAt(ops, |ops|), Cutoff(c, ops[n]));
    KeepSamplesAt(ops, RecordsAt(ops, |ops|), Cutoff(c, ops[n]));
    BatchPositions(c, ops);
    assert Alive(c, ops, i, n) && |AliveAfter(c, ops, i, n)| < c.maxSamples;
    hide KeepAt, LastN, RecordsAt, History, SamplesAt, RetainAll, IsSelected;
    if i !in batch {
      DroppedIsBelow(kept, c.maxSamples, i);
      forall k <- batch ensures k in AliveAfter(c, ops, i, n) { assert Survives(c, ops, k) && Alive(c, ops, k, n); }
      AscendingSize(batch);
      SubsetSize((set k | k in batch), AliveAfter(c, ops, i, n));
      assert false;
    }
  }

  /**
   * Whatever the clock does, the held samples are the batch result exactly when every record
   * that the batch would select was recent, and among the last maxSamples of those recent all
   * along, at each operation since it was recorded. Only times of operations enter this.
   */
  lemma {:induction false} HeldIsBatchExactlyWhen<T>(c: RollingWindow, ops: seq<SampleOp<T>>)
    requires ops != []
    ensures Held(c, ops) == RetainAll(History(ops), TimeOf(ops[|ops| - 1]), c) <==>
            forall i | IsSelected(c, ops, i) :: Survives(c, ops, i)
  {
    hide Survives, IsSelected, SamplesAt, RetainAll, Held, History, HeldAt, BatchAt;
    HeldPositions(c, ops);
    HeldAreSurvivors(c, ops);
    BatchPositions(c, ops);
    if Held(c, ops) == RetainAll(History(ops), TimeOf(ops[|ops| - 1]), c) {
      SameSamplesSamePositions(c, ops, HeldAt(c, ops), BatchAt(c, ops));
    }
    if forall i | IsSelected(c, ops, i) :: Survives(c, ops, i) {
      forall i | Survives(c, ops, i) ensures i in BatchAt(c, ops) { SurvivorIsSelected(c, ops, i); }
      SameMembers(HeldAt(c, ops), BatchAt(c, ops));
    }
  }

  // ------------------------------------------------------ when the cap is not reached

  /** Each recorded sample that the last cutoff admits was admitted by every cutoff since. */
  predicate NeverTooEarly<T>(c: RollingWindow, ops: seq<SampleOp<T>>)
    requires ops != []
  {
    forall i, j | 0 <= i <= j < |ops| && ops[i].Record? ::
      ops[i].sample.timestamp >= Cutoff(c, ops[|ops| - 1]) ==> ops[i].sample.timestamp >= Cutoff(c, ops[j])
  }

  lemma {:induction false} FewRecords<T>(c: RollingWindow, ops: seq<SampleOp<T>>, i: int, positions: set<int>)
    requires |History(ops)| <= c.maxSamples && IsRecord(ops, i)
    requires forall k <- positions :: i < k && IsRecord(ops, k)
    ensures |positions| < c.maxSamples
  {
    AllRecords(ops);
    var at := RecordsAt(ops, |ops|);
    AscendingSize(at);
    forall k <- positions + {i} ensures k in at { assert IsRecord(ops, k); }
    SubsetSize(positions + {i}, (set k | k in at));
    hide RecordsAt, History, SamplesAt;
  }

  /** With at most maxSamples records, held is batch exactly when no cutoff was too early for a sample still wanted. */
  lemma {:induction false} UncappedHeldIsBatchExactlyWhen<T>(c: RollingWindow, ops: seq<SampleOp<T>>)
    requires ops != [] && |History(ops)| <= c.maxSamples
    ensures Held(c, ops) == RetainAll(History(ops), TimeOf(ops[|ops| - 1]), c) <==> NeverTooEarly(c, ops)
  {
    hide Held, RetainAll, History;
    HeldIsBatchExactlyWhen(c, ops);
    forall i ensures IsSelected(c, ops, i) <==> IsRecent(ops, i, Cutoff(c, ops[|ops| - 1])) {
      if IsRecord(ops, i) { FewRecords(c, ops, i, RecentAfter(ops, i, Cutoff(c, ops[|ops| - 1]))); }
    }
    forall i | IsRecord(ops, i)
      ensures Survives(c, ops, i) <==> forall j | i <= j < |ops| :: ops[i].sample.timestamp >= Cutoff(c, ops[j]) {
      UncappedSurvives(c, ops, i);
    }
    hide Survives, IsSelected;
  }

  lemma {:induction false} UncappedSurvives<T>(c: RollingWindow, ops: seq<SampleOp<T>>, i: int)
    requires |History(ops)| <= c.maxSamples && IsRecord(ops, i)
    ensures Survives(c, ops, i) <==> forall j | i <= j < |ops| :: ops[i].sample.timestamp >= Cutoff(c, ops[j])
  {
    hide History;
    if forall j | i <= j < |ops| :: ops[i].sample.timestamp >= Cutoff(c, ops[j]) {
      forall j | i <= j < |ops| ensures Alive(c, ops, i, j) && |AliveAfter(c, ops, i, j)| < c.maxSamples {
        FewRecords(c, ops, i, AliveAfter(c, ops, i, j));
      }
    }
    if Survives(c, ops, i) { assert Alive(c, ops, i, |ops| - 1); }
  }
}
