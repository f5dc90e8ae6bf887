/**
 * The sliding-window rate limiter: the windows it keeps while pruning as it goes, and the
 * full history of admissions they stand for.
 */
module RateLimiting {
  import opened Common

  datatype Config = Config(windowMs: real, maxRequests: int)

  datatype Decision = Decision(allowed: bool, remaining: int, resetAt: real, retryAfterMs: Option<real>)

  type Windows = map<string, seq<real>>

  // --------------------------------------------------------- what a call does

  /** The timestamps strictly after `start`. */
  function Active(ts: seq<real>, start: real): seq<real> {
    if ts == [] then []
    else if ts[0] > start then [ts[0]] + Active(ts[1..], start)
    else Active(ts[1..], start)
  }

  function Stored(w: Windows, key: string): seq<real> {
    if key in w then w[key] else []
  }

  function ActiveAt(c: Config, w: Windows, key: string, now: real): seq<real> {
    Active(Stored(w, key), now - c.windowMs)
  }

  predicate Admits(c: Config, w: Windows, key: string, now: real) {
    |ActiveAt(c, w, key, now)| < c.maxRequests
  }

  function Max(a: real, b: real): real { if a >= b then a else b }

  function Checked(c: Config, w: Windows, key: string, now: real): Windows {
    var active := ActiveAt(c, w, key, now);
    w[key := if Admits(c, w, key, now) then active + [now] else active]
  }

  function FirstOr(ts: seq<real>, default: real): real { if ts == [] then default else ts[0] }

  function Denied(resetAt: real, now: real): Decision {
    Decision(false, 0, resetAt, Some(Max(0.0, resetAt - now)))
  }

  function CheckDecision(c: Config, w: Windows, key: string, now: real): Decision {
    var active := ActiveAt(c, w, key, now);
    if !Admits(c, w, key, now) then Denied(FirstOr(active, now) + c.windowMs, now)
    else
      var admitted := active + [now];
      Decision(true, if c.maxRequests >= |admitted| then c.maxRequests - |admitted| else 0,
               FirstOr(admitted, now) + c.windowMs, None)
  }

  function PeekDecision(c: Config, w: Windows, key: string, now: real): Decision {
    var active := ActiveAt(c, w, key, now);
    var resetAt := FirstOr(active, now) + c.windowMs;
    if |active| >= c.maxRequests then Denied(resetAt, now)
    else Decision(true, if c.maxRequests >= |active| then c.maxRequests - |active| else 0, resetAt, None)
  }

  function Pruned(c: Config, w: Windows, now: real): Windows {
    map key | key in w && Active(w[key], now - c.windowMs) != [] :: Active(w[key], now - c.windowMs)
  }

  // --------------------------------------------------------------------- runs

  datatype Op = Check(key: string, now: real) | Peek(key: string, now: real) | Prune(now: real) | Reset(key: string) | ResetAll

  predicate Timed(op: Op) { op.Check? || op.Peek? || op.Prune? }

  function Apply(c: Config, w: Windows, op: Op): Windows {
    match op
    case Check(key, now) => Checked(c, w, key, now)
    case Peek(_, _) => w
    case Prune(now) => Pruned(c, w, now)
    case Reset(key) => w - {key}
    case ResetAll => map[]
  }

  function After(c: Config, ops: seq<Op>): Windows {
    if ops == [] then map[] else Apply(c, After(c, ops[..|ops| - 1]), ops[|ops| - 1])
  }

  /** No operation of the run happened after `now`. */
  predicate NotAfter(ops: seq<Op>, now: real) {
    forall op <- ops :: Timed(op) ==> op.now <= now
  }

  /** The clock never goes back during the run. */
  predicate Monotone(ops: seq<Op>) {
    ops == [] ||
    (Monotone(ops[..|ops| - 1]) && (Timed(ops[|ops| - 1]) ==> NotAfter(ops[..|ops| - 1], ops[|ops| - 1].now)))
  }

  /** The full history: every admitted time of the key since its last reset. */
  function Admitted(c: Config, ops: seq<Op>, key: string): seq<real> {
    if ops == [] then []
    else
      var before, op := ops[..|ops| - 1], ops[|ops| - 1];
      if op == Reset(key) || op == ResetAll then []
      else if op.Check? && op.key == key && Admits(c, After(c, before), key, op.now)
      then Admitted(c, before, key) + [op.now]
      else Admitted(c, before, key)
  }

  // -------------------------------------------------------- filtering by time

  lemma {:induction false} ActiveAppend(a: seq<real>, b: seq<real>, start: real)
    ensures Active(a + b, start) == Active(a, start) + Active(b, start)
  {
    if a == [] {
      assert a + b == b;
    } else {
      assert (a + b)[1..] == a[1..] + b;
      ActiveAppend(a[1..], b, start);
    }
  }

  /** Dropping old timestamps first does not change what is active later. */
  lemma {:induction false} ActiveTwice(ts: seq<real>, early: real, late: real)
    requires early <= late
    ensures Active(Active(ts, early), late) == Active(ts, late)
  {
    if ts != [] {
      ActiveTwice(ts[1..], early, late);
      if ts[0] > early { assert Active(ts, early)[1..] == Active(ts[1..], early); }
    }
  }

  ghost predicate Sorted(ts: seq<real>) {
    forall i, j :: 0 <= i < j < |ts| ==> ts[i] <= ts[j]
  }

  lemma {:induction false} ActiveAll(ts: seq<real>, start: real)
    requires forall i :: 0 <= i < |ts| ==> ts[i] > start
    ensures Active(ts, start) == ts
  {
    if ts != [] {
      ActiveAll(ts[1..], start);
    }
  }

  /** On a sorted list, the active timestamps are the suffix after `start`. */
  lemma {:induction false} ActiveIsSuffix(ts: seq<real>, start: real)
    requires Sorted(ts)
    ensures |Active(ts, start)| <= |ts|
    ensures Active(ts, start) == ts[|ts| - |Active(ts, start)|..]
    ensures forall i :: 0 <= i < |ts| ==> (ts[i] > start <==> i >= |ts| - |Active(ts, start)|)
  {
    if ts == [] {
    } else if ts[0] > start {
      ActiveAll(ts, start);
    } else {
      var rest := ts[1..];
      ActiveIsSuffix(rest, start);
      var k := |rest| - |Active(rest, start)|;
      assert rest[k..] == ts[k + 1..];
      forall i | 1 <= i < |ts| ensures ts[i] > start <==> i >= k + 1 {
        assert rest[i - 1] == ts[i];
      }
    }
  }

  // ---------------------------------------- the windows refine the full history

  /** A check keeps the stored and the admitted times of its key alike from its own time on. */
  lemma CheckKeepsMatch(c: Config, w: Windows, history: seq<real>, key: string, t: real, now: real)
    requires c.windowMs > 0.0 && t <= now
    requires ActiveAt(c, w, key, now) == Active(history, now - c.windowMs)
    ensures ActiveAt(c, Checked(c, w, key, t), key, now) ==
            Active(if Admits(c, w, key, t) then history + [t] else history, now - c.windowMs)
  {
    ActiveTwice(Stored(w, key), t - c.windowMs, now - c.windowMs);
    ActiveAppend(ActiveAt(c, w, key, t), [t], now - c.windowMs);
    ActiveAppend(history, [t], now - c.windowMs);
  }

  /** One operation keeps the stored and the admitted times alike from its own time on. */
  lemma StepKeepsMatch(c: Config, w: Windows, op: Op, history: seq<real>, key: string, now: real)
    requires c.windowMs > 0.0 && (Timed(op) ==> op.now <= now)
    requires ActiveAt(c, w, key, now) == Active(history, now - c.windowMs)
    ensures ActiveAt(c, Apply(c, w, op), key, now) ==
            Active(if op == Reset(key) || op == ResetAll then []
                   else if op.Check? && op.key == key && Admits(c, w, key, op.now) then history + [op.now] else history,
                   now - c.windowMs)
  {
    match op {
      case Check(k, t) => if k == key { CheckKeepsMatch(c, w, history, key, t, now); hide Active; }
      case Prune(t) => ActiveTwice(Stored(w, key), t - c.windowMs, now - c.windowMs);
      case _ =>
    }
  }

  /** What is active among the stored times is what is active among all admitted times. */
  lemma {:induction false} StoredMatchesAdmitted(c: Config, ops: seq<Op>, key: string, now: real)
    requires c.windowMs > 0.0 && Monotone(ops) && NotAfter(ops, now)
    ensures ActiveAt(c, After(c, ops), key, now) == Active(Admitted(c, ops, key), now - c.windowMs)
  {
    if ops != [] {
      var before, op := ops[..|ops| - 1], ops[|ops| - 1];
      StoredMatchesAdmitted(c, before, key, now);
      StepKeepsMatch(c, After(c, before), op, Admitted(c, before, key), key, now);
      hide Apply, Active, Admits, ActiveAt;
    }
  }

  /** Right after a check, a key's stored times are exactly its admitted times in (now - windowMs, now]. */
  lemma CheckStoresAdmitted(c: Config, ops: seq<Op>, key: string, now: real)
    requires c.windowMs > 0.0 && Monotone(ops + [Check(key, now)])
    ensures Stored(After(c, ops + [Check(key, now)]), key) ==
            Active(Admitted(c, ops + [Check(key, now)], key), now - c.windowMs)
    ensures forall t <- Admitted(c, ops + [Check(key, now)], key) :: t <= now
  {
    var run := ops + [Check(key, now)];
    assert run[..|ops|] == ops;
    StoredMatchesAdmitted(c, ops, key, now);
    AdmittedSorted(c, run, key);
    ActiveAppend(Admitted(c, ops, key), [now], now - c.windowMs);
    assert NotAfter(run, now);
    AdmittedNotAfter(c, run, key, now);
  }

  lemma {:induction false} AdmittedNotAfter(c: Config, ops: seq<Op>, key: string, now: real)
    requires NotAfter(ops, now)
    ensures forall t <- Admitted(c, ops, key) :: t <= now
  {
    if ops != [] {
      AdmittedNotAfter(c, ops[..|ops| - 1], key, now);
    }
  }

  lemma {:induction false} AdmittedSorted(c: Config, ops: seq<Op>, key: string)
    requires Monotone(ops)
    ensures Sorted(Admitted(c, ops, key))
  {
    if ops != [] {
      var before, op := ops[..|ops| - 1], ops[|ops| - 1];
      AdmittedSorted(c, before, key);
      var history := Admitted(c, before, key);
      if op.Check? {
        AdmittedNotAfter(c, before, key, op.now);
        forall i | 0 <= i < |history| ensures history[i] <= op.now { assert history[i] in history; }
      }
    }
  }

  /** Any maxRequests + 1 consecutive admissions span at least windowMs. */
  lemma {:induction false} AdmissionsSpaced(c: Config, ops: seq<Op>, key: string, i: int)
    requires c.windowMs > 0.0 && c.maxRequests > 0 && Monotone(ops)
    requires 0 <= i && i + c.maxRequests < |Admitted(c, ops, key)|
    ensures Admitted(c, ops, key)[i + c.maxRequests] - Admitted(c, ops, key)[i] >= c.windowMs
  {
    var before, op := ops[..|ops| - 1], ops[|ops| - 1];
    var history := Admitted(c, before, key);
    if i + c.maxRequests < |history| {
      AdmissionsSpaced(c, before, key, i);
    } else {
      StoredMatchesAdmitted(c, before, key, op.now);
      AdmittedSorted(c, before, key);
      ActiveIsSuffix(history, op.now - c.windowMs);
    }
  }

  ghost predicate Spaced(ts: seq<real>, width: real, most: int)
    requires most > 0
  {
    forall i, j :: 0 <= i < j < |ts| && j == i + most ==> ts[j] - ts[i] >= width
  }

  /** A span of a sorted, spaced history shorter than windowMs holds at most maxRequests admissions. */
  lemma {:induction false} ShortSpanHoldsFew(ts: seq<real>, inside: real -> bool, width: real, most: int)
    requires most > 0 && Sorted(ts) && Spaced(ts, width, most)
    requires forall a, b :: inside(a) && inside(b) ==> b - a < width
    ensures |Filter(ts, inside)| <= most
  {
    hide Sorted, Spaced, Filter;
    var n := |ts|;
    if n > most {
      if inside(ts[n - 1]) {
        EarlyAllOutside(ts, inside, width, most);
        FilterAppend(ts[..n - most], ts[n - most..], inside);
        assert ts == ts[..n - most] + ts[n - most..];
      } else {
        PrefixSpaced(ts, width, most);
        ShortSpanHoldsFew(ts[..n - 1], inside, width, most);
        FilterAppend(ts[..n - 1], [ts[n - 1]], inside);
        FilterNone([ts[n - 1]], inside);
        assert ts == ts[..n - 1] + [ts[n - 1]];
      }
    }
  }

  lemma PrefixSpaced(ts: seq<real>, width: real, most: int)
    requires most > 0 && ts != [] && Sorted(ts) && Spaced(ts, width, most)
    ensures Sorted(ts[..|ts| - 1]) && Spaced(ts[..|ts| - 1], width, most)
  {
  }

  lemma EarlyAllOutside(ts: seq<real>, inside: real -> bool, width: real, most: int)
    requires 0 < most < |ts| && Sorted(ts) && Spaced(ts, width, most)
    requires forall a, b :: inside(a) && inside(b) ==> b - a < width
    requires inside(ts[|ts| - 1])
    ensures Filter(ts[..|ts| - most], inside) == []
  {
    forall t | t in ts[..|ts| - most] ensures !inside(t) { EarlyIsOutside(ts, t, inside, width, most); }
    FilterNone(ts[..|ts| - most], inside);
  }

  lemma EarlyIsOutside(ts: seq<real>, t: real, inside: real -> bool, width: real, most: int)
    requires 0 < most < |ts| && Sorted(ts) && Spaced(ts, width, most)
    requires forall a, b :: inside(a) && inside(b) ==> b - a < width
    requires inside(ts[|ts| - 1]) && t in ts[..|ts| - most]
    ensures !inside(t)
  {
    var i :| 0 <= i < |ts| - most && ts[..|ts| - most][i] == t;
    var k := |ts| - 1 - most;
    assert ts[|ts| - 1] - ts[k] >= width;
    assert i == k || ts[i] <= ts[k];
  }

  /** Every half-open window of length windowMs, wherever placed, holds at most maxRequests admissions. */
  lemma WindowBound(c: Config, ops: seq<Op>, key: string, x: real)
    requires c.windowMs > 0.0 && c.maxRequests > 0 && Monotone(ops)
    ensures |Filter(Admitted(c, ops, key), t => x < t <= x + c.windowMs)| <= c.maxRequests
    ensures |Filter(Admitted(c, ops, key), t => x <= t < x + c.windowMs)| <= c.maxRequests
  {
    var history := Admitted(c, ops, key);
    AdmittedSorted(c, ops, key);
    forall i, j | 0 <= i < j < |history| && j == i + c.maxRequests ensures history[j] - history[i] >= c.windowMs {
      AdmissionsSpaced(c, ops, key, i);
    }
    ShortSpanHoldsFew(history, t => x < t <= x + c.windowMs, c.windowMs, c.maxRequests);
    ShortSpanHoldsFew(history, t => x <= t < x + c.windowMs, c.windowMs, c.maxRequests);
  }

  /** The admitted times of the key that are still in the window that ends at `now`. */
  function Recent(c: Config, ops: seq<Op>, key: string, now: real): seq<real> {
    Filter(Admitted(c, ops, key), t => t > now - c.windowMs)
  }

  lemma {:induction false} ActiveIsFilter(ts: seq<real>, start: real)
    ensures Active(ts, start) == Filter(ts, t => t > start)
  {
    if ts != [] { ActiveIsFilter(ts[1..], start); }
  }

  /**
   * What a check reports, in terms of the whole history: it admits while fewer than maxRequests
   * admissions are in the window, says how many more it would admit, and resets when the oldest
   * of them leaves the window; a denial says how long that takes.
   */
  lemma CheckReportsHistory(c: Config, ops: seq<Op>, key: string, now: real)
    requires c.windowMs > 0.0 && Monotone(ops) && NotAfter(ops, now)
    ensures var recent := Recent(c, ops, key, now); var d := CheckDecision(c, After(c, ops), key, now);
            && (d.allowed <==> |recent| < c.maxRequests)
            && d.remaining == (if d.allowed then c.maxRequests - |recent| - 1 else 0)
            && d.resetAt == (if recent == [] then now else recent[0]) + c.windowMs
            && (d.retryAfterMs.None? <==> d.allowed)
            && (!d.allowed && c.maxRequests > 0 ==> d.retryAfterMs.value == recent[0] + c.windowMs - now)
  {
    hide After, Admitted;
    StoredMatchesAdmitted(c, ops, key, now);
    ActiveIsFilter(Admitted(c, ops, key), now - c.windowMs);
    var recent := Recent(c, ops, key, now);
    if recent != [] { assert recent[0] in recent && recent[0] > now - c.windowMs; }
    hide Active, Filter, Recent;
  }

  /** Right after a prune the buckets are those with admissions in the window, and hold exactly these. */
  lemma PruneStoresRecent(c: Config, ops: seq<Op>, key: string, now: real)
    requires c.windowMs > 0.0 && Monotone(ops) && NotAfter(ops, now)
    ensures Stored(After(c, ops + [Prune(now)]), key) == Recent(c, ops, key, now)
    ensures key in After(c, ops + [Prune(now)]) <==> Recent(c, ops, key, now) != []
  {
    var run := ops + [Prune(now)];
    assert run[..|ops|] == ops;
    StoredMatchesAdmitted(c, ops, key, now);
    ActiveIsFilter(Admitted(c, ops, key), now - c.windowMs);
    hide Admitted, Filter;
  }

  // ------------------------------------------------------------- exact denials

  /** At a denial exactly maxRequests admitted times are active. */
  lemma DenialIsFull(c: Config, ops: seq<Op>, key: string, now: real)
    requires c.windowMs > 0.0 && c.maxRequests > 0 && Monotone(ops) && NotAfter(ops, now)
    requires !Admits(c, After(c, ops), key, now)
    ensures |ActiveAt(c, After(c, ops), key, now)| == c.maxRequests
  {
    var history := Admitted(c, ops, key);
    StoredMatchesAdmitted(c, ops, key, now);
    AdmittedSorted(c, ops, key);
    AdmittedNotAfter(c, ops, key, now);
    ActiveIsSuffix(history, now - c.windowMs);
    var k := |history| - |Active(history, now - c.windowMs)|;
    if |history| - k > c.maxRequests {
      assert history[k + c.maxRequests] in history;
      AdmissionsSpaced(c, ops, key, k);
    }
  }

  /** The run never resets the key and checks it only before `until`. */
  predicate KeepsTrying(ops: seq<Op>, key: string, until: real) {
    forall op <- ops :: op != Reset(key) && op != ResetAll && (op.Check? && op.key == key ==> op.now < until)
  }

  /** While a full window has not reached its reset time, no check of the key is admitted. */
  lemma {:induction false} NothingAdmittedBefore(c: Config, ops: seq<Op>, more: seq<Op>, key: string, now: real)
    requires c.windowMs > 0.0 && c.maxRequests > 0 && Monotone(ops) && NotAfter(ops, now) && Monotone(ops + more)
    requires !Admits(c, After(c, ops), key, now)
    requires forall op <- more :: Timed(op) ==> now <= op.now
    requires KeepsTrying(more, key, CheckDecision(c, After(c, ops), key, now).resetAt)
    ensures Admitted(c, ops + more, key) == Admitted(c, ops, key)
  {
    if more == [] {
      assert ops + more == ops;
    } else {
      var prefix, op := more[..|more| - 1], more[|more| - 1];
      assert (ops + more)[..|ops + more| - 1] == ops + prefix;
      NothingAdmittedBefore(c, ops, prefix, key, now);
      if op.Check? && op.key == key {
        MonotonePrefix(ops + prefix, [op]);
        assert ops + prefix + [op] == ops + more;
        StillFull(c, ops, prefix, key, now, op.now);
      }
      hide After, Active, CheckDecision, Monotone, Admits;
    }
  }

  lemma StillFull(c: Config, ops: seq<Op>, prefix: seq<Op>, key: string, now: real, later: real)
    requires c.windowMs > 0.0 && c.maxRequests > 0 && Monotone(ops) && NotAfter(ops, now) && now <= later
    requires !Admits(c, After(c, ops), key, now) && later < CheckDecision(c, After(c, ops), key, now).resetAt
    requires Monotone(ops + prefix) && NotAfter(ops + prefix, later)
    requires Admitted(c, ops + prefix, key) == Admitted(c, ops, key)
    ensures !Admits(c, After(c, ops + prefix), key, later)
  {
    StoredMatchesAdmitted(c, ops + prefix, key, later);
    FullUntilReset(c, ops, key, now, later);
    hide After, Active, CheckDecision, Monotone;
  }

  /** A window that is full at `now` is full until its oldest time expires, and not after. */
  lemma FullUntilReset(c: Config, ops: seq<Op>, key: string, now: real, later: real)
    requires c.windowMs > 0.0 && c.maxRequests > 0 && Monotone(ops) && NotAfter(ops, now) && now <= later
    requires !Admits(c, After(c, ops), key, now)
    ensures |Active(Admitted(c, ops, key), later - c.windowMs)| >= c.maxRequests <==>
            later < CheckDecision(c, After(c, ops), key, now).resetAt
    ensures now < CheckDecision(c, After(c, ops), key, now).resetAt
  {
    var history := Admitted(c, ops, key);
    DenialIsFull(c, ops, key, now);
    StoredMatchesAdmitted(c, ops, key, now);
    AdmittedSorted(c, ops, key);
    ActiveIsSuffix(history, now - c.windowMs);
    ActiveIsSuffix(history, later - c.windowMs);
    var oldest := |history| - c.maxRequests;
    assert Active(history, now - c.windowMs)[0] == history[oldest];
    assert history[oldest] > later - c.windowMs <==> |Active(history, later - c.windowMs)| >= c.maxRequests;
  }

  /**
   * Denials are exact. After a denial at `now` with retryAfterMs = d, a later check of the
   * key is denied before now + d and admitted from now + d on, whatever checks of any key,
   * peeks and prunes happened in between, as long as the key was not reset and this is its
   * first check from now + d on.
   */
  lemma DenialsAreExact(c: Config, ops: seq<Op>, key: string, now: real, more: seq<Op>, later: real)
    requires c.windowMs > 0.0 && c.maxRequests > 0
    requires Monotone(ops + [Check(key, now)] + more + [Check(key, later)])
    requires var d := CheckDecision(c, After(c, ops), key, now);
             !d.allowed && KeepsTrying(more, key, now + d.retryAfterMs.value)
    ensures var d := CheckDecision(c, After(c, ops), key, now).retryAfterMs.value;
            && d > 0.0
            && (Admits(c, After(c, ops + [Check(key, now)] + more), key, later) <==> later >= now + d)
  {
    hide Active, After, Admitted;
    var denied := ops + [Check(key, now)];
    var run := denied + more;
    assert (run + [Check(key, later)])[..|run|] == run;
    assert denied[..|ops|] == ops;
    MonotonePrefix(denied, more);
    SuffixNotBefore(ops, now, Check(key, now), more);
    assert (run + [Check(key, later)])[|ops|] == Check(key, now);
    assert Check(key, now) in run;
    FullUntilReset(c, ops, key, now, later);
    var tail := [Check(key, now)] + more;
    assert run == ops + tail;
    assert tail[0] == Check(key, now) && forall op <- tail :: op == Check(key, now) || op in more;
    NothingAdmittedBefore(c, ops, tail, key, now);
    StoredMatchesAdmitted(c, run, key, later);
  }

  lemma {:induction false} MonotonePrefix(ops: seq<Op>, more: seq<Op>)
    requires Monotone(ops + more)
    ensures Monotone(ops)
  {
    if more == [] {
      assert ops + more == ops;
    } else {
      assert (ops + more)[..|ops + more| - 1] == ops + more[..|more| - 1];
      MonotonePrefix(ops, more[..|more| - 1]);
    }
  }

  lemma {:induction false} SuffixNotBefore(ops: seq<Op>, now: real, op: Op, more: seq<Op>)
    requires Timed(op) && op.now == now && Monotone(ops + [op] + more)
    ensures forall o <- more :: Timed(o) ==> now <= o.now
  {
    if more != [] {
      var run := ops + [op] + more;
      assert run[..|run| - 1] == ops + [op] + more[..|more| - 1];
      SuffixNotBefore(ops, now, op, more[..|more| - 1]);
      assert op in run[..|run| - 1] by { assert run[..|run| - 1][|ops|] == op; }
    }
  }

  // ------------------------------------------------- peeking and pruning change nothing

  /** Peek gives check's verdict and reset time, with one more remaining when allowed. */
  lemma PeekAgrees(c: Config, w: Windows, key: string, now: real)
    ensures var peek, check := PeekDecision(c, w, key, now), CheckDecision(c, w, key, now);
            && peek.allowed == check.allowed && peek.resetAt == check.resetAt
            && peek.retryAfterMs == check.retryAfterMs
            && peek.remaining == if check.allowed then check.remaining + 1 else check.remaining
  {
  }

  function Erase(ops: seq<Op>): seq<Op> {
    if ops == [] then []
    else
      var op := ops[|ops| - 1];
      if op.Peek? || op.Prune? then Erase(ops[..|ops| - 1]) else Erase(ops[..|ops| - 1]) + [op]
  }

  /** The decisions of the run's checks, in order. */
  function Decisions(c: Config, ops: seq<Op>): seq<Decision> {
    if ops == [] then []
    else
      var before, op := ops[..|ops| - 1], ops[|ops| - 1];
      if op.Check? then Decisions(c, before) + [CheckDecision(c, After(c, before), op.key, op.now)] else Decisions(c, before)
  }

  lemma {:induction false} EraseKeepsTime(ops: seq<Op>)
    requires Monotone(ops)
    ensures Monotone(Erase(ops)) && forall op <- Erase(ops) :: op in ops
  {
    if ops != [] {
      EraseKeepsTime(ops[..|ops| - 1]);
      var erased := Erase(ops[..|ops| - 1]);
      assert (erased + [ops[|ops| - 1]])[..|erased|] == erased;
    }
  }

  lemma {:induction false} EraseKeepsAdmitted(c: Config, ops: seq<Op>, key: string)
    requires c.windowMs > 0.0 && Monotone(ops)
    ensures Admitted(c, Erase(ops), key) == Admitted(c, ops, key)
  {
    if ops != [] {
      var before, op := ops[..|ops| - 1], ops[|ops| - 1];
      EraseKeepsAdmitted(c, before, key);
      assert (Erase(before) + [op])[..|Erase(before)|] == Erase(before);
      if op.Check? && op.key == key { SameVerdict(c, before, key, op.now); }
      hide Admits, After, Monotone, NotAfter;
    }
  }

  lemma SameVerdict(c: Config, ops: seq<Op>, key: string, now: real)
    requires c.windowMs > 0.0 && Monotone(ops) && NotAfter(ops, now)
    requires Admitted(c, Erase(ops), key) == Admitted(c, ops, key)
    ensures Admits(c, After(c, Erase(ops)), key, now) == Admits(c, After(c, ops), key, now)
  {
    EraseKeepsTime(ops);
    StoredMatchesAdmitted(c, ops, key, now);
    StoredMatchesAdmitted(c, Erase(ops), key, now);
  }

  /** A check decides the same after a run as after the run without its prunes and peeks. */
  lemma SameDecision(c: Config, ops: seq<Op>, key: string, now: real)
    requires c.windowMs > 0.0 && Monotone(ops) && NotAfter(ops, now)
    ensures CheckDecision(c, After(c, Erase(ops)), key, now) == CheckDecision(c, After(c, ops), key, now)
  {
    EraseKeepsTime(ops);
    EraseKeepsAdmitted(c, ops, key);
    StoredMatchesAdmitted(c, ops, key, now);
    StoredMatchesAdmitted(c, Erase(ops), key, now);
    DecisionNeedsActive(c, After(c, ops), After(c, Erase(ops)), key, now);
  }

  /** Inserting prunes and peeks anywhere in a run changes no later decision. */
  lemma {:induction false} PrunesAndPeeksAreInvisible(c: Config, ops: seq<Op>)
    requires c.windowMs > 0.0 && Monotone(ops)
    ensures Decisions(c, Erase(ops)) == Decisions(c, ops)
  {
    if ops != [] {
      var before, op := ops[..|ops| - 1], ops[|ops| - 1];
      PrunesAndPeeksAreInvisible(c, before);
      assert (Erase(before) + [op])[..|Erase(before)|] == Erase(before);
      if op.Check? { SameDecision(c, before, op.key, op.now); }
      hide CheckDecision, After, Monotone, NotAfter;
    }
  }

  lemma DecisionNeedsActive(c: Config, w: Windows, v: Windows, key: string, now: real)
    requires ActiveAt(c, w, key, now) == ActiveAt(c, v, key, now)
    ensures CheckDecision(c, w, key, now) == CheckDecision(c, v, key, now)
  {
  }

  // ---------------------------------------------------------------- bucket keys

  datatype Key = Key(space: string, identifier: string)

  function FormatKey(key: Key): string { key.space + ":" + key.identifier }

  /** The namespace of b spells a namespace of a, a colon and part of a's identifier. */
  ghost predicate Straddles(a: Key, b: Key) {
    exists part: string :: b.space == a.space + ":" + part && a.identifier == part + ":" + b.identifier
  }

  /** Two keys share a bucket exactly when they are equal or one namespace reaches past a colon of the other key. */
  lemma KeysShareBucket(a: Key, b: Key)
    ensures FormatKey(a) == FormatKey(b) <==> a == b || Straddles(a, b) || Straddles(b, a)
  {
    if FormatKey(a) == FormatKey(b) {
      if |a.space| < |b.space| {
        SharedBucketStraddles(a, b);
      } else if |b.space| < |a.space| {
        SharedBucketStraddles(b, a);
      } else {
        assert a.space == FormatKey(a)[..|a.space|] == b.space;
        assert a.identifier == FormatKey(a)[|a.space| + 1..] == b.identifier;
      }
    }
    if Straddles(a, b) { StraddlersShareBucket(a, b); }
    if Straddles(b, a) { StraddlersShareBucket(b, a); }
  }

  lemma SharedBucketStraddles(a: Key, b: Key)
    requires FormatKey(a) == FormatKey(b) && |a.space| < |b.space|
    ensures Straddles(a, b)
  {
    var text := FormatKey(a);
    var part := b.space[|a.space| + 1..];
    assert a.space == text[..|a.space|] == FormatKey(b)[..|a.space|] == b.space[..|a.space|];
    assert text[|a.space|] == ':' && FormatKey(b)[|a.space|] == b.space[|a.space|];
    assert b.space == a.space + ":" + part;
    assert a.identifier == text[|a.space| + 1..];
    assert FormatKey(b)[|a.space| + 1..] == part + ":" + b.identifier;
  }

  lemma StraddlersShareBucket(a: Key, b: Key)
    requires Straddles(a, b)
    ensures FormatKey(a) == FormatKey(b)
  {
    var part: string :| b.space == a.space + ":" + part && a.identifier == part + ":" + b.identifier;
    assert FormatKey(a) == a.space + ":" + part + ":" + b.identifier;
  }
}

/** The limiter objects: one window map each, and a registry that routes by namespace. */
module RateLimiters {
  import opened Common
  import opened RateLimiting

  /** The windows while pruning: the buckets in `rest` are still to be visited. */
  function PrunedExcept(before: Windows, rest: set<string>, start: real): Windows {
    map k | k in before && (k in rest || Active(before[k], start) != []) ::
      if k in rest then before[k] else Active(before[k], start)
  }

  lemma VisitBucket(before: Windows, rest: set<string>, key: string, start: real)
    requires key in rest && key in before
    ensures var w, next, active := PrunedExcept(before, rest, start), PrunedExcept(before, rest - {key}, start), Active(before[key], start);
            && key in w && w[key] == before[key]
            && next == (if active == [] then w - {key} else w[key := active])
            && |next| == |w| - if active == [] then 1 else 0
  {
    var w, next, active := PrunedExcept(before, rest, start), PrunedExcept(before, rest - {key}, start), Active(before[key], start);
    assert next == if active == [] then w - {key} else w[key := active];
    assert w.Keys == (if active == [] then next.Keys + {key} else next.Keys);
  }

  lemma OneMore(c: Config, ops: seq<Op>, op: Op)
    ensures RateLimiting.After(c, ops + [op]) == Apply(c, RateLimiting.After(c, ops), op)
  {
    assert (ops + [op])[..|ops|] == ops;
  }

  /** The ghost run records the calls; the windows are always what that run leaves behind. */
  class SlidingWindowRateLimiter {
    const config: Config
    var windows: Windows
    ghost var run: seq<Op>

    constructor (config: Config)
      requires config.windowMs > 0.0 && config.maxRequests > 0
      ensures Valid() && this.config == config && run == []
    {
      this.config := config;
      windows, run := map[], [];
    }

    ghost predicate Valid()
      reads this
    {
      config.windowMs > 0.0 && config.maxRequests > 0 && windows == RateLimiting.After(config, run)
    }

    /** The source's constructor: it throws on a window or a limit that is not positive. */
    static method Create(config: Config) returns (limiter: Result<SlidingWindowRateLimiter, string>)
      ensures limiter.Success? <==> config.windowMs > 0.0 && config.maxRequests > 0
      ensures limiter.Success? ==>
                fresh(limiter.value) && limiter.value.Valid() && limiter.value.config == config && limiter.value.run == []
    {
      if config.windowMs <= 0.0 { return Failure("windowMs must be positive"); }
      if config.maxRequests <= 0 { return Failure("maxRequests must be positive"); }
      var made := new SlidingWindowRateLimiter(config);
      return Success(made);
    }

    /**
     * Decides on the window before the call. With a clock that never went back, the key's
     * stored times are afterwards exactly its admitted times of the last windowMs.
     */
    method Check(key: Key, now: real) returns (decision: Decision)
      requires Valid()
      modifies this
      ensures Valid() && run == old(run) + [RateLimiting.Check(FormatKey(key), now)]
      ensures decision == CheckDecision(config, old(windows), FormatKey(key), now)
      ensures Monotone(run) ==> Stored(windows, FormatKey(key)) == Active(Admitted(config, run, FormatKey(key)), now - config.windowMs)
    {
      hide Active, Admitted, Monotone, RateLimiting.After;
      var bucket := FormatKey(key);
      var timestamps := if bucket in windows then windows[bucket] else [];
      timestamps := Active(timestamps, now - config.windowMs);
      ghost var before := windows;
      run := run + [RateLimiting.Check(bucket, now)];
      OneMore(config, old(run), RateLimiting.Check(bucket, now));
      if Monotone(run) { CheckStoresAdmitted(config, old(run), bucket, now); }
      if |timestamps| >= config.maxRequests {
        var oldest := if timestamps == [] then now else timestamps[0];
        var resetAt := oldest + config.windowMs;
        windows := windows[bucket := timestamps];
        assert windows == Checked(config, before, bucket, now);
        return Decision(false, 0, resetAt, Some(Max(0.0, resetAt - now)));
      }
      timestamps := timestamps + [now];
      windows := windows[bucket := timestamps];
      assert windows == Checked(config, before, bucket, now);
      var remaining := if config.maxRequests >= |timestamps| then config.maxRequests - |timestamps| else 0;
      return Decision(true, remaining, timestamps[0] + config.windowMs, None);
    }

    method Peek(key: Key, now: real) returns (decision: Decision)
      ensures decision == PeekDecision(config, windows, FormatKey(key), now)
    {
      var bucket := FormatKey(key);
      var active := Active(if bucket in windows then windows[bucket] else [], now - config.windowMs);
      var resetAt := (if active == [] then now else active[0]) + config.windowMs;
      if |active| >= config.maxRequests {
        return Decision(false, 0, resetAt, Some(Max(0.0, resetAt - now)));
      }
      return Decision(true, config.maxRequests - |active|, resetAt, None);
    }

    method Reset(key: Key)
      requires Valid()
      modifies this
      ensures Valid() && run == old(run) + [RateLimiting.Reset(FormatKey(key))]
    {
      OneMore(config, run, RateLimiting.Reset(FormatKey(key)));
      run := run + [RateLimiting.Reset(FormatKey(key))];
      windows := windows - {FormatKey(key)};
    }

    method ResetAll()
      requires Valid()
      modifies this
      ensures Valid() && run == old(run) + [RateLimiting.ResetAll]
    {
      run := run + [RateLimiting.ResetAll];
      windows := map[];
    }

    /** Visits every bucket, drops its expired times, and deletes the bucket when none is left. */
    method Prune(now: real) returns (removed: nat)
      requires Valid()
      modifies this
      ensures Valid() && run == old(run) + [RateLimiting.Prune(now)]
      ensures removed == |old(windows)| - |windows|
    {
      hide Active, RateLimiting.After;
      var start := now - config.windowMs;
      var rest := windows.Keys;
      ghost var before := windows;
      removed := 0;
      assert windows == PrunedExcept(before, rest, start);
      while rest != {}
        invariant rest <= before.Keys
        invariant windows == PrunedExcept(before, rest, start) && run == old(run)
        invariant removed + |windows| == |before|
        decreases rest
      {
        assert (exists k :: k in rest) || rest == {};
        var key :| key in rest;
        VisitBucket(before, rest, key, start);
        rest := rest - {key};
        var active := Active(windows[key], start);
        if active == [] {
          windows := windows - {key};
          removed := removed + 1;
        } else {
          windows := windows[key := active];
        }
      }
      assert windows == Pruned(config, before, now);
      OneMore(config, run, RateLimiting.Prune(now));
      run := run + [RateLimiting.Prune(now)];
    }
  }

  const MAX_SAFE_INTEGER := 9007199254740991

  class MultiRateLimiter {
    var limiters: map<string, SlidingWindowRateLimiter>

    constructor ()
      ensures limiters == map[] && Valid()
    {
      limiters := map[];
    }

    /** Each namespace has a limiter object of its own. */
    ghost predicate Valid()
      reads this, limiters.Values
    {
      && (forall a, b :: a in limiters && b in limiters && a != b ==> limiters[a] != limiters[b])
      && (forall a <- limiters :: limiters[a].Valid())
    }

    method Register(space: string, config: Config) returns (registered: Result<SlidingWindowRateLimiter, string>)
      requires Valid()
      modifies this
      ensures Valid()
      ensures registered.Success? <==> config.windowMs > 0.0 && config.maxRequests > 0
      ensures registered.Success? ==> limiters == old(limiters)[space := registered.value] && fresh(registered.value) &&
                                      registered.value.config == config && registered.value.run == []
      ensures registered.Failure? ==> limiters == old(limiters)
    {
      registered := SlidingWindowRateLimiter.Create(config);
      if registered.Success? { limiters := limiters[space := registered.value]; }
    }

    /** Routes to the namespace's limiter and touches no other; an unknown namespace is always allowed. */
    method Check(space: string, identifier: string, now: real) returns (decision: Decision)
      requires Valid()
      modifies limiters.Values
      ensures Valid() && limiters == old(limiters)
      ensures space !in limiters ==> decision == Decision(true, MAX_SAFE_INTEGER, now, None)
      ensures space in limiters ==>
                && decision == CheckDecision(limiters[space].config, old(limiters[space].windows), FormatKey(Key(space, identifier)), now)
                && limiters[space].run == old(limiters[space].run) + [RateLimiting.Check(FormatKey(Key(space, identifier)), now)]
      ensures forall other <- limiters :: other != space ==>
                limiters[other].run == old(limiters[other].run) && limiters[other].windows == old(limiters[other].windows)
    {
      if space !in limiters { return Decision(true, MAX_SAFE_INTEGER, now, None); }
      decision := limiters[space].Check(Key(space, identifier), now);
    }

    method Reset(space: string, identifier: string)
      requires Valid()
      modifies limiters.Values
      ensures Valid() && limiters == old(limiters)
      ensures forall other <- limiters ::
                limiters[other].run == old(limiters[other].run) + if other == space then [RateLimiting.Reset(FormatKey(Key(space, identifier)))] else []
    {
      if space in limiters {
        limiters[space].Reset(Key(space, identifier));
      }
    }
  }

  /** Within one namespace different identifiers never share a bucket. */
  lemma RoutedKeysAreDistinct(space: string, a: string, b: string)
    ensures FormatKey(Key(space, a)) == FormatKey(Key(space, b)) <==> a == b
  {
    if FormatKey(Key(space, a)) == FormatKey(Key(space, b)) {
      assert a == FormatKey(Key(space, a))[|space| + 1..];
      assert b == FormatKey(Key(space, b))[|space| + 1..];
    }
  }
}
