/** Waiting for a submitted extrinsic to appear in a finalized block: the Python watch, which
    scans every new block, and the Go one, which looks only at the head of each poll. The
    node's answers and the clock's readings are arbitrary functions of their number; finalized
    blocks do not change. */
module FinalityWatch {
  import opened Wrappers

  datatype Watched = Found(block: nat, index: nat) | TimedOut

  /** How hexadecimal texts are brought to one case. */
  type Fold = string -> string

  const POLL_SECONDS: real := 1.0
  const GO_INTERVAL: real := 3.0
  const GO_DEFAULT_TIMEOUT: real := 120.0

  function Min(a: real, b: real): real {
    if a <= b then a else b
  }

  /** The least whole number of seconds that is not less than `t`, or zero. */
  function Ceiling(t: real): (n: nat)
    ensures n as real >= t && (t > 0.0 ==> n as real - 1.0 < t) && (t <= 0.0 ==> n == 0)
  {
    if t <= 0.0 then 0
    else if t.Floor as real == t then t.Floor
    else t.Floor + 1
  }

  predicate Absent(lower: Fold, data: string, block: seq<string>) {
    forall i | 0 <= i < |block| :: lower(block[i]) != lower(data)
  }

  /** `r` is the first place the bytes stand in any block above `before`. */
  ghost predicate IsFirst(lower: Fold, data: string, blocks: nat -> seq<string>, before: nat, r: Watched) {
    && r.Found? && before < r.block && r.index < |blocks(r.block)|
    && lower(blocks(r.block)[r.index]) == lower(data)
    && (forall j | 0 <= j < r.index :: lower(blocks(r.block)[j]) != lower(data))
    && (forall n: nat | before < n < r.block :: Absent(lower, data, blocks(n)))
  }

  /** The highest head among the first polls, or `before` if none is higher. */
  function Highest(heads: nat -> nat, polls: nat, before: nat): (h: nat)
    ensures h >= before
  {
    if polls == 0 then before
    else
      var earlier := Highest(heads, polls - 1, before);
      if heads(polls - 1) > earlier then heads(polls - 1) else earlier
  }

  /** The clock never runs back, and each pause lasts at least as long as was asked for. */
  ghost predicate Sleeps(clock: nat -> real, timeout: real) {
    && (forall k: nat, j: nat | j == k + 1 :: clock(k) <= clock(j))
    && (forall k: nat, j: nat | 1 <= k && j == k + 1 ::
          var left := clock(0) + timeout - clock(k);
          left > 0.0 ==> clock(j) >= clock(k) + Min(POLL_SECONDS, left))
  }

  method Scan(lower: Fold, data: string, block: seq<string>) returns (index: Option<nat>)
    ensures index.None? <==> Absent(lower, data, block)
    ensures index.Some? ==> index.value < |block| && lower(block[index.value]) == lower(data)
                            && forall j | 0 <= j < index.value :: lower(block[j]) != lower(data)
  {
    for i := 0 to |block|
      invariant forall j | 0 <= j < i :: lower(block[j]) != lower(data)
    {
      if lower(block[i]) == lower(data) {
        return Some(i);
      }
    }
    index := None;
  }

  /** The heights from `from` up, in order. */
  predicate Ascends(fetched: seq<nat>, from: nat) {
    forall i | 0 <= i < |fetched| :: fetched[i] == from + i
  }

  /** Scan the blocks from `from` to `head`, stopping at the first hit. */
  method CatchUp(lower: Fold, data: string, blocks: nat -> seq<string>, from: nat, head: nat)
    returns (hit: Watched, fetched: seq<nat>)
    requires from > 0
    ensures hit.Found? ==> IsFirst(lower, data, blocks, from - 1, hit) && hit.block <= head
    ensures hit.TimedOut? ==> forall n: nat | from <= n <= head :: Absent(lower, data, blocks(n))
    ensures Ascends(fetched, from)
    ensures |fetched| == if hit.Found? then hit.block - from + 1 else if head < from then 0 else head - from + 1
  {
    var next := from;
    fetched := [];
    while next <= head
      invariant from <= next && (next <= head + 1 || next == from)
      invariant |fetched| == next - from && Ascends(fetched, from)
      invariant forall n: nat | from <= n < next :: Absent(lower, data, blocks(n))
    {
      fetched := fetched + [next];
      var index := Scan(lower, data, blocks(next));
      if index.Some? {
        return Found(next, index.value), fetched;
      }
      next := next + 1;
    }
    hit := TimedOut;
  }

  /** None of the first polls was the last. */
  ghost predicate InTime(clock: nat -> real, timeout: real, polls: nat) {
    forall k: nat | 1 <= k <= polls :: clock(k) < clock(0) + timeout
  }

  /** Each pause but the first poll's used a second. */
  lemma {:induction false} PausesUseTime(clock: nat -> real, timeout: real, polls: nat)
    requires Sleeps(clock, timeout) && InTime(clock, timeout, polls) && polls > 0
    ensures clock(polls) >= clock(0) + polls as real - 1.0
  {
    assert clock(0) <= clock(0 + 1);
    if polls > 1 {
      PausesUseTime(clock, timeout, polls - 1);
      assert clock(polls - 1) < clock(0) + timeout;
      assert clock(polls) < clock(0) + timeout;
    }
  }

  lemma {:induction false} PollsAreBounded(clock: nat -> real, timeout: real, polls: nat)
    requires Sleeps(clock, timeout) && InTime(clock, timeout, polls)
    ensures polls <= Ceiling(timeout)
  {
    if polls > 0 {
      PausesUseTime(clock, timeout, polls);
      assert clock(polls) < clock(0) + timeout;
    }
  }

  lemma {:induction false} FirstOfAll(
    lower: Fold, data: string, blocks: nat -> seq<string>, before: nat, next: nat, hit: Watched)
    requires before < next && forall n: nat | before < n < next :: Absent(lower, data, blocks(n))
    ensures IsFirst(lower, data, blocks, next - 1, hit) ==> IsFirst(lower, data, blocks, before, hit)
  {
  }

  lemma {:induction false} AscendsOn(fetched: seq<nat>, more: seq<nat>, from: nat)
    requires Ascends(fetched, from) && Ascends(more, from + |fetched|)
    ensures Ascends(fetched + more, from)
  {
  }

  /** Found is the first place above `before`, and is reported exactly when some head seen so
      far reaches it; each block is fetched once, in order; giving up happens only after the
      timeout; and the polls are bounded by the timeout. */
  method AwaitFinalized(
    lower: Fold, data: string, blocks: nat -> seq<string>, heads: nat -> nat, clock: nat -> real,
    before: nat, timeout: real)
    returns (r: Watched, polls: nat, fetched: seq<nat>)
    requires Sleeps(clock, timeout)
    ensures r.Found? ==> IsFirst(lower, data, blocks, before, r) && r.block <= Highest(heads, polls, before)
    ensures r.TimedOut? ==>
              forall n: nat | before < n <= Highest(heads, polls, before) :: Absent(lower, data, blocks(n))
    ensures Ascends(fetched, before + 1)
    ensures |fetched| == (if r.Found? then r.block else Highest(heads, polls, before)) - before
    ensures r.TimedOut? ==> clock(polls) >= clock(0) + timeout
    ensures 1 <= polls <= Ceiling(timeout) + 1
  {
    var deadline := clock(0) + timeout;
    var next := before + 1;
    polls, fetched := 0, [];
    while true
      invariant next == Highest(heads, polls, before) + 1
      invariant |fetched| == next - before - 1 && Ascends(fetched, before + 1)
      invariant forall n: nat | before < n < next :: Absent(lower, data, blocks(n))
      invariant InTime(clock, timeout, polls)
      decreases Ceiling(timeout) + 1 - polls
    {
      PollsAreBounded(clock, timeout, polls);
      var head := heads(polls);
      var hit, more := CatchUp(lower, data, blocks, next, head);
      AscendsOn(fetched, more, before + 1);
      FirstOfAll(lower, data, blocks, before, next, hit);
      fetched := fetched + more;
      polls := polls + 1;
      if hit.Found? {
        return hit, polls, fetched;
      }
      next := next + |more|;
      var remaining := deadline - clock(polls);
      if remaining <= 0.0 {
        return TimedOut, polls, fetched;
      }
    }
  }

  // ---------- the Go watch ----------

  ghost predicate GoSleeps(clock: nat -> real) {
    && clock(0) <= clock(1)
    && forall k: nat, j: nat | 1 <= k && j == k + 1 :: clock(j) >= clock(k) + GO_INTERVAL
  }

  /** Each poll sees one head, unless a read fails. */
  predicate SeenAt(lower: Fold, data: string, blocks: nat -> seq<string>, head: Option<nat>) {
    head.Some? && !Absent(lower, data, blocks(head.value))
  }

  /** Found at the first polled head whose block holds the bytes, at their first place in it; heads
      are polled while the time has not run out, two minutes if no time was given, and giving up
      happens only after that. */
  method WatchHeads(
    lower: Fold, data: string, blocks: nat -> seq<string>, heads: nat -> Option<nat>, clock: nat -> real,
    timeout: real)
    returns (r: Watched, polls: nat)
    requires GoSleeps(clock)
    ensures r.Found? <==> exists k | 0 <= k < polls :: SeenAt(lower, data, blocks, heads(k))
    ensures r.Found? ==> polls > 0 && heads(polls - 1) == Some(r.block)
                         && forall k | 0 <= k < polls - 1 :: !SeenAt(lower, data, blocks, heads(k))
    ensures r.Found? ==> r.index < |blocks(r.block)| && lower(blocks(r.block)[r.index]) == lower(data)
                         && forall j | 0 <= j < r.index :: lower(blocks(r.block)[j]) != lower(data)
    ensures r.TimedOut? ==> clock(polls + 1) >= clock(0) + (if timeout <= 0.0 then 120.0 else timeout)
    ensures forall k: nat | 1 <= k <= polls :: clock(k) < clock(0) + (if timeout <= 0.0 then 120.0 else timeout)
    ensures 3 * polls <= Ceiling(if timeout <= 0.0 then 120.0 else timeout) + 2
  {
    var limit := if timeout <= 0.0 then GO_DEFAULT_TIMEOUT else timeout;
    var deadline := clock(0) + limit;
    polls := 0;
    while clock(polls + 1) < deadline
      invariant clock(polls + 1) >= clock(0) + GO_INTERVAL * polls as real
      invariant 3 * polls <= Ceiling(limit) + 2
      invariant forall k: nat | 1 <= k <= polls :: clock(k) < deadline
      invariant forall k | 0 <= k < polls :: !SeenAt(lower, data, blocks, heads(k))
      decreases Ceiling(limit) - 3 * polls
    {
      var head := heads(polls);
      polls := polls + 1;
      if head.Some? {
        var index := Scan(lower, data, blocks(head.value));
        if index.Some? {
          assert SeenAt(lower, data, blocks, heads(polls - 1));
          return Found(head.value, index.value), polls;
        }
      }
    }
    r := TimedOut;
  }

  // ---------- the two compared ----------

  /** Of an extrinsic that stands in one block only: scanning finds it once any head reaches its
      block, looking at heads only if its block is itself the head at some poll. */
  lemma {:induction false} HeadsOverlookSkippedBlocks(
    lower: Fold, data: string, blocks: nat -> seq<string>, heads: nat -> nat, answers: nat -> Option<nat>,
    polls: nat, before: nat, b: nat)
    requires before < b && !Absent(lower, data, blocks(b))
    requires forall n: nat | n != b :: Absent(lower, data, blocks(n))
    requires forall k: nat :: answers(k) == Some(heads(k))
    ensures (exists k | 0 <= k < polls :: SeenAt(lower, data, blocks, answers(k))) <==>
              exists k | 0 <= k < polls :: heads(k) == b
    ensures (exists n: nat | before < n <= Highest(heads, polls, before) :: !Absent(lower, data, blocks(n)))
            <==> exists k | 0 <= k < polls :: heads(k) >= b
  {
    HighestIsSeen(heads, polls, before);
    if k: nat :| 0 <= k < polls && heads(k) == b {
      assert SeenAt(lower, data, blocks, answers(k));
    }
  }

  lemma {:induction false} HighestIsSeen(heads: nat -> nat, polls: nat, before: nat)
    ensures var h := Highest(heads, polls, before);
            (forall k | 0 <= k < polls :: heads(k) <= h) && (h == before || exists k | 0 <= k < polls :: heads(k) == h)
  {
    if polls > 0 {
      HighestIsSeen(heads, polls - 1, before);
    }
  }

  ghost function SkippedBlocks(n: nat): seq<string> {
    if n == 5 then ["0xab"] else []
  }

  ghost function SkippingHeads(k: nat): nat {
    if k == 0 then 4 else 6
  }

  /** An extrinsic in block 5, and heads that go from 4 to 6: after two polls the scanning watch
      has found it, and the one that looks at heads never will. */
  lemma {:induction false} SkippedBlockExample(lower: Fold, polls: nat)
    requires polls >= 2
    ensures IsFirst(lower, "0xab", SkippedBlocks, 3, Found(5, 0)) && 5 <= Highest(SkippingHeads, polls, 3)
    ensures forall k: nat :: !SeenAt(lower, "0xab", SkippedBlocks, Some(SkippingHeads(k)))
  {
    HighestIsSeen(SkippingHeads, polls, 3);
    assert SkippingHeads(1) == 6;
    assert SkippedBlocks(5)[0] == "0xab";
  }
}
