/** Moving the simulated clock (src/lib.rs): a slot lasts 400 ms, every division truncates,
    and the 64-bit arithmetic saturates. */
module Warp {
  import opened Common
  import opened Radix

  datatype Schedule = Schedule(slotsPerEpoch: u64, firstNormalEpoch: u64, firstNormalSlot: u64)

  function Clamp(x: int): i64 {
    if x < I64_MIN then I64_MIN else if x > I64_MAX then I64_MAX else x
  }

  /** Division as Rust does it, toward zero. */
  function TruncDiv(a: int, b: int): (q: int)
    requires b > 0
    ensures a >= 0 ==> q == a / b
    ensures a < 0 ==> q == -(-a / b)
  {
    if a >= 0 then a / b else -(-a / b)
  }

  /** The slots whose epoch is computed without a division by zero. */
  predicate HasEpoch(es: Schedule, slot: u64) {
    slot < es.firstNormalSlot || es.slotsPerEpoch > 0
  }

  /** Addition that wraps at 64 bits. */
  function WrapAdd(a: u64, b: u64): u64 {
    var sum: int := a + b;
    if sum <= U64_MAX then sum else sum - U64_MAX - 1
  }

  function NormalEpochs(es: Schedule, slot: u64): u64
    requires es.firstNormalSlot <= slot && es.slotsPerEpoch > 0
  {
    DivBounded(slot - es.firstNormalSlot, es.slotsPerEpoch);
    (slot - es.firstNormalSlot) / es.slotsPerEpoch
  }

  lemma DivBounded(a: nat, n: nat)
    requires n > 0
    ensures 0 <= a / n <= a
  {
    var q := a / n;
    if q > 0 { MulMono(1, n, q); }
  }

  function EpochOf(es: Schedule, slot: u64): u64
    requires HasEpoch(es, slot)
  {
    if slot < es.firstNormalSlot then slot / 32
    else WrapAdd(es.firstNormalEpoch, NormalEpochs(es, slot))
  }

  /** The epoch of the slot is counted without wrapping. */
  predicate CountsEpoch(es: Schedule, slot: u64) {
    slot < es.firstNormalSlot ||
    (es.slotsPerEpoch > 0 && es.firstNormalEpoch + NormalEpochs(es, slot) <= U64_MAX)
  }

  function WarpedToSlot(es: Schedule, c: Clock, slot: u64): Clock
    requires HasEpoch(es, slot)
  {
    var elapsedMs := Clamp(AsI64(SatSub(slot, c.slot)) * 400);
    Clock(slot, EpochOf(es, slot), Clamp(c.unixTimestamp + TruncDiv(elapsedMs, 1000)))
  }

  function SlotAt(c: Clock, t: i64): u64 {
    var deltaMs := Clamp(Clamp(t - c.unixTimestamp) * 1000);
    var deltaSlots := TruncDiv(deltaMs, 400);
    if deltaSlots >= 0 then SatAdd(c.slot, deltaSlots) else SatSub(c.slot, -deltaSlots)
  }

  function WarpedToTimestamp(es: Schedule, c: Clock, t: i64): Clock
    requires HasEpoch(es, SlotAt(c, t))
  {
    var slot := SlotAt(c, t);
    Clock(slot, EpochOf(es, slot), if t > 0 then t else 0)
  }

  /** How many whole slots of 400 ms, or whole seconds, fit. */
  predicate Whole(q: nat, n: nat, unit: nat) {
    q * unit <= n < (q + 1) * unit
  }

  lemma WholeUnique(p: nat, q: nat, n: nat, unit: nat)
    requires unit > 0 && Whole(p, n, unit) && Whole(q, n, unit)
    ensures p == q
  {
    if p < q { MulMono(p + 1, q, unit); }
    if q < p { MulMono(q + 1, p, unit); }
  }

  /** A timestamp warp in either direction moves the slot by the whole slots between the two times,
      and stops at the first and the last slot. */
  lemma SlotOfTimestamp(c: Clock, t: i64, slots: nat)
    requires var seconds := if t >= c.unixTimestamp then t - c.unixTimestamp else c.unixTimestamp - t;
      seconds * 1000 <= I64_MAX && Whole(slots, seconds * 1000, 400)
    ensures SlotAt(c, t)
      == if t >= c.unixTimestamp then (if c.slot + slots <= U64_MAX then c.slot + slots else U64_MAX)
         else if slots <= c.slot then c.slot - slots else 0
  {
    var seconds: nat := if t >= c.unixTimestamp then t - c.unixTimestamp else c.unixTimestamp - t;
    WholeUnique(slots, seconds * 1000 / 400, seconds * 1000, 400);
  }

  /** A time too far away counts as the largest number of milliseconds. */
  lemma SlotOfFarTimestamp(c: Clock, t: i64)
    ensures (t - c.unixTimestamp) * 1000 > I64_MAX ==>
      SlotAt(c, t) == if c.slot + 23_058_430_092_136_939 <= U64_MAX then c.slot + 23_058_430_092_136_939 else U64_MAX
    ensures (t - c.unixTimestamp) * 1000 < I64_MIN ==>
      SlotAt(c, t) == if 23_058_430_092_136_939 <= c.slot then c.slot - 23_058_430_092_136_939 else 0
  {
  }

  /** A warp to an earlier slot leaves the time alone; one to a later slot adds the whole seconds
      of the slots between, up to the largest timestamp. */
  lemma TimeOfSlot(es: Schedule, c: Clock, slot: u64, seconds: nat)
    requires HasEpoch(es, slot)
    requires var slots := if slot >= c.slot then slot - c.slot else 0;
      slots * 400 <= I64_MAX && Whole(seconds, slots * 400, 1000)
    ensures var w := WarpedToSlot(es, c, slot);
      && w.slot == slot && w.epoch == EpochOf(es, slot)
      && w.unixTimestamp == if c.unixTimestamp + seconds <= I64_MAX then c.unixTimestamp + seconds else I64_MAX
  {
    var slots: nat := if slot >= c.slot then slot - c.slot else 0;
    WholeUnique(seconds, slots * 400 / 1000, slots * 400, 1000);
  }

  /** Past that range the elapsed time saturates, and from 2^63 slots on it counts as negative. */
  lemma TimeOfFarSlot(es: Schedule, c: Clock, slot: u64)
    requires HasEpoch(es, slot) && slot >= c.slot
    ensures I64_MAX < (slot - c.slot) * 400 && slot - c.slot <= I64_MAX ==>
      var t := c.unixTimestamp + 9_223_372_036_854_775;
      WarpedToSlot(es, c, slot).unixTimestamp == if t <= I64_MAX then t else I64_MAX
    ensures slot - c.slot > I64_MAX ==> var behind := 0x1_0000_0000_0000_0000 - (slot - c.slot);
      var ms := if behind * 400 <= -I64_MIN then behind * 400 else -I64_MIN;
      WarpedToSlot(es, c, slot).unixTimestamp
        == if c.unixTimestamp - ms / 1000 >= I64_MIN then c.unixTimestamp - ms / 1000 else I64_MIN
  {
  }

  /** Before the first normal slot 32 slots make an epoch; from it on slotsPerEpoch do, counted
      from the first normal epoch and modulo 2^64. */
  lemma EpochLaw(es: Schedule, slot: u64, epochs: nat)
    requires HasEpoch(es, slot)
    ensures slot < es.firstNormalSlot && Whole(epochs, slot, 32) ==> EpochOf(es, slot) == epochs
    ensures slot >= es.firstNormalSlot && Whole(epochs, slot - es.firstNormalSlot, es.slotsPerEpoch) ==>
      EpochOf(es, slot) == (es.firstNormalEpoch + epochs) % 0x1_0000_0000_0000_0000
  {
    if slot >= es.firstNormalSlot && Whole(epochs, slot - es.firstNormalSlot, es.slotsPerEpoch) {
      var n := slot - es.firstNormalSlot;
      assert n / es.slotsPerEpoch * es.slotsPerEpoch <= n < n / es.slotsPerEpoch * es.slotsPerEpoch + es.slotsPerEpoch;
      WholeUnique(epochs, n / es.slotsPerEpoch, n, es.slotsPerEpoch);
    }
  }

  /** A timestamp warp sets the time, never before 1970, and the slot and epoch that go with it. */
  lemma TimestampWarp(es: Schedule, c: Clock, t: i64)
    requires HasEpoch(es, SlotAt(c, t))
    ensures var w := WarpedToTimestamp(es, c, t);
      && w.slot == SlotAt(c, t) && w.epoch == EpochOf(es, w.slot)
      && (t >= 0 ==> w.unixTimestamp == t) && (t < 0 ==> w.unixTimestamp == 0)
  {
  }

  // --- slot hops ----------------------------------------------------------------------------

  predicate Ascending(from: int, stops: seq<int>)
    decreases |stops|
  {
    stops == [] || (from <= stops[0] && Ascending(stops[0], stops[1..]))
  }

  function Last(from: int, stops: seq<int>): (n: int)
    ensures n == if stops == [] then from else stops[|stops| - 1]
    decreases |stops|
  {
    if stops == [] then from else Last(stops[0], stops[1..])
  }

  lemma {:induction false} AscendingLast(from: int, stops: seq<int>)
    requires Ascending(from, stops)
    ensures from <= Last(from, stops)
    decreases |stops|
  {
    if stops != [] { AscendingLast(stops[0], stops[1..]); }
  }

  ghost predicate AllHaveEpochs(es: Schedule, slots: seq<u64>) {
    forall i :: 0 <= i < |slots| ==> HasEpoch(es, slots[i])
  }

  ghost function SlotHops(es: Schedule, c: Clock, slots: seq<u64>): Clock
    requires AllHaveEpochs(es, slots)
    decreases |slots|
  {
    if slots == [] then c else SlotHops(es, WarpedToSlot(es, c, slots[0]), slots[1..])
  }

  /** The fifths of a second the hops round away. */
  function SlotResidue(from: int, slots: seq<int>): int
    decreases |slots|
  {
    if slots == [] then 0 else (2 * (slots[0] - from)) % 5 + SlotResidue(slots[0], slots[1..])
  }

  lemma {:induction false} SlotResidueBounds(from: int, slots: seq<int>)
    ensures 0 <= SlotResidue(from, slots) <= 4 * |slots|
    decreases |slots|
  {
    if slots != [] { SlotResidueBounds(slots[0], slots[1..]); }
  }

  /** No product or sum of the warp from c to slot n saturates: the last condition is that the
      timestamp plus two fifths of the slots, rounded down, is at most I64_MAX. */
  predicate SlotRangeFits(c: Clock, n: int) {
    && c.slot <= n && (n - c.slot) * 400 <= I64_MAX
    && 5 * c.unixTimestamp + 2 * (n - c.slot) < 5 * (I64_MAX + 1)
  }

  lemma OneSlotHop(es: Schedule, c: Clock, slot: u64)
    requires HasEpoch(es, slot) && SlotRangeFits(c, slot)
    ensures var d := 2 * (slot - c.slot);
      5 * (WarpedToSlot(es, c, slot).unixTimestamp - c.unixTimestamp) == d - d % 5
  {
    var e := slot - c.slot;
    Fifths(e);
    assert AsI64(SatSub(slot, c.slot)) == e && Clamp(e * 400) == e * 400;
  }

  lemma Fifths(e: nat)
    ensures var t := e * 400 / 1000; 5 * t == 2 * e - 2 * e % 5 && t <= e
  {
    var q := 2 * e / 5;
    assert q * 1000 <= e * 400 < (q + 1) * 1000;
  }

  /** Two roundings of one total, in m-ths: the finer one that lost the residue, and the
      single division. */
  lemma Gap(m: int, total: int, rest: int, direct: int, hopped: int, residue: int)
    requires 0 <= rest < m && residue >= 0
    requires m * direct == total - rest && m * hopped == total - residue
    ensures 0 <= direct - hopped && m * (direct - hopped) == residue - rest
  {
    var gap := direct - hopped;
    assert m * gap == residue - rest;
    if gap < 0 { MulMono(1, -gap, m); }
  }

  lemma {:induction false} SlotHopsTime(es: Schedule, c: Clock, slots: seq<u64>)
    requires AllHaveEpochs(es, slots)
    requires Ascending(c.slot, slots) && SlotRangeFits(c, Last(c.slot, slots))
    ensures var h := SlotHops(es, c, slots);
      && h.slot == Last(c.slot, slots)
      && 5 * (h.unixTimestamp - c.unixTimestamp) == 2 * (h.slot - c.slot) - SlotResidue(c.slot, slots)
    decreases |slots|
  {
    if slots != [] {
      AscendingLast(slots[0], slots[1..]);
      OneSlotHop(es, c, slots[0]);
      SlotHopsTime(es, WarpedToSlot(es, c, slots[0]), slots[1..]);
    }
  }

  lemma {:induction false} SlotHopsEpoch(es: Schedule, c: Clock, slots: seq<u64>)
    requires AllHaveEpochs(es, slots)
    requires slots != []
    ensures 0 <= Last(c.slot, slots) <= U64_MAX && HasEpoch(es, Last(c.slot, slots))
    ensures SlotHops(es, c, slots).slot == Last(c.slot, slots)
    ensures SlotHops(es, c, slots).epoch == EpochOf(es, Last(c.slot, slots))
    decreases |slots|
  {
    if |slots| > 1 { SlotHopsEpoch(es, WarpedToSlot(es, c, slots[0]), slots[1..]); }
  }

  /** k forward hops reach the slot and epoch of one direct warp. */
  lemma SlotHopsArrive(es: Schedule, c: Clock, slots: seq<u64>)
    requires slots != [] && AllHaveEpochs(es, slots)
    ensures var n := Last(c.slot, slots);
      && 0 <= n <= U64_MAX && HasEpoch(es, n)
      && SlotHops(es, c, slots).slot == n
      && SlotHops(es, c, slots).epoch == WarpedToSlot(es, c, n).epoch
  {
    SlotHopsEpoch(es, c, slots);
  }

  /** Their clock is never ahead of the direct warp's and at most 4k/5 seconds behind: the gap
      is exactly what the hops round away beyond what the direct warp does. */
  lemma SlotHopsDrift(es: Schedule, c: Clock, slots: seq<u64>, direct: Clock)
    requires slots != [] && AllHaveEpochs(es, slots)
    requires Ascending(c.slot, slots) && SlotRangeFits(c, Last(c.slot, slots))
    requires HasEpoch(es, Last(c.slot, slots)) && direct == WarpedToSlot(es, c, Last(c.slot, slots))
    ensures var behind := direct.unixTimestamp - SlotHops(es, c, slots).unixTimestamp;
      && 0 <= behind && 5 * behind <= 4 * |slots|
      && 5 * behind == SlotResidue(c.slot, slots) - (2 * (direct.slot - c.slot)) % 5
  {
    SlotHopsTime(es, c, slots);
    SlotResidueBounds(c.slot, slots);
    DirectSlotWarp(es, c, slots, direct);
    var d := 2 * (direct.slot - c.slot);
    Gap(5, d, d % 5, direct.unixTimestamp - c.unixTimestamp,
      SlotHops(es, c, slots).unixTimestamp - c.unixTimestamp, SlotResidue(c.slot, slots));
  }

  lemma DirectSlotWarp(es: Schedule, c: Clock, slots: seq<u64>, direct: Clock)
    requires Ascending(c.slot, slots) && SlotRangeFits(c, Last(c.slot, slots))
    requires 0 <= Last(c.slot, slots) <= U64_MAX && HasEpoch(es, Last(c.slot, slots))
    requires direct == WarpedToSlot(es, c, Last(c.slot, slots))
    ensures var d := 2 * (direct.slot - c.slot);
      direct.slot == Last(c.slot, slots) && 5 * (direct.unixTimestamp - c.unixTimestamp) == d - d % 5
  {
    AscendingLast(c.slot, slots);
    OneSlotHop(es, c, Last(c.slot, slots));
  }

  // --- timestamp hops -----------------------------------------------------------------------

  /** Every stop of the hops has a computable epoch. */
  predicate HopsHaveEpochs(es: Schedule, c: Clock, times: seq<i64>)
    decreases |times|
  {
    times == [] ||
    (HasEpoch(es, SlotAt(c, times[0])) && HopsHaveEpochs(es, WarpedToTimestamp(es, c, times[0]), times[1..]))
  }

  function TimeHops(es: Schedule, c: Clock, times: seq<i64>): Clock
    requires HopsHaveEpochs(es, c, times)
    decreases |times|
  {
    if times == [] then c else TimeHops(es, WarpedToTimestamp(es, c, times[0]), times[1..])
  }

  /** The half slots the hops round away. */
  function TimeResidue(from: int, times: seq<int>): int
    decreases |times|
  {
    if times == [] then 0 else (5 * (times[0] - from)) % 2 + TimeResidue(times[0], times[1..])
  }

  lemma {:induction false} TimeResidueBounds(from: int, times: seq<int>)
    ensures 0 <= TimeResidue(from, times) <= |times|
    decreases |times|
  {
    if times != [] { TimeResidueBounds(times[0], times[1..]); }
  }

  /** No product or sum of the warp from c to timestamp t saturates: the last condition is that
      the slot plus five halves of the seconds, rounded down, is at most U64_MAX. */
  predicate TimeRangeFits(c: Clock, t: int) {
    && c.unixTimestamp <= t && (t - c.unixTimestamp) * 1000 <= I64_MAX
    && 2 * c.slot + 5 * (t - c.unixTimestamp) < 2 * (U64_MAX + 1)
  }

  /** The first stop, and so every later one of an ascending sequence, is not clamped to zero. */
  predicate Unclamped(times: seq<int>) {
    times != [] ==> 0 <= times[0]
  }

  lemma OneTimeHop(c: Clock, t: i64)
    requires TimeRangeFits(c, t)
    ensures var d := 5 * (t - c.unixTimestamp); 2 * (SlotAt(c, t) - c.slot) == d - d % 2
  {
    var e := t - c.unixTimestamp;
    Halves(e);
    assert Clamp(e) == e && Clamp(Clamp(e) * 1000) == e * 1000;
  }

  lemma Halves(e: nat)
    ensures var n := e * 1000 / 400; 2 * n == 5 * e - 5 * e % 2
  {
    var q := 5 * e / 2;
    assert q * 400 <= e * 1000 < (q + 1) * 400;
  }

  lemma {:induction false} TimeHopsSlot(es: Schedule, c: Clock, times: seq<i64>)
    requires HopsHaveEpochs(es, c, times)
    requires Ascending(c.unixTimestamp, times) && TimeRangeFits(c, Last(c.unixTimestamp, times)) && Unclamped(times)
    ensures var h := TimeHops(es, c, times);
      && h.unixTimestamp == Last(c.unixTimestamp, times)
      && 2 * (h.slot - c.slot) == 5 * (h.unixTimestamp - c.unixTimestamp) - TimeResidue(c.unixTimestamp, times)
    decreases |times|
  {
    if times != [] {
      AscendingLast(times[0], times[1..]);
      OneTimeHop(c, times[0]);
      TimeHopsSlot(es, WarpedToTimestamp(es, c, times[0]), times[1..]);
    }
  }

  /** k forward timestamp hops lose at most k/2 slots against one direct warp, and gain none. */
  lemma TimeHopsDrift(es: Schedule, c: Clock, times: seq<i64>)
    requires HopsHaveEpochs(es, c, times)
    requires Ascending(c.unixTimestamp, times) && TimeRangeFits(c, Last(c.unixTimestamp, times)) && Unclamped(times)
    ensures var h, direct := TimeHops(es, c, times), SlotAt(c, Last(c.unixTimestamp, times));
      && h.unixTimestamp == Last(c.unixTimestamp, times)
      && 0 <= direct - h.slot && 2 * (direct - h.slot) <= |times|
      && 2 * (direct - h.slot)
           == TimeResidue(c.unixTimestamp, times) - (5 * (h.unixTimestamp - c.unixTimestamp)) % 2
  {
    TimeHopsSlot(es, c, times);
    TimeResidueBounds(c.unixTimestamp, times);
    var n := Last(c.unixTimestamp, times);
    OneTimeHop(c, n);
    var d := 5 * (n - c.unixTimestamp);
    Gap(2, d, d % 2, SlotAt(c, n) - c.slot, TimeHops(es, c, times).slot - c.slot,
      TimeResidue(c.unixTimestamp, times));
  }

  /** A negative first stop is clamped, so the next hop is measured from zero: the hops then lose
      the slots of the time before zero as well. */
  lemma NegativeStopDrift(es: Schedule, c: Clock, first: i64, rest: seq<i64>)
    requires HopsHaveEpochs(es, c, [first] + rest) && first < 0 && rest != []
    requires c.unixTimestamp <= first && Ascending(0, rest) && TimeRangeFits(c, Last(0, rest))
    ensures var h, direct, n := TimeHops(es, c, [first] + rest), SlotAt(c, Last(0, rest)), Last(0, rest);
      && h.unixTimestamp == n
      && 2 * (direct - h.slot)
         == 5 * (0 - first) + TimeResidue(0, rest)
            + (5 * (first - c.unixTimestamp)) % 2 - (5 * (n - c.unixTimestamp)) % 2
  {
    var times := [first] + rest;
    assert times[0] == first && times[1..] == rest;
    AscendingLast(0, rest);
    OneTimeHop(c, first);
    OneTimeHop(c, Last(0, rest));
    TimeHopsSlot(es, WarpedToTimestamp(es, c, first), rest);
  }

  // --- epochs -------------------------------------------------------------------------------

  /** From the first normal slot on, as long as epochs do not wrap, the computed epoch is the one
      whose slots hold the slot. */
  lemma EpochHoldsSlot(es: Schedule, slot: u64, epoch: u64)
    requires CountsEpoch(es, slot) && es.firstNormalSlot <= slot && es.firstNormalEpoch <= epoch
    ensures var start := es.firstNormalSlot + (epoch - es.firstNormalEpoch) * es.slotsPerEpoch;
      epoch == EpochOf(es, slot) <==> start <= slot < start + es.slotsPerEpoch
  {
    var d, n := slot - es.firstNormalSlot, es.slotsPerEpoch;
    var q := d / n;
    var e := epoch - es.firstNormalEpoch;
    assert q * n <= d < q * n + n;
    if e < q { MulMono(e + 1, q, n); }
    if q < e { MulMono(q + 1, e, n); }
  }

  lemma DivMonotone(a: nat, b: nat, n: nat)
    requires a <= b && n > 0
    ensures a / n <= b / n
  {
    var p, q := a / n, b / n;
    if q < p { MulMono(q + 1, p, n); }
  }

  lemma NormalEpochsMonotone(es: Schedule, a: u64, b: u64)
    requires es.firstNormalSlot <= a <= b && CountsEpoch(es, b)
    ensures CountsEpoch(es, a) && EpochOf(es, a) <= EpochOf(es, b)
  {
    DivMonotone(a - es.firstNormalSlot, b - es.firstNormalSlot, es.slotsPerEpoch);
  }

  /** The warm-up epochs, one per 32 slots, do not run past the first normal epoch. */
  predicate WarmUpFits(es: Schedule) {
    es.firstNormalSlot == 0 || (es.firstNormalSlot - 1) / 32 <= es.firstNormalEpoch
  }

  lemma WarmUpMonotone(es: Schedule, a: u64, b: u64)
    requires WarmUpFits(es) && a < es.firstNormalSlot && a <= b && CountsEpoch(es, b)
    ensures EpochOf(es, a) <= EpochOf(es, b)
  {
    if b < es.firstNormalSlot {
      DivMonotone(a, b, 32);
    } else {
      DivMonotone(a, es.firstNormalSlot - 1, 32);
    }
  }

  lemma WarmUpOverruns(es: Schedule)
    requires !WarmUpFits(es) && es.slotsPerEpoch > 0
    ensures EpochOf(es, es.firstNormalSlot - 1) > EpochOf(es, es.firstNormalSlot)
  {
    assert NormalEpochs(es, es.firstNormalSlot) == 0;
  }

  /** If the last slot's epoch wraps, some slot is in the last epoch of all and the slot one epoch
      later is in epoch zero. */
  lemma EpochsWrap(es: Schedule)
    requires es.slotsPerEpoch > 0 && !CountsEpoch(es, U64_MAX)
    ensures exists a: u64, b: u64 :: a <= b && EpochOf(es, a) > EpochOf(es, b)
  {
    var n, left := es.slotsPerEpoch, U64_MAX - es.firstNormalEpoch;
    var q := (U64_MAX - es.firstNormalSlot) / n;
    assert q * n <= U64_MAX - es.firstNormalSlot;
    MulMono(left + 1, q, n);
    assert left * n + n == (left + 1) * n;
    var a := es.firstNormalSlot + left * n;
    var b := a + n;
    DivExact(left, n);
    DivExact(left + 1, n);
    assert b - es.firstNormalSlot == (left + 1) * n;
    assert NormalEpochs(es, a) == left && NormalEpochs(es, b) == left + 1;
    assert EpochOf(es, a) == U64_MAX && EpochOf(es, b) == 0;
  }

  lemma DivExact(q: nat, n: nat)
    requires n > 0
    ensures q * n / n == q && q * n >= 0
  {
    var d := q * n / n;
    assert d * n <= q * n < d * n + n;
    if d < q { MulMono(d + 1, q, n); }
    if q < d { MulMono(q + 1, d, n); }
  }

  ghost predicate Monotone(es: Schedule)
    requires es.slotsPerEpoch > 0
  {
    forall a: u64, b: u64 :: a <= b ==> EpochOf(es, a) <= EpochOf(es, b)
  }

  /** Over all slots the epoch is monotone exactly when the warm-up fits and no epoch wraps. */
  lemma EpochMonotoneIff(es: Schedule)
    requires es.slotsPerEpoch > 0
    ensures Monotone(es) <==> WarmUpFits(es) && CountsEpoch(es, U64_MAX)
  {
    if !WarmUpFits(es) {
      WarmUpOverruns(es);
    } else if !CountsEpoch(es, U64_MAX) {
      EpochsWrap(es);
    } else {
      forall a: u64, b: u64 | a <= b ensures EpochOf(es, a) <= EpochOf(es, b) {
        if es.firstNormalSlot <= b { NormalEpochsMonotone(es, b, U64_MAX); }
        if es.firstNormalSlot <= a { NormalEpochsMonotone(es, a, b); } else { WarmUpMonotone(es, a, b); }
      }
    }
  }
}
