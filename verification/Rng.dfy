/** The deterministic SplitMix64 generator and its rejection sampler. */
module Rng {
  import opened Bytes
  import opened Words
  import opened Wrappers

  const INCREMENT: u64 := 0x9e37_79b9_7f4a_7c15
  const MIX_1: u64 := 0xbf58_476d_1ce4_e5b9
  const MIX_2: u64 := 0x94d0_49bb_1331_11eb

  // Inverses of the three odd constants modulo 2^64.
  const INCREMENT_INVERSE: u64 := 0xf1de_83e1_9937_733d
  const MIX_1_INVERSE: u64 := 0x96de_1b17_3f11_9089
  const MIX_2_INVERSE: u64 := 0x3196_42b2_d24d_8ec3

  function XorShiftWord(x: u64, k: nat): u64 {
    Pow2Of64();
    XorShiftBelow(x, k, 64);
    XorShift(x, k)
  }

  function Mix(value: u64): u64 {
    var value := WrappingMul(XorShiftWord(value, 30), MIX_1);
    var value := WrappingMul(XorShiftWord(value, 27), MIX_2);
    XorShiftWord(value, 31)
  }

  function UnXorShiftWord(y: u64, k: nat): u64
    requires k > 0
  {
    Pow2Of64();
    UnXorShiftBelow(y, k, 64);
    UnXorShift(y, k)
  }

  /** The word `Mix` sends to `value`. */
  function Unmix(value: u64): u64 {
    var value := WrappingMul(UnXorShiftWord(value, 31), MIX_2_INVERSE);
    var value := WrappingMul(UnXorShiftWord(value, 27), MIX_1_INVERSE);
    UnXorShiftWord(value, 30)
  }

  lemma MulCancels(x: u64, c: u64, d: u64, w: nat)
    requires c * d == 1 + w * TWO_TO_THE_64
    ensures WrappingMul(WrappingMul(x, c), d) == x
  {
    var q := x * c / TWO_TO_THE_64;
    var p := x * c % TWO_TO_THE_64;
    assert p == x * c - q * TWO_TO_THE_64;
    calc {
      p * d;
      (x * c - q * TWO_TO_THE_64) * d;
      x * (c * d) - q * d * TWO_TO_THE_64;
      x * (1 + w * TWO_TO_THE_64) - q * d * TWO_TO_THE_64;
      x + (x * w - q * d) * TWO_TO_THE_64;
    }
    AddMultiple(x, x * w - q * d);
  }

  lemma AddMultiple(x: u64, t: int)
    ensures (x + t * TWO_TO_THE_64) % TWO_TO_THE_64 == x
  {
  }

  /** Mixing loses nothing: `Unmix` undoes it on every word, from either side. */
  lemma MixIsBijection(v: u64)
    ensures Unmix(Mix(v)) == v
    ensures Mix(Unmix(v)) == v
  {
    var a := XorShiftWord(v, 30);
    var b := XorShiftWord(WrappingMul(a, MIX_1), 27);
    UnXorShiftInverts(v, 30);
    MulCancels(a, MIX_1, MIX_1_INVERSE, 0x70c3_bca7_8f27_f46c);
    UnXorShiftInverts(WrappingMul(a, MIX_1), 27);
    MulCancels(b, MIX_2, MIX_2_INVERSE, 0x1cd3_36ed_a85f_1453);
    UnXorShiftInverts(WrappingMul(b, MIX_2), 31);

    var c := UnXorShiftWord(v, 31);
    var d := UnXorShiftWord(WrappingMul(c, MIX_2_INVERSE), 27);
    XorShiftInverts(WrappingMul(d, MIX_1_INVERSE), 30);
    MulCancels(d, MIX_1_INVERSE, MIX_1, 0x70c3_bca7_8f27_f46c);
    XorShiftInverts(WrappingMul(c, MIX_2_INVERSE), 27);
    MulCancels(c, MIX_2_INVERSE, MIX_2, 0x1cd3_36ed_a85f_1453);
    XorShiftInverts(v, 31);
  }

  /** The generator's state after `n` more draws. */
  function StateAfter(state: u64, n: nat): u64 {
    if n == 0 then state else WrappingAdd(StateAfter(state, n - 1), INCREMENT)
  }

  /** The value of draw number `n`, counting from 0. */
  function Draw(state: u64, n: nat): u64 {
    Mix(StateAfter(state, n + 1))
  }

  lemma ReduceFirst(x: nat, y: nat)
    ensures (x % TWO_TO_THE_64 + y) % TWO_TO_THE_64 == (x + y) % TWO_TO_THE_64
  {
  }

  lemma {:induction false} StateClosedForm(state: u64, n: nat)
    ensures StateAfter(state, n) == (state + n * INCREMENT) % TWO_TO_THE_64
  {
    if n != 0 {
      StateClosedForm(state, n - 1);
      ReduceFirst(state + (n - 1) * INCREMENT, INCREMENT);
    }
  }

  lemma {:induction false} StateSplits(state: u64, m: nat, n: nat)
    ensures StateAfter(StateAfter(state, m), n) == StateAfter(state, m + n)
  {
    if n != 0 {
      StateSplits(state, m, n - 1);
    }
  }

  /** The number of the draw, within one period, that yields `value`. */
  function IndexOf(state: u64, value: u64): (n: nat)
    ensures n < TWO_TO_THE_64
  {
    ((Unmix(value) - state) * INCREMENT_INVERSE - 1) % TWO_TO_THE_64
  }

  lemma StepsToState(state: u64, target: u64)
    ensures StateAfter(state, ((target - state) * INCREMENT_INVERSE - 1) % TWO_TO_THE_64 + 1) == target
  {
    var d := target - state;
    var n := (d * INCREMENT_INVERSE - 1) % TWO_TO_THE_64;
    var q := (d * INCREMENT_INVERSE - 1) / TWO_TO_THE_64;
    StateClosedForm(state, n + 1);
    assert n + 1 == d * INCREMENT_INVERSE - q * TWO_TO_THE_64;
    assert state + (n + 1) * INCREMENT
        == target + (d * 0x957b_bf35_006e_d677 - q * INCREMENT) * TWO_TO_THE_64;
    AddMultiple(target, d * 0x957b_bf35_006e_d677 - q * INCREMENT);
  }

  lemma StepsAreUnique(state: u64, m: nat, n: nat)
    requires m < TWO_TO_THE_64 && n < TWO_TO_THE_64
    requires StateAfter(state, m + 1) == StateAfter(state, n + 1)
    ensures m == n
  {
    StateClosedForm(state, m + 1);
    StateClosedForm(state, n + 1);
    var a, b := state + (m + 1) * INCREMENT, state + (n + 1) * INCREMENT;
    CountsAgree(m as int - n as int, a / TWO_TO_THE_64 - b / TWO_TO_THE_64);
  }

  /** Multiplying by the inverse: a count whose increments cancel is a multiple of 2^64. */
  lemma CountsAgree(d: int, t: int)
    requires d * INCREMENT == t * TWO_TO_THE_64
    ensures d <= U64_MAX && 0 <= d + U64_MAX ==> d == 0
  {
    var u := t * INCREMENT_INVERSE - d * 0x957b_bf35_006e_d677;
    assert d == u * TWO_TO_THE_64;
  }

  lemma DrawAtIndex(state: u64, value: u64)
    ensures Draw(state, IndexOf(state, value)) == value
  {
    StepsToState(state, Unmix(value));
    MixIsBijection(value);
  }

  lemma DrawsAreDistinct(state: u64, m: nat, n: nat)
    requires m < TWO_TO_THE_64 && n < TWO_TO_THE_64
    requires Draw(state, m) == Draw(state, n)
    ensures m == n
  {
    var a, b := StateAfter(state, m + 1), StateAfter(state, n + 1);
    MixIsBijection(a);
    MixIsBijection(b);
    StepsAreUnique(state, m, n);
  }

  /** Full period: from every state, each word is drawn exactly once in 2^64 draws. */
  lemma FullPeriod(state: u64, value: u64, n: nat)
    requires n < TWO_TO_THE_64
    ensures Draw(state, n) == value <==> n == IndexOf(state, value)
  {
    DrawAtIndex(state, value);
    if Draw(state, n) == value {
      DrawsAreDistinct(state, n, IndexOf(state, value));
    }
  }

  lemma DrawIsAtIndex(state: u64, n: nat)
    requires n < TWO_TO_THE_64
    ensures n == IndexOf(state, Draw(state, n))
  {
    FullPeriod(state, Draw(state, n), n);
  }

  /** The sampler accepts draws below this multiple of `upper`. */
  function Zone(upper: nat): nat
    requires 0 < upper < TWO_TO_THE_64
  {
    U64_MAX - U64_MAX % upper
  }

  lemma ZoneIsMultiple(upper: nat)
    requires 0 < upper < TWO_TO_THE_64
    ensures Zone(upper) == U64_MAX / upper * upper
    ensures 0 < Zone(upper) < TWO_TO_THE_64
  {
    var q := U64_MAX / upper;
    assert U64_MAX == q * upper + U64_MAX % upper;
    assert q >= 1;
    assert q * upper >= upper;
  }

  /** A zero is always accepted, so a rejected draw comes before it. */
  lemma {:induction false} RejectedIsBeforeZero(state: u64, upper: nat, n: nat)
    requires 0 < upper < TWO_TO_THE_64 && n <= IndexOf(state, 0)
    ensures Draw(state, n) >= Zone(upper) ==> n < IndexOf(state, 0)
  {
    FullPeriod(state, 0, n);
    ZoneIsMultiple(upper);
  }

  /** The first draw, from number `n` on, that the sampler accepts. */
  function FirstAccepted(state: u64, upper: nat, n: nat): (k: nat)
    requires 0 < upper < TWO_TO_THE_64
    requires n <= IndexOf(state, 0)
    ensures n <= k <= IndexOf(state, 0)
    decreases IndexOf(state, 0) - n
  {
    RejectedIsBeforeZero(state, upper, n);
    if Draw(state, n) < Zone(upper) then n else FirstAccepted(state, upper, n + 1)
  }

  /** It is accepted, and every draw before it is rejected. */
  lemma {:induction false} FirstAcceptedIsFirst(state: u64, upper: nat, n: nat)
    requires 0 < upper < TWO_TO_THE_64
    requires n <= IndexOf(state, 0)
    ensures Draw(state, FirstAccepted(state, upper, n)) < Zone(upper)
    ensures forall i :: n <= i < FirstAccepted(state, upper, n) ==> Draw(state, i) >= Zone(upper)
    decreases IndexOf(state, 0) - n
  {
    RejectedIsBeforeZero(state, upper, n);
    if Draw(state, n) >= Zone(upper) {
      FirstAcceptedIsFirst(state, upper, n + 1);
    }
  }

  /** The draws of one period whose sample is `residue`. */
  ghost function SamplesOf(state: u64, upper: nat, residue: nat): set<nat>
    requires 0 < upper < TWO_TO_THE_64
  {
    set n: nat | n < TWO_TO_THE_64 && Draw(state, n) < Zone(upper) && Draw(state, n) % upper == residue
  }

  lemma MultipleBelowZone(upper: nat, k: nat, residue: nat)
    requires residue < upper < TWO_TO_THE_64
    ensures k < U64_MAX / upper <==> k * upper + residue < Zone(upper)
    ensures (k * upper + residue) % upper == residue
  {
    ZoneIsMultiple(upper);
    var q := U64_MAX / upper;
    if k < q {
      assert (k + 1) * upper <= q * upper;
    } else {
      assert k * upper >= q * upper;
    }
    ModOfMultiple(upper, k, residue);
  }

  lemma ProductGrows(d: int, m: nat)
    requires d >= 1
    ensures d * m >= m
  {
  }

  lemma QuotientIsUnique(m: nat, k: int, r: int, q: int, t: int)
    requires 0 <= r < m && 0 <= t < m && k * m + r == q * m + t
    ensures k == q && r == t
  {
    assert (q - k) * m == r - t;
    if q > k {
      ProductGrows(q - k, m);
    } else if q < k {
      ProductGrows(k - q, m);
    }
  }

  lemma ModOfMultiple(m: nat, k: nat, r: nat)
    requires r < m
    ensures (k * m + r) % m == r && (k * m + r) / m == k
  {
    var x := k * m + r;
    QuotientIsUnique(m, k, r, x / m, x % m);
  }

  /** The draws hitting the first `q` words that sample to `residue`. */
  ghost function FirstHits(state: u64, upper: nat, residue: nat, q: nat): set<nat>
    requires residue < upper < TWO_TO_THE_64 && q <= U64_MAX / upper
  {
    set k: nat | k < q :: IndexOf(state, HitWord(upper, residue, k))
  }

  function HitWord(upper: nat, residue: nat, k: nat): u64
    requires residue < upper < TWO_TO_THE_64 && k < U64_MAX / upper
  {
    MultipleBelowZone(upper, k, residue);
    ZoneIsMultiple(upper);
    k * upper + residue
  }

  lemma HitWordsDiffer(state: u64, upper: nat, residue: nat, j: nat, k: nat)
    requires residue < upper < TWO_TO_THE_64 && j < k < U64_MAX / upper
    ensures IndexOf(state, HitWord(upper, residue, j)) != IndexOf(state, HitWord(upper, residue, k))
  {
    var a, b := HitWord(upper, residue, j), HitWord(upper, residue, k);
    assert j * upper < k * upper;
    FullPeriod(state, a, IndexOf(state, a));
    FullPeriod(state, b, IndexOf(state, b));
  }

  lemma {:induction false} CountFirstHits(state: u64, upper: nat, residue: nat, q: nat)
    requires residue < upper < TWO_TO_THE_64 && q <= U64_MAX / upper
    ensures |FirstHits(state, upper, residue, q)| == q
  {
    if q == 0 {
      assert FirstHits(state, upper, residue, q) == {};
    } else {
      var before := FirstHits(state, upper, residue, q - 1);
      CountFirstHits(state, upper, residue, q - 1);
      OneHitMore(state, upper, residue, q - 1);
      var last := IndexOf(state, HitWord(upper, residue, q - 1));
      assert |before + {last}| == |before| + 1;
    }
  }

  lemma {:induction false} OneHitMore(state: u64, upper: nat, residue: nat, q: nat)
    requires residue < upper < TWO_TO_THE_64 && q < U64_MAX / upper
    ensures var last := IndexOf(state, HitWord(upper, residue, q));
      && last !in FirstHits(state, upper, residue, q)
      && FirstHits(state, upper, residue, q + 1) == FirstHits(state, upper, residue, q) + {last}
  {
    var last := IndexOf(state, HitWord(upper, residue, q));
    if last in FirstHits(state, upper, residue, q) {
      var k: nat :| k < q && last == IndexOf(state, HitWord(upper, residue, k));
      HitWordsDiffer(state, upper, residue, k, q);
    }
  }

  lemma HitIsCounted(state: u64, upper: nat, residue: nat, k: nat)
    requires residue < upper < TWO_TO_THE_64 && k < U64_MAX / upper
    ensures IndexOf(state, HitWord(upper, residue, k)) in FirstHits(state, upper, residue, U64_MAX / upper)
  {
  }

  lemma SampleIsHit(state: u64, upper: nat, residue: nat, v: u64)
    requires residue < upper < TWO_TO_THE_64
    requires v < Zone(upper) && v % upper == residue
    ensures IndexOf(state, v) in FirstHits(state, upper, residue, U64_MAX / upper)
  {
    AcceptedWordIsHit(upper, residue, v);
    NamedHitIsCounted(state, upper, residue, v / upper, v);
  }

  lemma NamedHitIsCounted(state: u64, upper: nat, residue: nat, k: nat, v: u64)
    requires residue < upper < TWO_TO_THE_64 && k < U64_MAX / upper && HitWord(upper, residue, k) == v
    ensures IndexOf(state, v) in FirstHits(state, upper, residue, U64_MAX / upper)
  {
    HitIsCounted(state, upper, residue, k);
  }

  lemma DivMod(x: nat, m: nat)
    requires m > 0
    ensures x == x / m * m + x % m
  {
  }

  lemma AcceptedWordIsHit(upper: nat, residue: nat, v: u64)
    requires residue < upper < TWO_TO_THE_64
    requires v < Zone(upper) && v % upper == residue
    ensures v / upper < U64_MAX / upper && HitWord(upper, residue, v / upper) == v
  {
    DivMod(v, upper);
    MultipleBelowZone(upper, v / upper, residue);
  }

  lemma HitIsSample(state: u64, upper: nat, residue: nat, n: nat)
    requires residue < upper < TWO_TO_THE_64
    requires n in FirstHits(state, upper, residue, U64_MAX / upper)
    ensures n in SamplesOf(state, upper, residue)
  {
    var k: nat :| k < U64_MAX / upper && n == IndexOf(state, HitWord(upper, residue, k));
    MultipleBelowZone(upper, k, residue);
    DrawAtIndex(state, HitWord(upper, residue, k));
  }

  /** Over one full period the sampler yields every value below `upper` equally often. */
  lemma SamplesAreUniform(state: u64, upper: nat, residue: nat)
    requires residue < upper < TWO_TO_THE_64
    ensures |SamplesOf(state, upper, residue)| == U64_MAX / upper
  {
    forall n: nat | n in SamplesOf(state, upper, residue)
      ensures n in FirstHits(state, upper, residue, U64_MAX / upper)
    {
      DrawIsAtIndex(state, n);
      SampleIsHit(state, upper, residue, Draw(state, n));
    }
    forall n: nat | n in FirstHits(state, upper, residue, U64_MAX / upper)
      ensures n in SamplesOf(state, upper, residue)
    {
      HitIsSample(state, upper, residue, n);
    }
    assert SamplesOf(state, upper, residue) == FirstHits(state, upper, residue, U64_MAX / upper);
    CountFirstHits(state, upper, residue, U64_MAX / upper);
  }

  /** The sample `below` returns from `state`, and the state it leaves. */
  function Sample(state: u64, upper: nat): (r: nat)
    requires 0 < upper < TWO_TO_THE_64
    ensures r < upper
  {
    Draw(state, FirstAccepted(state, upper, 0)) % upper
  }

  function StateAfterSample(state: u64, upper: nat): u64
    requires 0 < upper < TWO_TO_THE_64
  {
    StateAfter(state, FirstAccepted(state, upper, 0) + 1)
  }

  /** Call number `k` is the one whose draw is taken: it is below the zone, and none before it is. */
  ghost predicate Accepts(state: u64, upper: nat, k: nat)
    requires 0 < upper < TWO_TO_THE_64
  {
    Draw(state, k) < Zone(upper) && forall j :: 0 <= j < k ==> Draw(state, j) >= Zone(upper)
  }

  /** The sample is the first accepted draw, reduced; which draw that is, is fixed. */
  lemma {:induction false} SampleIsFirstAccepted(state: u64, upper: nat, k: nat)
    requires 0 < upper < TWO_TO_THE_64 && Accepts(state, upper, k)
    ensures Sample(state, upper) == Draw(state, k) % upper
    ensures StateAfterSample(state, upper) == StateAfter(state, k + 1)
  {
    FirstAcceptedIsFirst(state, upper, 0);
    assert FirstAccepted(state, upper, 0) == k;
  }

  // ---- Samples over all states ----

  /** The states whose first draw is accepted and that sample to `residue`. */
  ghost function StatesSampling(upper: nat, residue: nat): set<nat>
    requires 0 < upper < TWO_TO_THE_64
  {
    set s: nat | s < TWO_TO_THE_64 && Draw(s, 0) < Zone(upper) && Sample(s, upper) == residue
  }

  /** The states after so many draws from zero, and one more. */
  ghost function StatesAfter(counts: set<nat>): set<nat> {
    set n: nat | n in counts :: StateAfter(0, n + 1)
  }

  lemma {:induction false} StatesAfterDiffer(counts: set<nat>)
    requires forall n :: n in counts ==> n < TWO_TO_THE_64
    ensures |StatesAfter(counts)| == |counts|
    decreases |counts|
  {
    if counts == {} {
      assert StatesAfter(counts) == {};
    } else {
      var n :| n in counts;
      StatesAfterDiffer(counts - {n});
      OneStateMore(counts, n);
    }
  }

  lemma {:induction false} OneStateMore(counts: set<nat>, n: nat)
    requires n in counts && forall m :: m in counts ==> m < TWO_TO_THE_64
    ensures StateAfter(0, n + 1) !in StatesAfter(counts - {n})
    ensures StatesAfter(counts) == StatesAfter(counts - {n}) + {StateAfter(0, n + 1)}
  {
    if StateAfter(0, n + 1) in StatesAfter(counts - {n}) {
      var m :| m in counts - {n} && StateAfter(0, n + 1) == StateAfter(0, m + 1);
      StepsAreUnique(0, m, n);
    }
    var target := StateAfter(0, n + 1);
    forall s | s in StatesAfter(counts)
      ensures s in StatesAfter(counts - {n}) + {target}
    {
      var m :| m in counts && s == StateAfter(0, m + 1);
      assert m == n || m in counts - {n};
    }
    assert target in StatesAfter(counts);
  }

  lemma {:induction false} SamplesAtOnce(s: u64, upper: nat)
    requires 0 < upper < TWO_TO_THE_64 && Draw(s, 0) < Zone(upper)
    ensures Sample(s, upper) == Draw(s, 0) % upper
  {
    SampleIsFirstAccepted(s, upper, 0);
  }

  lemma {:induction false} DrawFrom(n: nat)
    ensures Draw(StateAfter(0, n + 1), 0) == Draw(StateAfter(0, 1), n)
  {
    StateSplits(0, n + 1, 1);
    StateSplits(0, 1, n + 1);
  }

  lemma {:induction false} StateIsReached(s: u64) returns (n: nat)
    ensures n < TWO_TO_THE_64 && StateAfter(0, n + 1) == s
  {
    StepsToState(0, s);
    n := ((s as int - 0) * INCREMENT_INVERSE - 1) % TWO_TO_THE_64;
  }

  /** A state samples to `residue` at once exactly if the draw that comes after it does. */
  lemma {:induction false} StateIsCounted(upper: nat, residue: nat, s: u64, n: nat)
    requires residue < upper < TWO_TO_THE_64 && n < TWO_TO_THE_64 && StateAfter(0, n + 1) == s
    ensures s in StatesSampling(upper, residue) <==> s in StatesAfter(SamplesOf(StateAfter(0, 1), upper, residue))
  {
    DrawFrom(n);
    StateIsNumbered(SamplesOf(StateAfter(0, 1), upper, residue), n);
    SamplesIff(upper, residue, s);
  }

  lemma {:induction false} SamplesIff(upper: nat, residue: nat, s: u64)
    requires residue < upper < TWO_TO_THE_64
    ensures s in StatesSampling(upper, residue) <==> Draw(s, 0) < Zone(upper) && Draw(s, 0) % upper == residue
  {
    if Draw(s, 0) < Zone(upper) {
      SamplesAtOnce(s, upper);
    }
  }

  lemma {:induction false} StateIsNumbered(counts: set<nat>, n: nat)
    requires n < TWO_TO_THE_64 && forall m :: m in counts ==> m < TWO_TO_THE_64
    ensures StateAfter(0, n + 1) in StatesAfter(counts) <==> n in counts
  {
    var s := StateAfter(0, n + 1);
    if s in StatesAfter(counts) {
      var m :| m in counts && s == StateAfter(0, m + 1);
      StepsAreUnique(0, m, n);
    }
  }

  /** Of all states, equally many sample each value below `upper` with their first draw. */
  lemma {:induction false} StatesSampleUniformly(upper: nat, residue: nat)
    requires residue < upper < TWO_TO_THE_64
    ensures |StatesSampling(upper, residue)| == U64_MAX / upper
  {
    var counts := SamplesOf(StateAfter(0, 1), upper, residue);
    SamplesAreUniform(StateAfter(0, 1), upper, residue);
    StatesAfterDiffer(counts);
    forall s: nat | s < TWO_TO_THE_64
      ensures s in StatesSampling(upper, residue) <==> s in StatesAfter(counts)
    {
      var n := StateIsReached(s);
      StateIsCounted(upper, residue, s, n);
    }
    assert StatesSampling(upper, residue) == StatesAfter(counts);
  }

  // ---- Random bytes ----

  /** The `n` lowest bytes of a word, the lowest first. */
  function LeBytes(value: nat, n: nat): (b: seq<byte>)
    ensures |b| == n
  {
    if n == 0 then [] else [value % 0x100] + LeBytes(value / 0x100, n - 1)
  }

  function FromLeBytes(b: seq<byte>): nat {
    if b == [] then 0 else b[0] + 0x100 * FromLeBytes(b[1..])
  }

  function BytePower(n: nat): nat {
    if n == 0 then 1 else 0x100 * BytePower(n - 1)
  }

  lemma {:induction false} FromLeBytesInverts(value: nat, n: nat)
    requires value < BytePower(n)
    ensures FromLeBytes(LeBytes(value, n)) == value
  {
    if n > 0 {
      FromLeBytesInverts(value / 0x100, n - 1);
    }
  }

  /** The `i`th byte that a generator in this state produces. */
  function RandomByte(state: u64, i: nat): byte {
    LeBytes(Draw(state, i / 8), 8)[i % 8]
  }

  lemma {:induction false} ByteOfWord(state: u64, n: nat, i: nat)
    requires 8 * n <= i < 8 * n + 8
    ensures RandomByte(state, i) == LeBytes(Draw(state, n), 8)[i - 8 * n]
  {
    assert i / 8 == n && i % 8 == i - 8 * n;
  }

  /** Whole words at a time, a buffer can be filled in parts, and every eight bytes are one draw. */
  lemma {:induction false} FillsInParts(state: u64, words: nat, i: nat)
    ensures RandomByte(state, 8 * words + i) == RandomByte(StateAfter(state, words), i)
  {
    var k, j := i / 8, i % 8;
    assert i == 8 * k + j;
    ByteOfWord(state, words + k, 8 * words + i);
    ByteOfWord(StateAfter(state, words), k, i);
    DrawsGoOn(state, words, k);
  }

  lemma {:induction false} DrawsGoOn(state: u64, words: nat, k: nat)
    ensures Draw(state, words + k) == Draw(StateAfter(state, words), k)
  {
    StateSplits(state, words, k + 1);
    assert words + (k + 1) == words + k + 1;
  }

  class DeterministicRng {
    var state: u64

    constructor FromSeed(seed: u64)
      ensures state == Mix(seed)
    {
      state := Mix(seed);
    }

    method NextU64() returns (value: u64)
      modifies this
      ensures state == StateAfter(old(state), 1)
      ensures value == Draw(old(state), 0)
    {
      state := WrappingAdd(state, INCREMENT);
      value := Mix(state);
    }

    /** Total for every state and bound: the loop ends within one period. */
    method Below(upper: u64) returns (r: Option<u64>)
      modifies this
      ensures upper == 0 ==> r == None && state == old(state)
      ensures upper != 0 ==> exists k: nat :: Accepts(old(state), upper, k) && state == StateAfter(old(state), k + 1)
                                              && r == Some(Draw(old(state), k) % upper)
      ensures upper != 0 ==> r == Some(Sample(old(state), upper)) && state == StateAfterSample(old(state), upper)
    {
      if upper == 0 {
        return None;
      }
      var zone := U64_MAX - U64_MAX % upper;
      ghost var start, n := state, 0;
      FirstAcceptedIsFirst(start, upper, 0);
      while true
        invariant n <= FirstAccepted(start, upper, 0)
        invariant state == StateAfter(start, n)
        decreases FirstAccepted(start, upper, 0) - n
      {
        var value := NextU64();
        StateSplits(start, n, 1);
        assert value == Draw(start, n);
        if value < zone {
          assert Accepts(start, upper, n);
          return Some(value % upper);
        }
        n := n + 1;
      }
    }

    static method StoreWord(output: array<byte>, at: nat, value: u64, len: nat)
      requires at + len <= output.Length && len <= 8
      modifies output
      ensures forall i :: at <= i < at + len ==> output[i] == LeBytes(value, 8)[i - at]
      ensures forall i :: 0 <= i < output.Length && !(at <= i < at + len) ==> output[i] == old(output[i])
    {
      var bytes := LeBytes(value, 8);
      forall i | at <= i < at + len {
        output[i] := bytes[i - at];
      }
    }

    /** Fills a buffer with the bytes of successive draws; the last draw may be used in part. */
    method FillBytes(output: array<byte>)
      modifies this, output
      ensures forall i :: 0 <= i < output.Length ==> output[i] == RandomByte(old(state), i)
      ensures state == StateAfter(old(state), (output.Length + 7) / 8)
    {
      ghost var start, n := state, 0;
      var at := 0;
      while at < output.Length
        invariant at <= output.Length && (at == 8 * n || (at == output.Length && 8 * n - 8 < at < 8 * n))
        invariant state == StateAfter(start, n)
        invariant forall i :: 0 <= i < at ==> output[i] == RandomByte(start, i)
      {
        var value := NextU64();
        StateSplits(start, n, 1);
        assert value == Draw(start, n);
        var len := if output.Length - at < 8 then output.Length - at else 8;
        forall i | at <= i < at + len
          ensures RandomByte(start, i) == LeBytes(value, 8)[i - at]
        {
          ByteOfWord(start, n, i);
        }
        StoreWord(output, at, value, len);
        at, n := at + len, n + 1;
      }
    }
  }
}
