/** `TimerValue`: a 64-bit time in two 32-bit words, and the clock that extends a 32-bit counter. */
module TimerClock {

  const WORD := 0x1_0000_0000
  const WRAP_LIMIT := 10000

  newtype uint32 = x: int | 0 <= x < 0x1_0000_0000

  datatype TimerValue = TimerValue(lo: uint32, hi: uint32) {
    function Value(): nat
    {
      hi as nat * WORD + lo as nat
    }

    /** Any 32-bit delay can be added without passing 2^64. */
    predicate Roomy()
    {
      hi as nat + 1 < WORD
    }

    /** `operator+=`: word addition with carry. */
    function Plus(a: uint32): TimerValue
    {
      var sum := ((lo as nat + a as nat) % WORD) as uint32;
      TimerValue(sum, if sum < a then ((hi as nat + 1) % WORD) as uint32 else hi)
    }
  }

  function Compare(a: TimerValue, b: TimerValue): int
  {
    if a.hi < b.hi then -1
    else if a.hi > b.hi then 1
    else if a.lo < b.lo then -1
    else if a.lo > b.lo then 1
    else 0
  }

  predicate Later(a: TimerValue, b: TimerValue)
  {
    Compare(a, b) > 0
  }

  predicate Earlier(a: TimerValue, b: TimerValue)
  {
    Compare(a, b) < 0
  }

  /** The carry makes `+=` addition modulo 2^64. */
  lemma PlusIsAddition(t: TimerValue, a: uint32)
    ensures t.Plus(a).Value() == (t.Value() + a as nat) % (WORD * WORD)
  {
    var lo, hi, n := t.lo as nat, t.hi as nat, a as nat;
    if lo + n < WORD {
      assert (lo + n) % WORD == lo + n;
      assert t.Value() + n < WORD * WORD;
    } else {
      assert (lo + n) % WORD == lo + n - WORD;
      if hi + 1 < WORD {
        assert t.Value() + n < WORD * WORD;
      } else {
        assert t.Value() + n == WORD * WORD + (lo + n - WORD);
      }
    }
  }

  lemma PlusBelowOverflow(t: TimerValue, a: uint32)
    requires t.Roomy()
    ensures t.Plus(a).Value() == t.Value() + a as nat
  {
    PlusIsAddition(t, a);
    assert t.Value() + a as nat < WORD * WORD;
  }

  /** `compare` is the order of the 64-bit values. */
  lemma CompareIsOrder(a: TimerValue, b: TimerValue)
    ensures Earlier(a, b) <==> a.Value() < b.Value()
    ensures Later(a, b) <==> a.Value() > b.Value()
    ensures Compare(a, b) == 0 <==> a == b
  {
  }

  // ---- Extending the counter

  /** What one tick makes of the current time when the 32-bit counter reads `sample`. */
  function Tick(cur: TimerValue, sample: uint32): TimerValue
  {
    if sample < cur.lo && sample < WRAP_LIMIT as uint32
    then TimerValue(sample, ((cur.hi as nat + 1) % WORD) as uint32)
    else TimerValue(sample, cur.hi)
  }

  /** `cur` is the true millisecond count `t`, counted from the high word `base` at the start. */
  ghost predicate Tracks(cur: TimerValue, t: nat, base: nat)
  {
    cur.lo as nat == t % WORD && base + cur.hi as nat == t / WORD
  }

  /** A tick of a clock at `t` that next samples at `u` sees at most one wrap, and sees it early. */
  ghost predicate GoodGap(t: nat, u: nat)
  {
    t <= u < t + 0x1_0000_0000 && (u / WORD > t / WORD ==> u % WORD < 10000)
  }

  /** The clock stays right over a tick exactly when the gap is good. */
  lemma TickTracksIff(cur: TimerValue, t: nat, u: nat, base: nat)
    requires Tracks(cur, t, base) && t <= u && u / WORD - base < WORD
    ensures Tracks(Tick(cur, (u % WORD) as uint32), u, base) <==> GoodGap(t, u)
  {
    var p, q, x, y := t / WORD, u / WORD, t % WORD, u % WORD;
    assert t == p * WORD + x && u == q * WORD + y;
    if q == p {
    } else if q == p + 1 {
      assert u - t == WORD + y - x;
    } else {
      assert q >= p + 2;
      assert u - t > WORD;
    }
  }

  /** The counter never goes back. */
  ghost predicate Monotone(t: nat, times: seq<nat>)
  {
    forall i :: 0 <= i < |times| ==> TimeAt(t, times, i) <= times[i]
  }

  /** The true count after `n` ticks at `times`. */
  ghost function TimeAt(t: nat, times: seq<nat>, n: nat): nat
    requires n <= |times|
  {
    if n == 0 then t else times[n - 1]
  }

  ghost function TickAll(cur: TimerValue, times: seq<nat>): TimerValue
  {
    if times == [] then cur
    else Tick(TickAll(cur, times[..|times| - 1]), (times[|times| - 1] % WORD) as uint32)
  }

  ghost predicate GoodGaps(t: nat, times: seq<nat>)
  {
    forall i :: 0 <= i < |times| ==> GoodGap(TimeAt(t, times, i), times[i])
  }

  /** The 64-bit clock does not overflow. */
  ghost predicate Fits(base: nat, times: seq<nat>)
  {
    forall i :: 0 <= i < |times| ==> times[i] / WORD - base < WORD
  }

  /** Over any run of good gaps the extended clock is the 64-bit clock. */
  lemma {:induction false} ClockTracks(cur: TimerValue, t: nat, base: nat, times: seq<nat>)
    requires Tracks(cur, t, base) && GoodGaps(t, times) && Fits(base, times)
    ensures Tracks(TickAll(cur, times), TimeAt(t, times, |times|), base)
  {
    if times != [] {
      var n := |times| - 1;
      var before := times[..n];
      assert GoodGaps(t, before) by {
        assert forall i :: 0 <= i < n ==> TimeAt(t, before, i) == TimeAt(t, times, i);
      }
      ClockTracks(cur, t, base, before);
      assert TimeAt(t, before, n) == TimeAt(t, times, n);
      TickTracksIff(TickAll(cur, before), TimeAt(t, times, n), times[n], base);
    }
  }

  /** The clock is right after each of the ticks. */
  ghost predicate AlwaysTracks(cur: TimerValue, t: nat, base: nat, times: seq<nat>)
  {
    forall n :: 0 <= n <= |times| ==> Tracks(TickAll(cur, times[..n]), TimeAt(t, times, n), base)
  }

  /** The clock is right after every tick of a run exactly when every gap of the run is good. */
  lemma ClockTracksIff(cur: TimerValue, t: nat, base: nat, times: seq<nat>)
    requires Tracks(cur, t, base) && Monotone(t, times) && Fits(base, times)
    ensures AlwaysTracks(cur, t, base, times) <==> GoodGaps(t, times)
  {
    if GoodGaps(t, times) {
      forall n | 0 <= n <= |times| ensures Tracks(TickAll(cur, times[..n]), TimeAt(t, times, n), base) {
        assert forall i :: 0 <= i < n ==> TimeAt(t, times[..n], i) == TimeAt(t, times, i);
        ClockTracks(cur, t, base, times[..n]);
        assert TimeAt(t, times[..n], n) == TimeAt(t, times, n);
      }
    }
    if AlwaysTracks(cur, t, base, times) {
      forall i | 0 <= i < |times| ensures GoodGap(TimeAt(t, times, i), times[i]) {
        assert times[..i + 1][..i] == times[..i];
        assert Tracks(TickAll(cur, times[..i]), TimeAt(t, times, i), base);
        assert Tracks(TickAll(cur, times[..i + 1]), TimeAt(t, times, i + 1), base);
        TickTracksIff(TickAll(cur, times[..i]), TimeAt(t, times, i), times[i], base);
      }
    }
  }

  /** A wrap first seen 10000 ms late is lost: the clock falls back by 2^32.  One millisecond earlier it is kept. */
  lemma LateWrapIsLost()
    ensures var cur, t, u := TimerValue(0xFFFF_FFFF, 0), 0xFFFF_FFFF, 0x1_0000_2710;
            Tracks(cur, t, 0) && t <= u < t + WORD
            && Tick(cur, (u % WORD) as uint32).Value() == u - WORD
    ensures Tick(TimerValue(0xFFFF_FFFF, 0), 9999) == TimerValue(9999, 1)
  {
  }
}
