/** Clock and queue together: what a sequence of rounds of the timer thread comes to. */
module TimerRuns {
  import opened Sequences
  import opened TimerClock
  import opened TimerSpec

  /** The clock, the queue, and every firing so far. */
  datatype Timers<T> = Timers(cur: TimerValue, q: seq<Entry<T>>, log: seq<Entry<T>>)

  /** One round of `ThreadProc`, when the counter reads `sample`. */
  ghost function Round<T>(s: Timers<T>, sample: uint32): Timers<T>
  {
    var cur := Tick(s.cur, sample);
    if sample == s.cur.lo then s
    else Timers(cur, CatchUp(s.q, cur.Value()).0, s.log + CatchUp(s.q, cur.Value()).1)
  }

  ghost function Rounds<T>(s: Timers<T>, samples: seq<uint32>): Timers<T>
  {
    if samples == [] then s else Round(Rounds(s, samples[..|samples| - 1]), samples[|samples| - 1])
  }

  /** The low words of the true counts. */
  ghost function Samples(times: seq<nat>): (r: seq<uint32>)
    ensures |r| == |times| && forall i :: 0 <= i < |r| ==> r[i] as nat == times[i] % WORD
  {
    seq(|times|, i requires 0 <= i < |times| => (times[i] % WORD) as uint32)
  }

  lemma {:induction false} ClockOfRounds<T>(s: Timers<T>, times: seq<nat>)
    ensures Rounds(s, Samples(times)).cur == TickAll(s.cur, times)
  {
    if times != [] {
      var n := |times| - 1;
      assert Samples(times)[..n] == Samples(times[..n]);
      ClockOfRounds(s, times[..n]);
    }
  }

  /** The value of a clock that is right. */
  lemma TracksValue(cur: TimerValue, t: nat, base: nat)
    requires Tracks(cur, t, base)
    ensures cur.Value() == t - base * WORD
  {
  }

  /** A queue without late timers stays as it is while the clock stands still. */
  lemma NothingDue<T>(q: seq<Entry<T>>, now: nat)
    requires NoneLate(q, now)
    ensures CatchUp(q, now) == (q, [])
  {
  }

  lemma Append<T>(log: seq<T>, a: seq<T>, b: seq<T>, c: seq<T>)
    requires c == a + b
    ensures (log + a) + b == log + c
  {
  }

  lemma CatchUpExtends<T>(q: seq<Entry<T>>, log: seq<Entry<T>>, mid: nat, now: nat, q': seq<Entry<T>>, log': seq<Entry<T>>)
    requires mid <= now && q' == CatchUp(q, mid).0 && log' == log + CatchUp(q, mid).1
    ensures CatchUp(q', now).0 == CatchUp(q, now).0
    ensures log' + CatchUp(q', now).1 == log + CatchUp(q, now).1
  {
    CatchUpComposes(q, mid, now);
    Append(log, CatchUp(q, mid).1, CatchUp(q', now).1, CatchUp(q, now).1);
  }

  /** The timers `r` are what one catch-up makes of `s`. */
  ghost predicate OneCatchUp<T>(s: Timers<T>, r: Timers<T>, now: nat)
  {
    r.cur.Value() == now && r.q == CatchUp(s.q, now).0 && r.log == s.log + CatchUp(s.q, now).1
  }

  /** One more round, when the rounds before it were one catch-up. */
  lemma RoundExtends<T>(s: Timers<T>, r: Timers<T>, sample: uint32, mid: nat, now: nat)
    requires OneCatchUp(s, r, mid) && Tick(r.cur, sample).Value() == now >= mid
    requires sample == r.cur.lo ==> mid == now
    ensures OneCatchUp(s, Round(r, sample), now)
  {
    if sample != r.cur.lo {
      CatchUpExtends(s.q, s.log, mid, now, r.q, r.log);
    }
  }

  lemma FewerTimes(t: nat, times: seq<nat>, n: nat)
    requires n <= |times|
    ensures forall i :: 0 <= i <= n ==> TimeAt(t, times[..n], i) == TimeAt(t, times, i)
  {
  }

  /** While the gaps are good, any number of rounds is one catch-up at the last true count. */
  lemma {:induction false} RoundsAreOneCatchUp<T>(s: Timers<T>, t: nat, base: nat, times: seq<nat>, now: nat)
    requires NoneLate(s.q, s.cur.Value()) && Tracks(s.cur, t, base) && GoodGaps(t, times) && Fits(base, times)
    requires now == TimeAt(t, times, |times|) - base * WORD
    ensures OneCatchUp(s, Rounds(s, Samples(times)), now)
    decreases |times|
  {
    ClockTracks(s.cur, t, base, times);
    TracksValue(TickAll(s.cur, times), TimeAt(t, times, |times|), base);
    if times == [] {
      NothingDue(s.q, s.cur.Value());
    } else {
      var n := |times| - 1;
      var before := times[..n];
      FewerTimes(t, times, n);
      ClockTracks(s.cur, t, base, before);
      TracksValue(TickAll(s.cur, before), TimeAt(t, times, n), base);
      var mid := TimeAt(t, times, n) - base * WORD;
      RoundsAreOneCatchUp(s, t, base, before, mid);
      assert Samples(times)[..n] == Samples(before);
      ClockOfRounds(s, before);
      if times[n] % WORD == TickAll(s.cur, before).lo as nat {
        StandsStill(TickAll(s.cur, before), TimeAt(t, times, n), times[n], base);
      }
      RoundExtends(s, Rounds(s, Samples(before)), Samples(times)[n], mid, now);
    }
  }

  /** Over a good gap the low word stays the same only if no time passes. */
  lemma StandsStill(cur: TimerValue, t: nat, u: nat, base: nat)
    requires Tracks(cur, t, base) && GoodGap(t, u) && u % WORD == cur.lo as nat
    ensures u == t
  {
  }

  /**
   Whatever the samples in between: if every gap is good, then after any number of rounds each timer
   queued at the start has fired at exactly the deadlines its plan has up to the true time, all
   firings came in the order of their deadlines, and nothing is late.
   */
  lemma FiredByTheTrueClock<T>(s: Timers<T>, t: nat, base: nat, times: seq<nat>, e: Entry<T>, now: nat)
    requires Sorted(s.q) && DistinctIds(s.q) && NoneLate(s.q, s.cur.Value()) && e in s.q && s.log == []
    requires Tracks(s.cur, t, base) && GoodGaps(t, times) && Fits(base, times)
    requires now == TimeAt(t, times, |times|) - base * WORD
    ensures var r := Rounds(s, Samples(times));
            && r.cur.Value() == now && NoneLate(r.q, now) && Sorted(r.log)
            && FiringsOf(r.log, e.id) == Plan(e, now)
            && (e.period > 0 ==> Settled(e, now) in r.q)
  {
    RoundsAreOneCatchUp(s, t, base, times, now);
    OneCatchUpIsExact(s, Rounds(s, Samples(times)), now, e);
  }

  lemma OneCatchUpIsExact<T>(s: Timers<T>, r: Timers<T>, now: nat, e: Entry<T>)
    requires Sorted(s.q) && DistinctIds(s.q) && e in s.q && s.log == [] && OneCatchUp(s, r, now)
    ensures NoneLate(r.q, now) && Sorted(r.log) && FiringsOf(r.log, e.id) == Plan(e, now)
    ensures e.period > 0 ==> Settled(e, now) in r.q
  {
    assert r.log == CatchUp(s.q, now).1;
    CatchUpExact(s.q, now, e);
    CatchUpSettles(s.q, now);
    FiringOrder(s.q, now);
  }
}
