/** The sending loop of src/robot/src/main/kotlin/hello/Robot.kt against its clock. */
module Robot {

  /** The two clock readings of an iteration that matter: on top, and before it goes to sleep. */
  datatype Tick = Tick(time: int, after: int)

  /** How long the loop asks to sleep; nothing when it is late. */
  function Sleep(t: Tick): int {
    t.time + 1000 - t.after
  }

  /** A monotone clock on which a delay lasts at least as long as asked for. */
  ghost predicate Clock(ts: seq<Tick>) {
    && (forall i :: 0 <= i < |ts| ==> ts[i].time <= ts[i].after)
    && (forall i :: 0 <= i < |ts| - 1 ==>
          ts[i + 1].time >= ts[i].after + (if Sleep(ts[i]) > 0 then Sleep(ts[i]) else 0))
  }

  function Times(ts: seq<Tick>): (times: seq<int>)
    ensures |times| == |ts|
    ensures forall i :: 0 <= i < |ts| ==> times[i] == ts[i].time
  {
    seq(|ts|, i requires 0 <= i < |ts| => ts[i].time)
  }

  /** When a gate that opens once a period lets something through, the last time being given. */
  function Gate(last: int, period: int, times: seq<int>): seq<int>
    decreases |times|
  {
    if times == [] then []
    else if last + period <= times[0] then [times[0]] + Gate(times[0], period, times[1..])
    else Gate(last, period, times[1..])
  }

  lemma {:induction false} GateSnoc(last: int, period: int, times: seq<int>, t: int)
    ensures var sent := Gate(last, period, times);
            Gate(last, period, times + [t]) == if LastSent(last, sent) + period <= t then sent + [t] else sent
    decreases |times|
  {
    if times == [] {
      assert times + [t] == [t];
      assert Gate(t, period, []) == [];
    } else {
      var last' := if last + period <= times[0] then times[0] else last;
      assert (times + [t])[1..] == times[1..] + [t];
      GateSnoc(last', period, times[1..], t);
    }
  }

  function LastSent(last: int, sent: seq<int>): int {
    if sent == [] then last else sent[|sent| - 1]
  }

  /** The loop: when live states and nearby searches are sent. */
  method Run(clock: seq<Tick>) returns (states: seq<int>, nearby: seq<int>)
    ensures states == Gate(0, 3000, Times(clock))
    ensures nearby == Gate(0, 5000, Times(clock))
  {
    var stateTime, nearbyTime := 0, 0;
    states, nearby := [], [];
    ghost var times := Times(clock);
    var i := 0;
    while i < |clock|
      invariant 0 <= i <= |clock|
      invariant states == Gate(0, 3000, times[..i]) && stateTime == LastSent(0, states)
      invariant nearby == Gate(0, 5000, times[..i]) && nearbyTime == LastSent(0, nearby)
    {
      var time := clock[i].time;
      assert times[..i + 1] == times[..i] + [time];
      GateSnoc(0, 3000, times[..i], time);
      GateSnoc(0, 5000, times[..i], time);
      if stateTime + 3000 <= time {
        stateTime := time;
        states := states + [time];
      }
      if nearbyTime + 5000 <= time {
        nearbyTime := time;
        nearby := nearby + [time];
      }
      i := i + 1;
    }
    assert times[..|clock|] == times;
  }

  // The clock

  ghost predicate Advances(times: seq<int>) {
    forall i :: 0 <= i < |times| - 1 ==> times[i + 1] >= times[i] + 1000
  }

  /** Late or in time, iterations start at least a second apart. */
  lemma IterationsAdvance(ts: seq<Tick>)
    requires Clock(ts)
    ensures Advances(Times(ts))
  {
  }

  lemma AdvancesTail(times: seq<int>)
    requires Advances(times) && times != []
    ensures Advances(times[1..]) && times[|times| - 1] >= times[0]
    decreases |times|
  {
    forall i | 0 <= i < |times[1..]| - 1
      ensures times[1..][i + 1] >= times[1..][i] + 1000
    {
      assert times[1..][i] == times[i + 1];
    }
    if |times| > 1 {
      AdvancesTail(times[1..]);
    }
  }

  // At most

  ghost predicate SpacedBy(sent: seq<int>, period: int) {
    forall i :: 0 <= i < |sent| - 1 ==> sent[i + 1] >= sent[i] + period
  }

  /** Whatever is sent is sent at least a period after what was sent before it. */
  lemma {:induction false} Spaced(last: int, period: nat, times: seq<int>)
    ensures var sent := Gate(last, period, times);
            SpacedBy(sent, period) && (sent != [] ==> sent[0] >= last + period)
    decreases |times|
  {
    if times == [] {
    } else {
      Spaced(if last + period <= times[0] then times[0] else last, period, times[1..]);
    }
  }

  lemma {:induction false} SentFromLast(last: int, period: nat, times: seq<int>)
    requires Advances(times) && times != []
    ensures Gate(last, period, times) != [] ==> |Gate(last, period, times)| * period <= times[|times| - 1] - last
    decreases |times|
  {
    AdvancesTail(times);
    var last' := if last + period <= times[0] then times[0] else last;
    if |times| > 1 {
      SentFromLast(last', period, times[1..]);
    }
    var rest := Gate(last', period, times[1..]);
    assert (|rest| + 1) * period == |rest| * period + period;
    assert rest == [] ==> |rest| * period == 0;
  }

  /** Over any stretch of time at most one more is sent than periods fit into it. */
  lemma {:induction false} AtMost(last: int, period: nat, times: seq<int>)
    requires Advances(times) && times != []
    ensures |Gate(last, period, times)| * period <= times[|times| - 1] - times[0] + period
    decreases |times|
  {
    AdvancesTail(times);
    if last + period <= times[0] {
      var rest := Gate(times[0], period, times[1..]);
      if |times| > 1 {
        SentFromLast(times[0], period, times[1..]);
      }
      assert rest == [] ==> |rest| * period == 0;
      assert (|rest| + 1) * period == |rest| * period + period;
    } else if |times| > 1 {
      AtMost(last, period, times[1..]);
    } else {
      assert Gate(last, period, times) == [];
    }
  }

  // At least

  /** If the gate is sure to open within j more iterations, a period being k of them, then of n iterations at least
      one in every k sends, counted from the j-th. */
  lemma {:induction false} SentWithin(last: int, k: nat, j: nat, times: seq<int>)
    requires Advances(times) && j < k
    requires times != [] ==> last + k * 1000 <= times[0] + j * 1000
    ensures |Gate(last, k * 1000, times)| * k >= |times| - j
    decreases |times|
  {
    if times == [] {
    } else {
      AdvancesTail(times);
      if last + k * 1000 <= times[0] {
        var rest := Gate(times[0], k * 1000, times[1..]);
        SentWithin(times[0], k, k - 1, times[1..]);
        assert (|rest| + 1) * k == |rest| * k + k;
      } else {
        SentWithin(last, k, j - 1, times[1..]);
      }
    }
  }

  // The robot

  /** The rates over a whole run: sends keep their distance, over the time the iterations take there are not too
      many, and on a clock that starts at least a period late not too few. */
  lemma SendRates(clock: seq<Tick>)
    requires Clock(clock) && clock != []
    ensures var states, nearby := Gate(0, 3000, Times(clock)), Gate(0, 5000, Times(clock));
            var n, elapsed := |clock|, clock[|clock| - 1].time - clock[0].time;
            && SpacedBy(states, 3000) && SpacedBy(nearby, 5000)
            && |states| <= 1 + elapsed / 3000 && |nearby| <= 1 + elapsed / 5000
            && (clock[0].time >= 3000 ==> |states| >= (n + 2) / 3)
            && (clock[0].time >= 5000 ==> |nearby| >= (n + 4) / 5)
  {
    var times := Times(clock);
    IterationsAdvance(clock);
    Spaced(0, 3000, times);
    Spaced(0, 5000, times);
    AtMost(0, 3000, times);
    AtMost(0, 5000, times);
    if clock[0].time >= 3000 {
      SentWithin(0, 3, 0, times);
    }
    if clock[0].time >= 5000 {
      SentWithin(0, 5, 0, times);
    }
  }

  /** The loop's 180 iterations. */
  lemma FullRun(clock: seq<Tick>)
    requires Clock(clock) && |clock| == 180 && clock[0].time >= 5000
    ensures |Gate(0, 3000, Times(clock))| >= 60 && |Gate(0, 5000, Times(clock))| >= 36
  {
    SendRates(clock);
  }

  /** On a clock by which every iteration starts just a second after the one before it is no more than that. */
  lemma SteadyRun(clock: seq<Tick>, start: int)
    requires |clock| == 180 && start >= 5000
    requires forall i :: 0 <= i < 180 ==> clock[i] == Tick(start + 1000 * i, start + 1000 * i)
    ensures Clock(clock)
    ensures |Gate(0, 3000, Times(clock))| == 60 && |Gate(0, 5000, Times(clock))| == 36
  {
    FullRun(clock);
    SendRates(clock);
  }
}
