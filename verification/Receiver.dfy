/** my_message_callback of src/mqtt/mqttest.cc: filter, dump, count, and hang up after the agreed number. */
module Receiver {
  import opened Options

  datatype Incoming = Incoming(topic: string, retain: bool, payload: seq<bv8>)

  /** mosquitto's topic matching, which is not part of this model. */
  type Matching = (string, string) -> bool

  /** The globals the callback works on, what it has passed to dump_mqtt, and its calls of mosquitto_disconnect. */
  datatype State = State(processing: bool, count: int, dumped: seq<Incoming>, disconnects: nat)

  const FRESH := State(true, 0, [], 0)

  /** Whether a message gets past the retain test and every filter. */
  predicate Survives(cfg: Subscribing, m: Incoming, matches: Matching) {
    && !(m.retain && cfg.noRetain)
    && forall i :: 0 <= i < |cfg.filterOuts| ==> !matches(cfg.filterOuts[i], m.topic)
  }

  function Receive(st: State, cfg: Subscribing, m: Incoming, matches: Matching): State {
    if !st.processing || !Survives(cfg, m, matches) then st
    else
      var dumped := st.dumped + [m];
      if cfg.msgCount <= 0 then st.(dumped := dumped)
      else if cfg.msgCount == st.count + 1 then State(false, st.count + 1, dumped, st.disconnects + 1)
      else State(true, st.count + 1, dumped, st.disconnects)
  }

  class Listener {
    var processMessages: bool
    var msgCount: int
    var dumped: seq<Incoming>
    var disconnects: nat

    constructor ()
      ensures View() == FRESH
    {
      processMessages, msgCount, dumped, disconnects := true, 0, [], 0;
    }

    function View(): State
      reads this
    {
      State(processMessages, msgCount, dumped, disconnects)
    }

    method OnMessage(cfg: Subscribing, m: Incoming, matches: Matching)
      requires cfg.filterOutCount == |cfg.filterOuts|
      modifies this
      ensures View() == Receive(old(View()), cfg, m, matches)
    {
      if !processMessages {
        return;
      }
      if m.retain && cfg.noRetain {
        return;
      }
      var i := 0;
      while i < cfg.filterOutCount
        invariant 0 <= i <= |cfg.filterOuts|
        invariant forall k :: 0 <= k < i ==> !matches(cfg.filterOuts[k], m.topic)
      {
        if matches(cfg.filterOuts[i], m.topic) {
          return;
        }
        i := i + 1;
      }
      dumped := dumped + [m];
      if cfg.msgCount > 0 {
        msgCount := msgCount + 1;
        if cfg.msgCount == msgCount {
          processMessages := false;
          disconnects := disconnects + 1;
        }
      }
    }

    /** A stream of messages, delivered one by one. */
    method OnStream(cfg: Subscribing, ms: seq<Incoming>, matches: Matching)
      requires cfg.filterOutCount == |cfg.filterOuts| && View() == FRESH
      modifies this
      ensures View() == After(cfg, ms, matches)
    {
      var i := 0;
      assert ms[..0] == [];
      while i < |ms|
        invariant 0 <= i <= |ms| && View() == After(cfg, ms[..i], matches)
      {
        assert ms[..i + 1][..i] == ms[..i];
        OnMessage(cfg, ms[i], matches);
        i := i + 1;
      }
      assert ms[..|ms|] == ms;
    }
  }

  /** The state after a whole stream. */
  function After(cfg: Subscribing, ms: seq<Incoming>, matches: Matching): State {
    if ms == [] then FRESH
    else Receive(After(cfg, ms[..|ms| - 1], matches), cfg, ms[|ms| - 1], matches)
  }

  function Survivors(cfg: Subscribing, ms: seq<Incoming>, matches: Matching): seq<Incoming> {
    if ms == [] then []
    else
      var front := Survivors(cfg, ms[..|ms| - 1], matches);
      if Survives(cfg, ms[|ms| - 1], matches) then front + [ms[|ms| - 1]] else front
  }

  /** What one more message changes: it is dumped exactly when it is no retained message of a client that wants
      none, no filter matches its topic and the limit is not reached; with the limit reached, the client hangs up. */
  lemma NextMessage(cfg: Subscribing, ms: seq<Incoming>, m: Incoming, matches: Matching)
    ensures var st, st' := After(cfg, ms, matches), After(cfg, ms + [m], matches);
            var passes := !(m.retain && cfg.noRetain) && forall f :: f in cfg.filterOuts ==> !matches(f, m.topic);
            var room := cfg.msgCount <= 0 || |st.dumped| < cfg.msgCount;
            && st'.dumped == (if passes && room then st.dumped + [m] else st.dumped)
            && st'.disconnects == (if cfg.msgCount > 0 && |st'.dumped| == cfg.msgCount then 1 else 0)
  {
    assert (ms + [m])[..|ms|] == ms;
    if cfg.msgCount > 0 {
      FirstSurvivors(cfg, ms, matches);
    } else {
      AllSurvivors(cfg, ms, matches);
    }
  }

  /** Which messages get through: below the limit just those that came in, are not retained where that is not
      wanted, and whose topic no filter matches; at the limit no others. */
  lemma {:induction false} DumpedIff(cfg: Subscribing, ms: seq<Incoming>, m: Incoming, matches: Matching)
    ensures var dumped := After(cfg, ms, matches).dumped;
            var passes := !(m.retain && cfg.noRetain) && forall f :: f in cfg.filterOuts ==> !matches(f, m.topic);
            && (m in dumped ==> m in ms && passes)
            && (cfg.msgCount <= 0 || |dumped| < cfg.msgCount ==> (m in ms && passes ==> m in dumped))
  {
    if ms == [] {
    } else {
      var front, last := ms[..|ms| - 1], ms[|ms| - 1];
      assert ms == front + [last];
      DumpedIff(cfg, front, m, matches);
      NextMessage(cfg, front, last, matches);
    }
  }

  /** With a limit the messages dumped are exactly the first that survive the tests, up to the limit; the client
      hangs up once, when the limit is reached, and not before. */
  lemma {:induction false} FirstSurvivors(cfg: Subscribing, ms: seq<Incoming>, matches: Matching)
    requires cfg.msgCount > 0
    ensures var st, all, n := After(cfg, ms, matches), Survivors(cfg, ms, matches), cfg.msgCount;
            && st.dumped == (if |all| <= n then all else all[..n])
            && st.count == |st.dumped| <= n
            && st.processing == (|all| < n)
            && st.disconnects == (if |all| < n then 0 else 1)
  {
    if ms == [] {
    } else {
      FirstSurvivors(cfg, ms[..|ms| - 1], matches);
    }
  }

  /** Without a limit every survivor is dumped and the client never hangs up. */
  lemma {:induction false} AllSurvivors(cfg: Subscribing, ms: seq<Incoming>, matches: Matching)
    requires cfg.msgCount <= 0
    ensures After(cfg, ms, matches) == State(true, 0, Survivors(cfg, ms, matches), 0)
  {
    if ms == [] {
    } else {
      AllSurvivors(cfg, ms[..|ms| - 1], matches);
    }
  }
}
