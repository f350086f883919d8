/** What the firmware promises about its handlers, proved about the event
    sequences that the device's methods are shown to produce. */
module LaunchPadProperties {
  import opened DeviceIo
  import opened LaunchPad

  // ---------- relay activation ----------

  /** Filtering a pulse, event by event. */
  lemma PulseOnly(activeLow: bool, keep: Event -> bool)
    ensures var p := RelayPulse(activeLow);
      Only(p, keep) == Kept(p[0], keep) + Kept(p[1], keep) + Kept(p[2], keep)
                       + Kept(p[3], keep) + Kept(p[4], keep)
  {
    var p := RelayPulse(activeLow);
    var k0, k1, k2, k3, k4 := Kept(p[0], keep), Kept(p[1], keep), Kept(p[2], keep),
                              Kept(p[3], keep), Kept(p[4], keep);
    assert Only(p[..1], keep) == k0 by {
      assert p[..0] == [];
      OnlyPrefix(p, 0, keep);
    }
    assert Only(p[..2], keep) == k0 + k1 by {
      OnlyPrefix(p, 1, keep);
    }
    assert Only(p[..3], keep) == k0 + k1 + k2 by {
      OnlyPrefix(p, 2, keep);
    }
    assert Only(p[..4], keep) == k0 + k1 + k2 + k3 by {
      OnlyPrefix(p, 3, keep);
    }
    assert Only(p[..5], keep) == k0 + k1 + k2 + k3 + k4 by {
      OnlyPrefix(p, 4, keep);
    }
    assert p[..5] == p;
  }

  /** Replaying a pulse, event by event. */
  lemma PulseSteps(o: Outputs, activeLow: bool)
    ensures var p := RelayPulse(activeLow);
      && Replay(o, p[..0]) == o
      && Replay(o, p[..1]) == Step(o, p[0])
      && Replay(o, p[..2]) == Step(Replay(o, p[..1]), p[1])
      && Replay(o, p[..3]) == Step(Replay(o, p[..2]), p[2])
      && Replay(o, p[..4]) == Step(Replay(o, p[..3]), p[3])
      && Replay(o, p) == Step(Replay(o, p[..4]), p[4])
  {
    var p := RelayPulse(activeLow);
    assert p[..0] == [];
    ReplayPrefix(o, p, 0);
    ReplayPrefix(o, p, 1);
    ReplayPrefix(o, p, 2);
    ReplayPrefix(o, p, 3);
    ReplayPrefix(o, p, 4);
    assert p[..5] == p;
  }

  /** A pulse energises the relay once and rests it once, with the two
      polarities giving opposite levels; it waits exactly once, for the dwell
      time; it sends nothing; and whatever the levels before, it leaves the
      relay at rest and the LED pin HIGH. */
  lemma PulseReturnsToRest(o: Outputs, activeLow: bool)
    ensures Energised(activeLow) != Resting(activeLow)
    ensures Only(RelayPulse(activeLow), IsRelayWrite)
         == [Write(RelayPin, Energised(activeLow)), Write(RelayPin, Resting(activeLow))]
    ensures Only(RelayPulse(activeLow), IsDelay) == [Delay(RELAY_DWELL_MS)]
    ensures Only(RelayPulse(activeLow), IsSend) == []
    ensures Only(RelayPulse(activeLow), IsTone) == []
    ensures Replay(o, RelayPulse(activeLow)) == o.(relay := Resting(activeLow), led := High)
  {
    PulseOnly(activeLow, IsRelayWrite);
    PulseOnly(activeLow, IsDelay);
    PulseOnly(activeLow, IsSend);
    PulseOnly(activeLow, IsTone);
    PulseSteps(o, activeLow);
  }

  /** Starting from a relay at rest, the relay is energised exactly around
      the dwell delay (after the second event and after the third), and the
      LED pin is LOW whenever the relay is energised. */
  lemma PulseLedBracket(o: Outputs, activeLow: bool, k: nat)
    requires o.relay == Resting(activeLow)
    requires k <= |RelayPulse(activeLow)|
    ensures Replay(o, RelayPulse(activeLow)[..k]).relay == Energised(activeLow) <==> k == 2 || k == 3
    ensures Replay(o, RelayPulse(activeLow)[..k]).relay == Energised(activeLow)
            ==> Replay(o, RelayPulse(activeLow)[..k]).led == Low
    ensures RelayPulse(activeLow)[2] == Delay(RELAY_DWELL_MS)
  {
    PulseSteps(o, activeLow);
    assert RelayPulse(activeLow)[..5] == RelayPulse(activeLow);
  }

  // ---------- the countdown ----------

  /** `n` ticks are 2n events. */
  lemma {:induction false} TicksLength(n: nat)
    ensures |Ticks(n)| == 2 * n
  {
    if n > 0 {
      TicksLength(n - 1);
    }
  }

  /** The ticks alternate: a tick beep at every even position, a one-second
      wait at every odd one. */
  lemma {:induction false} TicksAt(n: nat, k: nat)
    requires k < n
    ensures |Ticks(n)| == 2 * n
    ensures Ticks(n)[2 * k] == Tone(TICK_FREQ, TICK_MS)
    ensures Ticks(n)[2 * k + 1] == Delay(TICK_PERIOD_MS)
  {
    if k < n - 1 {
      TicksAt(n - 1, k);
    } else if n > 1 {
      TicksAt(n - 1, 0);
    }
  }

  /** The ticks only beep and wait: they touch no pin and send nothing. */
  lemma TicksAreQuiet(o: Outputs, n: nat)
    ensures Only(Ticks(n), IsPinWrite) == []
    ensures Only(Ticks(n), IsRelayWrite) == []
    ensures Only(Ticks(n), IsSend) == []
    ensures Replay(o, Ticks(n)) == o
  {
    var t := Ticks(n);
    TicksLength(n);
    forall i | 0 <= i < |t|
      ensures t[i] == Tone(TICK_FREQ, TICK_MS) || t[i] == Delay(TICK_PERIOD_MS)
    {
      TicksAt(n, i / 2);
    }
    OnlyNone(t, IsPinWrite);
    OnlyNone(t, IsRelayWrite);
    OnlyNone(t, IsSend);
    ReplayWithoutWrites(o, t);
  }

  /** The tones of the ticks, one per tick. */
  lemma {:induction false} TicksTones(n: nat)
    ensures Only(Ticks(n), IsTone) == Repeat(Tone(TICK_FREQ, TICK_MS), n)
  {
    if n > 0 {
      TicksTones(n - 1);
      var tone, wait := Tone(TICK_FREQ, TICK_MS), Delay(TICK_PERIOD_MS);
      assert Ticks(n) == Ticks(n - 1) + [tone] + [wait];
      OnlySnoc(Ticks(n - 1) + [tone], wait, IsTone);
      OnlySnoc(Ticks(n - 1), tone, IsTone);
    }
  }

  /** The countdown handler causes a physical side effect exactly when it
      accepts its argument; a rejected request produces the one error
      response that matches why it was rejected, and nothing else. */
  lemma CountdownRejectsSilently(seconds: Arg, levelAtStart: Level, levelAtTrigger: Level,
                                 activeLow: bool)
    ensures Only(CountdownEvents(seconds, levelAtStart, levelAtTrigger, activeLow), IsPhysical) == []
            <==> !Accepted(seconds)
    ensures seconds.Absent?
            ==> CountdownEvents(seconds, levelAtStart, levelAtTrigger, activeLow)
                == [Send(400, Error(MISSING_SECONDS))]
    ensures seconds.Present? && (seconds.value <= 0 || seconds.value > 60000)
            ==> CountdownEvents(seconds, levelAtStart, levelAtTrigger, activeLow)
                == [Send(400, Error(INVALID_COUNTDOWN))]
  {
    var ev := CountdownEvents(seconds, levelAtStart, levelAtTrigger, activeLow);
    if Accepted(seconds) {
      var reply := CountdownReply(seconds, levelAtStart);
      var tail := if levelAtTrigger == Low then RelayPulse(activeLow) else [];
      var head := [reply] + Ticks(seconds.value);
      assert ev == head + [Tone(DONE_FREQ, DONE_MS)] + tail;
      OnlyAppend(head + [Tone(DONE_FREQ, DONE_MS)], tail, IsPhysical);
      OnlyAppend(head, [Tone(DONE_FREQ, DONE_MS)], IsPhysical);
      assert Tone(DONE_FREQ, DONE_MS) in Only(ev, IsPhysical);
    }
  }

  /** The boundaries of the accepted range: 1 and 60000 are accepted; 0,
      negative values, 60001 and a missing argument are not. */
  lemma CountdownBoundaries()
    ensures Accepted(Present(1)) && Accepted(Present(60000))
    ensures !Accepted(Present(0)) && !Accepted(Present(-1)) && !Accepted(Present(60001))
    ensures !Accepted(Absent)
  {
  }

  /** Every countdown request gets exactly one response, and it is the very
      first event, before any beep or pin write. An accepted request is
      answered 200 with the seconds and the switch state read at the start. */
  lemma CountdownRespondsFirst(seconds: Arg, levelAtStart: Level, levelAtTrigger: Level,
                               activeLow: bool)
    ensures var ev := CountdownEvents(seconds, levelAtStart, levelAtTrigger, activeLow);
      |ev| > 0 && ev[0].Send? && Only(ev, IsSend) == [ev[0]]
    ensures var ev := CountdownEvents(seconds, levelAtStart, levelAtTrigger, activeLow);
      ev[0].Send? && (ev[0].code == 200 <==> Accepted(seconds))
    ensures Accepted(seconds) ==>
      CountdownEvents(seconds, levelAtStart, levelAtTrigger, activeLow)[0]
      == Send(200, CountdownStarted(seconds.value, SoftSwitchState(levelAtStart)))
  {
    var ev := CountdownEvents(seconds, levelAtStart, levelAtTrigger, activeLow);
    var reply := CountdownReply(seconds, levelAtStart);
    if Accepted(seconds) {
      var n := seconds.value;
      var done := Tone(DONE_FREQ, DONE_MS);
      var tail := if levelAtTrigger == Low then RelayPulse(activeLow) else [];
      assert ev == [reply] + Ticks(n) + [done] + tail;
      TicksAreQuiet(Outputs(Low, Low, Low), n);
      PulseReturnsToRest(Outputs(Low, Low, Low), activeLow);
      OnlyAppend([reply] + Ticks(n) + [done], tail, IsSend);
      OnlySnoc([reply] + Ticks(n), done, IsSend);
      OnlyAppend([reply], Ticks(n), IsSend);
    }
  }

  /** The layout of an accepted countdown of `n` seconds: the response,
      then `n` ticks, each a 2000 Hz/100 ms beep followed by a one-second
      wait, then the 2500 Hz/500 ms completion tone. */
  lemma CountdownSchedule(seconds: Arg, levelAtStart: Level, levelAtTrigger: Level,
                          activeLow: bool, k: nat)
    requires Accepted(seconds)
    ensures var ev := CountdownEvents(seconds, levelAtStart, levelAtTrigger, activeLow);
      |ev| >= 2 * seconds.value + 2 && ev[2 * seconds.value + 1] == Tone(DONE_FREQ, DONE_MS)
    ensures var ev := CountdownEvents(seconds, levelAtStart, levelAtTrigger, activeLow);
      k < seconds.value ==> ev[2 * k + 1] == Tone(TICK_FREQ, TICK_MS) && ev[2 * k + 2] == Delay(TICK_PERIOD_MS)
  {
    var n := seconds.value;
    var ev := CountdownEvents(seconds, levelAtStart, levelAtTrigger, activeLow);
    var reply := CountdownReply(seconds, levelAtStart);
    var tail := if levelAtTrigger == Low then RelayPulse(activeLow) else [];
    var done := Tone(DONE_FREQ, DONE_MS);
    assert ev == [reply] + Ticks(n) + [done] + tail;
    TicksAt(n, 0);
    if k < n {
      TicksAt(n, k);
      assert ev[2 * k + 1] == Ticks(n)[2 * k];
      assert ev[2 * k + 2] == Ticks(n)[2 * k + 1];
    }
  }

  /** An accepted countdown of `n` seconds beeps exactly `n` tick beeps and
      then exactly one completion tone. */
  lemma CountdownTones(seconds: Arg, levelAtStart: Level, levelAtTrigger: Level, activeLow: bool)
    requires Accepted(seconds)
    ensures Only(CountdownEvents(seconds, levelAtStart, levelAtTrigger, activeLow), IsTone)
         == Repeat(Tone(TICK_FREQ, TICK_MS), seconds.value) + [Tone(DONE_FREQ, DONE_MS)]
  {
    var n := seconds.value;
    var ev := CountdownEvents(seconds, levelAtStart, levelAtTrigger, activeLow);
    var reply := CountdownReply(seconds, levelAtStart);
    var tail := if levelAtTrigger == Low then RelayPulse(activeLow) else [];
    var done := Tone(DONE_FREQ, DONE_MS);
    var head := [reply] + Ticks(n) + [done];
    assert ev == head + tail;
    assert Only(tail, IsTone) == [] by {
      PulseReturnsToRest(Outputs(Low, Low, Low), activeLow);
    }
    assert Only(head, IsTone) == Repeat(Tone(TICK_FREQ, TICK_MS), n) + [done] by {
      TicksTones(n);
      OnlySnoc([reply] + Ticks(n), done, IsTone);
      OnlyAppend([reply], Ticks(n), IsTone);
      assert Only([reply], IsTone) == [];
    }
    OnlyAppend(head, tail, IsTone);
  }

  /** No pin is written before the completion tone of an accepted countdown. */
  lemma CountdownQuietUntilDone(seconds: Arg, levelAtStart: Level, levelAtTrigger: Level,
                                activeLow: bool)
    requires Accepted(seconds)
    ensures var ev := CountdownEvents(seconds, levelAtStart, levelAtTrigger, activeLow);
      |ev| >= 2 * seconds.value + 2 && Only(ev[..2 * seconds.value + 2], IsPinWrite) == []
  {
    var n := seconds.value;
    var ev := CountdownEvents(seconds, levelAtStart, levelAtTrigger, activeLow);
    var reply := CountdownReply(seconds, levelAtStart);
    var tail := if levelAtTrigger == Low then RelayPulse(activeLow) else [];
    var done := Tone(DONE_FREQ, DONE_MS);
    var head := [reply] + Ticks(n) + [done];
    assert ev == head + tail;
    TicksAt(n, 0);
    assert ev[..2 * n + 2] == head;
    TicksAreQuiet(Outputs(Low, Low, Low), n);
    OnlySnoc([reply] + Ticks(n), done, IsPinWrite);
    OnlyAppend([reply], Ticks(n), IsPinWrite);
    assert Only([reply], IsPinWrite) == [];
  }

  /** The relay is written if and only if the countdown was accepted and the
      switch read LOW after the completion tone, and then exactly once to its
      energised level and once back to rest. */
  lemma RelayFiresIffSwitchOn(seconds: Arg, levelAtStart: Level, levelAtTrigger: Level,
                              activeLow: bool)
    ensures Only(CountdownEvents(seconds, levelAtStart, levelAtTrigger, activeLow), IsRelayWrite)
         == if Fires(seconds, levelAtTrigger)
            then [Write(RelayPin, Energised(activeLow)), Write(RelayPin, Resting(activeLow))]
            else []
  {
    var ev := CountdownEvents(seconds, levelAtStart, levelAtTrigger, activeLow);
    if Accepted(seconds) {
      var n := seconds.value;
      var reply := CountdownReply(seconds, levelAtStart);
      var tail := if levelAtTrigger == Low then RelayPulse(activeLow) else [];
      var done := Tone(DONE_FREQ, DONE_MS);
      var head := [reply] + Ticks(n) + [done];
      assert ev == head + tail;
      TicksAreQuiet(Outputs(Low, Low, Low), n);
      PulseReturnsToRest(Outputs(Low, Low, Low), activeLow);
      OnlyAppend(head, tail, IsRelayWrite);
      OnlySnoc([reply] + Ticks(n), done, IsRelayWrite);
      OnlyAppend([reply], Ticks(n), IsRelayWrite);
    }
  }

  /** The switch state read at the start only goes into the response: what
      the handler physically does depends on the later reading alone. */
  lemma TriggerIgnoresStartReading(seconds: Arg, levelAtStart: Level, otherStart: Level,
                                   levelAtTrigger: Level, activeLow: bool)
    ensures Only(CountdownEvents(seconds, levelAtStart, levelAtTrigger, activeLow), IsPhysical)
         == Only(CountdownEvents(seconds, otherStart, levelAtTrigger, activeLow), IsPhysical)
  {
    var a := CountdownEvents(seconds, levelAtStart, levelAtTrigger, activeLow);
    var b := CountdownEvents(seconds, otherStart, levelAtTrigger, activeLow);
    assert |a| == |b| && a[1..] == b[1..];
    assert a == [a[0]] + a[1..] && b == [b[0]] + b[1..];
    OnlyAppend([a[0]], a[1..], IsPhysical);
    OnlyAppend([b[0]], b[1..], IsPhysical);
  }

  /** After the countdown handler the relay is at rest and the LED pin HIGH if it
      fired, whatever the levels before; if it did not fire, no output pin
      changed. */
  lemma CountdownEndsAtRest(o: Outputs, seconds: Arg, levelAtStart: Level, levelAtTrigger: Level,
                            activeLow: bool)
    ensures Replay(o, CountdownEvents(seconds, levelAtStart, levelAtTrigger, activeLow))
         == if Fires(seconds, levelAtTrigger)
            then o.(relay := Resting(activeLow), led := High)
            else o
  {
    var ev := CountdownEvents(seconds, levelAtStart, levelAtTrigger, activeLow);
    var reply := CountdownReply(seconds, levelAtStart);
    if Accepted(seconds) {
      var n := seconds.value;
      var tail := if levelAtTrigger == Low then RelayPulse(activeLow) else [];
      var done := Tone(DONE_FREQ, DONE_MS);
      var head := [reply] + Ticks(n) + [done];
      assert ev == head + tail;
      ReplayAppend(o, head, tail);
      ReplaySnoc(o, [reply] + Ticks(n), done);
      ReplayAppend(o, [reply], Ticks(n));
      ReplaySnoc(o, [], reply);
      assert [] + [reply] == [reply];
      TicksAreQuiet(o, n);
      if levelAtTrigger == Low {
        PulseReturnsToRest(o, activeLow);
      }
    } else {
      ReplaySnoc(o, [], reply);
      assert [] + [reply] == [reply];
    }
  }

  // ---------- ping ----------

  /** The ping handler answers 200 "pong" with the switch state and the given
      metrics, then beeps once; it writes no pin. */
  lemma PingAnswersThenBeeps(o: Outputs, level: Level, m: Metrics)
    ensures var ev := PingEvents(level, m);
      |ev| > 0 && Only(ev, IsSend) == [ev[0]] && ev[0].code == 200
      && ev[0].body.Pong? && ev[0].body.softSwitch == SoftSwitchState(level)
      && ev[0].body.wifiSignalDbm == m.wifiSignalDbm
      && ev[0].body.freeHeapBytes == m.freeHeapBytes
      && ev[0].body.uptimeSeconds == m.millis / 1000
      && ev[0].body.firmwareVersion == FIRMWARE_VERSION
    ensures var ev := PingEvents(level, m);
      Only(ev, IsTone) == [Tone(PING_FREQ, PING_MS)] && ev[|ev| - 1] == Tone(PING_FREQ, PING_MS)
    ensures Only(PingEvents(level, m), IsPinWrite) == []
    ensures Replay(o, PingEvents(level, m)) == o
  {
    var ev := PingEvents(level, m);
    assert ev == [ev[0]] + [ev[1]];
    OnlyAppend([ev[0]], [ev[1]], IsSend);
    OnlyAppend([ev[0]], [ev[1]], IsTone);
    OnlyAppend([ev[0]], [ev[1]], IsPinWrite);
    ReplayWithoutWrites(o, ev);
  }

  /** Two pings with the switch untouched report the same switch state. */
  lemma PingSwitchStable(level: Level, m1: Metrics, m2: Metrics)
    ensures PingResponse(level, m1).softSwitch == PingResponse(level, m2).softSwitch
  {
  }

  // ---------- setup and the whole session ----------

  /** The output levels after each prefix of the pin initialisation. */
  lemma SetupSteps(boot: Outputs, activeLow: bool)
    ensures var s := SetupEvents(activeLow);
      var lit := boot.(led := High);
      var rest := lit.(relay := Resting(activeLow));
      && Replay(boot, s[..1]) == lit
      && Replay(boot, s[..2]) == lit
      && Replay(boot, s[..3]) == rest
      && Replay(boot, s[..4]) == rest
      && Replay(boot, s[..5]) == rest
      && Replay(boot, s[..6]) == rest
      && Replay(boot, s) == rest.(buzzer := Low)
  {
    var s := SetupEvents(activeLow);
    var lit := boot.(led := High);
    var rest := lit.(relay := Resting(activeLow));
    assert Replay(boot, s[..1]) == lit by {
      assert s[..0] == [];
      ReplayPrefix(boot, s, 0);
    }
    assert Replay(boot, s[..2]) == lit by {
      ReplayPrefix(boot, s, 1);
    }
    assert Replay(boot, s[..3]) == rest by {
      ReplayPrefix(boot, s, 2);
    }
    assert Replay(boot, s[..4]) == rest by {
      ReplayPrefix(boot, s, 3);
    }
    assert Replay(boot, s[..5]) == rest by {
      ReplayPrefix(boot, s, 4);
    }
    assert Replay(boot, s[..6]) == rest by {
      ReplayPrefix(boot, s, 5);
    }
    assert Replay(boot, s[..7]) == rest.(buzzer := Low) by {
      ReplayPrefix(boot, s, 6);
    }
    assert s[..7] == s;
  }

  /** Pin initialisation leaves the relay at the same resting level that a
      relay pulse restores, the LED pin HIGH and the buzzer low, from any levels
      at power-on. */
  lemma SetupEstablishesRest(boot: Outputs, activeLow: bool)
    ensures Replay(boot, SetupEvents(activeLow)) == Outputs(Resting(activeLow), High, Low)
    ensures Replay(boot, SetupEvents(activeLow)).relay
         == Replay(boot, SetupEvents(activeLow) + RelayPulse(activeLow)).relay
  {
    SetupSteps(boot, activeLow);
    ReplayAppend(boot, SetupEvents(activeLow), RelayPulse(activeLow));
    PulseReturnsToRest(Replay(boot, SetupEvents(activeLow)), activeLow);
  }

  /** The relay's resting level and the LED's HIGH level are latched before
      their pins are switched to outputs, so neither pin ever drives another
      level during initialisation. */
  lemma SetupLatchesBeforeOutput(boot: Outputs, activeLow: bool)
    ensures forall k :: 0 <= k < |SetupEvents(activeLow)| && SetupEvents(activeLow)[k] == Mode(RelayPin, Output)
              ==> Replay(boot, SetupEvents(activeLow)[..k]).relay == Resting(activeLow)
    ensures forall k :: 0 <= k < |SetupEvents(activeLow)| && SetupEvents(activeLow)[k] == Mode(LedPin, Output)
              ==> Replay(boot, SetupEvents(activeLow)[..k]).led == High
  {
    var s := SetupEvents(activeLow);
    SetupSteps(boot, activeLow);
    forall k | 0 <= k < |s| && s[k] == Mode(RelayPin, Output)
      ensures Replay(boot, s[..k]).relay == Resting(activeLow)
    {
      assert k == 3;
    }
    forall k | 0 <= k < |s| && s[k] == Mode(LedPin, Output)
      ensures Replay(boot, s[..k]).led == High
    {
      assert k == 1;
    }
  }

  /** Any request served from the idle state returns to it. */
  lemma RequestKeepsRest(o: Outputs, r: Request, activeLow: bool)
    requires Idle(o, activeLow)
    ensures Idle(Replay(o, RequestEvents(r, activeLow)), activeLow)
  {
    match r
    case PingRequest(level, m) =>
      PingAnswersThenBeeps(o, level, m);
    case CountdownRequest(s, l0, l1) =>
      CountdownEndsAtRest(o, s, l0, l1, activeLow);
  }

  /** From power-on, after pin initialisation and after every request of any
      series of requests, the relay is at rest and the LED pin is HIGH. */
  lemma {:induction false} SessionStaysAtRest(boot: Outputs, rs: seq<Request>, activeLow: bool)
    ensures Idle(Replay(boot, SetupEvents(activeLow) + SessionEvents(rs, activeLow)), activeLow)
    decreases |rs|
  {
    var s := SetupEvents(activeLow);
    if rs == [] {
      assert s + SessionEvents(rs, activeLow) == s;
      SetupEstablishesRest(boot, activeLow);
    } else {
      var before := SessionEvents(rs[..|rs| - 1], activeLow);
      var last := RequestEvents(rs[|rs| - 1], activeLow);
      SessionStaysAtRest(boot, rs[..|rs| - 1], activeLow);
      assert s + SessionEvents(rs, activeLow) == (s + before) + last;
      ReplayAppend(boot, s + before, last);
      RequestKeepsRest(Replay(boot, s + before), rs[|rs| - 1], activeLow);
    }
  }
}
