/** The Arduino-level vocabulary of the controller: pin levels, the pins the
    firmware uses, the observable events (pin writes, pin modes, tones,
    delays and HTTP responses) and a replay of the pin writes in a trace. */
module DeviceIo {

  /** A digital pin level. */
  datatype Level = Low | High

  /** The four pins of the board; the constructors are distinct by construction. */
  datatype Pin = LedPin | RelayPin | SoftSwitchPin | BuzzerPin

  /** The two pin modes the firmware configures. */
  datatype PinMode = Output | InputPullup

  /** The state of the soft switch as it is reported to clients. */
  datatype SwitchState = On | Off

  /** The `seconds` request argument after the request parser: absent, or
      present and already converted to an integer. */
  datatype Arg = Absent | Present(value: int)

  /** Environment metrics that the ping response reports. */
  datatype Metrics = Metrics(wifiSignalDbm: int, millis: nat, freeHeapBytes: nat)

  /** A structured response body, one variant per JSON object the firmware sends. */
  datatype Response =
    | Pong(softSwitch: SwitchState, wifiSignalDbm: int, freeHeapBytes: nat,
           uptimeSeconds: nat, firmwareVersion: string)
    | CountdownStarted(countdownStarted: int, softSwitch: SwitchState)
    | Error(error: string)

  /** One observable action of the firmware. */
  datatype Event =
    | Write(pin: Pin, level: Level)       // digitalWrite(pin, level)
    | Mode(pin: Pin, mode: PinMode)       // pinMode(pin, mode)
    | Tone(freq: nat, ms: nat)            // tone(buzzerPin, freq, ms)
    | Delay(ms: nat)                      // delay(ms)
    | Send(code: nat, body: Response)     // server.send(code, "application/json", body)

  /** The levels of the three output pins. */
  datatype Outputs = Outputs(relay: Level, led: Level, buzzer: Level)

  predicate IsTone(e: Event) { e.Tone? }
  predicate IsDelay(e: Event) { e.Delay? }
  predicate IsSend(e: Event) { e.Send? }
  predicate IsPinWrite(e: Event) { e.Write? }
  predicate IsRelayWrite(e: Event) { e.Write? && e.pin == RelayPin }
  predicate IsLedWrite(e: Event) { e.Write? && e.pin == LedPin }
  /** Everything except a response is a physical side effect. */
  predicate IsPhysical(e: Event) { !e.Send? }

  /** The effect of one event on the output pins: only a write changes a level. */
  function Step(o: Outputs, e: Event): Outputs {
    if !e.Write? then o
    else match e.pin
      case RelayPin => o.(relay := e.level)
      case LedPin => o.(led := e.level)
      case BuzzerPin => o.(buzzer := e.level)
      case SoftSwitchPin => o
  }

  /** The output levels after the events of `t`, starting from `o`. */
  function Replay(o: Outputs, t: seq<Event>): Outputs
    decreases |t|
  {
    if t == [] then o else Replay(Step(o, t[0]), t[1..])
  }

  /** Replaying a concatenation is replaying its two parts in turn. */
  lemma {:induction false} ReplayAppend(o: Outputs, a: seq<Event>, b: seq<Event>)
    ensures Replay(o, a + b) == Replay(Replay(o, a), b)
    decreases |a|
  {
    if a == [] {
      assert a + b == b;
    } else {
      assert (a + b)[1..] == a[1..] + b;
      ReplayAppend(Step(o, a[0]), a[1..], b);
    }
  }

  /** A trace without pin writes leaves every output pin as it was. */
  lemma {:induction false} ReplayWithoutWrites(o: Outputs, t: seq<Event>)
    requires forall k :: 0 <= k < |t| ==> !t[k].Write?
    ensures Replay(o, t) == o
    decreases |t|
  {
    if t != [] {
      ReplayWithoutWrites(Step(o, t[0]), t[1..]);
    }
  }

  /** The events of `t` that satisfy `keep`, in their order. */
  function Only(t: seq<Event>, keep: Event -> bool): seq<Event>
    decreases |t|
  {
    if t == [] then [] else Kept(t[0], keep) + Only(t[1..], keep)
  }

  /** `e` alone if it satisfies `keep`, and nothing otherwise. */
  function Kept(e: Event, keep: Event -> bool): seq<Event> {
    if keep(e) then [e] else []
  }

  /** Filtering distributes over concatenation. */
  lemma {:induction false} OnlyAppend(a: seq<Event>, b: seq<Event>, keep: Event -> bool)
    ensures Only(a + b, keep) == Only(a, keep) + Only(b, keep)
    decreases |a|
  {
    if a == [] {
      assert a + b == b;
    } else {
      assert (a + b)[1..] == a[1..] + b;
      OnlyAppend(a[1..], b, keep);
    }
  }

  /** Filtering a sequence with one more event at its end. */
  lemma OnlySnoc(t: seq<Event>, e: Event, keep: Event -> bool)
    ensures Only(t + [e], keep) == Only(t, keep) + Kept(e, keep)
  {
    OnlyAppend(t, [e], keep);
    assert [e][1..] == [];
  }

  /** Filtering one more event of `t`. */
  lemma OnlyPrefix(t: seq<Event>, k: nat, keep: Event -> bool)
    requires k < |t|
    ensures Only(t[..k + 1], keep) == Only(t[..k], keep) + Kept(t[k], keep)
  {
    assert t[..k + 1] == t[..k] + [t[k]];
    OnlySnoc(t[..k], t[k], keep);
  }

  /** Every event that survives the filter is an event of `t` that satisfies
      `keep`. */
  lemma {:induction false} OnlyKeeps(t: seq<Event>, keep: Event -> bool)
    ensures forall e :: e in Only(t, keep) ==> e in t && keep(e)
    decreases |t|
  {
    if t != [] {
      OnlyKeeps(t[1..], keep);
    }
  }

  /** Nothing survives a filter that rejects every event. */
  lemma OnlyNone(t: seq<Event>, keep: Event -> bool)
    requires forall k :: 0 <= k < |t| ==> !keep(t[k])
    ensures Only(t, keep) == []
  {
    OnlyKeeps(t, keep);
  }

  /** Replaying a sequence with one more event at its end. */
  lemma ReplaySnoc(o: Outputs, t: seq<Event>, e: Event)
    ensures Replay(o, t + [e]) == Step(Replay(o, t), e)
  {
    ReplayAppend(o, t, [e]);
    assert [e][1..] == [];
  }

  /** Replaying one more event of `t`. */
  lemma ReplayPrefix(o: Outputs, t: seq<Event>, k: nat)
    requires k < |t|
    ensures Replay(o, t[..k + 1]) == Step(Replay(o, t[..k]), t[k])
  {
    assert t[..k + 1] == t[..k] + [t[k]];
    ReplaySnoc(o, t[..k], t[k]);
  }

  /** `n` copies of `e`. */
  function Repeat(e: Event, n: nat): (r: seq<Event>)
    ensures |r| == n
    ensures forall k :: 0 <= k < n ==> r[k] == e
  {
    if n == 0 then [] else Repeat(e, n - 1) + [e]
  }
}
