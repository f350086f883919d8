/** The countdown/relay firmware: its constants, the event sequence each
    handler produces (as functions of its inputs), and the device itself as
    a class whose fields are the pin levels and the trace of events. */
module LaunchPad {
  import opened DeviceIo

  /** How long the relay is held energised. */
  const RELAY_DWELL_MS: nat := 1000
  /** The largest accepted countdown. */
  const MAX_COUNTDOWN_SECONDS: int := 60000
  /** The tick beep and the tick period. */
  const TICK_FREQ: nat := 2000
  const TICK_MS: nat := 100
  const TICK_PERIOD_MS: nat := 1000
  /** The completion tone after the last tick. */
  const DONE_FREQ: nat := 2500
  const DONE_MS: nat := 500
  /** The acknowledgement beep of a ping. */
  const PING_FREQ: nat := 2000
  const PING_MS: nat := 200

  const FIRMWARE_VERSION: string := "1.0.0"
  const MISSING_SECONDS: string := "Missing parameter 'seconds'"
  const INVALID_COUNTDOWN: string := "Invalid countdown time"

  /** The relay level that energises the relay under the configured polarity. */
  function Energised(activeLow: bool): Level {
    if activeLow then Low else High
  }

  /** The relay level that leaves the relay at rest (open). */
  function Resting(activeLow: bool): Level {
    if activeLow then High else Low
  }

  /** The soft switch is pulled up: it reads ON exactly when the line is low. */
  function SoftSwitchState(level: Level): (s: SwitchState)
    ensures s == On <==> level == Low
  {
    if level == Low then On else Off
  }

  /** The range check of the countdown handler, as written. */
  predicate InRange(seconds: int) {
    !(seconds <= 0 || seconds > MAX_COUNTDOWN_SECONDS)
  }

  /** The countdown handler runs its countdown for this argument. */
  predicate Accepted(seconds: Arg) {
    seconds.Present? && InRange(seconds.value)
  }

  /** The countdown ends by pulsing the relay. */
  predicate Fires(seconds: Arg, levelAtTrigger: Level) {
    Accepted(seconds) && levelAtTrigger == Low
  }

  /** The idle levels: relay at rest, LED pin HIGH. */
  predicate Idle(o: Outputs, activeLow: bool) {
    o.relay == Resting(activeLow) && o.led == High
  }

  /** The pin initialisation of the startup routine. */
  function SetupEvents(activeLow: bool): seq<Event> {
    [Write(LedPin, High), Mode(LedPin, Output),
     Write(RelayPin, Resting(activeLow)), Mode(RelayPin, Output),
     Mode(SoftSwitchPin, InputPullup),
     Mode(BuzzerPin, Output), Write(BuzzerPin, Low)]
  }

  /** One relay activation: LED pin LOW, energise, dwell, rest, LED pin HIGH. */
  function RelayPulse(activeLow: bool): seq<Event> {
    [Write(LedPin, Low), Write(RelayPin, Energised(activeLow)),
     Delay(RELAY_DWELL_MS),
     Write(RelayPin, Resting(activeLow)), Write(LedPin, High)]
  }

  /** `n` countdown ticks, each a short beep and a one-second wait. */
  function Ticks(n: nat): seq<Event> {
    if n == 0 then [] else Ticks(n - 1) + [Tone(TICK_FREQ, TICK_MS), Delay(TICK_PERIOD_MS)]
  }

  /** The response of the countdown handler. */
  function CountdownReply(seconds: Arg, levelAtStart: Level): Event {
    if seconds.Absent? then Send(400, Error(MISSING_SECONDS))
    else if !InRange(seconds.value) then Send(400, Error(INVALID_COUNTDOWN))
    else Send(200, CountdownStarted(seconds.value, SoftSwitchState(levelAtStart)))
  }

  /** Everything the countdown handler does, given the switch level when it
      starts and when it re-reads the switch after the completion tone. */
  function CountdownEvents(seconds: Arg, levelAtStart: Level, levelAtTrigger: Level,
                           activeLow: bool): seq<Event>
  {
    var reply := CountdownReply(seconds, levelAtStart);
    if !Accepted(seconds) then [reply]
    else
      [reply] + Ticks(seconds.value) + [Tone(DONE_FREQ, DONE_MS)]
      + (if levelAtTrigger == Low then RelayPulse(activeLow) else [])
  }

  /** The response body of the ping handler. */
  function PingResponse(level: Level, m: Metrics): Response {
    Pong(SoftSwitchState(level), m.wifiSignalDbm, m.freeHeapBytes, m.millis / 1000,
         FIRMWARE_VERSION)
  }

  /** Everything the ping handler does: the response, then one beep. */
  function PingEvents(level: Level, m: Metrics): seq<Event> {
    [Send(200, PingResponse(level, m)), Tone(PING_FREQ, PING_MS)]
  }

  /** One request as it reaches the firmware, with the switch levels that the
      handler reads. */
  datatype Request =
    | PingRequest(level: Level, metrics: Metrics)
    | CountdownRequest(seconds: Arg, levelAtStart: Level, levelAtTrigger: Level)

  function RequestEvents(r: Request, activeLow: bool): seq<Event> {
    match r
    case PingRequest(level, m) => PingEvents(level, m)
    case CountdownRequest(s, l0, l1) => CountdownEvents(s, l0, l1, activeLow)
  }

  /** The events of a series of requests served one after the other. */
  function SessionEvents(rs: seq<Request>, activeLow: bool): seq<Event>
    decreases |rs|
  {
    if rs == [] then [] else SessionEvents(rs[..|rs| - 1], activeLow) + RequestEvents(rs[|rs| - 1], activeLow)
  }

  /** The board: output pin levels, the soft-switch input level supplied by
      the environment, and the trace of everything the firmware has done. */
  class Device {
    const activeLow: bool
    var relay: Level
    var led: Level
    var buzzer: Level
    var switchLevel: Level
    var trace: seq<Event>
    /** The output levels before the firmware wrote any pin. */
    const boot: Outputs

    function Pins(): Outputs
      reads this
    {
      Outputs(relay, led, buzzer)
    }

    /** The pin fields are what the writes in the trace left them at. */
    ghost predicate Valid()
      reads this
    {
      Pins() == Replay(boot, trace)
    }

    /** Relay at its resting level and LED pin HIGH. */
    predicate AtRest()
      reads this
    {
      Idle(Pins(), activeLow)
    }

    /** The pin initialisation of `setup`. */
    constructor Setup(activeLow: bool, boot: Outputs, switchLevel: Level)
      ensures Valid() && AtRest()
      ensures this.activeLow == activeLow && this.boot == boot
      ensures this.switchLevel == switchLevel && buzzer == Low
      ensures trace == SetupEvents(activeLow)
    {
      this.activeLow := activeLow;
      this.boot := boot;
      this.switchLevel := switchLevel;
      relay, led, buzzer := boot.relay, boot.led, boot.buzzer;
      trace := [];
      new;
      DigitalWrite(LedPin, High);
      PinMode(LedPin, Output);
      if activeLow {
        DigitalWrite(RelayPin, High);
      } else {
        DigitalWrite(RelayPin, Low);
      }
      PinMode(RelayPin, Output);
      PinMode(SoftSwitchPin, InputPullup);
      PinMode(BuzzerPin, Output);
      DigitalWrite(BuzzerPin, Low);
    }

    /** `digitalWrite`: sets one output level and records the write. */
    method DigitalWrite(pin: Pin, level: Level)
      requires Valid()
      modifies this
      ensures Valid()
      ensures trace == old(trace) + [Write(pin, level)]
      ensures Pins() == Step(old(Pins()), Write(pin, level))
      ensures switchLevel == old(switchLevel)
    {
      match pin {
        case RelayPin => relay := level;
        case LedPin => led := level;
        case BuzzerPin => buzzer := level;
        case SoftSwitchPin =>
      }
      ReplayAppend(boot, trace, [Write(pin, level)]);
      trace := trace + [Write(pin, level)];
    }

    /** Records an event that changes no pin level: a pin mode, a tone, a
        delay or a response. */
    method Record(e: Event)
      requires Valid()
      requires !e.Write?
      modifies this
      ensures Valid()
      ensures trace == old(trace) + [e]
      ensures Pins() == old(Pins()) && switchLevel == old(switchLevel)
    {
      ReplayAppend(boot, trace, [e]);
      trace := trace + [e];
    }

    method PinMode(pin: Pin, mode: PinMode)
      requires Valid()
      modifies this
      ensures Valid()
      ensures trace == old(trace) + [Mode(pin, mode)]
      ensures Pins() == old(Pins()) && switchLevel == old(switchLevel)
    {
      Record(Mode(pin, mode));
    }

    /** `getSoftSwitchState`: reads the switch input; writes nothing. */
    method GetSoftSwitchState() returns (s: SwitchState)
      ensures s == SoftSwitchState(switchLevel)
      ensures s == On <==> switchLevel == Low
      ensures s == Off <==> switchLevel == High
    {
      s := SoftSwitchState(switchLevel);
    }

    /** `activateRelay`: an LED-bracketed relay pulse of fixed dwell. */
    method ActivateRelay()
      requires Valid()
      modifies this
      ensures Valid() && AtRest()
      ensures trace == old(trace) + RelayPulse(activeLow)
      ensures buzzer == old(buzzer) && switchLevel == old(switchLevel)
    {
      DigitalWrite(LedPin, Low);
      if activeLow {
        DigitalWrite(RelayPin, Low);
      } else {
        DigitalWrite(RelayPin, High);
      }
      Record(Delay(RELAY_DWELL_MS));
      if activeLow {
        DigitalWrite(RelayPin, High);
      } else {
        DigitalWrite(RelayPin, Low);
      }
      DigitalWrite(LedPin, High);
    }

    /** `handlePing`: the response, then the acknowledgement beep. */
    method HandlePing(m: Metrics)
      requires Valid()
      modifies this
      ensures Valid()
      ensures trace == old(trace) + PingEvents(old(switchLevel), m)
      ensures Pins() == old(Pins()) && switchLevel == old(switchLevel)
    {
      var state := GetSoftSwitchState();
      Record(Send(200, Pong(state, m.wifiSignalDbm, m.freeHeapBytes, m.millis / 1000,
                            FIRMWARE_VERSION)));
      Record(Tone(PING_FREQ, PING_MS));
    }

    /** `handleCountdown`. The switch may be moved while the countdown runs:
        `levelAtTrigger` is the level the handler reads after the completion
        tone. */
    method HandleCountdown(seconds: Arg, levelAtTrigger: Level)
      requires Valid()
      modifies this
      ensures Valid()
      ensures trace == old(trace) + CountdownEvents(seconds, old(switchLevel), levelAtTrigger, activeLow)
      ensures Fires(seconds, levelAtTrigger) ==> AtRest() && buzzer == old(buzzer)
      ensures !Fires(seconds, levelAtTrigger) ==> Pins() == old(Pins())
      ensures switchLevel == if Accepted(seconds) then levelAtTrigger else old(switchLevel)
    {
      if seconds.Absent? {
        Record(Send(400, Error(MISSING_SECONDS)));
        return;
      }
      var n := seconds.value;
      if n <= 0 || n > MAX_COUNTDOWN_SECONDS {
        Record(Send(400, Error(INVALID_COUNTDOWN)));
        return;
      }
      var state := GetSoftSwitchState();
      Record(Send(200, CountdownStarted(n, state)));
      ghost var start := old(trace);
      ghost var reply := CountdownReply(seconds, old(switchLevel));
      assert trace == start + [reply];
      ghost var started := trace;
      var i := n - 1;
      while i >= 0
        invariant -1 <= i < n
        invariant Valid()
        invariant trace == started + Ticks(n - 1 - i)
        invariant Pins() == old(Pins()) && switchLevel == old(switchLevel)
        decreases i + 1
      {
        Record(Tone(TICK_FREQ, TICK_MS));
        Record(Delay(TICK_PERIOD_MS));
        i := i - 1;
        assert Ticks(n - 1 - i) == Ticks(n - 2 - i) + [Tone(TICK_FREQ, TICK_MS), Delay(TICK_PERIOD_MS)];
      }
      Record(Tone(DONE_FREQ, DONE_MS));
      ghost var head := [reply] + Ticks(n) + [Tone(DONE_FREQ, DONE_MS)];
      assert trace == start + head;
      switchLevel := levelAtTrigger;
      if switchLevel == Low {
        ActivateRelay();
        assert CountdownEvents(seconds, old(switchLevel), levelAtTrigger, activeLow)
            == head + RelayPulse(activeLow);
        assert trace == start + (head + RelayPulse(activeLow));
      } else {
        assert CountdownEvents(seconds, old(switchLevel), levelAtTrigger, activeLow) == head + [];
      }
    }
  }
}
