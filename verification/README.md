# Remote-LaunchPad countdown/relay controller — a Dafny model

Remote-LaunchPad is an ESP8266 access-point controller. A client asks it for a
countdown of `seconds`. The device answers at once, beeps once per second, plays a
completion tone and then, if the soft switch still reads ON, pulses a relay. A
ping request reports the soft-switch state and beeps once.

This project models the firmware's handlers (`src/main.cpp`) as a sequential
state machine over an abstract board:

- `deviceio.dfy` (module `DeviceIo`) is the Arduino-level vocabulary. It has pin
  levels, the four pins, and the observable events: `digitalWrite`, `pinMode`,
  `tone`, `delay` and the HTTP response, which is a structured `Response` rather
  than JSON text. `Replay` computes the output pin levels that a trace of
  events leaves behind. `Only` filters a trace down to one kind of event.
- `launchpad.dfy` (module `LaunchPad`) holds the firmware itself:
  - the firmware's constants;
  - for each handler, a function giving the exact event sequence it produces
    (`SetupEvents`, `RelayPulse`, `Ticks`, `CountdownEvents`, `PingEvents`);
  - the class `Device`. Its fields are the relay, LED and buzzer levels, the
    soft-switch input level supplied by the environment, and the append-only
    trace. Its methods do what the C++ functions do, step by step; the
    countdown keeps the source's down-counting loop. Each method is proved to
    append exactly its handler's event sequence. `Device.Valid()` says that the
    pin fields always equal the replay of the trace.
- `properties.dfy` (module `LaunchPadProperties`) proves what the firmware
  promises about those event sequences:
  - a rejected request has no physical side effect;
  - the response comes before anything physical;
  - there are exactly `seconds` ticks and then one completion tone;
  - the relay fires exactly when the second switch read is LOW;
  - the relay always comes back to rest, for both polarities;
  - the LED pin is LOW while the relay is energised;
  - "relay at rest, LED pin HIGH" holds after initialisation and after every
    request of any series of requests.

The relay polarity `RELAY_ACTIVE_LOW` is a parameter (`activeLow`), so every
property is proved for both polarities. The soft switch may move while a
countdown runs. The countdown handler therefore takes the level that its second
read sees (`levelAtTrigger`) as an input. The level read at the start is the
device's `switchLevel` when the handler is called.

The code writes the LED pin LOW during the relay pulse and HIGH otherwise
(src/main.cpp:23, 37, 121). On a board whose built-in LED is active-low this
lights the LED during the pulse, so the model states pin levels, not whether the
LED is lit.

## Model

| member | source | states |
|---|---|---|
| `LaunchPad.SoftSwitchState` | src/main.cpp:15-19 | the pulled-up switch reads ON exactly when the input level is LOW, OFF otherwise |
| `LaunchPad.Device.GetSoftSwitchState` | src/main.cpp:15-19 | returns ON exactly when the switch input is LOW and OFF exactly when it is HIGH; changes no state (no modifies clause) |
| `LaunchPad.Device.Setup` | src/main.cpp:121-132 | pin initialisation records exactly the setup writes and pin modes, and leaves the relay at rest, the LED pin HIGH and the buzzer LOW, with the pin fields equal to the replay of the trace |
| `LaunchPad.Device.ActivateRelay` | src/main.cpp:21-38 | appends exactly the relay pulse to the trace, returns with the relay at its resting level and the LED pin HIGH for either polarity, and leaves buzzer and switch unchanged |
| `LaunchPad.Device.HandlePing` | src/main.cpp:40-60 | appends exactly the 200 pong response, then the 2000 Hz/200 ms tone; changes no pin |
| `LaunchPad.Device.HandleCountdown` | src/main.cpp:62-105 | appends exactly the countdown event sequence, built by the down-counting tick loop with its invariant; if the relay fired it ends at rest with the LED pin HIGH, otherwise no pin changed |
| `LaunchPadProperties.PulseReturnsToRest` | src/main.cpp:21-38 | energised and resting levels are opposite; the pulse writes the relay exactly twice, energise then rest; it waits exactly once, for 1000 ms; it sends nothing and beeps nothing; from any prior levels it ends with the relay at rest and the LED pin HIGH |
| `LaunchPadProperties.PulseLedBracket` | src/main.cpp:23-37 | starting at rest, the relay is energised exactly after the second and third events of the pulse, the only event in that window is the 1000 ms delay, and the LED pin is LOW whenever the relay is energised |
| `LaunchPadProperties.TicksLength` | src/main.cpp:88-92 | `n` iterations, including none, produce exactly 2n events |
| `LaunchPadProperties.TicksAt` | src/main.cpp:88-92 | a 2000 Hz/100 ms tone at every even position of the loop's events, a 1000 ms delay at every odd one |
| `LaunchPadProperties.TicksTones` | src/main.cpp:88-92 | the loop's tones are exactly `n` tick tones |
| `LaunchPadProperties.TicksAreQuiet` | src/main.cpp:88-92 | the loop writes no pin, sends no response and leaves every output level unchanged |
| `LaunchPadProperties.CountdownRejectsSilently` | src/main.cpp:64-75 | the handler has a physical side effect if and only if it accepts the argument; a missing argument gets exactly one 400 "Missing parameter 'seconds'", an argument that is <= 0 or > 60000 exactly one 400 "Invalid countdown time" |
| `LaunchPadProperties.CountdownBoundaries` | src/main.cpp:71 | 1 and 60000 are accepted; 0, -1, 60001 and a missing argument are rejected |
| `LaunchPadProperties.CountdownRespondsFirst` | src/main.cpp:64-84 | every request gets exactly one response, and it is the first event; its code is 200 exactly when the argument is accepted, and then it carries `seconds` and the switch state read at the start |
| `LaunchPadProperties.CountdownSchedule` | src/main.cpp:84-94 | after the response come `seconds` ticks, each tick a tone followed by a one-second delay, and then the completion tone at position 2·seconds+1 |
| `LaunchPadProperties.CountdownTones` | src/main.cpp:88-94 | an accepted countdown's tones are exactly `seconds` tick tones followed by one 2500 Hz/500 ms tone |
| `LaunchPadProperties.CountdownQuietUntilDone` | src/main.cpp:84-96 | no pin is written before the completion tone |
| `LaunchPadProperties.RelayFiresIffSwitchOn` | src/main.cpp:94-104 | the relay is written if and only if the argument is accepted and the second switch read is LOW; when it is, the writes are exactly one energise and one rest |
| `LaunchPadProperties.TriggerIgnoresStartReading` | src/main.cpp:77-104 | the physical behaviour does not depend on the switch state read at the start, which only goes into the response |
| `LaunchPadProperties.CountdownEndsAtRest` | src/main.cpp:94-104 | from any output levels, the handler ends with the relay at rest and the LED pin HIGH when it fired, and with every output unchanged when it did not |
| `LaunchPadProperties.PingAnswersThenBeeps` | src/main.cpp:40-60 | exactly one response, first, 200 "pong" with the switch state, the given signal strength and free heap, uptime = millis/1000 and firmware "1.0.0"; then exactly one tone, 2000 Hz/200 ms, as the last event; no pin write, outputs unchanged |
| `LaunchPadProperties.PingSwitchStable` | src/main.cpp:42-49 | two pings with the same switch level report the same switch state, whatever the other metrics |
| `LaunchPadProperties.SetupEstablishesRest` | src/main.cpp:121-132 | from any power-on levels, initialisation leaves the relay at rest, the LED pin HIGH and the buzzer LOW; this resting level is the one a relay pulse restores |
| `LaunchPadProperties.SetupLatchesBeforeOutput` | src/main.cpp:121-128 | the relay's resting level and the LED pin's HIGH level are written before their pins become outputs |
| `LaunchPadProperties.RequestKeepsRest` | src/main.cpp:32-37 | any ping or countdown request served from "relay at rest, LED pin HIGH" returns to it |
| `LaunchPadProperties.SessionStaysAtRest` | src/main.cpp:121-128 | after initialisation followed by any series of ping and countdown requests, the relay is at rest and the LED pin HIGH |

## Left out

- WiFi access-point bring-up, BearSSL certificate loading, HTTPS/HTTP server
  registration, the `/` banner, the 404 handler, the port-80 redirect and
  `loop()` polling are not modelled. They are network plumbing over vendor
  libraries. A series of requests is modelled as `Request` values served one
  after another.
- The JSON text of the responses is not modelled. A response is a status code
  plus a structured `Response` value with the same fields.
- `String::toInt` and the narrowing of its result to `int` are not modelled.
  The handler receives the argument as absent or as an already parsed integer
  (`Arg`). Non-numeric text, which the parser turns into 0, therefore appears
  here as `Present(0)`.
- `WiFi.RSSI()`, `millis()` and `ESP.getFreeHeap()` are opaque inputs
  (`Metrics`). The 32-bit wrap-around of `millis()` is not modelled: the model
  takes the value it returns as a natural number.
- `Serial` output and the `delay(1500)` that follows `Serial.begin` in `setup`
  are not modelled. They have no effect on pins or responses.
- `tone` and `delay` are trace events only. The buzzer playing in the
  background while the firmware continues, wall-clock timing and drift are not
  modelled.
- The switch is observed only at the handler's two reads. Changes between them
  enter as the `levelAtTrigger` parameter.
- `src/config.h` supplies only compile-time constants. The relay polarity is
  the parameter `activeLow`. The pins are four distinct constructors; their
  GPIO numbers are not modelled. The network credentials are left out with the
  network code.
