# Thermometer firmware: the control loop, modelled in Dafny

The firmware (`src/main.cpp`) runs on an ESP8266 with a DHT22 sensor and an SSD1331 OLED.
At boot it loads `{host, port}` from `/config.json`. Every iteration of `loop()` it does the following:

- it runs a WiFiManager captive portal when the configuration pin is low or no host is known;
- it samples temperature and humidity, keeping the previous value for a not-a-number event;
- once the reading is past its sentinels (`temp > -100 && humidity > 0`), it computes the heat index;
- at most once a minute, it POSTs the triple as JSON to `http://<host>:<port>/thermometer`;
- it redraws the display only when the triple changed;
- finally, it sleeps.

This project models the globals the loop carries across iterations and every branch of the tick:

- `temp`, `humidity`, `heatIndex`;
- `oldTemp`, `oldHumidity`, `oldHeatIndex`, `oldDisplayString`;
- `sentTime`, `host`, `portString`, `port`.

It has four modules:

- `Arduino` (`arduino.dfy`) holds the runtime arithmetic the loop relies on:
  - 32-bit `unsigned long` time stamps, whose difference wraps modulo 2^32;
  - `String::toInt()`, which is the C library's `atol`/`strtol`: it skips white space, takes an optional sign, reads the digits and saturates at the bounds of `long`;
  - `String(int)`;
  - the conversion of the `int` port to the `uint16_t` that `WiFiClient::connect` takes.
- `Control` (`control.dfy`) describes, as functions over a `Globals` value, what each operation does:
  - `setupFileSystem()`, `configureWiFi()`, the sensor block, `displayValues()` and one `loop()` call;
  - the state it leaves behind;
  - the sequence of external effects it issues: portal, config save, erase, draw, connect, POST, delay.
- `Firmware` (`device.dfy`) has the class `Device`. Its fields are the globals, and its methods update them in place in the order the C++ does, including the early `return` on a failed connect. Each method is proved to follow the matching `Control` function exactly.
- `Properties` (`properties.dfy`) proves what the loop guarantees:
  - not-a-number retention;
  - the quiet invalid tick;
  - the strict, wrap-safe one-minute send gate;
  - connect failure ends the tick;
  - any HTTP answer advances the timer;
  - change-gated, idempotent redraws;
  - the config size, parse and port-fallback rules;
  - the round trip of a saved configuration;
  - the port left stale by provisioning.

Drivers and libraries appear only as inputs and as effects:

- `TickInput` carries the pin level, the portal's answers, whether the config file opened for writing, the two sensor events, `millis()` at the gate and after the POST, and whether the TCP connect succeeded.
- `ConfigFs` carries the mount, existence, open, size and parse outcome of `/config.json`.
- `Libs` holds the heat-index routine and `String(float, 2)`, which stay uninterpreted.

Three behaviours of the code worth knowing:

- The send gate is strict: `millis() - sentTime > 60000`. Exactly 60 s is not yet due.
- Running the portal does not end the tick. `loop()` falls through to sampling, reporting and display in the same iteration.
- `configureWiFi()` sets `host` and `portString` but never `port`. After a first provisioning on a device that booted without a config file, reports go to port 0 until the next reboot loads the saved port (`StalePortAfterFirstProvisioning`).

## Model

`Control.Member`, `Control.Loadable`, `Control.Changed`, `Control.DisplayText` and `Control.ReadingPayload` are single source expressions written in Dafny, so they have no rows of their own:
- `Member` is the string-member read at src/main.cpp:136-140.
- `Loadable` is the size and parse conditions at src/main.cpp:103-134.
- `Changed` is the change test at src/main.cpp:198.
- `DisplayText` is the display string at src/main.cpp:194.
- `ReadingPayload` is the report document at src/main.cpp:309-313.

What they mean is stated by `LoadConfigRules`, `SaveThenLoad`, `DisplayIdempotent`, `Display` and `ConnectSuccessReports`.

| member | source | states |
|---|---|---|
| `Arduino.ElapsedMillis` | src/main.cpp:304 | `millis() - sentTime` on 32-bit unsigned values: adding the result to `sentTime` modulo 2^32 gives `now` back; it is the plain difference without roll-over and `2^32 - sentTime + now` across it |
| `Arduino.ToInt` | src/main.cpp:141 | `String::toInt()` (strtol-like parse, saturating to `long`) yields 0 for a blank string and for one whose first non-blank character is neither a digit nor a sign |
| `Arduino.DigitRunStops` | src/main.cpp:141 | the digit run `toInt` reads stops at the first non-digit: on digits followed by a tail that does not start with a digit, it covers exactly the digits and has their value |
| `Arduino.ToIntStopsAtNonDigit` | src/main.cpp:141 | `toInt` stops at the first non-digit: a non-empty run of digits followed by such a tail reads as the value of the digits alone, saturated to `long` |
| `Arduino.ToU16` | src/main.cpp:319 | the `int` port passed to `connect`'s `uint16_t` parameter keeps its value modulo 2^16, and is unchanged when it already fits |
| `Arduino.IntToString` | src/main.cpp:329 | `String(port)` is non-empty, starts with a minus sign exactly when the value is negative and otherwise with a digit |
| `Arduino.ToIntOfIntToString` | src/main.cpp:329 | `toInt` reads back every 32-bit value printed by `String(int)` |
| `Arduino.NoDigitsReadsZero` | src/main.cpp:141-142 | a port string without any decimal digit reads as 0, which triggers the fallback |
| `Control.InitialGlobals` | src/main.cpp:33-97 | the initialisers leave an invalid reading, an empty host and port 0 |
| `Control.ConfigDoc` | src/main.cpp:175-178 | the saved document's `host` and `port` members are the portal's two strings |
| `Control.PortFromString` | src/main.cpp:141-146 | the loaded port is never 0: it is `toInt(portString)` when that is non-zero and 1880 otherwise |
| `Control.Provision` | src/main.cpp:161-188 | the portal runs first; host and port string become what it returned; `port` and every other global are unchanged; the document is saved exactly when the file opens for writing; no other effect occurs |
| `Control.CtoF` | src/main.cpp:278 | the Fahrenheit value converts back to the Celsius input |
| `Control.Sample` | src/main.cpp:274-285 | a not-a-number event keeps the stored value; a numeric temperature is stored converted to Fahrenheit, a numeric humidity as is; nothing else changes |
| `Control.Display` | src/main.cpp:190-220 | when the triple changed: erase the old text, then draw the current text, and record both the triple and that text; otherwise no effect and no change; afterwards the recorded triple equals the current one, and nothing but the recorded triple and text changes |
| `Control.LoadConfig` | src/main.cpp:100-159 | an unloadable file (unmounted, missing, unopenable, over 1024 bytes, unparsable) changes nothing; a loaded port is what the loaded port string names (see `LoadConfigRules` for the rest) |
| `Control.Provisioned` | src/main.cpp:259-262 | the portal runs exactly when the pin is low or the host is empty; it issues only portal and save effects; otherwise the globals are untouched; the numeric port never changes |
| `Control.IsValid` | src/main.cpp:293 | the validity guard `temp > -100 && humidity > 0` rejects the initial sentinel values |
| `Control.Due` | src/main.cpp:304 | the gate in closed form: without roll-over it is due exactly when `now - sentTime > 60000`, across the roll-over exactly when `2^32 - sentTime + now > 60000` |
| `Control.Measured` | src/main.cpp:304-352 | the report and display part of a valid tick keeps the effects issued before it and adds at least one; it ends with the delay, or with the connect when that failed; `sentTime` becomes the post-POST time exactly when the send was due and the connect succeeded; readings and configuration are kept; whenever it reaches the delay (sent or not) the display has been brought up to date with the readings (`ValidTickNotDueDisplays` gives the exact effects when no send is due) |
| `Control.TickStep` | src/main.cpp:255-353 | one `loop()` call issues the provisioning effects first and at least one more; it ends with the delay unless a connect failed; host and port string are those left by provisioning; the numeric port is kept (the heat-index and display steps of a valid tick are stated in `ValidTickNotDueDisplays`, `ConnectFailureEndsTick` and `ConnectSuccessReports`) |
| `Control.Run` | src/main.cpp:255-353 | consecutive `loop()` calls: a run of n calls issues at least n effects, since every call issues at least one, and never changes the numeric port |
| `Control.PostUrl` | src/main.cpp:325-329 | the URL is `http://`, then the host, then `:`, then `String(port)`, then `/thermometer` |
| `Firmware.Device.Boot` | src/main.cpp:222-253 | power-on leaves the initial globals updated by the config load, with `sentTime` the boot-time `millis()` |
| `Firmware.Device.SetupFileSystem` | src/main.cpp:100-159 | updates the globals in place exactly as `LoadConfig` prescribes |
| `Firmware.Device.ConfigureWiFi` | src/main.cpp:161-188 | updates the globals and issues the effects exactly as `Provision` prescribes |
| `Firmware.Device.ReadSensors` | src/main.cpp:271-291 | updates temperature and humidity in place exactly as `Sample` prescribes |
| `Firmware.Device.DisplayValues` | src/main.cpp:190-220 | updates the display state and issues the erase/draw effects exactly as `Display` prescribes |
| `Firmware.Device.Tick` | src/main.cpp:255-353 | one `loop()` call, with its early return on a failed connect, leaves the globals and issues the effects of `TickStep` |
| `Properties.NaNEventsRetained` | src/main.cpp:274-285 | after a tick each reading is the previous one for a not-a-number event and the (converted) event value otherwise |
| `Properties.CtoFScenario` | src/main.cpp:278 | 22 °C is stored as 71.6 °F |
| `Properties.InvalidReadingIsQuiet` | src/main.cpp:293-352 | with `temp <= -100` or `humidity <= 0` after sampling, the heat index, `sentTime` and the display state are unchanged, and the delay is the only effect after provisioning: nothing is sent or drawn |
| `Properties.SendOnlyWhenDue` | src/main.cpp:293-304 | a connect is attempted if and only if the reading is valid and more than 60000 ms (mod 2^32) have elapsed; when not due, `sentTime` is unchanged |
| `Properties.ValidTickNotDueDisplays` | src/main.cpp:293-352 | a valid tick with no send due computes the heat index from the readings, then updates the display from it, then sleeps: its effects are exactly provisioning, the display effects and the delay |
| `Properties.ConnectFailureEndsTick` | src/main.cpp:301-323 | on connect failure the connect is the tick's last effect: no POST, no redraw, no delay; the heat index is the one just computed; `sentTime` and the display state are unchanged |
| `Properties.ConnectSuccessReports` | src/main.cpp:307-352 | on connect success the tick's effects are exactly: provisioning, the connect (to the port modulo 2^16), the POST of the JSON triple to `http://host:port/thermometer` with the port printed in full, the display update, the delay; `sentTime` becomes the post-POST `millis()` whatever the HTTP code |
| `Properties.MeasuredReports` | src/main.cpp:304-352 | a due report whose connect succeeds issues connect, POST, the display effects and the delay, in that order |
| `Properties.QuietWhileNotDue` | src/main.cpp:304 | over any number of ticks none of which is more than 60000 ms past `sentTime`, no connect is attempted and `sentTime` is kept |
| `Properties.NoSecondSendWithinWindow` | src/main.cpp:304-340 | after a reporting tick, none of any number of following ticks attempts a connect while each is at most 60000 ms past the time stamp the report recorded, which stays in `sentTime` |
| `Properties.SendGateExamples` | src/main.cpp:304 | exactly 60000 ms is not due, 60001 ms is; the gate also opens correctly across the `millis()` roll-over |
| `Properties.PostUrlNamesServer` | src/main.cpp:329 | the URL carries the host, and its port segment reads back as the port |
| `Properties.DisplayIdempotent` | src/main.cpp:198-213 | a redraw happens if and only if the triple changed; a second call right after draws nothing and changes nothing |
| `Properties.TickKeepsPort` | src/main.cpp:169-173 | no tick, not even one that runs the portal, changes the numeric port |
| `Properties.ProvisioningEntry` | src/main.cpp:259-262 | the portal runs in a tick if and only if the pin is low or the host is empty |
| `Properties.UnloadableConfigForcesPortal` | src/main.cpp:114-134 | a missing, oversized or unparsable config file leaves the host empty, so the first tick runs the portal |
| `Properties.LoadConfigRules` | src/main.cpp:100-159 | an unmounted file system, a missing or unopenable file, a file over 1024 bytes or one that fails to parse leaves all globals unchanged; otherwise host and port string are the document's members and the port is `toInt` of the port string, or 1880 when that is 0 (so never 0); nothing else changes |
| `Properties.SaveThenLoad` | src/main.cpp:136-146 | loading the document provisioning saved restores host and port string and gives the port they name |
| `Properties.PortRoundTrip` | src/main.cpp:141-146 | a non-zero port printed by `String(int)` loads back as itself |
| `Properties.PortFallback` | src/main.cpp:142-146 | a port string of "0", or one without digits, loads as 1880 |
| `Properties.SaveThenLoadScenario` | src/main.cpp:136-146 | the saved pair ("10.0.0.5", "1880"), a 33-byte document, loads as host 10.0.0.5, port 1880 |
| `Properties.StalePortAfterFirstProvisioning` | src/main.cpp:169-173 | after provisioning on a device without a loadable config, a valid tick with a send due attempts a connect to port 0 of the new host; when that connect succeeds, the POST goes to port 0 of that host |

## Left out

- Exceptions: the `try`/`catch` blocks around the portal, the sensors, the report and the display are not modelled. A driver fault is not an outcome of the model.
- Floating point: readings are `real`, so the model has no rounding. `convertCtoF` is given its exact formula `c * 1.8 + 32`. A NaN produced by the heat-index routine is not modelled.
- `computeHeatIndex` and `String(float, 2)` are uninterpreted functions, held in `Libs`.
- The DHT driver is reduced to one event value per quantity, either NaN or a number. The sensor set-up and the derivation of `delayMS` from `min_delay` are left out. The delay itself is the `Sleep` effect.
- WiFiManager internals are left out: the portal UI, the 40-character parameter buffers, the repeated `addParameter` calls, and the ignored result of `startConfigPortal`. The portal is modelled as the two strings it returns.
- LittleFS and ArduinoJson are inputs: the mount, existence, open, size and parse outcomes. The byte content of the file and the reading of a buffer that is not NUL-terminated are hidden inside the parse outcome. The written file is recorded as a `SaveConfig` effect holding the document. Whether that save succeeds is an input. Serialization to bytes and its size are not modelled.
- The HTTP transport is reduced to whether the TCP connect succeeded, then a `Post(url, body)` effect. The status code only reaches the log, so it is not an input. The JSON serialization of the body, the Content-Type header and `httpClient.end()` are not modelled.
- Serial logging, the OLED driver calls (cursor, colours, `fillScreen`, text size) and the pin and display set-up in `setup()` are hardware I/O. Erase and draw are modelled as effects carrying their text.
