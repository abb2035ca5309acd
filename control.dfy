/** The thermometer's control loop as a function of its globals: what one call of
    `setupFileSystem()`, `configureWiFi()`, `displayValues()` or `loop()` does to them and which
    external effects it issues, in order. The drivers and libraries (DHT sensor, captive portal,
    LittleFS, ArduinoJson, HTTP client, OLED) appear only as inputs and as effects. */
module Control {
  import opened Arduino

  datatype Option<T> = None | Some(value: T)

  /** The value carried by one DHT sensor event; a failed read reports not-a-number. */
  datatype SensorValue = NaN | Num(x: real)

  /** The string-valued members of the root object of a parsed JSON document; ArduinoJson
      yields a null `const char *` for a member that is absent or not a string, and assigning
      that to a `String` leaves it empty. */
  datatype JsonDoc = JsonDoc(strings: map<string, string>)

  /** What `setupFileSystem()` finds in flash: LittleFS failed to mount, `/config.json` does
      not exist, it could not be opened, or it was opened with this size and this outcome of
      `deserializeJson` (None: a parse error). */
  datatype ConfigFs =
    | Unmounted
    | NoConfigFile
    | OpenFailed
    | ConfigFile(size: nat, parsed: Option<JsonDoc>)

  /** The JSON body of a report: `{"temperature", "humidity", "relativeTemp"}`. */
  datatype Payload = Payload(temperature: real, humidity: real, relativeTemp: real)

  /** What the device does to the world, in the order it does it. */
  datatype Effect =
    | StartPortal(apName: string)      // WiFiManager blocks in its captive portal
    | SaveConfig(doc: JsonDoc)         // serializeJson into /config.json
    | Erase(text: string)              // old text printed in the background colour at (0, 0)
    | Draw(text: string)               // new text printed in the text colour at (0, 0)
    | Connect(host: string, port: U16) // WiFiClient::connect attempt
    | Post(url: string, body: Payload) // HTTP POST with Content-Type: application/json
    | Sleep                            // delay(delayMS) at the end of loop()

  /** The floating-point library routines the loop calls but whose bodies are not modelled:
      the DHT library's heat index (Fahrenheit inputs) and Arduino's `String(float, 2)`. */
  datatype Libs = Libs(heatIndex: (real, real) -> real, format: real -> string)

  /** The globals the loop carries from one tick to the next. */
  datatype Globals = Globals(
    temp: real, humidity: real, heatIndex: real,
    oldTemp: real, oldHumidity: real, oldHeatIndex: real,
    oldDisplay: string,
    sentTime: U32,
    host: string, portString: string, port: I32)

  /** The globals after an operation, and the effects it issued. */
  datatype Step = Step(g: Globals, effects: seq<Effect>)

  /** Everything one `loop()` call reads from outside: the provisioning pin, what the portal
      returns and whether the config file could be opened for writing (used only when the
      portal runs), the two sensor events, `millis()` at the send gate, whether the TCP
      connect succeeded, and `millis()` once the POST has completed. */
  datatype TickInput = TickInput(
    pinLow: bool,
    portalHost: string, portalPort: string, saveOpened: bool,
    tempEvent: SensorValue, humidityEvent: SensorValue,
    now: U32, connected: bool, postedAt: U32)

  const DeviceId: string := "wifitherm1"
  const MaxConfigSize: nat := 1024
  const DefaultPort: I32 := 1880
  /** `1000 * 60` milliseconds between reports. */
  const SendInterval: nat := 60000
  const ResourcePath: string := "/thermometer"
  /** The "not yet sampled" temperature; a reading is valid only strictly above it. */
  const NoTemp: real := -100.0

  /** The globals as the program's initialisers leave them: no host, port 0, sentinel
      readings, an empty display string and `sentTime` 0. */
  function InitialGlobals(): (g: Globals)
    ensures !IsValid(g) && g.host == "" && g.port == 0
  {
    Globals(NoTemp, 0.0, 0.0, NoTemp, 0.0, 0.0, "", 0, "", "", 0)
  }

  // ---------------------------------------------------------------- configuration

  /** A string member of the document, or the empty string when there is none. */
  function Member(doc: JsonDoc, key: string): string {
    if key in doc.strings then doc.strings[key] else ""
  }

  /** The document `configureWiFi()` serializes. */
  function ConfigDoc(host: string, portString: string): (doc: JsonDoc)
    ensures Member(doc, "host") == host && Member(doc, "port") == portString
  {
    JsonDoc(map["host" := host, "port" := portString])
  }

  /** `port = portString.toInt()`, replaced by 1880 when that gives 0. */
  function PortFromString(portString: string): (p: I32)
    ensures p != 0
    ensures ToInt(portString) != 0 ==> p == ToInt(portString)
    ensures ToInt(portString) == 0 ==> p == DefaultPort
  {
    var p := ToInt(portString);
    if p == 0 then DefaultPort else p
  }

  /** A config file that `setupFileSystem()` takes host and port from. */
  predicate Loadable(fs: ConfigFs) {
    fs.ConfigFile? && fs.size <= MaxConfigSize && fs.parsed.Some?
  }

  /** `setupFileSystem()`: a mounted, existing, openable file of at most 1024 bytes that
      parses sets host, port string and port; every other outcome returns early. */
  function LoadConfig(g: Globals, fs: ConfigFs): (r: Globals)
    ensures !Loadable(fs) ==> r == g
    ensures Loadable(fs) ==> r.port == PortFromString(r.portString)
  {
    match fs
    case ConfigFile(size, parsed) =>
      if size > MaxConfigSize then g
      else if parsed.None? then g
      else
        var ps := Member(parsed.value, "port");
        g.(host := Member(parsed.value, "host"), portString := ps, port := PortFromString(ps))
    case _ => g
  }

  /** `configureWiFi()`: the portal runs, host and port string take what it returns, and the
      pair is saved when the file opens for writing. The numeric `port` is not touched. */
  function Provision(g: Globals, host: string, portString: string, saveOpened: bool): (r: Step)
    ensures r.g.host == host && r.g.portString == portString
    ensures r.g.port == g.port
    ensures r.g.(host := g.host, portString := g.portString) == g
    ensures |r.effects| >= 1 && r.effects[0] == StartPortal(DeviceId)
    ensures SaveConfig(ConfigDoc(host, portString)) in r.effects <==> saveOpened
    ensures forall e | e in r.effects :: e.StartPortal? || e.SaveConfig?
  {
    var saves := if saveOpened then [SaveConfig(ConfigDoc(host, portString))] else [];
    Step(g.(host := host, portString := portString), [StartPortal(DeviceId)] + saves)
  }

  // ---------------------------------------------------------------- sampling

  /** `dht.convertCtoF`: `c * 1.8 + 32`. */
  function CtoF(c: real): (f: real)
    ensures (f - 32.0) * 5.0 / 9.0 == c
  {
    c * 1.8 + 32.0
  }

  /** The sensor block of `loop()`: a not-a-number event leaves its global as it was, a
      numeric one replaces it (temperature converted to Fahrenheit). */
  function Sample(g: Globals, t: SensorValue, h: SensorValue): (r: Globals)
    ensures t.NaN? ==> r.temp == g.temp
    ensures t.Num? ==> r.temp == CtoF(t.x)
    ensures h.NaN? ==> r.humidity == g.humidity
    ensures h.Num? ==> r.humidity == h.x
    ensures r.(temp := g.temp, humidity := g.humidity) == g
  {
    g.(temp := if t.Num? then CtoF(t.x) else g.temp,
       humidity := if h.Num? then h.x else g.humidity)
  }

  /** The guard of `loop()`: heat index, report and display run only past the sentinels. */
  predicate IsValid(g: Globals)
    ensures IsValid(g) ==> g.temp != NoTemp && g.humidity != 0.0
  {
    g.temp > NoTemp && g.humidity > 0.0
  }

  // ---------------------------------------------------------------- display

  /** The three-line text: temperature, humidity and heat index, each to two decimals. */
  function DisplayText(format: real -> string, temp: real, humidity: real, heatIndex: real): string {
    format(temp) + "F\n" + format(humidity) + "\n" + format(heatIndex) + "F"
  }

  /** The text for the current readings. */
  function CurrentText(g: Globals, format: real -> string): string {
    DisplayText(format, g.temp, g.humidity, g.heatIndex)
  }

  /** The readings differ from the last drawn triple (exact comparison, no tolerance). */
  predicate Changed(g: Globals) {
    g.oldTemp != g.temp || g.oldHeatIndex != g.heatIndex || g.oldHumidity != g.humidity
  }

  /** `displayValues()`: when the triple changed, erase the old text, draw the new one and
      remember both the triple and the text; otherwise do nothing. */
  function Display(g: Globals, format: real -> string): (r: Step)
    ensures Changed(g) ==> r.effects == [Erase(g.oldDisplay), Draw(CurrentText(g, format))]
    ensures Changed(g) ==> r.g.oldDisplay == CurrentText(g, format)
    ensures !Changed(g) ==> r.g == g && r.effects == []
    ensures !Changed(r.g)
    ensures r.g.(oldTemp := g.oldTemp, oldHumidity := g.oldHumidity,
                 oldHeatIndex := g.oldHeatIndex, oldDisplay := g.oldDisplay) == g
  {
    if Changed(g) then
      var text := CurrentText(g, format);
      Step(g.(oldHumidity := g.humidity, oldTemp := g.temp, oldHeatIndex := g.heatIndex,
              oldDisplay := text),
           [Erase(g.oldDisplay), Draw(text)])
    else
      Step(g, [])
  }

  // ---------------------------------------------------------------- reporting

  /** The send gate: more than one minute, strictly, on wrapping 32-bit time. */
  predicate Due(now: U32, sentTime: U32)
    ensures now >= sentTime ==> (Due(now, sentTime) <==> now - sentTime > SendInterval)
    ensures now < sentTime ==> (Due(now, sentTime) <==> TwoTo32 - sentTime + now > SendInterval)
  {
    ElapsedMillis(now, sentTime) > SendInterval
  }

  /** `"http://" + String(host) + ":" + String(port) + "/thermometer"`. */
  function PostUrl(host: string, port: int): (url: string)
    ensures |url| == 8 + |host| + |IntToString(port)| + |ResourcePath|
    ensures url[..7] == "http://" && url[7..7 + |host|] == host && url[7 + |host|] == ':'
    ensures url[|url| - |ResourcePath|..] == ResourcePath
    ensures url[8 + |host|..|url| - |ResourcePath|] == IntToString(port)
  {
    "http://" + host + ":" + IntToString(port) + ResourcePath
  }

  /** The report document: temperature, humidity and heat index (as "relativeTemp"). */
  function ReadingPayload(g: Globals): Payload {
    Payload(g.temp, g.humidity, g.heatIndex)
  }

  // ---------------------------------------------------------------- one tick

  /** The top of `loop()`: the portal runs when the pin is low or no host is known. */
  function Provisioned(g: Globals, i: TickInput): (r: Step)
    ensures StartPortal(DeviceId) in r.effects <==> i.pinLow || g.host == ""
    ensures forall e | e in r.effects :: e.StartPortal? || e.SaveConfig?
    ensures !(i.pinLow || g.host == "") ==> r.g == g
    ensures r.g.port == g.port
  {
    if i.pinLow || g.host == "" then Provision(g, i.portalHost, i.portalPort, i.saveOpened)
    else Step(g, [])
  }

  /** The globals once the sensor block of `loop()` has run. */
  function Sampled(g: Globals, i: TickInput): Globals {
    Sample(Provisioned(g, i).g, i.tempEvent, i.humidityEvent)
  }

  /** The rest of `loop()` once the reading is valid and the heat index is computed: the
      send gate, the connect (whose failure returns from `loop()` at once: no display update
      and no delay in that tick), the POST, then the display and the delay. `before` holds
      the effects already issued in this tick. */
  function Measured(h: Globals, i: TickInput, libs: Libs, before: seq<Effect>): (r: Step)
    ensures |r.effects| > |before| && r.effects[..|before|] == before
    ensures var last := r.effects[|r.effects| - 1];
            last == Sleep || (last == Connect(h.host, ToU16(h.port)) && !i.connected)
    ensures r.g.sentTime == if Due(i.now, h.sentTime) && i.connected then i.postedAt else h.sentTime
    ensures r.g.temp == h.temp && r.g.humidity == h.humidity && r.g.heatIndex == h.heatIndex
    ensures r.g.host == h.host && r.g.portString == h.portString && r.g.port == h.port
    ensures r.effects[|r.effects| - 1] == Sleep ==> !Changed(r.g)
  {
    if !Due(i.now, h.sentTime) then
      var d := Display(h, libs.format);
      Step(d.g, before + d.effects + [Sleep])
    else
      var attempt := before + [Connect(h.host, ToU16(h.port))];
      if !i.connected then
        Step(h, attempt)
      else
        var d := Display(h.(sentTime := i.postedAt), libs.format);
        Step(d.g, attempt + [Post(PostUrl(h.host, h.port), ReadingPayload(h))] + d.effects + [Sleep])
  }

  /** One call of `loop()`: provisioning when asked for, sampling, and past the validity
      guard the heat index and the rest; an invalid reading goes straight to the delay. */
  function TickStep(g: Globals, i: TickInput, libs: Libs): (r: Step)
    ensures var p := Provisioned(g, i).effects;
            |r.effects| > |p| && r.effects[..|p|] == p
    ensures r.effects[|r.effects| - 1] == Sleep || (r.effects[|r.effects| - 1].Connect? && !i.connected)
    ensures r.g.host == Sampled(g, i).host && r.g.portString == Sampled(g, i).portString
    ensures r.g.port == g.port
  {
    var p := Provisioned(g, i);
    var s := Sample(p.g, i.tempEvent, i.humidityEvent);
    if !IsValid(s) then
      Step(s, p.effects + [Sleep])
    else
      Measured(s.(heatIndex := libs.heatIndex(s.temp, s.humidity)), i, libs, p.effects)
  }

  /** Consecutive calls of `loop()`, one per input: the globals the last one leaves and
      every effect of the run, in order. */
  function Run(g: Globals, ins: seq<TickInput>, libs: Libs): (r: Step)
    ensures |ins| > 0 ==> |r.effects| >= |ins|
    ensures r.g.port == g.port
    decreases |ins|
  {
    if ins == [] then Step(g, [])
    else
      var t := TickStep(g, ins[0], libs);
      var rest := Run(t.g, ins[1..], libs);
      Step(rest.g, t.effects + rest.effects)
  }
}
