/** The firmware's globals as one object whose methods update them in place, step by step,
    as `setupFileSystem()`, `configureWiFi()`, `displayValues()` and `loop()` do. Each method
    is proved to leave exactly the globals, and to issue exactly the effects, that the
    corresponding function of module Control prescribes. */
module Firmware {
  import opened Arduino
  import opened Control

  class Device {
    /** Heat index and float formatting, supplied by the libraries. */
    const libs: Libs

    var temp: real
    var humidity: real
    var heatIndex: real
    var oldTemp: real
    var oldHumidity: real
    var oldHeatIndex: real
    var oldDisplayString: string
    var sentTime: U32
    var host: string
    var portString: string
    var port: I32

    /** The globals as a value. */
    function State(): Globals
      reads this
    {
      Globals(temp, humidity, heatIndex, oldTemp, oldHumidity, oldHeatIndex,
              oldDisplayString, sentTime, host, portString, port)
    }

    /** Power-on: the globals' initialisers, then `setup()`, which loads the configuration
        and finally stamps `sentTime` with `millis()`. */
    constructor Boot(libs: Libs, fs: ConfigFs, bootMillis: U32)
      ensures this.libs == libs
      ensures State() == LoadConfig(InitialGlobals(), fs).(sentTime := bootMillis)
    {
      this.libs := libs;
      temp, humidity, heatIndex := NoTemp, 0.0, 0.0;
      oldTemp, oldHumidity, oldHeatIndex := NoTemp, 0.0, 0.0;
      oldDisplayString := "";
      sentTime := 0;
      host, portString, port := "", "", 0;
      new;
      SetupFileSystem(fs);
      sentTime := bootMillis;
    }

    /** `setupFileSystem()`. */
    method SetupFileSystem(fs: ConfigFs)
      modifies this
      ensures State() == LoadConfig(old(State()), fs)
    {
      ghost var g0 := State();
      if fs.ConfigFile? {
        if fs.size > MaxConfigSize {
          assert !Loadable(fs);
          return;
        }
        if fs.parsed.None? {
          assert !Loadable(fs);
          return;
        }
        var doc := fs.parsed.value;
        ghost var ps := Member(doc, "port");
        ghost var loaded := g0.(host := Member(doc, "host"), portString := ps, port := PortFromString(ps));
        assert LoadConfig(g0, fs) == loaded;
        host := Member(doc, "host");
        portString := Member(doc, "port");
        port := ToInt(portString);
        if port == 0 {
          port := DefaultPort;
        }
        assert port == loaded.port;
      } else {
        assert !Loadable(fs);
      }
    }

    /** `configureWiFi()`: `portalHost`/`portalPort` are what the captive portal's two
        parameters hold when it returns; `saveOpened` whether `/config.json` opened for
        writing. */
    method ConfigureWiFi(portalHost: string, portalPort: string, saveOpened: bool)
      returns (effects: seq<Effect>)
      modifies this
      ensures var r := Provision(old(State()), portalHost, portalPort, saveOpened);
              State() == r.g && effects == r.effects
    {
      effects := [StartPortal(DeviceId)];
      host := portalHost;
      portString := portalPort;
      if !saveOpened {
        return;
      }
      effects := effects + [SaveConfig(ConfigDoc(host, portString))];
    }

    /** `displayValues()`. */
    method DisplayValues() returns (effects: seq<Effect>)
      modifies this
      ensures var r := Display(old(State()), libs.format);
              State() == r.g && effects == r.effects
    {
      var newDisplayString := DisplayText(libs.format, temp, humidity, heatIndex);
      effects := [];
      if oldTemp != temp || oldHeatIndex != heatIndex || oldHumidity != humidity {
        effects := [Erase(oldDisplayString), Draw(newDisplayString)];
        oldHumidity := humidity;
        oldTemp := temp;
        oldHeatIndex := heatIndex;
        oldDisplayString := DisplayText(libs.format, temp, humidity, heatIndex);
      }
    }

    /** The sensor block of `loop()`. */
    method ReadSensors(t: SensorValue, h: SensorValue)
      modifies this
      ensures State() == Sample(old(State()), t, h)
    {
      if t.Num? {
        temp := CtoF(t.x);
      }
      if h.Num? {
        humidity := h.x;
      }
    }

    /** One call of `loop()`. */
    method Tick(i: TickInput) returns (effects: seq<Effect>)
      modifies this
      ensures var r := TickStep(old(State()), i, libs);
              State() == r.g && effects == r.effects
    {
      ghost var g0 := State();
      ghost var p := Provisioned(g0, i);
      effects := [];
      if i.pinLow || host == "" {
        effects := ConfigureWiFi(i.portalHost, i.portalPort, i.saveOpened);
      }
      assert State() == p.g && effects == p.effects;
      ReadSensors(i.tempEvent, i.humidityEvent);
      ghost var s := Sample(p.g, i.tempEvent, i.humidityEvent);
      assert State() == s;
      if temp > NoTemp && humidity > 0.0 {
        heatIndex := libs.heatIndex(temp, humidity);
        ghost var h := State();
        assert TickStep(g0, i, libs) == Measured(h, i, libs, p.effects);
        if ElapsedMillis(i.now, sentTime) > SendInterval {
          var sensorValues := Payload(temp, humidity, heatIndex);
          effects := effects + [Connect(host, ToU16(port))];
          if !i.connected {
            return;
          }
          var postUrl := "http://" + host + ":" + IntToString(port) + ResourcePath;
          assert postUrl == PostUrl(h.host, h.port);
          effects := effects + [Post(postUrl, sensorValues)];
          sentTime := i.postedAt;
        }
        var shown := DisplayValues();
        effects := effects + shown;
      }
      effects := effects + [Sleep];
    }
  }
}
