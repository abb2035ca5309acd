/** What the control loop guarantees, stated over the functions of module Control, which the
    methods of `Firmware.Device` are proved to follow. */
module Properties {
  import opened Arduino
  import opened Control

  /** A TCP connect to the report server was attempted. */
  predicate SendAttempted(effects: seq<Effect>) {
    exists e | e in effects :: e.Connect?
  }

  /** Something was drawn on, or erased from, the display. */
  predicate Redrawn(effects: seq<Effect>) {
    exists e | e in effects :: e.Erase? || e.Draw?
  }

  // ---------------------------------------------------------------- sampling

  /** A not-a-number event never overwrites a reading: after a tick the temperature is the old
      one when its event was not-a-number and the converted event otherwise; likewise the
      humidity, stored as reported. */
  lemma NaNEventsRetained(g: Globals, i: TickInput, libs: Libs)
    ensures var r := TickStep(g, i, libs).g;
            && r.temp == (if i.tempEvent.NaN? then g.temp else CtoF(i.tempEvent.x))
            && r.humidity == (if i.humidityEvent.NaN? then g.humidity else i.humidityEvent.x)
  {
    var p := Provisioned(g, i);
    var s := Sample(p.g, i.tempEvent, i.humidityEvent);
    if IsValid(s) {
      var h := s.(heatIndex := libs.heatIndex(s.temp, s.humidity));
      MeasuredKeepsReadings(h, i, libs, p.effects);
    }
  }

  /** The report and display part of a tick leaves the readings and the configuration alone. */
  lemma MeasuredKeepsReadings(h: Globals, i: TickInput, libs: Libs, before: seq<Effect>)
    ensures var r := Measured(h, i, libs, before).g;
            && r.temp == h.temp && r.humidity == h.humidity && r.heatIndex == h.heatIndex
            && r.host == h.host && r.portString == h.portString && r.port == h.port
  {
    if Due(i.now, h.sentTime) && i.connected {
      var d := Display(h.(sentTime := i.postedAt), libs.format);
      assert d.g.temp == h.temp;
    }
  }

  /** The 22 °C reading converts to 71.6 °F. */
  lemma CtoFScenario()
    ensures CtoF(22.0) == 71.6
  {
  }

  // ---------------------------------------------------------------- validity guard

  /** While the sampled reading is still at or below a sentinel, the tick only samples and
      sleeps: heat index, report timer and display state keep their values, and nothing is
      sent or drawn: after provisioning, the delay is its only effect. */
  lemma InvalidReadingIsQuiet(g: Globals, i: TickInput, libs: Libs)
    requires !IsValid(Sampled(g, i))
    ensures var r := TickStep(g, i, libs);
            && r.g.heatIndex == g.heatIndex && r.g.sentTime == g.sentTime
            && r.g.oldTemp == g.oldTemp && r.g.oldHumidity == g.oldHumidity
            && r.g.oldHeatIndex == g.oldHeatIndex && r.g.oldDisplay == g.oldDisplay
            && r.effects == Provisioned(g, i).effects + [Sleep]
            && !SendAttempted(r.effects) && !Redrawn(r.effects)
  {
    var p := Provisioned(g, i);
    var r := TickStep(g, i, libs);
    assert r.effects == p.effects + [Sleep];
    forall e | e in r.effects
      ensures !e.Connect? && !e.Erase? && !e.Draw?
    {
      if e in p.effects {
        assert e.StartPortal? || e.SaveConfig?;
      }
    }
  }

  // ---------------------------------------------------------------- reporting

  /** A connect is attempted exactly when the reading is valid and strictly more than a
      minute of 32-bit `millis()` time has passed since `sentTime`; when it is not due,
      `sentTime` stays as it was. */
  lemma SendOnlyWhenDue(g: Globals, i: TickInput, libs: Libs)
    ensures var r := TickStep(g, i, libs);
            SendAttempted(r.effects) <==> IsValid(Sampled(g, i)) && Due(i.now, g.sentTime)
    ensures !Due(i.now, g.sentTime) ==> TickStep(g, i, libs).g.sentTime == g.sentTime
  {
    var p := Provisioned(g, i);
    var s := Sample(p.g, i.tempEvent, i.humidityEvent);
    var r := TickStep(g, i, libs);
    assert s.sentTime == g.sentTime;
    if IsValid(s) {
      var h := s.(heatIndex := libs.heatIndex(s.temp, s.humidity));
      if Due(i.now, g.sentTime) {
        assert Connect(h.host, ToU16(h.port)) in r.effects;
      } else {
        var d := Display(h, libs.format);
        assert r.effects == p.effects + d.effects + [Sleep];
        NoConnectIn(p.effects, d.effects);
      }
    } else {
      NoConnectIn(p.effects, []);
    }
  }

  /** Provisioning and display effects followed by the delay hold no connect. */
  lemma NoConnectIn(prov: seq<Effect>, shown: seq<Effect>)
    requires forall e | e in prov :: e.StartPortal? || e.SaveConfig?
    requires forall e | e in shown :: e.Erase? || e.Draw?
    ensures !SendAttempted(prov + shown + [Sleep])
  {
  }

  /** A valid tick with no send due computes the heat index and updates the display from
      it before the delay: the effects are provisioning, the display effects, the delay. */
  lemma ValidTickNotDueDisplays(g: Globals, i: TickInput, libs: Libs)
    requires IsValid(Sampled(g, i)) && !Due(i.now, g.sentTime)
    ensures var s := Sampled(g, i);
            var d := Display(s.(heatIndex := libs.heatIndex(s.temp, s.humidity)), libs.format);
            TickStep(g, i, libs) == Step(d.g, Provisioned(g, i).effects + d.effects + [Sleep])
  {
  }

  /** A failed connect ends the tick at once: the connect is the last effect (no POST, no
      redraw, no delay), `sentTime` and the display state keep their values, so the send is
      retried on the next tick. */
  lemma ConnectFailureEndsTick(g: Globals, i: TickInput, libs: Libs)
    requires IsValid(Sampled(g, i)) && Due(i.now, g.sentTime) && !i.connected
    ensures var r := TickStep(g, i, libs); var s := Sampled(g, i);
            && r.effects == Provisioned(g, i).effects + [Connect(s.host, ToU16(s.port))]
            && r.g.sentTime == g.sentTime
            && r.g.heatIndex == libs.heatIndex(s.temp, s.humidity)
            && r.g.oldTemp == g.oldTemp && r.g.oldHumidity == g.oldHumidity
            && r.g.oldHeatIndex == g.oldHeatIndex && r.g.oldDisplay == g.oldDisplay
            && Sleep !in r.effects && !Redrawn(r.effects)
  {
    var p := Provisioned(g, i);
    var r := TickStep(g, i, libs);
    forall e | e in r.effects
      ensures !e.Erase? && !e.Draw? && !e.Sleep?
    {
      if e in p.effects {
        assert e.StartPortal? || e.SaveConfig?;
      }
    }
  }

  /** A successful connect (to the port truncated to 16 bits) is followed by the POST of the
      reading to `http://<host>:<port>/thermometer`, with the port printed in full; then the
      display is updated and the tick sleeps. `sentTime` becomes the time after the POST,
      whatever the server answered. */
  lemma ConnectSuccessReports(g: Globals, i: TickInput, libs: Libs)
    requires IsValid(Sampled(g, i)) && Due(i.now, g.sentTime) && i.connected
    ensures var r := TickStep(g, i, libs); var s := Sampled(g, i);
            var hi := libs.heatIndex(s.temp, s.humidity);
            var d := Display(s.(heatIndex := hi, sentTime := i.postedAt), libs.format);
            && r.effects == Provisioned(g, i).effects
                            + [Connect(s.host, ToU16(s.port)),
                               Post(PostUrl(s.host, s.port), Payload(s.temp, s.humidity, hi))]
                            + d.effects + [Sleep]
            && r.g == d.g && r.g.sentTime == i.postedAt
  {
    var s := Sampled(g, i);
    var h := s.(heatIndex := libs.heatIndex(s.temp, s.humidity));
    assert h.sentTime == g.sentTime;
    assert TickStep(g, i, libs) == Measured(h, i, libs, Provisioned(g, i).effects);
    MeasuredReports(h, i, libs, Provisioned(g, i).effects);
  }

  /** The report part of a due tick whose connect succeeds: connect, POST, display, delay. */
  lemma MeasuredReports(h: Globals, i: TickInput, libs: Libs, before: seq<Effect>)
    requires Due(i.now, h.sentTime) && i.connected
    ensures var d := Display(h.(sentTime := i.postedAt), libs.format);
            Measured(h, i, libs, before)
              == Step(d.g, before + [Connect(h.host, ToU16(h.port)),
                                     Post(PostUrl(h.host, h.port), Payload(h.temp, h.humidity, h.heatIndex))]
                           + d.effects + [Sleep])
  {
  }

  /** A run of ticks none of which is due sends nothing and keeps `sentTime`. */
  lemma {:induction false} QuietWhileNotDue(g: Globals, ins: seq<TickInput>, libs: Libs)
    requires forall k | 0 <= k < |ins| :: ElapsedMillis(ins[k].now, g.sentTime) <= SendInterval
    ensures Run(g, ins, libs).g.sentTime == g.sentTime
    ensures !SendAttempted(Run(g, ins, libs).effects)
    decreases |ins|
  {
    if ins != [] {
      var t := TickStep(g, ins[0], libs);
      SendOnlyWhenDue(g, ins[0], libs);
      forall k | 0 <= k < |ins[1..]|
        ensures ElapsedMillis(ins[1..][k].now, t.g.sentTime) <= SendInterval
      {
        assert ins[1..][k] == ins[k + 1];
      }
      QuietWhileNotDue(t.g, ins[1..], libs);
    }
  }

  /** After a report, no connect is attempted in any of the following ticks as long as none
      is strictly more than a minute past the time stamp the report left in `sentTime`. The
      run starts with the reporting tick `ins[0]`. */
  lemma NoSecondSendWithinWindow(g: Globals, ins: seq<TickInput>, libs: Libs)
    requires |ins| > 0
    requires IsValid(Sampled(g, ins[0])) && Due(ins[0].now, g.sentTime) && ins[0].connected
    requires forall k | 1 <= k < |ins| :: ElapsedMillis(ins[k].now, ins[0].postedAt) <= SendInterval
    ensures var first := TickStep(g, ins[0], libs); var rest := Run(first.g, ins[1..], libs);
            && Run(g, ins, libs) == Step(rest.g, first.effects + rest.effects)
            && !SendAttempted(rest.effects) && rest.g.sentTime == ins[0].postedAt
  {
    var first := TickStep(g, ins[0], libs);
    ConnectSuccessReports(g, ins[0], libs);
    forall k | 0 <= k < |ins[1..]|
      ensures ElapsedMillis(ins[1..][k].now, first.g.sentTime) <= SendInterval
    {
      assert ins[1..][k] == ins[k + 1];
    }
    QuietWhileNotDue(first.g, ins[1..], libs);
  }

  /** The gate is strict and survives the 49.7-day roll-over of `millis()`. */
  lemma SendGateExamples()
    ensures !Due(60000, 0) && Due(60001, 0)
    ensures Due(59000, TwoTo32 - 1001) && !Due(59000, TwoTo32 - 1000)
  {
  }

  /** The POST URL names the host and a port text that reads back as the port. */
  lemma PostUrlNamesServer(host: string, port: I32)
    ensures var url := PostUrl(host, port);
            && url[7..7 + |host|] == host
            && ToInt(url[8 + |host|..|url| - |ResourcePath|]) == port
  {
    ToIntOfIntToString(port);
  }

  // ---------------------------------------------------------------- display

  /** A redraw happens exactly when the triple changed; it erases the previous text, draws
      the current one and records it, so an immediate second call draws nothing. */
  lemma DisplayIdempotent(g: Globals, format: real -> string)
    ensures var d := Display(g, format);
            && (Redrawn(d.effects) <==> Changed(g))
            && Display(d.g, format) == Step(d.g, [])
  {
    var d := Display(g, format);
    if Changed(g) {
      assert Erase(g.oldDisplay) in d.effects;
    }
  }

  // ---------------------------------------------------------------- configuration

  /** A tick never changes the numeric port, not even when it runs the portal, which sets
      only host and port string. */
  lemma TickKeepsPort(g: Globals, i: TickInput, libs: Libs)
    ensures Sampled(g, i).port == g.port && TickStep(g, i, libs).g.port == g.port
  {
    var s := Sampled(g, i);
    if IsValid(s) {
      MeasuredKeepsReadings(s.(heatIndex := libs.heatIndex(s.temp, s.humidity)), i, libs, Provisioned(g, i).effects);
    }
  }

  /** After provisioning, the effects of the report and display part of a tick are only
      connects, POSTs, erases, draws and the delay. */
  lemma MeasuredEffects(h: Globals, i: TickInput, libs: Libs, before: seq<Effect>)
    returns (rest: seq<Effect>)
    ensures Measured(h, i, libs, before).effects == before + rest
    ensures forall e | e in rest :: !e.StartPortal? && !e.SaveConfig?
  {
    if !Due(i.now, h.sentTime) {
      rest := Display(h, libs.format).effects + [Sleep];
    } else if !i.connected {
      rest := [Connect(h.host, ToU16(h.port))];
    } else {
      var d := Display(h.(sentTime := i.postedAt), libs.format);
      rest := [Connect(h.host, ToU16(h.port)), Post(PostUrl(h.host, h.port), ReadingPayload(h))] + d.effects + [Sleep];
    }
  }

  /** The portal runs in a tick exactly when the pin is low or no host is configured. */
  lemma ProvisioningEntry(g: Globals, i: TickInput, libs: Libs)
    ensures StartPortal(DeviceId) in TickStep(g, i, libs).effects <==> (i.pinLow || g.host == "")
  {
    var p := Provisioned(g, i);
    var s := Sample(p.g, i.tempEvent, i.humidityEvent);
    var rest: seq<Effect>;
    if IsValid(s) {
      rest := MeasuredEffects(s.(heatIndex := libs.heatIndex(s.temp, s.humidity)), i, libs, p.effects);
    } else {
      rest := [Sleep];
    }
    var r := TickStep(g, i, libs);
    assert r.effects == p.effects + rest;
    if i.pinLow || g.host == "" {
      assert r.effects[0] == StartPortal(DeviceId);
    } else {
      assert r.effects == rest;
    }
  }

  /** `setupFileSystem()` changes nothing unless the file is at most 1024 bytes and parses;
      then host and port string are the document's members, the port is what the port string
      names (never 0), and no other global changes. */
  lemma LoadConfigRules(g: Globals, fs: ConfigFs)
    ensures var r := LoadConfig(g, fs);
            && (!Loadable(fs) ==> r == g)
            && (Loadable(fs) ==> r.port == PortFromString(r.portString) && r.port != 0)
            && (Loadable(fs) ==>
                  r.host == Member(fs.parsed.value, "host") && r.portString == Member(fs.parsed.value, "port"))
            && r.(host := g.host, portString := g.portString, port := g.port) == g
  {
  }

  /** Without a loadable config file the device boots with no host, so its first tick runs
      the portal. */
  lemma UnloadableConfigForcesPortal(fs: ConfigFs, bootMillis: U32, i: TickInput, libs: Libs)
    requires !Loadable(fs)
    ensures StartPortal(DeviceId) in TickStep(LoadConfig(InitialGlobals(), fs).(sentTime := bootMillis), i, libs).effects
  {
    ProvisioningEntry(LoadConfig(InitialGlobals(), fs).(sentTime := bootMillis), i, libs);
  }

  /** Loading, at the next boot, the document provisioning saved gives back host and port
      string, and the port they name (1880 when it reads as 0). */
  lemma SaveThenLoad(g: Globals, h: string, ps: string, size: nat)
    requires size <= MaxConfigSize
    ensures var r := LoadConfig(g, ConfigFile(size, Some(ConfigDoc(h, ps))));
            r.host == h && r.portString == ps && r.port == PortFromString(ps)
  {
  }

  /** A port string that `String(int)` printed from a non-zero port loads as that port. */
  lemma PortRoundTrip(p: I32)
    requires p != 0
    ensures PortFromString(IntToString(p)) == p
  {
    ToIntOfIntToString(p);
  }

  /** A port string of "0", or one without any digit, falls back to 1880. */
  lemma PortFallback(s: string)
    requires s == "0" || forall k | 0 <= k < |s| :: !IsDigit(s[k])
    ensures PortFromString(s) == DefaultPort
  {
    if s == "0" {
      assert s == IntToString(0);
      ToIntOfIntToString(0);
    } else {
      NoDigitsReadsZero(s);
    }
  }

  /** The saved pair ("10.0.0.5", "1880"), serialized as the 33 bytes
      `{"host":"10.0.0.5","port":"1880"}`, loads as host 10.0.0.5 and port 1880. */
  lemma SaveThenLoadScenario(g: Globals)
    ensures var r := LoadConfig(g, ConfigFile(33, Some(ConfigDoc("10.0.0.5", "1880"))));
            r.host == "10.0.0.5" && r.port == 1880
  {
    assert IntToString(1880) == "1880";
    PortRoundTrip(1880);
  }

  /** Provisioning on a device that booted without a config file leaves `port` at its
      initial 0: the first due report tries to connect to port 0 of the new host (and, should
      that connect succeed, POSTs there), until a reboot loads the saved port. */
  lemma StalePortAfterFirstProvisioning(fs: ConfigFs, bootMillis: U32, i: TickInput, libs: Libs)
    requires !Loadable(fs)
    requires var g := LoadConfig(InitialGlobals(), fs).(sentTime := bootMillis);
             IsValid(Sampled(g, i)) && Due(i.now, bootMillis)
    ensures var g := LoadConfig(InitialGlobals(), fs).(sentTime := bootMillis);
            var r := TickStep(g, i, libs);
            && Connect(i.portalHost, 0) in r.effects
            && (i.connected ==> exists body :: Post(PostUrl(i.portalHost, 0), body) in r.effects)
  {
    var g := LoadConfig(InitialGlobals(), fs).(sentTime := bootMillis);
    var s := Sampled(g, i);
    assert s.host == i.portalHost && s.port == 0;
    if i.connected {
      ConnectSuccessReports(g, i, libs);
    } else {
      ConnectFailureEndsTick(g, i, libs);
    }
  }
}
