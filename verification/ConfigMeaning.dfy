/** What every text means as a configuration file: when it is accepted, and as what. */
module ConfigMeaning {
  import opened ConfigText
  import opened ConfigSpec
  import opened ConfigFormat
  import opened ConfigLines
  import opened Listeners
  import opened Options
  import Lists

  // ---------- one listener value ----------

  function PortOf(t: string): int {
    Numeral(t) % 0x1_0000_0000
  }

  /** The protocol and the service a word names. */
  ghost function ProtoNamed(s: string): (proto: Proto)
    requires KnownProto(s)
    ensures NamesProto(s, proto)
  {
    var proto :| NamesProto(s, proto);
    proto
  }

  ghost function ServiceNamed(s: string): (service: Service)
    requires NamesService(s, Echo) || NamesService(s, Proxy)
    ensures NamesService(s, service)
  {
    var service :| NamesService(s, service);
    service
  }

  /** The listener a value names, read off the text between its commas. */
  ghost function ListenerOf(value: string): Listener
    requires Understood(value)
  {
    var ts := NonEmpty(Split(value));
    var proto, service := ProtoNamed(Trim(ts[0])), ServiceNamed(Trim(ts[3]));
    var proxy := service == Proxy;
    Listener(proto, service, Trim(ts[0]), Trim(ts[1]), PortOf(Trim(ts[2])), Trim(ts[3]),
             if proxy then Trim(ts[4]) else "", if proxy then PortOf(Trim(ts[5])) else 0)
  }

  lemma PortIsRead(t: string)
    requires ReadsAsPort(t)
    ensures Atoi(t) == PortOf(t) && IsPort(Atoi(t))
  {
    hide Numeral;
    Remainder(Numeral(t));
  }

  /** Protocol and service words and addresses fit their fields. */
  lemma WordsFit(s: string)
    ensures KnownProto(s) || NamesService(s, Echo) || NamesService(s, Proxy) ==> Cut(s, TYPE_SIZE) == s
    ensures IsAddress(s) ==> Cut(s, IP_SIZE) == s
  {
    if IsAddress(s) { AddressShape(s); }
  }

  /** Parsing a value adds the listener it names, if there is room. */
  lemma ValueMeaning(cfg: Config, value: string)
    ensures ParseListenerValue(cfg, value)
      == if |cfg.listeners| < 16 && Understood(value)
         then Some(cfg.(listeners := cfg.listeners + [ListenerOf(value)])) else None
  {
    AcceptedListenerValues(cfg, value);
    TokensAreFields(value);
    if |cfg.listeners| < 16 && Understood(value) {
      var ts := NonEmpty(Split(value));
      WordsFit(Trim(ts[0]));
      WordsFit(Trim(ts[1]));
      WordsFit(Trim(ts[3]));
      ProtoByName(Trim(ts[0]), ProtoNamed(Trim(ts[0])));
      ServiceByName(Trim(ts[3]), ServiceNamed(Trim(ts[3])));
      ServiceByName(Trim(ts[3]), Echo);
      ServiceByName(Trim(ts[3]), Proxy);
      PortIsRead(Trim(ts[2]));
      if IsService(ts[3], Proxy) {
        WordsFit(Trim(ts[4]));
        PortIsRead(Trim(ts[5]));
      }
      hide Tokens, Split, NonEmpty, Trim, Atoi, Numeral, ParseProto, ParseService, IsAddress, Cut;
      hide ReadsAsPort, ReadsAsZero, AllSpace, ProtoNamed, ServiceNamed, KnownProto, NamesService;
    }
  }

  // ---------- all settings of a file ----------

  /** A setting that is taken. */
  ghost predicate Good(key: string, value: string) {
    if key == "listener" then Understood(value) else Acceptable(key, value)
  }

  ghost predicate AllGood(settings: seq<(string, string)>) {
    forall i | 0 <= i < |settings| :: Good(settings[i].0, settings[i].1)
  }

  /** The listeners the settings name, in their order, wherever they stand. */
  ghost function ListenersOf(settings: seq<(string, string)>): (ls: seq<Listener>)
    requires AllGood(settings)
    ensures |ls| == Count(settings, "listener")
  {
    if settings == [] then []
    else (if settings[0].0 == "listener" then
            assert Good(settings[0].0, settings[0].1);
            [ListenerOf(settings[0].1)]
          else []) + ListenersOf(settings[1..])
  }

  lemma GoodFirst(settings: seq<(string, string)>)
    requires settings != []
    ensures AllGood(settings) <==> Good(settings[0].0, settings[0].1) && AllGood(settings[1..])
  {
    if AllGood(settings[1..]) {
      assert forall i | 0 < i < |settings| :: settings[i] == settings[1..][i - 1];
    }
  }

  /** One setting: taken or refused, and what it does to the listeners. */
  lemma OneSettingMeaning(st: State, key: string, value: string)
    ensures var r := Apply(st, key, value);
            && r.Some? == (Good(key, value) && (key == "listener" ==> |st.cfg.listeners| < 16))
            && (r.Some? ==>
                  r.value.cfg.listeners == st.cfg.listeners + if key == "listener" then [ListenerOf(value)] else [])
  {
    if key == "listener" {
      ValueMeaning(st.cfg, value);
    } else {
      ApplyScalar(st, key, value);
      assert st.cfg.listeners + [] == st.cfg.listeners;
    }
    hide ParseListenerValue, Understood, ListenerOf, Acceptable, Atoi;
  }

  /** All settings are taken if and only if each is and the listeners fit, and then they are
      added in order. */
  lemma {:induction false} SettingsMeaning(st: State, settings: seq<(string, string)>)
    requires |st.cfg.listeners| <= 16
    ensures var r := ApplyAll(st, settings);
            && (r.Some? <==> AllGood(settings) && |st.cfg.listeners| + Count(settings, "listener") <= 16)
            && (r.Some? ==> r.value.cfg.listeners == st.cfg.listeners + ListenersOf(settings))
    decreases |settings|
  {
    hide Apply, Good, AllGood, ListenerOf;
    if settings == [] {
      assert AllGood(settings) by { NothingBad(); }
      assert st.cfg.listeners + [] == st.cfg.listeners;
    } else {
      var key, value := settings[0].0, settings[0].1;
      GoodFirst(settings);
      OneSettingMeaning(st, key, value);
      var next := Apply(st, key, value);
      if next.Some? {
        SettingsMeaning(next.value, settings[1..]);
        if AllGood(settings) {
          GoodMeansUnderstood(key, value);
          var first := if key == "listener" then [ListenerOf(value)] else [];
          Lists.Associative(st.cfg.listeners, first, ListenersOf(settings[1..]));
        }
      }
    }
  }

  lemma GoodMeansUnderstood(key: string, value: string)
    requires Good(key, value)
    ensures key == "listener" ==> Understood(value)
  {
  }

  lemma NothingBad()
    ensures AllGood([])
  {
  }

  /** What it takes to be a configuration file: every line can be read, every value is one its
      key takes, there are at most 16 listeners, and if there is none the last `listen_ip`, or
      0.0.0.0, is an address. */
  ghost predicate IsConfiguration(lines: seq<string>) {
    var settings := SettingsIn(lines);
    && Readable(lines) && AllGood(settings) && Count(settings, "listener") <= 16
    && (Count(settings, "listener") == 0 ==> IsAddress(LastCut(settings, "listen_ip", 64, "0.0.0.0")))
  }

  /** What it says: its listeners in the order of the file, or the legacy one, and the last value
      of every other key. */
  ghost function Meaning(lines: seq<string>): Config
    requires IsConfiguration(lines)
  {
    var settings := SettingsIn(lines);
    var ip, port := LastCut(settings, "listen_ip", 64, "0.0.0.0"), LastPort(settings, "listen_port", 8080);
    Config(
      if Count(settings, "listener") > 0 then ListenersOf(settings)
      else [Listener(Tcp, Echo, "tcp", ip, port, "echo", "", 0)],
      LastPort(settings, "worker_num", 4), LastLevel(settings, Info),
      LastCut(settings, "log_file", 256, "/tmp/myserver.log"))
  }

  /** The parser accepts exactly the configuration files, and reads them as what they say. */
  lemma ParserReadsTheMeaning(content: string)
    ensures var lines := LinesOf(content);
            ParseFile(content) == if IsConfiguration(lines) then Some(Meaning(lines)) else None
  {
    hide Apply, AllGood, ListenerOf, ParseLines, FileSettings, Finish, Cut, Atoi, Readable, SettingsIn, LinesOf;
    FileMeaning(START, content);
    FileIsItsLines(content);
    if FileSettings(content).Some? {
      var settings := FileSettings(content).value;
      SettingsMeaning(START, settings);
      var r := ParseLines(START, content);
      if r.Some? {
        var st := r.value;
        LastSettingsHold(START, settings, st);
        LinesWellFormed(START, content);
        assert [] + ListenersOf(settings) == ListenersOf(settings);
        LastStep(st);
      }
    }
  }

  lemma LastStep(st: State)
    requires IsPort(st.legacyPort)
    ensures st.cfg.listeners != [] ==> Finish(st) == Some(st.cfg)
    ensures st.cfg.listeners == [] ==>
              var only := Listener(Tcp, Echo, "tcp", st.legacyIp, st.legacyPort, "echo", "", 0);
              Finish(st) == if IsAddress(st.legacyIp) then Some(st.cfg.(listeners := [only])) else None
  {
    if st.cfg.listeners == [] { SingleListener(st); }
  }
}
