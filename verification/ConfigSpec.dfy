/** What the configuration reader computes, as functions on the text of the file. */
module ConfigSpec {
  import opened ConfigText
  import opened Listeners
  import opened Options

  const LINE_SIZE: nat := 512
  const TYPE_SIZE: nat := 32
  const IP_SIZE: nat := 64
  const LOG_FILE_SIZE: nat := 256

  datatype Level = Debug | Info | Warn | Error

  datatype Config = Config(listeners: seq<Listener>, workerNum: int, logLevel: Level, logFile: string)

  const DEFAULT := Config([], 4, Info, "/tmp/myserver.log")

  function ParseProto(s: string): Option<Proto> {
    if SameIgnoringCase(s, "tcp") then Some(Tcp)
    else if SameIgnoringCase(s, "udp") then Some(Udp)
    else None
  }

  function ParseService(s: string): Option<Service> {
    if SameIgnoringCase(s, "echo") then Some(Echo)
    else if SameIgnoringCase(s, "proxy") then Some(Proxy)
    else None
  }

  function ParseLevel(s: string): Option<Level> {
    if SameIgnoringCase(s, "debug") then Some(Debug)
    else if SameIgnoringCase(s, "info") then Some(Info)
    else if SameIgnoringCase(s, "warn") || SameIgnoringCase(s, "warning") then Some(Warn)
    else if SameIgnoringCase(s, "error") then Some(Error)
    else None
  }

  // ---------- the words of the format ----------

  function ProtoName(proto: Proto): string {
    match proto
    case Tcp => "tcp"
    case Udp => "udp"
  }

  function ServiceName(service: Service): string {
    match service
    case Echo => "echo"
    case Proxy => "proxy"
  }

  function LevelName(level: Level): string {
    match level
    case Debug => "debug"
    case Info => "info"
    case Warn => "warn"
    case Error => "error"
  }

  predicate NamesProto(s: string, proto: Proto) {
    InAnyCase(s, ProtoName(proto))
  }

  predicate NamesService(s: string, service: Service) {
    InAnyCase(s, ServiceName(service))
  }

  /** Warnings have a second name. */
  predicate NamesLevel(s: string, level: Level) {
    InAnyCase(s, LevelName(level)) || (level == Warn && InAnyCase(s, "warning"))
  }

  lemma OtherWord(s: string, v: string, w: string)
    requires IsWord(v) && IsWord(w) && v[0] != w[0]
    ensures !InAnyCase(s, v) || !InAnyCase(s, w)
  {
    if InAnyCase(s, v) { assert s[0] == v[0] || s[0] as int == v[0] as int - 32; }
  }

  lemma OneService(s: string)
    ensures !NamesService(s, Echo) || !NamesService(s, Proxy)
  {
    OtherWord(s, "echo", "proxy");
  }

  /** Each word is read as what it names, in any mixture of cases, and nothing else is. */
  lemma ProtoByName(s: string, proto: Proto)
    ensures ParseProto(s) == Some(proto) <==> NamesProto(s, proto)
  {
    SameInAnyCase(s, "tcp");
    SameInAnyCase(s, "udp");
    OtherWord(s, "tcp", "udp");
    hide SameIgnoringCase, InAnyCase;
  }

  lemma ServiceByName(s: string, service: Service)
    ensures ParseService(s) == Some(service) <==> NamesService(s, service)
  {
    SameInAnyCase(s, "echo");
    SameInAnyCase(s, "proxy");
    OtherWord(s, "echo", "proxy");
    hide SameIgnoringCase, InAnyCase;
  }

  lemma LevelByName(s: string, level: Level)
    ensures ParseLevel(s) == Some(level) <==> NamesLevel(s, level)
  {
    SameInAnyCase(s, "debug");
    SameInAnyCase(s, "info");
    SameInAnyCase(s, "warn");
    SameInAnyCase(s, "warning");
    SameInAnyCase(s, "error");
    OtherWord(s, "debug", "info");
    OtherWord(s, "debug", "warn");
    OtherWord(s, "debug", "warning");
    OtherWord(s, "debug", "error");
    OtherWord(s, "info", "warn");
    OtherWord(s, "info", "warning");
    OtherWord(s, "info", "error");
    OtherWord(s, "warn", "error");
    OtherWord(s, "warning", "error");
    hide SameIgnoringCase, InAnyCase;
  }

  ghost predicate IsLevel(s: string) {
    exists level :: NamesLevel(s, level)
  }

  /** The level a word names. */
  ghost function LevelNamed(s: string): (level: Level)
    requires IsLevel(s)
    ensures NamesLevel(s, level)
  {
    var level :| NamesLevel(s, level);
    level
  }

  lemma LevelIsRead(s: string)
    ensures ParseLevel(s) == if IsLevel(s) then Some(LevelNamed(s)) else None
  {
    if IsLevel(s) {
      LevelByName(s, LevelNamed(s));
    } else if ParseLevel(s).Some? {
      LevelByName(s, ParseLevel(s).value);
    }
  }

  predicate IsPort(n: int) {
    0 < n <= 65535
  }

  /** `snprintf(dst, size, "%s", s)`. */
  function Cut(s: string, size: nat): string
    requires size > 0
  {
    if |s| < size then s else s[..size - 1]
  }

  /** `add_listener_config`; a missing target address is `None`. */
  function AddListener(cfg: Config, listenType: string, listenIp: string, listenPort: int, typeName: string,
                       targetIp: Option<string>, targetPort: int): Option<Config> {
    var proto, service := ParseProto(listenType), ParseService(typeName);
    if |cfg.listeners| >= MAX_LISTENERS || proto == None || !IsAddress(listenIp) || !IsPort(listenPort)
       || service == None
    then None
    else if service.value == Proxy && (targetIp == None || !IsAddress(targetIp.value) || !IsPort(targetPort)) then None
    else if service.value == Echo && ((targetIp != None && targetIp.value != "") || targetPort != 0) then None
    else
      var proxy := service.value == Proxy;
      Some(cfg.(listeners := cfg.listeners + [Listener(
        proto.value, service.value, Cut(listenType, TYPE_SIZE), Cut(listenIp, IP_SIZE), listenPort,
        Cut(typeName, TYPE_SIZE),
        if proxy then Cut(targetIp.value, IP_SIZE) else "", if proxy then targetPort else 0)]))
  }

  /** `parse_listener_value`: four to six comma-separated fields, each trimmed. */
  function ParseListenerValue(cfg: Config, value: string): Option<Config> {
    var ts := Tokens(value);
    if |ts| < 4 || |ts| > 6 then None
    else AddListener(cfg, Trim(ts[0]), Trim(ts[1]), Atoi(Trim(ts[2])), Trim(ts[3]),
                     if |ts| > 4 then Some(Trim(ts[4])) else None,
                     if |ts| > 5 then Atoi(Trim(ts[5])) else 0)
  }

  /** What the line loop of `parse_config_file` carries from line to line. */
  datatype State = State(cfg: Config, legacyIp: string, legacyPort: int)

  const START := State(DEFAULT, "0.0.0.0", 8080)

  /** One accepted setting. Unknown keys only cause a warning. */
  function Apply(st: State, key: string, value: string): Option<State> {
    if key == "listener" then
      (match ParseListenerValue(st.cfg, value)
       case None => None
       case Some(cfg) => Some(st.(cfg := cfg)))
    else if key == "listen_ip" then Some(st.(legacyIp := Cut(value, IP_SIZE)))
    else if key == "listen_port" then
      (if IsPort(Atoi(value)) then Some(st.(legacyPort := Atoi(value))) else None)
    else if key == "worker_num" then
      (if 0 < Atoi(value) <= 128 then Some(st.(cfg := st.cfg.(workerNum := Atoi(value)))) else None)
    else if key == "log_level" then
      (match ParseLevel(value)
       case None => None
       case Some(level) => Some(st.(cfg := st.cfg.(logLevel := level))))
    else if key == "log_file" then Some(st.(cfg := st.cfg.(logFile := Cut(value, LOG_FILE_SIZE))))
    else Some(st)
  }

  /** `strchr`: the part before the first `c`, if there is one. */
  function IndexOf(s: string, c: char): (n: nat)
    ensures n <= |s| && (forall i | 0 <= i < n :: s[i] != c) && (n < |s| ==> s[n] == c)
  {
    if s == [] || s[0] == c then 0 else 1 + IndexOf(s[1..], c)
  }

  /** What one line says: nothing, a setting, or nothing that can be read. */
  datatype Item = Nothing | Entry(key: string, value: string) | Malformed

  function ReadLine(line: string): Item {
    var p := Trim(line);
    if p == "" || p[0] == '#' then Nothing
    else if IndexOf(p, '=') == |p| then Malformed
    else
      var eq := IndexOf(p, '=');
      var key, value := Trim(p[..eq]), Trim(p[eq + 1..]);
      if key == "" || value == "" then Malformed else Entry(key, value)
  }

  /** One line: skipped, a setting, or an error. */
  function ParseLine(st: State, line: string): Option<State> {
    match ReadLine(line)
    case Nothing => Some(st)
    case Malformed => None
    case Entry(key, value) => Apply(st, key, value)
  }

  /** The characters `fgets` reads next: up to and with a newline, and at most 511. */
  function LineLength(content: string): (n: nat)
    ensures n <= |content| && n < LINE_SIZE
    ensures content != [] ==> n > 0
  {
    var eol := IndexOf(content, '\n');
    var n := if eol < |content| then eol + 1 else eol;
    if n < LINE_SIZE then n else LINE_SIZE - 1
  }

  /** A line as the C string in the buffer: it ends at the first NUL. */
  function CString(line: string): string {
    line[..IndexOf(line, NUL)]
  }

  /** The line loop over the whole file. */
  function ParseLines(st: State, content: string): Option<State>
    decreases |content|
  {
    if content == [] then Some(st)
    else
      var n := LineLength(content);
      match ParseLine(st, CString(content[..n]))
      case None => None
      case Some(next) => ParseLines(next, content[n..])
  }

  /** After the loop: without a listener the legacy settings make one. */
  function Finish(st: State): Option<Config> {
    if st.cfg.listeners == [] then AddListener(st.cfg, "tcp", st.legacyIp, st.legacyPort, "echo", None, 0)
    else Some(st.cfg)
  }

  /** `parse_config_file` on the contents of a readable file. */
  function ParseFile(content: string): Option<Config> {
    match ParseLines(START, content)
    case None => None
    case Some(st) => Finish(st)
  }

  // ---------- every accepted file is well-formed ----------

  ghost predicate WellFormedListener(l: Listener) {
    && NamesProto(l.listenType, l.proto) && IsAddress(l.listenIp) && 1 <= l.listenPort <= 65535
    && NamesService(l.typeName, l.service)
    && (l.service == Proxy ==> IsAddress(l.targetIp) && 1 <= l.targetPort <= 65535)
    && (l.service == Echo ==> l.targetIp == "" && l.targetPort == 0)
  }

  ghost predicate WellFormedScalars(cfg: Config) {
    1 <= cfg.workerNum <= 128 && |cfg.logFile| <= 255
  }

  ghost predicate WellFormedSoFar(cfg: Config) {
    |cfg.listeners| <= 16 && WellFormedScalars(cfg) && forall l | l in cfg.listeners :: WellFormedListener(l)
  }

  ghost predicate WellFormed(cfg: Config) {
    WellFormedSoFar(cfg) && cfg.listeners != []
  }

  lemma AddListenerWellFormed(cfg: Config, listenType: string, listenIp: string, listenPort: int, typeName: string,
                              targetIp: Option<string>, targetPort: int)
    requires WellFormedSoFar(cfg)
    ensures var r := AddListener(cfg, listenType, listenIp, listenPort, typeName, targetIp, targetPort);
            r.Some? ==>
              && WellFormed(r.value) && r.value.listeners[..|cfg.listeners|] == cfg.listeners
              && |r.value.listeners| == |cfg.listeners| + 1
  {
    if ParseProto(listenType).Some? { ProtoByName(listenType, ParseProto(listenType).value); }
    if ParseService(typeName).Some? { ServiceByName(typeName, ParseService(typeName).value); }
    if IsAddress(listenIp) { AddressShape(listenIp); }
    if targetIp.Some? && IsAddress(targetIp.value) { AddressShape(targetIp.value); }
  }

  lemma ApplyWellFormed(st: State, key: string, value: string)
    requires WellFormedSoFar(st.cfg) && IsPort(st.legacyPort)
    ensures var r := Apply(st, key, value);
            r.Some? ==> WellFormedSoFar(r.value.cfg) && IsPort(r.value.legacyPort)
  {
    if key == "listener" {
      var ts := Tokens(value);
      if 4 <= |ts| <= 6 {
        AddListenerWellFormed(st.cfg, Trim(ts[0]), Trim(ts[1]), Atoi(Trim(ts[2])), Trim(ts[3]),
                              if |ts| > 4 then Some(Trim(ts[4])) else None, if |ts| > 5 then Atoi(Trim(ts[5])) else 0);
      }
    }
  }

  lemma {:induction false} LinesWellFormed(st: State, content: string)
    requires WellFormedSoFar(st.cfg) && IsPort(st.legacyPort)
    ensures var r := ParseLines(st, content);
            r.Some? ==> WellFormedSoFar(r.value.cfg) && IsPort(r.value.legacyPort)
    decreases |content|
  {
    hide Apply, WellFormedSoFar, ReadLine;
    if content != [] {
      var n := LineLength(content);
      var line := CString(content[..n]);
      var item := ReadLine(line);
      if item.Entry? { ApplyWellFormed(st, item.key, item.value); }
      var next := ParseLine(st, line);
      if next.Some? { LinesWellFormed(next.value, content[n..]); }
    }
  }

  /** Whatever text a file holds, an accepted one gives 1 to 16 listeners with a known
      protocol and service, valid addresses and ports, a target exactly for proxies, and a
      worker count in range. */
  lemma AcceptedFilesAreWellFormed(content: string)
    ensures ParseFile(content).Some? ==> WellFormed(ParseFile(content).value)
  {
    LinesWellFormed(START, content);
    var st := ParseLines(START, content);
    if st.Some? {
      AddListenerWellFormed(st.value.cfg, "tcp", st.value.legacyIp, st.value.legacyPort, "echo", None, 0);
    }
  }

  // ---------- what a file says, setting by setting ----------

  /** The settings of a file, in order; none if a line cannot be read. */
  function FileSettings(content: string): Option<seq<(string, string)>>
    decreases |content|
  {
    if content == [] then Some([])
    else
      var n := LineLength(content);
      match ReadLine(CString(content[..n]))
      case Malformed => None
      case Nothing => FileSettings(content[n..])
      case Entry(key, value) =>
        match FileSettings(content[n..])
        case None => None
        case Some(rest) => Some([(key, value)] + rest)
  }

  function ApplyAll(st: State, settings: seq<(string, string)>): Option<State>
    decreases |settings|
  {
    if settings == [] then Some(st)
    else match Apply(st, settings[0].0, settings[0].1)
         case None => None
         case Some(next) => ApplyAll(next, settings[1..])
  }

  /** Reading a file is reading its settings and applying them one after the other. */
  lemma {:induction false} FileMeaning(st: State, content: string)
    ensures match FileSettings(content)
            case None => ParseLines(st, content) == None
            case Some(settings) => ParseLines(st, content) == ApplyAll(st, settings)
    decreases |content|
  {
    hide Apply, ReadLine, LineLength, CString;
    if content != [] {
      SomethingIsRead(content);
      var n := LineLength(content);
      var line, rest := CString(content[..n]), content[n..];
      var next := ParseLine(st, line);
      if next.Some? { FileMeaning(next.value, rest); }
      var item := ReadLine(line);
      if item.Entry? && FileSettings(rest).Some? {
        assert ([(item.key, item.value)] + FileSettings(rest).value)[1..] == FileSettings(rest).value;
      }
    }
  }

  lemma SomethingIsRead(content: string)
    requires content != []
    ensures 0 < LineLength(content) <= |content|
  {
  }

  /** The last value a key is given. */
  function LastValue(settings: seq<(string, string)>, key: string): Option<string> {
    if settings == [] then None
    else match LastValue(settings[1..], key)
         case Some(value) => Some(value)
         case None => if settings[0].0 == key then Some(settings[0].1) else None
  }

  function Count(settings: seq<(string, string)>, key: string): nat {
    if settings == [] then 0 else (if settings[0].0 == key then 1 else 0) + Count(settings[1..], key)
  }

  function LastPort(settings: seq<(string, string)>, key: string, otherwise: int): int {
    match LastValue(settings, key) case None => otherwise case Some(value) => Atoi(value)
  }

  function LastCut(settings: seq<(string, string)>, key: string, size: nat, otherwise: string): string
    requires size > 0
  {
    match LastValue(settings, key) case None => otherwise case Some(value) => Cut(value, size)
  }

  ghost function LastLevel(settings: seq<(string, string)>, otherwise: Level): Level {
    match LastValue(settings, "log_level")
    case None => otherwise
    case Some(value) => if IsLevel(value) then LevelNamed(value) else otherwise
  }

  /** One setting of those that do not name a listener. */
  lemma ApplyScalar(st: State, key: string, value: string)
    requires key != "listener"
    ensures var r := Apply(st, key, value);
            && r.Some? == Acceptable(key, value)
            && (r.Some? ==>
                  && r.value.cfg.listeners == st.cfg.listeners
                  && r.value.legacyIp == (if key == "listen_ip" then Cut(value, IP_SIZE) else st.legacyIp)
                  && r.value.legacyPort == (if key == "listen_port" then Atoi(value) else st.legacyPort)
                  && r.value.cfg.workerNum == (if key == "worker_num" then Atoi(value) else st.cfg.workerNum)
                  && r.value.cfg.logLevel == (if key == "log_level" then LevelNamed(value) else st.cfg.logLevel)
                  && r.value.cfg.logFile == (if key == "log_file" then Cut(value, LOG_FILE_SIZE) else st.cfg.logFile))
  {
    LevelIsRead(value);
    hide Atoi, ParseLevel, IsLevel;
  }

  /** A listener setting adds one listener and changes nothing else. */
  lemma ApplyListener(st: State, value: string)
    ensures var r := Apply(st, "listener", value);
            r.Some? ==> (r.value == st.(cfg := st.cfg.(listeners := r.value.cfg.listeners))
                         && |r.value.cfg.listeners| == |st.cfg.listeners| + 1)
  {
    hide Tokens, Trim, Atoi, ParseProto, ParseService, IsAddress;
  }

  /** A value that its key takes. */
  ghost predicate Acceptable(key: string, value: string) {
    && (key == "listen_port" ==> 1 <= Atoi(value) <= 65535)
    && (key == "worker_num" ==> 1 <= Atoi(value) <= 128)
    && (key == "log_level" ==> IsLevel(value))
  }

  /** Each listener setting makes one listener, and of every other key the last value holds. */
  lemma {:induction false} LastSettingsHold(st: State, settings: seq<(string, string)>, v: State)
    requires ApplyAll(st, settings) == Some(v)
    ensures |v.cfg.listeners| == |st.cfg.listeners| + Count(settings, "listener")
    ensures v.legacyIp == LastCut(settings, "listen_ip", IP_SIZE, st.legacyIp)
    ensures v.legacyPort == LastPort(settings, "listen_port", st.legacyPort)
    ensures v.cfg.workerNum == LastPort(settings, "worker_num", st.cfg.workerNum)
    ensures match LastValue(settings, "log_level")
            case None => v.cfg.logLevel == st.cfg.logLevel
            case Some(value) => IsLevel(value) && v.cfg.logLevel == LevelNamed(value)
    ensures v.cfg.logFile == LastCut(settings, "log_file", 256, st.cfg.logFile)
    decreases |settings|
  {
    hide Apply, Atoi, IsLevel, Cut;
    if settings != [] {
      var key, value := settings[0].0, settings[0].1;
      var next := Apply(st, key, value).value;
      LastSettingsHold(next, settings[1..], v);
      if key == "listener" { ApplyListener(st, value); } else { ApplyScalar(st, key, value); }
    }
  }

  /** Without a listener setting, the settings are taken if and only if each value is. */
  lemma {:induction false} ScalarsAccepted(st: State, settings: seq<(string, string)>)
    requires forall i | 0 <= i < |settings| :: settings[i].0 != "listener"
    ensures ApplyAll(st, settings).Some? <==> forall i | 0 <= i < |settings| :: Acceptable(settings[i].0, settings[i].1)
    ensures Count(settings, "listener") == 0
    decreases |settings|
  {
    hide Apply, Acceptable;
    if settings != [] {
      var key, value := settings[0].0, settings[0].1;
      ApplyScalar(st, key, value);
      var next := Apply(st, key, value);
      if next.Some? {
        ScalarsAccepted(next.value, settings[1..]);
        assert forall i | 0 < i < |settings| :: settings[i] == settings[1..][i - 1];
      } else {
        ScalarsAccepted(st, settings[1..]);
      }
    }
  }

  lemma {:induction false} CountIsZero(settings: seq<(string, string)>, key: string)
    ensures Count(settings, key) == 0 <==> forall i | 0 <= i < |settings| :: settings[i].0 != key
  {
    if settings != [] {
      CountIsZero(settings[1..], key);
      assert forall i | 0 < i < |settings| :: settings[i] == settings[1..][i - 1];
    }
  }

  /** The line loop ends without a listener exactly if no setting of the file has the key
      `listener`. */
  lemma NoListenerLine(content: string, settings: seq<(string, string)>, st: State)
    requires FileSettings(content) == Some(settings) && ParseLines(START, content) == Some(st)
    ensures st.cfg.listeners == [] <==> forall i | 0 <= i < |settings| :: settings[i].0 != "listener"
  {
    FileMeaning(START, content);
    LastSettingsHold(START, settings, st);
    CountIsZero(settings, "listener");
  }

  /** A file without a listener line is accepted if and only if every value is one its key
      takes and the last `listen_ip`, or 0.0.0.0, is an address. The result is then the single
      TCP echo listener on that address and the last `listen_port`, or 8080, with the last value
      of every other key. */
  lemma LegacyListener(content: string, settings: seq<(string, string)>)
    requires FileSettings(content) == Some(settings) && forall i | 0 <= i < |settings| :: settings[i].0 != "listener"
    ensures var ip := LastCut(settings, "listen_ip", IP_SIZE, "0.0.0.0");
            var port := LastPort(settings, "listen_port", 8080);
            && (ParseFile(content).Some? <==>
                  IsAddress(ip) && forall i | 0 <= i < |settings| :: Acceptable(settings[i].0, settings[i].1))
            && (ParseFile(content).Some? ==>
                  ParseFile(content).value == Config(
                    [Listener(Tcp, Echo, "tcp", ip, port, "echo", "", 0)],
                    LastPort(settings, "worker_num", 4), LastLevel(settings, Info),
                    LastCut(settings, "log_file", 256, "/tmp/myserver.log")))
  {
    FileMeaning(START, content);
    ScalarsAccepted(START, settings);
    var r := ParseLines(START, content);
    if r.Some? {
      var st := r.value;
      LastSettingsHold(START, settings, st);
      LinesWellFormed(START, content);
      SingleListener(st);
    }
  }

  /** The last step of a file without listeners. */
  lemma SingleListener(st: State)
    requires st.cfg.listeners == [] && IsPort(st.legacyPort)
    ensures var only := Listener(Tcp, Echo, "tcp", st.legacyIp, st.legacyPort, "echo", "", 0);
            Finish(st) == if IsAddress(st.legacyIp) then Some(st.cfg.(listeners := [only])) else None
  {
    if IsAddress(st.legacyIp) { AddressShape(st.legacyIp); }
    var l := Listener(Tcp, Echo, "tcp", st.legacyIp, st.legacyPort, "echo", "", 0);
    assert st.cfg.listeners + [l] == [l];
  }
}
