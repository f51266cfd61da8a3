/** Writing a configuration in the documented format, with any layout, and reading it back. */
module ConfigRoundTrip {
  import opened ConfigText
  import opened Listeners
  import opened Options
  import opened ConfigSpec

  // ---------- documents ----------

  /** A line of a configuration file: white space, a comment, or `key=value` with white space
      around key and value. */
  datatype Line =
    | Blank(space: string)
    | Comment(before: string, text: string)
    | Setting(before: string, key: string, afterKey: string, beforeValue: string, value: string, after: string)

  /** Characters that can stand inside a line. */
  predicate OneLine(s: string) {
    forall i | 0 <= i < |s| :: s[i] != '\n' && s[i] != NUL
  }

  predicate Padding(s: string) {
    AllSpace(s) && OneLine(s)
  }

  predicate ValidKey(key: string) {
    key != "" && Trimmed(key) && OneLine(key) && key[0] != '#' && forall i | 0 <= i < |key| :: key[i] != '='
  }

  predicate ValidValue(value: string) {
    value != "" && Trimmed(value) && OneLine(value)
  }

  predicate ValidLine(line: Line) {
    |Text(line)| < 512 &&
    match line
    case Blank(space) => Padding(space)
    case Comment(before, text) => Padding(before) && OneLine(text)
    case Setting(before, key, afterKey, beforeValue, value, after) =>
      && Padding(before) && ValidKey(key) && Padding(afterKey)
      && Padding(beforeValue) && ValidValue(value) && Padding(after)
  }

  function Body(line: Line): string {
    match line
    case Blank(space) => space
    case Comment(before, text) => before + "#" + text
    case Setting(before, key, afterKey, beforeValue, value, after) =>
      before + (key + afterKey + "=" + (beforeValue + value)) + after
  }

  function Text(line: Line): string {
    Body(line) + "\n"
  }

  function Document(lines: seq<Line>): string {
    if lines == [] then "" else Text(lines[0]) + Document(lines[1..])
  }

  /** The settings of a document, in order. */
  function Settings(lines: seq<Line>): seq<(string, string)> {
    if lines == [] then []
    else (if lines[0].Setting? then [(lines[0].key, lines[0].value)] else []) + Settings(lines[1..])
  }

  // ---------- what a line means ----------

  lemma {:induction false} IndexOfAfter(s: string, c: char, rest: string)
    requires forall i | 0 <= i < |s| :: s[i] != c
    requires rest != [] && rest[0] == c
    ensures IndexOf(s + rest, c) == |s|
  {
    if s == [] {
      assert s + rest == rest;
    } else {
      IndexOfAfter(s[1..], c, rest);
      assert (s + rest)[1..] == s[1..] + rest;
    }
  }

  lemma {:induction false} NotFound(s: string, c: char)
    requires forall i | 0 <= i < |s| :: s[i] != c
    ensures IndexOf(s, c) == |s|
  {
    if s != [] { NotFound(s[1..], c); }
  }

  lemma {:induction false} TrimRightKeepsFirst(s: string)
    requires s != [] && !IsSpace(s[0])
    ensures TrimRight(s) != [] && TrimRight(s)[0] == s[0]
  {
    if IsSpace(s[|s| - 1]) { TrimRightKeepsFirst(s[..|s| - 1]); }
  }

  lemma CommentIsSkipped(st: State, before: string, rest: string)
    requires AllSpace(before)
    ensures ParseLine(st, before + ("#" + rest)) == Some(st)
  {
    TrimLeftPadding(before, "#" + rest);
    TrimRightKeepsFirst("#" + rest);
  }

  lemma SettingIsApplied(st: State, before: string, key: string, afterKey: string, beforeValue: string,
                         value: string, after: string)
    requires AllSpace(before) && AllSpace(afterKey) && AllSpace(beforeValue) && AllSpace(after)
    requires ValidKey(key) && ValidValue(value)
    ensures ParseLine(st, before + (key + afterKey + "=" + (beforeValue + value)) + after) == Apply(st, key, value)
  {
    hide Apply, Trim;
    var left, right := key + afterKey, beforeValue + value;
    var p := left + "=" + right;
    SettingShape(key, afterKey, beforeValue, value);
    TrimPadding(before, p, after);
    assert left == "" + key + afterKey && right == beforeValue + value + "";
    TrimPadding("", key, afterKey);
    TrimPadding(beforeValue, value, "");
  }

  /** A trimmed setting, and its parts on both sides of the first '='. */
  lemma SettingShape(key: string, afterKey: string, beforeValue: string, value: string)
    requires AllSpace(afterKey) && AllSpace(beforeValue) && ValidKey(key) && ValidValue(value)
    ensures var left, right := key + afterKey, beforeValue + value;
            var p := left + "=" + right;
            && Trimmed(p) && p != "" && p[0] != '#' && IndexOf(p, '=') == |left| < |p|
            && p[..|left|] == left && p[|left| + 1..] == right
  {
    var left, right := key + afterKey, beforeValue + value;
    var p := left + "=" + right;
    assert p[0] == key[0] && p[|p| - 1] == value[|value| - 1];
    assert p == left + ("=" + right);
    IndexOfAfter(left, '=', "=" + right);
  }

  /** Blank lines and comments mean nothing, and padding around key and value is ignored. */
  lemma LineMeaning(st: State, line: Line)
    requires ValidLine(line)
    ensures ParseLine(st, Text(line)) == if line.Setting? then Apply(st, line.key, line.value) else Some(st)
  {
    hide Apply;
    match line
    case Blank(space) =>
      assert Text(line) == Text(line) + "" + "";
      TrimPadding(Text(line), "", "");
    case Comment(before, text) =>
      assert Text(line) == before + ("#" + (text + "\n"));
      CommentIsSkipped(st, before, text + "\n");
    case Setting(before, key, afterKey, beforeValue, value, after) =>
      assert Text(line) == before + (key + afterKey + "=" + (beforeValue + value)) + (after + "\n");
      SettingIsApplied(st, before, key, afterKey, beforeValue, value, after + "\n");
  }

  /** `fgets` finds exactly the line. */
  lemma LineIsRead(line: Line, rest: string)
    requires ValidLine(line)
    ensures LineLength(Text(line) + rest) == |Text(line)| && CString(Text(line)) == Text(line)
  {
    var body := Body(line);
    assert OneLine(body);
    assert Text(line) + rest == body + ("\n" + rest);
    IndexOfAfter(body, '\n', "\n" + rest);
    NotFound(Text(line), NUL);
  }

  /** A document means its settings, one after the other. */
  lemma {:induction false} DocumentMeaning(st: State, lines: seq<Line>)
    requires forall i | 0 <= i < |lines| :: ValidLine(lines[i])
    ensures ParseLines(st, Document(lines)) == ApplyAll(st, Settings(lines))
    decreases |lines|
  {
    hide Apply, ParseLine, ValidLine, LineLength, CString, Text;
    if lines != [] {
      var line, rest := lines[0], Document(lines[1..]);
      LineIsRead(line, rest);
      LineMeaning(st, line);
      assert (Text(line) + rest)[..|Text(line)|] == Text(line) && (Text(line) + rest)[|Text(line)|..] == rest;
      TextNotEmpty(line);
      var next := ParseLine(st, Text(line));
      if next.Some? {
        DocumentMeaning(next.value, lines[1..]);
      }
      SettingsSplit(lines);
    }
  }

  lemma TextNotEmpty(line: Line)
    ensures Text(line) != []
  {
  }

  lemma SettingsSplit(lines: seq<Line>)
    requires lines != []
    ensures lines[0].Setting? ==>
              && Settings(lines) != [] && Settings(lines)[0] == (lines[0].key, lines[0].value)
              && Settings(lines)[1..] == Settings(lines[1..])
    ensures !lines[0].Setting? ==> Settings(lines) == Settings(lines[1..])
  {
  }

  /** Layout does not matter: files with the same settings read the same. */
  lemma LayoutDoesNotMatter(a: seq<Line>, b: seq<Line>)
    requires forall i | 0 <= i < |a| :: ValidLine(a[i])
    requires forall i | 0 <= i < |b| :: ValidLine(b[i])
    requires Settings(a) == Settings(b)
    ensures ParseFile(Document(a)) == ParseFile(Document(b))
  {
    DocumentMeaning(START, a);
    DocumentMeaning(START, b);
  }

  // ---------- listener values ----------

  /** Fields separated by commas. */
  function Join(fields: seq<string>): string {
    if fields == [] then "" else if |fields| == 1 then fields[0] else fields[0] + "," + Join(fields[1..])
  }

  lemma {:induction false} TokensOfJoin(fields: seq<string>)
    requires forall i | 0 <= i < |fields| :: fields[i] != "" && NoComma(fields[i])
    ensures Tokens(Join(fields)) == fields
  {
    if |fields| == 1 {
      assert fields[0] + "" == fields[0];
      TokensOf(fields[0], "");
    } else if |fields| > 1 {
      var rest := "," + Join(fields[1..]);
      assert Join(fields) == fields[0] + rest;
      TokensOf(fields[0], rest);
      TokensOfJoin(fields[1..]);
      assert rest[1..] == Join(fields[1..]);
    }
  }

  /** The fields of a listener, as the format documents them: four, or six for a proxy. */
  function Fields(l: Listener): seq<string> {
    [l.listenType, l.listenIp, PortText(l.listenPort), l.typeName]
    + if l.service == Proxy then [l.targetIp, PortText(l.targetPort)] else []
  }

  function PortText(port: int): string {
    Decimal(if port < 0 then 0 else port)
  }

  /** Each field with white space around it. */
  function Padded(fields: seq<string>, pads: seq<(string, string)>): seq<string>
    requires |pads| == |fields|
  {
    seq(|fields|, i requires 0 <= i < |fields| => pads[i].0 + fields[i] + pads[i].1)
  }

  /** White space without commas to put around the fields of a listener. */
  predicate Pads(l: Listener, pads: seq<(string, string)>) {
    |pads| == |Fields(l)| && forall i | 0 <= i < |pads| :: AllSpace(pads[i].0) && AllSpace(pads[i].1)
  }

  lemma WordShape(s: string, word: string)
    requires IsWord(word) && InAnyCase(s, word)
    ensures s != "" && Trimmed(s) && NoComma(s) && OneLine(s)
  {
    assert forall i | 0 <= i < |s| :: 'A' <= s[i] <= 'z' && 'a' <= word[i] <= 'z';
  }

  lemma AddressIsField(s: string)
    requires IsAddress(s)
    ensures s != "" && Trimmed(s) && NoComma(s)
  {
    AddressShape(s);
  }

  lemma DecimalIsField(n: nat)
    ensures Decimal(n) != "" && Trimmed(Decimal(n)) && NoComma(Decimal(n))
  {
  }

  /** The fields of a well-formed listener survive the trip through a line. */
  lemma FieldsShape(l: Listener)
    requires WellFormedListener(l)
    ensures forall i | 0 <= i < |Fields(l)| :: Fields(l)[i] != "" && Trimmed(Fields(l)[i]) && NoComma(Fields(l)[i])
  {
    hide Decimal, IsAddress;
    WordShape(l.listenType, ProtoName(l.proto));
    WordShape(l.typeName, ServiceName(l.service));
    AddressIsField(l.listenIp);
    DecimalIsField(l.listenPort);
    if l.service == Proxy {
      AddressIsField(l.targetIp);
      DecimalIsField(l.targetPort);
    }
  }

  lemma PaddedShape(fields: seq<string>, pads: seq<(string, string)>, i: nat)
    requires |pads| == |fields| && i < |fields| && AllSpace(pads[i].0) && AllSpace(pads[i].1)
    requires fields[i] != "" && Trimmed(fields[i]) && NoComma(fields[i])
    ensures Padded(fields, pads)[i] != "" && NoComma(Padded(fields, pads)[i])
    ensures Trim(Padded(fields, pads)[i]) == fields[i]
  {
    TrimPadding(pads[i].0, fields[i], pads[i].1);
  }

  lemma AddListenerBack(cfg: Config, l: Listener)
    requires WellFormedListener(l) && |cfg.listeners| < MAX_LISTENERS
    ensures var target := if l.service == Proxy then Some(l.targetIp) else None;
            AddListener(cfg, l.listenType, l.listenIp, l.listenPort, l.typeName, target, l.targetPort)
              == Some(cfg.(listeners := cfg.listeners + [l]))
  {
    ProtoByName(l.listenType, l.proto);
    ServiceByName(l.typeName, l.service);
    AddressShape(l.listenIp);
    if l.service == Proxy { AddressShape(l.targetIp); }
  }

  /** A well-formed listener, written with any white space around its fields, is read back
      as itself. */
  lemma ListenerRoundTrip(cfg: Config, l: Listener, pads: seq<(string, string)>)
    requires WellFormedListener(l) && |cfg.listeners| < MAX_LISTENERS && Pads(l, pads)
    ensures ParseListenerValue(cfg, Join(Padded(Fields(l), pads))) == Some(cfg.(listeners := cfg.listeners + [l]))
  {
    var fields := Fields(l);
    var ts := Padded(fields, pads);
    FieldsShape(l);
    forall i | 0 <= i < |fields| ensures ts[i] != "" && NoComma(ts[i]) && Trim(ts[i]) == fields[i] {
      PaddedShape(fields, pads, i);
    }
    TokensOfJoin(ts);
    hide AddListener, Trim, Atoi, Join, Tokens, Decimal, NoComma;
    AtoiOfDecimal(l.listenPort);
    if l.service == Proxy { AtoiOfDecimal(l.targetPort); }
    AddListenerBack(cfg, l);
  }

  // ---------- whole configurations ----------

  /** One padding per listener. */
  ghost predicate Layout(listeners: seq<Listener>, pads: seq<seq<(string, string)>>) {
    && |pads| == |listeners|
    && forall i | 0 <= i < |listeners| :: WellFormedListener(listeners[i]) && Pads(listeners[i], pads[i])
  }

  ghost function ListenerSettings(listeners: seq<Listener>, pads: seq<seq<(string, string)>>): seq<(string, string)>
    requires Layout(listeners, pads)
  {
    if listeners == [] then []
    else [("listener", Join(Padded(Fields(listeners[0]), pads[0])))] + ListenerSettings(listeners[1..], pads[1..])
  }

  function ScalarSettings(cfg: Config): seq<(string, string)>
    requires cfg.workerNum >= 0
  {
    [("worker_num", Decimal(cfg.workerNum)), ("log_level", LevelName(cfg.logLevel)), ("log_file", cfg.logFile)]
  }

  /** A log file name that can stand in a file. */
  predicate Printable(cfg: Config) {
    ValidValue(cfg.logFile)
  }

  lemma {:induction false} ApplyAllAppend(st: State, a: seq<(string, string)>, b: seq<(string, string)>)
    ensures ApplyAll(st, a + b) == match ApplyAll(st, a) case None => None case Some(mid) => ApplyAll(mid, b)
    decreases |a|
  {
    hide Apply;
    if a == [] {
      assert a + b == b;
    } else {
      assert (a + b)[1..] == a[1..] + b;
      var next := Apply(st, a[0].0, a[0].1);
      if next.Some? { ApplyAllAppend(next.value, a[1..], b); }
    }
  }

  lemma {:induction false} ListenersBack(st: State, listeners: seq<Listener>, pads: seq<seq<(string, string)>>)
    requires Layout(listeners, pads) && |st.cfg.listeners| + |listeners| <= MAX_LISTENERS
    ensures ApplyAll(st, ListenerSettings(listeners, pads)) ==
            Some(st.(cfg := st.cfg.(listeners := st.cfg.listeners + listeners)))
    decreases |listeners|
  {
    hide ParseListenerValue, Join, Padded, WellFormedListener, Pads;
    if listeners == [] {
      assert st.cfg.listeners + listeners == st.cfg.listeners;
    } else {
      var l := listeners[0];
      ListenerRoundTrip(st.cfg, l, pads[0]);
      var next := st.(cfg := st.cfg.(listeners := st.cfg.listeners + [l]));
      ListenersBack(next, listeners[1..], pads[1..]);
      assert st.cfg.listeners + [l] + listeners[1..] == st.cfg.listeners + listeners;
    }
  }

  lemma LevelBack(level: Level)
    ensures ParseLevel(LevelName(level)) == Some(level)
  {
    LevelByName(LevelName(level), level);
  }

  lemma ScalarsBack(st: State, cfg: Config)
    requires WellFormedScalars(cfg)
    ensures ApplyAll(st, ScalarSettings(cfg))
      == Some(st.(cfg := Config(st.cfg.listeners, cfg.workerNum, cfg.logLevel, cfg.logFile)))
  {
    hide Decimal, Atoi, ParseLevel, ParseListenerValue;
    AtoiOfDecimal(cfg.workerNum);
    LevelBack(cfg.logLevel);
    var settings := ScalarSettings(cfg);
    var a := st.(cfg := st.cfg.(workerNum := cfg.workerNum));
    var b := a.(cfg := a.cfg.(logLevel := cfg.logLevel));
    var c := b.(cfg := b.cfg.(logFile := cfg.logFile));
    OneSetting(st, settings[0], a, settings[1..]);
    OneSetting(a, settings[1], b, settings[2..]);
    OneSetting(b, settings[2], c, []);
    assert settings == [settings[0]] + settings[1..] && settings[1..] == [settings[1]] + settings[2..];
    assert settings[2..] == [settings[2]] + [];
  }

  lemma OneSetting(st: State, setting: (string, string), next: State, rest: seq<(string, string)>)
    requires Apply(st, setting.0, setting.1) == Some(next)
    ensures ApplyAll(st, [setting] + rest) == ApplyAll(next, rest)
  {
    hide Apply;
    assert ([setting] + rest)[1..] == rest;
  }

  /** Round trip. A file that says what a configuration says, its listeners in order and then
      the scalars, with any white space around keys, values and fields and any blank and
      comment lines in between, is read back as that configuration. */
  lemma RoundTrip(cfg: Config, pads: seq<seq<(string, string)>>, lines: seq<Line>)
    requires WellFormed(cfg) && Layout(cfg.listeners, pads)
    requires forall i | 0 <= i < |lines| :: ValidLine(lines[i])
    requires Settings(lines) == ListenerSettings(cfg.listeners, pads) + ScalarSettings(cfg)
    ensures ParseFile(Document(lines)) == Some(cfg)
  {
    hide ApplyAll, ListenerSettings, ScalarSettings, Settings, Document, ParseLines, Layout, ValidLine;
    DocumentMeaning(START, lines);
    ApplyAllAppend(START, ListenerSettings(cfg.listeners, pads), ScalarSettings(cfg));
    ListenersBack(START, cfg.listeners, pads);
    var mid := START.(cfg := DEFAULT.(listeners := [] + cfg.listeners));
    assert [] + cfg.listeners == cfg.listeners;
    ScalarsBack(mid, cfg);
  }

  // ---------- the plain printer ----------

  function NoPads(n: nat): seq<(string, string)> {
    seq(n, _ => ("", ""))
  }

  /** One line per setting, without any white space. */
  function PrintSettings(settings: seq<(string, string)>): seq<Line> {
    seq(|settings|, i requires 0 <= i < |settings| => Setting("", settings[i].0, "", "", settings[i].1, ""))
  }

  function PlainPads(listeners: seq<Listener>): seq<seq<(string, string)>> {
    seq(|listeners|, i requires 0 <= i < |listeners| => NoPads(|Fields(listeners[i])|))
  }

  /** A configuration in the documented format, one setting a line. */
  ghost function Print(cfg: Config): string
    requires Layout(cfg.listeners, PlainPads(cfg.listeners)) && cfg.workerNum >= 0
  {
    Document(PrintSettings(ListenerSettings(cfg.listeners, PlainPads(cfg.listeners)) + ScalarSettings(cfg)))
  }

  lemma {:induction false} SettingsOfPrinted(settings: seq<(string, string)>)
    ensures Settings(PrintSettings(settings)) == settings
  {
    if settings != [] {
      SettingsOfPrinted(settings[1..]);
      assert PrintSettings(settings)[1..] == PrintSettings(settings[1..]);
    }
  }

  /** A text of fields fits a line and neither begins nor ends with white space. */
  lemma {:induction false} JoinShape(fields: seq<string>)
    requires fields != []
    requires forall i | 0 <= i < |fields| ::
               fields[i] != "" && Trimmed(fields[i]) && OneLine(fields[i]) && |fields[i]| <= 15
    ensures ValidValue(Join(fields)) && |Join(fields)| <= 16 * |fields|
  {
    if |fields| > 1 {
      JoinShape(fields[1..]);
      var rest := Join(fields[1..]);
      var s := fields[0] + "," + rest;
      assert s[0] == fields[0][0] && s[|s| - 1] == rest[|rest| - 1];
    }
  }

  lemma ShortFields(l: Listener)
    requires WellFormedListener(l)
    ensures forall i | 0 <= i < |Fields(l)| :: OneLine(Fields(l)[i]) && |Fields(l)[i]| <= 15
  {
    hide Decimal, IsAddress;
    AddressShape(l.listenIp);
    if l.service == Proxy { AddressShape(l.targetIp); }
    DecimalLength(l.listenPort);
    DecimalLength(l.targetPort);
    WordShape(l.listenType, ProtoName(l.proto));
    WordShape(l.typeName, ServiceName(l.service));
  }

  lemma PlainListenerValue(l: Listener)
    requires WellFormedListener(l)
    ensures var value := Join(Padded(Fields(l), NoPads(|Fields(l)|)));
            ValidValue(value) && |value| <= 96 && Pads(l, NoPads(|Fields(l)|))
  {
    hide Decimal, Join, Fields, WellFormedListener, ValidValue;
    var fields := Fields(l);
    assert Padded(fields, NoPads(|fields|)) == fields by {
      assert forall i | 0 <= i < |fields| :: "" + fields[i] + "" == fields[i];
    }
    FieldsShape(l);
    ShortFields(l);
    FieldCount(l);
    JoinShape(fields);
  }

  lemma FieldCount(l: Listener)
    ensures 4 <= |Fields(l)| <= 6
  {
  }

  lemma ValidSetting(key: string, value: string)
    requires ValidKey(key) && |key| <= 10 && ValidValue(value) && |value| <= 256
    ensures ValidLine(Setting("", key, "", "", value, ""))
  {
  }

  lemma {:induction false} ListenerLinesValid(listeners: seq<Listener>, i: nat)
    requires forall l | l in listeners :: WellFormedListener(l)
    requires Layout(listeners, PlainPads(listeners)) && i < |listeners|
    ensures var settings := ListenerSettings(listeners, PlainPads(listeners));
            |settings| == |listeners| && ValidLine(Setting("", settings[i].0, "", "", settings[i].1, ""))
  {
    hide ValidLine, Join, Padded, Fields, WellFormedListener, Pads;
    assert PlainPads(listeners)[1..] == PlainPads(listeners[1..]);
    if i == 0 {
      PlainListenerValue(listeners[0]);
      ValidSetting("listener", Join(Padded(Fields(listeners[0]), PlainPads(listeners)[0])));
    }
    if |listeners| > 1 {
      ListenerLinesValid(listeners[1..], if i == 0 then 0 else i - 1);
    }
  }

  lemma ScalarLinesValid(cfg: Config, i: nat)
    requires WellFormedScalars(cfg) && Printable(cfg) && i < 3
    ensures var setting := ScalarSettings(cfg)[i]; ValidLine(Setting("", setting.0, "", "", setting.1, ""))
  {
    hide ValidLine, Decimal;
    DecimalLength(cfg.workerNum);
    DecimalIsField(cfg.workerNum);
    var setting := ScalarSettings(cfg)[i];
    ValidSetting(setting.0, setting.1);
  }

  lemma PlainLayout(cfg: Config)
    requires WellFormed(cfg)
    ensures Layout(cfg.listeners, PlainPads(cfg.listeners))
  {
    hide WellFormedListener, Fields;
  }

  /** Printing a well-formed configuration and reading the text back gives it again. */
  lemma PrintThenParse(cfg: Config)
    requires WellFormed(cfg) && Printable(cfg)
    ensures Layout(cfg.listeners, PlainPads(cfg.listeners)) && ParseFile(Print(cfg)) == Some(cfg)
  {
    hide ValidLine, ParseFile, Document, PlainPads;
    PlainLayout(cfg);
    var listeners := ListenerSettings(cfg.listeners, PlainPads(cfg.listeners));
    var settings := listeners + ScalarSettings(cfg);
    var lines := PrintSettings(settings);
    ListenerLinesValid(cfg.listeners, 0);
    forall i | 0 <= i < |lines| ensures ValidLine(lines[i]) {
      if i < |listeners| { ListenerLinesValid(cfg.listeners, i); } else { ScalarLinesValid(cfg, i - |listeners|); }
    }
    SettingsOfPrinted(settings);
    RoundTrip(cfg, PlainPads(cfg.listeners), lines);
  }
}
