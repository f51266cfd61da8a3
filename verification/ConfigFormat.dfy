/** The documented format of a listener value, which of the texts outside it the parser takes
    all the same, and what it takes them for. */
module ConfigFormat {
  import opened ConfigText
  import opened Listeners
  import opened ConfigSpec
  import opened ConfigRoundTrip
  import opened Options
  import Lists

  // ---------- fields ----------

  /** What stands between the commas, empty fields included. */
  function Split(s: string): (fs: seq<string>)
    ensures |fs| > 0
    decreases |s|
  {
    if Span(s) == |s| then [s] else [s[..Span(s)]] + Split(s[Span(s) + 1..])
  }

  function NonEmpty(fs: seq<string>): seq<string> {
    if fs == [] then [] else (if fs[0] != "" then [fs[0]] else []) + NonEmpty(fs[1..])
  }

  lemma JoinFirst(f: string, fs: seq<string>)
    requires fs != []
    ensures Join([f] + fs) == f + "," + Join(fs)
  {
    assert ([f] + fs)[1..] == fs;
  }

  lemma CutAtComma(s: string, n: nat)
    requires n < |s| && s[n] == ','
    ensures s == s[..n] + "," + s[n + 1..]
  {
    assert s[n..] == [s[n]] + s[n + 1..] == "," + s[n + 1..];
  }

  /** Splitting loses nothing. */
  lemma {:induction false} JoinOfSplit(s: string)
    ensures Join(Split(s)) == s
    decreases |s|
  {
    hide Join, Span;
    if Span(s) == |s| {
      JoinOne(s);
    } else {
      var rest := s[Span(s) + 1..];
      JoinOfSplit(rest);
      JoinFirst(s[..Span(s)], Split(rest));
      CutAtComma(s, Span(s));
    }
  }

  lemma JoinOne(s: string)
    ensures Join([s]) == s
  {
  }

  lemma {:induction false} SplitOfJoin(fs: seq<string>)
    requires fs != [] && forall i | 0 <= i < |fs| :: NoComma(fs[i])
    ensures Split(Join(fs)) == fs
  {
    if |fs| == 1 {
      SpanOf(fs[0], "");
      assert fs[0] + "" == fs[0];
    } else {
      var rest := "," + Join(fs[1..]);
      var s := Join(fs);
      assert s == fs[0] + rest;
      SpanOf(fs[0], rest);
      SplitOfJoin(fs[1..]);
      assert s[..|fs[0]|] == fs[0] && s[|fs[0]| + 1..] == Join(fs[1..]);
    }
  }

  /** `strtok_r` sees only the fields that are not empty. */
  lemma {:induction false} TokensAreFields(s: string)
    ensures Tokens(s) == NonEmpty(Split(s))
    decreases |s|
  {
    var n := Span(s);
    if s == "" {
    } else if n == |s| {
      assert s[..n] == s && s[n..] == "";
      assert Tokens(s) == [s] + Tokens("");
      assert NonEmpty([s]) == [s] + NonEmpty([]);
    } else {
      var rest := s[n + 1..];
      TokensAreFields(rest);
      assert Split(s)[1..] == Split(rest);
      assert s[n..][1..] == rest;
      if n == 0 { assert s[..0] == "" && s[1..] == rest; } else { assert Tokens(s[n..]) == Tokens(rest); }
    }
  }

  lemma {:induction false} NoneEmpty(fs: seq<string>)
    requires "" !in fs
    ensures NonEmpty(fs) == fs
  {
    if fs != [] {
      assert fs[0] in fs && forall f | f in fs[1..] :: f in fs;
      NoneEmpty(fs[1..]);
    }
  }

  // ---------- numbers and blanks ----------

  /** A port as the format means it: digits and nothing else, and in range. */
  predicate PlainPort(t: string) {
    t != "" && (forall i | 0 <= i < |t| :: IsDigit(t[i])) && 1 <= Digits(t, 0) <= 65535
  }

  /** A text that begins with a number in the range of ports, but for multiples of 2^32. */
  predicate ReadsAsPort(t: string) {
    LONG_MIN <= Numeral(t) <= LONG_MAX && 1 <= Numeral(t) % 0x1_0000_0000 <= 65535
  }

  /** A text that begins with no number, with a multiple of 2^32, or with one below every
      `long`. */
  predicate ReadsAsZero(t: string) {
    Numeral(t) < LONG_MIN || (Numeral(t) <= LONG_MAX && Numeral(t) % 0x1_0000_0000 == 0)
  }

  lemma PlainPortReads(t: string)
    requires PlainPort(t)
    ensures ReadsAsPort(t)
  {
    assert IsDigit(t[0]);
  }

  lemma {:induction false} TrimLeftBlank(s: string)
    ensures TrimLeft(s) == "" <==> AllSpace(s)
  {
    if s != "" && IsSpace(s[0]) {
      TrimLeftBlank(s[1..]);
      assert forall i | 0 < i < |s| :: s[i] == s[1..][i - 1];
    }
  }

  lemma {:induction false} TrimLeftStops(s: string)
    ensures TrimLeft(s) != "" ==> !IsSpace(TrimLeft(s)[0])
  {
    if s != "" && IsSpace(s[0]) { TrimLeftStops(s[1..]); }
  }

  lemma TrimBlank(s: string)
    ensures Trim(s) == "" <==> AllSpace(s)
  {
    TrimLeftBlank(s);
    TrimLeftStops(s);
    if TrimLeft(s) != "" { TrimRightKeepsFirst(TrimLeft(s)); }
  }

  // ---------- the format ----------

  predicate KnownProto(s: string) {
    NamesProto(s, Tcp) || NamesProto(s, Udp)
  }

  predicate IsService(field: string, service: Service) {
    NamesService(Trim(field), service)
  }

  function TrimAll(fs: seq<string>): seq<string> {
    seq(|fs|, i requires 0 <= i < |fs| => Trim(fs[i]))
  }

  /** Four fields, or six for a proxy, none of them empty, with ports in plain decimal. */
  predicate InFormat(fs: seq<string>) {
    && (|fs| == 4 || |fs| == 6) && "" !in fs
    && KnownProto(fs[0]) && IsAddress(fs[1]) && PlainPort(fs[2])
    && if |fs| == 4 then NamesService(fs[3], Echo)
       else NamesService(fs[3], Proxy) && IsAddress(fs[4]) && PlainPort(fs[5])
  }

  /** The documented format: such fields, with white space around them at most, and single
      commas between them. */
  predicate Documented(value: string) {
    InFormat(TrimAll(Split(value)))
  }

  /** What the parser can make sense of: after empty fields are dropped, a known protocol, an
      address, something that reads as a port, and a known service; then for a proxy the same of
      its target, and for an echo at most a blank and something that reads as zero. */
  predicate Understood(value: string) {
    var ts := NonEmpty(Split(value));
    && 4 <= |ts| <= 6
    && KnownProto(Trim(ts[0])) && IsAddress(Trim(ts[1])) && ReadsAsPort(Trim(ts[2]))
    && ((IsService(ts[3], Proxy) && |ts| == 6 && IsAddress(Trim(ts[4])) && ReadsAsPort(Trim(ts[5])))
        || (IsService(ts[3], Echo) && (|ts| > 4 ==> AllSpace(ts[4])) && (|ts| > 5 ==> ReadsAsZero(Trim(ts[5])))))
  }

  /** Fields between commas with nothing in them. */
  predicate HasEmptyField(value: string) {
    "" in Split(value)
  }

  /** An echo listener with a fifth field, or a sixth. */
  predicate HasIdleTarget(value: string) {
    var ts := NonEmpty(Split(value));
    |ts| > 4 && IsService(ts[3], Echo)
  }

  /** A port that is not in plain decimal, or not in range. */
  predicate HasOddPort(value: string) {
    var ts := NonEmpty(Split(value));
    (|ts| > 2 && !PlainPort(Trim(ts[2]))) || (|ts| > 5 && IsService(ts[3], Proxy) && !PlainPort(Trim(ts[5])))
  }

  /** `add_listener_config` accepts exactly these. */
  lemma AcceptedListeners(cfg: Config, listenType: string, listenIp: string, listenPort: int, typeName: string,
                          targetIp: Option<string>, targetPort: int)
    ensures AddListener(cfg, listenType, listenIp, listenPort, typeName, targetIp, targetPort).Some? <==>
              && |cfg.listeners| < 16 && KnownProto(listenType) && IsAddress(listenIp) && 1 <= listenPort <= 65535
              && (|| (NamesService(typeName, Proxy) && targetIp.Some? && IsAddress(targetIp.value)
                      && 1 <= targetPort <= 65535)
                  || (NamesService(typeName, Echo) && (targetIp == None || targetIp.value == "") && targetPort == 0))
  {
    ProtoIsKnown(listenType);
    ServiceByName(typeName, Echo);
    ServiceByName(typeName, Proxy);
    hide ParseProto, ParseService, KnownProto, NamesService, IsAddress;
  }

  /** A listener value is accepted if and only if there is room and it can be understood. */
  lemma AcceptedListenerValues(cfg: Config, value: string)
    ensures ParseListenerValue(cfg, value).Some? <==> |cfg.listeners| < 16 && Understood(value)
  {
    TokensAreFields(value);
    var ts := Tokens(value);
    hide Tokens, Trim, Atoi, IsAddress, Numeral, Split, NonEmpty, AllSpace, KnownProto, NamesService, AddListener;
    if 4 <= |ts| <= 6 {
      AcceptedListeners(cfg, Trim(ts[0]), Trim(ts[1]), Atoi(Trim(ts[2])), Trim(ts[3]),
                        if |ts| > 4 then Some(Trim(ts[4])) else None, if |ts| > 5 then Atoi(Trim(ts[5])) else 0);
      AtoiPositive(Trim(ts[2]), 65535);
      if |ts| > 4 { TrimBlank(ts[4]); }
      if |ts| > 5 {
        AtoiPositive(Trim(ts[5]), 65535);
        AtoiZero(Trim(ts[5]));
      }
      OneService(Trim(ts[3]));
    }
  }

  lemma ProtoIsKnown(s: string)
    ensures ParseProto(s).Some? <==> KnownProto(s)
  {
    ProtoByName(s, Tcp);
    ProtoByName(s, Udp);
  }

  lemma WordsNotEmpty(s: string)
    ensures KnownProto(s) || NamesService(s, Echo) || NamesService(s, Proxy) || IsAddress(s) ==> s != ""
  {
  }

  /** The format is what is understood without any of the three deviations. */
  lemma FormatWithoutDeviations(value: string)
    ensures Documented(value) <==>
              Understood(value) && !HasEmptyField(value) && !HasIdleTarget(value) && !HasOddPort(value)
  {
    hide Trim, KnownProto, NamesService, IsAddress, Split, NonEmpty, PlainPort, ReadsAsPort, ReadsAsZero, AllSpace;
    var fs := Split(value);
    var ts := TrimAll(fs);
    if Documented(value) {
      assert "" !in fs by {
        TrimOfEmpty();
        assert forall i | 0 <= i < |fs| :: ts[i] in ts;
      }
      NoneEmpty(fs);
      PlainPortReads(ts[2]);
      if |fs| == 6 {
        PlainPortReads(ts[5]);
        OneService(ts[3]);
      }
    } else if Understood(value) && !HasEmptyField(value) && !HasIdleTarget(value) && !HasOddPort(value) {
      NoneEmpty(fs);
      forall i | 0 <= i < |fs| ensures ts[i] != "" {
        WordsNotEmpty(ts[i]);
        NoPort();
      }
      assert false;
    }
  }

  lemma TrimOfEmpty()
    ensures Trim("") == ""
  {
  }

  lemma NoPort()
    ensures !PlainPort("")
  {
  }

  /** Exactly which texts outside the documented format are accepted: those the parser
      understands in spite of an empty field, a target of an echo listener that says nothing, or
      a port that is not in plain decimal and in range. */
  lemma BeyondTheFormat(cfg: Config, value: string)
    ensures ParseListenerValue(cfg, value).Some? && !Documented(value) <==>
              && |cfg.listeners| < 16 && Understood(value)
              && (HasEmptyField(value) || HasIdleTarget(value) || HasOddPort(value))
  {
    hide Documented, Understood, HasEmptyField, HasIdleTarget, HasOddPort, ParseListenerValue;
    AcceptedListenerValues(cfg, value);
    FormatWithoutDeviations(value);
  }

  /** And every text in the format is accepted, while there is room. */
  lemma DocumentedValuesAccepted(cfg: Config, value: string)
    requires Documented(value) && |cfg.listeners| < 16
    ensures ParseListenerValue(cfg, value).Some?
  {
    hide Documented, Understood, HasEmptyField, HasIdleTarget, HasOddPort, ParseListenerValue;
    AcceptedListenerValues(cfg, value);
    FormatWithoutDeviations(value);
  }

  // ---------- each deviation, with what it is taken for ----------

  lemma NonEmptyFirst(f: string, fs: seq<string>)
    ensures NonEmpty([f] + fs) == (if f != "" then [f] else []) + NonEmpty(fs)
  {
    assert ([f] + fs)[1..] == fs;
  }

  lemma {:induction false} NonEmptyAppend(a: seq<string>, b: seq<string>)
    ensures NonEmpty(a + b) == NonEmpty(a) + NonEmpty(b)
  {
    hide NonEmpty;
    if a == [] {
      assert a + b == b;
      NoFields();
    } else {
      NonEmptyAppend(a[1..], b);
      NonEmptyFirst(a[0], a[1..] + b);
      NonEmptyFirst(a[0], a[1..]);
      assert a + b == [a[0]] + (a[1..] + b) && a == [a[0]] + a[1..];
      Lists.Associative(if a[0] != "" then [a[0]] else [], NonEmpty(a[1..]), NonEmpty(b));
    }
  }

  lemma NoFields()
    ensures NonEmpty([]) == [] && NonEmpty([""]) == []
  {
  }

  lemma SameTokens(cfg: Config, a: string, b: string)
    requires Tokens(a) == Tokens(b)
    ensures ParseListenerValue(cfg, a) == ParseListenerValue(cfg, b)
  {
    hide AddListener, Trim, Atoi;
  }

  /** Empty fields change nothing, wherever they stand. */
  lemma EmptyFieldsAreSwallowed(cfg: Config, front: seq<string>, back: seq<string>)
    requires forall i | 0 <= i < |front| :: NoComma(front[i])
    requires forall i | 0 <= i < |back| :: NoComma(back[i])
    requires front + back != []
    ensures ParseListenerValue(cfg, Join(front + [""] + back)) == ParseListenerValue(cfg, Join(front + back))
  {
    hide NonEmpty, Split, Join, Tokens, ParseListenerValue;
    var with, without := front + [""] + back, front + back;
    SplitOfJoin(with);
    SplitOfJoin(without);
    TokensAreFields(Join(with));
    TokensAreFields(Join(without));
    NonEmptyAppend(front + [""], back);
    NonEmptyAppend(front, [""]);
    NonEmptyAppend(front, back);
    NoFields();
    assert NonEmpty(front) + [] == NonEmpty(front);
    SameTokens(cfg, Join(with), Join(without));
  }

  lemma {:induction false} Multiple(a: nat, k: nat)
    requires a < 0x1_0000_0000
    ensures (a + k * 0x1_0000_0000) % 0x1_0000_0000 == a
  {
    if k > 0 {
      Multiple(a, k - 1);
      assert a + k * 0x1_0000_0000 == a + (k - 1) * 0x1_0000_0000 + 0x1_0000_0000;
    }
  }

  /** A port and any multiple of 2^32 more are the same to the parser. */
  lemma PortsWrap(port: nat, k: nat)
    requires IsPort(port) && port + k * 0x1_0000_0000 <= LONG_MAX
    ensures Atoi(Decimal(port + k * 0x1_0000_0000)) == port
  {
    hide Atoi, Decimal;
    var n := port + k * 0x1_0000_0000;
    AtoiWraps(n);
    Multiple(port, k);
    Remainder(n);
  }

  lemma BlankTargetIsNone(cfg: Config, l: Listener)
    requires WellFormedListener(l) && l.service == Echo && |cfg.listeners| < 16
    ensures AddListener(cfg, l.listenType, l.listenIp, l.listenPort, l.typeName, Some(""), 0)
      == Some(cfg.(listeners := cfg.listeners + [l]))
  {
    ProtoByName(l.listenType, l.proto);
    ServiceByName(l.typeName, Echo);
    AddressShape(l.listenIp);
  }

  /** An echo listener with a blank fifth field, or a blank fifth and a zero sixth, is taken for
      the listener without them. */
  lemma EchoWithBlankTarget(cfg: Config, l: Listener, blank: string, port: string)
    requires WellFormedListener(l) && l.service == Echo && |cfg.listeners| < 16
    requires blank != "" && AllSpace(blank) && port != "" && NoComma(port) && Atoi(Trim(port)) == 0
    ensures ParseListenerValue(cfg, Join(Fields(l) + [blank])) == Some(cfg.(listeners := cfg.listeners + [l]))
    ensures ParseListenerValue(cfg, Join(Fields(l) + [blank, port])) == Some(cfg.(listeners := cfg.listeners + [l]))
  {
    var five, ts := Fields(l) + [blank], Fields(l) + [blank, port];
    FieldsShape(l);
    TokensOfJoin(five);
    TokensOfJoin(ts);
    TrimBlank(blank);
    forall i | 0 <= i < 4 ensures Trim(ts[i]) == ts[i] {
      TrimPadding("", ts[i], "");
      assert "" + ts[i] + "" == ts[i];
    }
    hide Trim, Atoi, Join, Tokens, Decimal, NoComma, AddListener;
    AtoiOfDecimal(l.listenPort);
    BlankTargetIsNone(cfg, l);
  }

  /** What is printed is in the format, whatever the white space around the fields. */
  lemma PrintedIsDocumented(l: Listener, pads: seq<(string, string)>)
    requires WellFormedListener(l) && Pads(l, pads)
    ensures Documented(Join(Padded(Fields(l), pads)))
  {
    hide Fields, WellFormedListener, InFormat, Trim, Join, Split, Padded;
    var fields := Fields(l);
    var ts := Padded(fields, pads);
    FieldsShape(l);
    FieldCount(l);
    PaddedLength(fields, pads);
    forall i | 0 <= i < |fields| ensures NoComma(ts[i]) && Trim(ts[i]) == fields[i] {
      PaddedShape(fields, pads, i);
    }
    SplitOfJoin(ts);
    assert TrimAll(ts) == fields;
    FieldsInFormat(l);
  }

  lemma PaddedLength(fields: seq<string>, pads: seq<(string, string)>)
    requires |pads| == |fields|
    ensures |Padded(fields, pads)| == |fields|
  {
  }

  lemma FieldsInFormat(l: Listener)
    requires WellFormedListener(l)
    ensures InFormat(Fields(l))
  {
    FieldsShape(l);
    hide Decimal, IsAddress, NamesProto, NamesService, PlainPort, Trimmed, NoComma;
    DecimalIsPlain(l.listenPort);
    if l.service == Proxy { DecimalIsPlain(l.targetPort); }
  }

  lemma DecimalIsPlain(port: nat)
    requires IsPort(port)
    ensures PlainPort(Decimal(port))
  {
    DigitsOfDecimal(port);
  }
}
