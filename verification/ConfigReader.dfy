/** The configuration reader as it works: in place, on one line buffer. Each operation is
    proved to compute what the functions of `ConfigSpec` say. */
module ConfigReader {
  import opened ConfigText
  import opened Listeners
  import opened Options
  import Lists
  import opened ConfigSpec

  // ---------- C strings in a buffer ----------

  /** The C string at `p` is `s`: its characters, none of them NUL, and then a NUL. */
  ghost predicate Holds(buf: seq<char>, p: nat, s: string) {
    p + |s| < |buf| && buf[p..p + |s|] == s && buf[p + |s|] == NUL && NUL !in s
  }

  /** Nothing outside `[lo, hi)` differs. */
  ghost predicate SameOutside(old_: seq<char>, new_: seq<char>, lo: nat, hi: nat) {
    |old_| == |new_| && forall i | 0 <= i < |old_| && !(lo <= i < hi) :: new_[i] == old_[i]
  }

  /** A string that ends before the part that was written, or begins after it, is still there. */
  lemma StillHolds(old_: seq<char>, new_: seq<char>, lo: nat, hi: nat, p: nat, s: string)
    requires Holds(old_, p, s) && SameOutside(old_, new_, lo, hi)
    requires p + |s| < lo || hi <= p || lo == hi
    ensures Holds(new_, p, s)
  {
    assert new_[p..p + |s|] == old_[p..p + |s|];
  }

  /** The characters of a string are not NUL, and a NUL ends it. */
  lemma CharAt(buf: seq<char>, p: nat, s: string, n: nat)
    requires Holds(buf, p, s) && n <= |s|
    ensures p + n < |buf| && (buf[p + n] == NUL <==> n == |s|) && (n < |s| ==> s[n] == buf[p + n])
  {
    if n < |s| { assert s[n] == buf[p..p + |s|][n] && s[n] in s; }
  }

  lemma Tail(buf: seq<char>, p: nat, s: string, n: nat)
    requires Holds(buf, p, s) && n <= |s|
    ensures Holds(buf, p + n, s[n..])
  {
    assert s[n..] == buf[p + n..p + |s|];
  }

  /** Writing a NUL inside a string splits it in two. */
  lemma Split(old_: seq<char>, new_: seq<char>, p: nat, s: string, n: nat)
    requires Holds(old_, p, s) && n < |s| && new_ == old_[p + n := NUL]
    ensures Holds(new_, p, s[..n]) && Holds(new_, p + n + 1, s[n + 1..])
  {
    assert new_[p..p + n] == old_[p..p + n] == s[..n];
    assert new_[p + n + 1..p + |s|] == old_[p + n + 1..p + |s|] == s[n + 1..];
  }

  /** `strlen`. */
  method StrLen(buf: array<char>, p: nat, ghost s: string) returns (n: nat)
    requires Holds(buf[..], p, s)
    ensures n == |s|
  {
    hide Holds;
    n := 0;
    CharAt(buf[..], p, s, 0);
    while buf[p + n] != NUL
      invariant n <= |s| && p + n < buf.Length && (buf[p + n] == NUL <==> n == |s|)
      decreases |s| - n
    {
      n := n + 1;
      CharAt(buf[..], p, s, n);
    }
  }

  /** The characters of a string, as the library functions that only read it see them. */
  method Text(buf: array<char>, p: nat, ghost s: string) returns (t: string)
    requires Holds(buf[..], p, s)
    ensures t == s
  {
    var n := StrLen(buf, p, s);
    t := buf[p..p + n];
  }

  /** `strchr`: the offset of the first `c`. */
  method StrChr(buf: array<char>, p: nat, c: char, ghost s: string) returns (at: Option<nat>)
    requires Holds(buf[..], p, s) && c != NUL
    ensures at == if IndexOf(s, c) < |s| then Some(p + IndexOf(s, c)) else None
  {
    hide Holds;
    var n := 0;
    CharAt(buf[..], p, s, 0);
    while buf[p + n] != NUL && buf[p + n] != c
      invariant n <= |s| && p + n < buf.Length && (buf[p + n] == NUL <==> n == |s|) && (n < |s| ==> s[n] == buf[p + n])
      invariant forall i | 0 <= i < n :: s[i] != c
      decreases |s| - n
    {
      n := n + 1;
      CharAt(buf[..], p, s, n);
    }
    return if buf[p + n] == NUL then None else Some(p + n);
  }

  /** The first loop of `trim`: step over leading white space. */
  method SkipSpace(buf: array<char>, p: nat, ghost s: string) returns (q: nat)
    requires Holds(buf[..], p, s)
    ensures p <= q && q + |TrimLeft(s)| == p + |s| && Holds(buf[..], q, TrimLeft(s))
    ensures q < buf.Length && (buf[q] == NUL <==> TrimLeft(s) == []) && (TrimLeft(s) != [] ==> !IsSpace(TrimLeft(s)[0]))
  {
    hide Holds;
    q := p;
    ghost var t := s;
    CharAt(buf[..], p, s, 0);
    while buf[q] != NUL && IsSpace(buf[q])
      invariant p <= q < buf.Length && q + |t| == p + |s| && TrimLeft(s) == TrimLeft(t)
      invariant Holds(buf[..], q, t) && (buf[q] == NUL <==> t == []) && (t != [] ==> t[0] == buf[q])
      decreases |t|
    {
      Tail(buf[..], q, t, 1);
      q, t := q + 1, t[1..];
      CharAt(buf[..], q, t, 0);
    }
  }

  /** Shortening a string by one from the end. */
  lemma Shorter(old_: seq<char>, new_: seq<char>, q: nat, u: string)
    requires Holds(old_, q, u) && u != [] && new_ == old_[q + |u| - 1 := NUL]
    ensures Holds(new_, q, u[..|u| - 1])
  {
    Split(old_, new_, q, u, |u| - 1);
  }

  /** `trim`: leading white space is stepped over, trailing white space overwritten with NULs. */
  method TrimInPlace(buf: array<char>, p: nat, ghost s: string) returns (q: nat)
    requires Holds(buf[..], p, s)
    modifies buf
    ensures p <= q && q + |Trim(s)| <= p + |s| && Holds(buf[..], q, Trim(s))
    ensures SameOutside(old(buf[..]), buf[..], p, p + |s|)
  {
    hide Holds;
    q := SkipSpace(buf, p, s);
    if buf[q] == NUL { return; }
    ghost var u := TrimLeft(s);
    var n := StrLen(buf, q, u);
    var end := q + n - 1;
    CharAt(buf[..], q, u, n - 1);
    while end > q && IsSpace(buf[end])
      invariant q <= end < buf.Length && |u| == end + 1 - q && u[0] == TrimLeft(s)[0] && buf[end] == u[|u| - 1]
      invariant Holds(buf[..], q, u) && q + |u| <= p + |s|
      invariant TrimRight(TrimLeft(s)) == TrimRight(u)
      invariant SameOutside(old(buf[..]), buf[..], p, p + |s|)
    {
      ghost var before := buf[..];
      buf[end] := NUL;
      Shorter(before, buf[..], q, u);
      end, u := end - 1, u[..|u| - 1];
      CharAt(buf[..], q, u, |u| - 1);
    }
  }

  /** `strspn` for ",": step over commas. */
  method SkipCommas(buf: array<char>, p: nat, ghost s: string) returns (q: nat, ghost t: string)
    requires Holds(buf[..], p, s)
    ensures p <= q < buf.Length && q + |t| == p + |s| && Holds(buf[..], q, t) && Tokens(s) == Tokens(t)
    ensures (buf[q] == NUL <==> t == []) && (t != [] ==> t[0] != ',')
  {
    hide Holds;
    q, t := p, s;
    CharAt(buf[..], p, s, 0);
    while buf[q] == ','
      invariant p <= q < buf.Length && q + |t| == p + |s| && Tokens(s) == Tokens(t)
      invariant Holds(buf[..], q, t) && (buf[q] == NUL <==> t == []) && (t != [] ==> t[0] == buf[q])
      decreases |t|
    {
      Tail(buf[..], q, t, 1);
      q, t := q + 1, t[1..];
      CharAt(buf[..], q, t, 0);
    }
  }

  /** `strcspn` for ",": the length of the run without commas. */
  method SpanLength(buf: array<char>, q: nat, ghost t: string) returns (n: nat)
    requires Holds(buf[..], q, t)
    ensures n == Span(t) && q + n < buf.Length && (buf[q + n] == NUL <==> n == |t|)
  {
    hide Holds;
    n := 0;
    CharAt(buf[..], q, t, 0);
    while buf[q + n] != NUL && buf[q + n] != ','
      invariant n <= |t| && q + n < buf.Length && (buf[q + n] == NUL <==> n == |t|) && (n < |t| ==> t[n] == buf[q + n])
      invariant forall i | 0 <= i < n :: t[i] != ','
      decreases |t| - n
    {
      n := n + 1;
      CharAt(buf[..], q, t, n);
    }
  }

  lemma NoTokens()
    ensures Tokens([]) == []
  {
  }

  lemma TokensAfterComma(t: string)
    requires t != [] && t[0] != ','
    ensures |Tokens(t)| > 0 && Tokens(t)[0] == t[..Span(t)]
    ensures Span(t) == |t| ==> Tokens(t)[0] == t && Tokens(t)[1..] == []
    ensures Span(t) < |t| ==> Tokens(t)[1..] == Tokens(t[Span(t) + 1..])
  {
    var n := Span(t);
    assert Tokens(t)[1..] == Tokens(t[n..]);
    if n < |t| {
      assert t[n..][1..] == t[n + 1..];
    } else {
      assert t[..n] == t && t[n..] == [];
    }
  }

  /** `strtok_r` with ",": the next run without commas is ended with a NUL, and `save` is where
      the text goes on. */
  method StrTok(buf: array<char>, p: nat, ghost s: string) returns (token: Option<nat>, save: nat, ghost rest: string)
    requires Holds(buf[..], p, s)
    modifies buf
    ensures SameOutside(old(buf[..]), buf[..], p, p + |s|)
    ensures p <= save && save + |rest| == p + |s| && Holds(buf[..], save, rest)
    ensures token.None? <==> Tokens(s) == []
    ensures token.None? ==> rest == []
    ensures token.Some? ==> Holds(buf[..], token.value, Tokens(s)[0]) && p <= token.value
    ensures token.Some? ==> token.value + |Tokens(s)[0]| < save || (token.value + |Tokens(s)[0]| == save && rest == [])
    ensures token.Some? ==> Tokens(rest) == Tokens(s)[1..]
  {
    hide Holds, Tokens, Span;
    ghost var t;
    var q;
    q, t := SkipCommas(buf, p, s);
    if buf[q] == NUL {
      NoTokens();
      return None, q, [];
    }
    var n := SpanLength(buf, q, t);
    TokensAfterComma(t);
    if buf[q + n] == NUL {
      Tail(buf[..], q, t, n);
      return Some(q), q + n, [];
    }
    ghost var before := buf[..];
    buf[q + n] := NUL;
    Split(before, buf[..], q, t, n);
    return Some(q), q + n + 1, t[n + 1..];
  }

  // ---------- the fields of a listener value ----------

  /** A field that `strtok_r` has found: where it is and what it says. */
  datatype Field = Field(at: nat, text: string)

  /** The fields found so far lie one after the other before `save`, where the rest begins. */
  ghost predicate Found(buf: seq<char>, fields: seq<Field>, save: nat, rest: string) {
    && Holds(buf, save, rest)
    && (forall i | 0 <= i < |fields| :: Holds(buf, fields[i].at, fields[i].text))
    && (forall i, j | 0 <= i < j < |fields| :: fields[i].at + |fields[i].text| < fields[j].at)
    && (forall i | 0 <= i < |fields| :: fields[i].at + |fields[i].text| < save || rest == [])
    && (forall i | 0 <= i < |fields| :: fields[i].at + |fields[i].text| <= save)
  }

  function Texts(fields: seq<Field>): seq<string> {
    seq(|fields|, i requires 0 <= i < |fields| => fields[i].text)
  }

  /** One `strtok_r(NULL, ",", &saveptr)`. */
  method NextField(buf: array<char>, p: nat, ghost fields: seq<Field>, ghost rest: string)
    returns (token: Option<nat>, save: nat, ghost found: seq<Field>, ghost more: string)
    requires Found(buf[..], fields, p, rest)
    modifies buf
    ensures Found(buf[..], found, save, more)
    ensures Texts(found) + Tokens(more) == Texts(fields) + Tokens(rest)
    ensures token.None? <==> Tokens(rest) == []
    ensures token.None? ==> found == fields && more == []
    ensures token.Some? ==> |found| == |fields| + 1 && found[..|fields|] == fields && found[|fields|].at == token.value
  {
    hide Holds, Tokens, SameOutside, Found, Texts;
    ghost var before := buf[..];
    assert Holds(before, p, rest) by { RestHolds(before, fields, p, rest); }
    token, save, more := StrTok(buf, p, rest);
    if token == None {
      found := fields;
      FoundStill(before, buf[..], fields, p, rest, save, more);
      NoTokens();
    } else {
      ghost var f := Field(token.value, Tokens(rest)[0]);
      found := fields + [f];
      FoundMore(before, buf[..], fields, p, rest, f, save, more);
      OneMoreText(fields, f, Tokens(rest));
    }
  }

  lemma RestHolds(buf: seq<char>, fields: seq<Field>, save: nat, rest: string)
    requires Found(buf, fields, save, rest)
    ensures Holds(buf, save, rest)
  {
  }

  /** The fields found before are still there ... */
  lemma FoundStill(old_: seq<char>, new_: seq<char>, fields: seq<Field>, p: nat, rest: string, save: nat, more: string)
    requires Found(old_, fields, p, rest) && SameOutside(old_, new_, p, p + |rest|)
    requires Holds(new_, save, more) && p <= save && save + |more| == p + |rest| && (rest == [] ==> more == [])
    ensures forall i | 0 <= i < |fields| :: Holds(new_, fields[i].at, fields[i].text)
    ensures more == [] ==> Found(new_, fields, save, more)
  {
    hide Holds, SameOutside;
    forall i | 0 <= i < |fields| ensures Holds(new_, fields[i].at, fields[i].text) {
      StillHolds(old_, new_, p, p + |rest|, fields[i].at, fields[i].text);
    }
  }

  /** ... and the new one comes after them. */
  lemma FoundMore(old_: seq<char>, new_: seq<char>, fields: seq<Field>, p: nat, rest: string, f: Field,
                  save: nat, more: string)
    requires Found(old_, fields, p, rest) && SameOutside(old_, new_, p, p + |rest|) && rest != []
    requires Holds(new_, save, more) && p <= save && save + |more| == p + |rest|
    requires Holds(new_, f.at, f.text) && p <= f.at
    requires f.at + |f.text| < save || (f.at + |f.text| == save && more == [])
    ensures Found(new_, fields + [f], save, more)
  {
    hide Holds, SameOutside;
    FoundStill(old_, new_, fields, p, rest, save, more);
    var found := fields + [f];
    assert forall i | 0 <= i < |found| :: found[i] == if i < |fields| then fields[i] else f;
  }

  lemma OneMoreText(fields: seq<Field>, f: Field, tokens: seq<string>)
    requires tokens != [] && f.text == tokens[0]
    ensures Texts(fields + [f]) + tokens[1..] == Texts(fields) + tokens
  {
    assert Texts(fields + [f]) == Texts(fields) + [f.text];
    assert tokens == [tokens[0]] + tokens[1..];
    Lists.Associative(Texts(fields), [f.text], tokens[1..]);
  }

  /** Fields that do not overlap. */
  ghost predicate Apart(buf: seq<char>, fields: seq<Field>) {
    && (forall i | 0 <= i < |fields| :: Holds(buf, fields[i].at, fields[i].text))
    && (forall i, j | 0 <= i < j < |fields| :: fields[i].at + |fields[i].text| < fields[j].at)
  }

  /** Trimming one field leaves the others as they are. */
  method TrimField(buf: array<char>, ghost fields: seq<Field>, k: nat, at: nat) returns (q: nat)
    requires Apart(buf[..], fields) && k < |fields| && at == fields[k].at
    modifies buf
    ensures Apart(buf[..], fields[k := Field(q, Trim(fields[k].text))])
  {
    hide Holds, SameOutside, Trim;
    ghost var before := buf[..];
    ghost var lo, hi := at, at + |fields[k].text|;
    q := TrimInPlace(buf, at, fields[k].text);
    forall i | 0 <= i < |fields| && i != k ensures Holds(buf[..], fields[i].at, fields[i].text) {
      StillHolds(before, buf[..], lo, hi, fields[i].at, fields[i].text);
    }
  }

  /** The seven `strtok_r` calls. */
  method SplitValue(buf: array<char>, value: nat, ghost s: string)
    returns (t0: Option<nat>, t1: Option<nat>, t2: Option<nat>, t3: Option<nat>, t4: Option<nat>,
             t5: Option<nat>, t6: Option<nat>,
             ghost fields: seq<Field>)
    requires Holds(buf[..], value, s)
    modifies buf
    ensures Apart(buf[..], fields)
    ensures var n := |Tokens(s)|;
            && (t0.Some? <==> n > 0) && (t1.Some? <==> n > 1) && (t2.Some? <==> n > 2) && (t3.Some? <==> n > 3)
            && (t4.Some? <==> n > 4) && (t5.Some? <==> n > 5) && (t6.Some? <==> n > 6)
    ensures |Tokens(s)| <= 6 ==> Texts(fields) == Tokens(s)
    ensures 4 <= |Tokens(s)| <= 6 ==>
              && t0.value == fields[0].at && t1.value == fields[1].at
              && t2.value == fields[2].at && t3.value == fields[3].at
              && (t4.Some? ==> t4.value == fields[4].at) && (t5.Some? ==> t5.value == fields[5].at)
  {
    hide Holds, Tokens, Found;
    var save: nat;
    ghost var rest: string;
    assert Found(buf[..], [], value, s) by { NothingFound(buf[..], value, s); }
    ghost var all := Texts([]) + Tokens(s);
    assert all == Tokens(s);
    t0, save, fields, rest := NextField(buf, value, [], s);
    t1, save, fields, rest := NextField(buf, save, fields, rest);
    t2, save, fields, rest := NextField(buf, save, fields, rest);
    t3, save, fields, rest := NextField(buf, save, fields, rest);
    t4, save, fields, rest := NextField(buf, save, fields, rest);
    t5, save, fields, rest := NextField(buf, save, fields, rest);
    t6, save, fields, rest := NextField(buf, save, fields, rest);
    NoTokens();
    assert t6 == None ==> all == Texts(fields);
    FoundApart(buf[..], fields, save, rest);
  }

  lemma NothingFound(buf: seq<char>, p: nat, s: string)
    requires Holds(buf, p, s)
    ensures Found(buf, [], p, s)
  {
  }

  lemma FoundApart(buf: seq<char>, fields: seq<Field>, save: nat, rest: string)
    requires Found(buf, fields, save, rest)
    ensures Apart(buf, fields)
  {
  }

  // ---------- the configuration being filled ----------

  /** `server_config_t` while a file is read. */
  class ServerConfig {
    const listeners: array<Listener>
    var listenerCount: nat
    var workerNum: int
    var logLevel: Level
    var logFile: string

    ghost predicate Valid()
      reads `listenerCount
    {
      listeners.Length == MAX_LISTENERS && listenerCount <= MAX_LISTENERS
    }

    ghost function Value(): Config
      requires Valid()
      reads this, listeners
    {
      Config(listeners[..listenerCount], workerNum, logLevel, logFile)
    }

    /** Freshly allocated memory, with any content. */
    constructor ()
      ensures listeners.Length == MAX_LISTENERS && fresh(listeners)
    {
      listeners := new Listener[MAX_LISTENERS];
    }

    /** `config_set_default`. */
    method SetDefault()
      requires listeners.Length == MAX_LISTENERS
      modifies this
      ensures Valid() && Value() == DEFAULT
    {
      listenerCount, workerNum, logLevel, logFile := 0, 4, Info, "/tmp/myserver.log";
    }

    /** `add_listener_config`: the checks one after the other, and then the next slot. */
    method AddListenerConfig(listenType: string, listenIp: string, listenPort: int, typeName: string,
                             targetIp: Option<string>, targetPort: int) returns (ok: bool)
      requires Valid()
      modifies `listenerCount, listeners
      ensures Valid()
      ensures var r := AddListener(old(Value()), listenType, listenIp, listenPort, typeName, targetIp, targetPort);
              ok == r.Some? && Value() == if ok then r.value else old(Value())
    {
      hide IsAddress;
      if listenerCount >= MAX_LISTENERS { return false; }
      var proto := ParseProto(listenType);
      if proto == None { return false; }
      if !IsAddress(listenIp) { return false; }
      if listenPort <= 0 || listenPort > 65535 { return false; }
      if typeName == "" { return false; }
      var service := ParseService(typeName);
      if service == None { return false; }
      if service.value == Proxy {
        if targetIp == None || targetIp.value == "" { NoAddress(); return false; }
        if !IsAddress(targetIp.value) { return false; }
        if targetPort <= 0 || targetPort > 65535 { return false; }
      } else {
        if (targetIp != None && targetIp.value != "") || targetPort != 0 { return false; }
      }
      ghost var before := Value();
      var l := Listener(proto.value, service.value, Cut(listenType, TYPE_SIZE), Cut(listenIp, IP_SIZE), listenPort,
                        Cut(typeName, TYPE_SIZE), "", 0);
      if service.value == Proxy {
        l := l.(targetIp := Cut(targetIp.value, IP_SIZE), targetPort := targetPort);
      }
      listeners[listenerCount] := l;
      listenerCount := listenerCount + 1;
      assert listeners[..listenerCount] == before.listeners + [l];
      return true;
    }

    /** `parse_listener_value`. */
    method ParseValue(buf: array<char>, value: nat, ghost s: string) returns (ok: bool)
      requires Valid() && Holds(buf[..], value, s)
      modifies buf, `listenerCount, listeners
      ensures Valid()
      ensures var r := ParseListenerValue(old(Value()), s);
              ok == r.Some? && Value() == if ok then r.value else old(Value())
    {
      hide Holds, Tokens, Trim, Atoi, Apart, AddListener;
      ghost var before := Value();
      ghost var ts := Tokens(s);
      ghost var fields;
      var t0, t1, t2, t3, t4, t5, t6;
      t0, t1, t2, t3, t4, t5, t6, fields := SplitValue(buf, value, s);
      if t0 == None || t1 == None || t2 == None || t3 == None || t6 != None { return false; }
      var q0 := TrimField(buf, fields, 0, t0.value);
      fields := fields[0 := Field(q0, Trim(ts[0]))];
      var q1 := TrimField(buf, fields, 1, t1.value);
      fields := fields[1 := Field(q1, Trim(ts[1]))];
      var q2 := TrimField(buf, fields, 2, t2.value);
      fields := fields[2 := Field(q2, Trim(ts[2]))];
      var q3 := TrimField(buf, fields, 3, t3.value);
      fields := fields[3 := Field(q3, Trim(ts[3]))];
      var targetIp: Option<string>, targetPort := None, 0;
      var q4 := 0;
      if t4 != None {
        q4 := TrimField(buf, fields, 4, t4.value);
        fields := fields[4 := Field(q4, Trim(ts[4]))];
      }
      if t5 != None {
        var q5 := TrimField(buf, fields, 5, t5.value);
        fields := fields[5 := Field(q5, Trim(ts[5]))];
        var targetPortText := FieldText(buf, fields, 5, q5);
        targetPort := Atoi(targetPortText);
      }
      var listenType := FieldText(buf, fields, 0, q0);
      var listenIp := FieldText(buf, fields, 1, q1);
      var listenPortText := FieldText(buf, fields, 2, q2);
      var typeName := FieldText(buf, fields, 3, q3);
      if t4 != None {
        var ip := FieldText(buf, fields, 4, q4);
        targetIp := Some(ip);
      }
      assert Value() == before;
      ok := AddListenerConfig(listenType, listenIp, Atoi(listenPortText), typeName, targetIp, targetPort);
    }

    /** What the line loop does with a key and its value; `ip` and `port` are the legacy
        settings afterwards. */
    method TakeSetting(buf: array<char>, key: nat, value: nat, legacyIp: string, legacyPort: int,
                       ghost k: string, ghost v: string)
      returns (ok: bool, ip: string, port: int)
      requires Valid() && Holds(buf[..], key, k) && Holds(buf[..], value, v)
      modifies this, listeners, buf
      ensures Valid()
      ensures var r := Apply(State(old(Value()), legacyIp, legacyPort), k, v);
              ok == r.Some? && (ok ==> State(Value(), ip, port) == r.value)
    {
      hide Holds, Atoi, ParseListenerValue, ParseLevel;
      ip, port := legacyIp, legacyPort;
      var keyText := Text(buf, key, k);
      if keyText == "listener" {
        ok := ParseValue(buf, value, v);
        return;
      }
      var text := Text(buf, value, v);
      if keyText == "listen_ip" {
        ip := Cut(text, IP_SIZE);
      } else if keyText == "listen_port" {
        port := Atoi(text);
        if port <= 0 || port > 65535 { ok := false; return; }
      } else if keyText == "worker_num" {
        workerNum := Atoi(text);
        if workerNum <= 0 || workerNum > 128 { ok := false; return; }
      } else if keyText == "log_level" {
        var level := ParseLevel(text);
        if level == None { ok := false; return; }
        logLevel := level.value;
      } else if keyText == "log_file" {
        logFile := Cut(text, LOG_FILE_SIZE);
      }
      ok := true;
    }

    /** One round of the line loop, with the line in the buffer. */
    method TakeLine(buf: array<char>, legacyIp: string, legacyPort: int, ghost line: string)
      returns (ok: bool, ip: string, port: int)
      requires Valid() && Holds(buf[..], 0, line)
      modifies this, listeners, buf
      ensures Valid()
      ensures var r := ParseLine(State(old(Value()), legacyIp, legacyPort), line);
              ok == r.Some? && (ok ==> State(Value(), ip, port) == r.value)
    {
      hide Holds, SameOutside, Apply, Trim;
      ghost var st := State(Value(), legacyIp, legacyPort);
      ip, port := legacyIp, legacyPort;
      var p := TrimInPlace(buf, 0, line);
      ghost var t := Trim(line);
      CharAt(buf[..], p, t, 0);
      if buf[p] == NUL || buf[p] == '#' { ok := true; return; }
      var found := StrChr(buf, p, '=', t);
      if found == None { ok := false; return; }
      var eq := found.value;
      ghost var k, v := t[..eq - p], t[eq - p + 1..];
      ghost var before := buf[..];
      CharAt(buf[..], p, t, eq - p);
      buf[eq] := NUL;
      Split(before, buf[..], p, t, eq - p);
      var key, value;
      key, value := TrimBoth(buf, p, eq + 1, k, v);
      CharAt(buf[..], key, Trim(k), 0);
      CharAt(buf[..], value, Trim(v), 0);
      if buf[key] == NUL || buf[value] == NUL { ok := false; return; }
      assert State(Value(), legacyIp, legacyPort) == st;
      ok, ip, port := TakeSetting(buf, key, value, legacyIp, legacyPort, Trim(k), Trim(v));
    }

    /** `parse_config_file`; no file is one that cannot be opened. */
    method ParseConfigFile(file: Option<string>) returns (ok: bool)
      requires listeners.Length == MAX_LISTENERS
      modifies this, listeners
      ensures Valid()
      ensures ok <==> file.Some? && ParseFile(file.value).Some?
      ensures ok ==> Value() == ParseFile(file.value).value
    {
      hide Holds, ParseLine, LineLength, CString, AddListener;
      SetDefault();
      var legacyIp, legacyPort := "0.0.0.0", 8080;
      if file == None { return false; }
      var content := file.value;
      var line := new char[LINE_SIZE];
      var pos := 0;
      assert content[0..] == content;
      while pos < |content|
        invariant pos <= |content| && Valid() && line.Length == LINE_SIZE && fresh(line)
        invariant ParseLines(START, content) == ParseLines(State(Value(), legacyIp, legacyPort), content[pos..])
        decreases |content| - pos
      {
        var n := Fgets(line, content, pos);
        ghost var rest := content[pos..];
        assert rest[n..] == content[pos + n..] && rest[..n] == content[pos..pos + n];
        ok, legacyIp, legacyPort := TakeLine(line, legacyIp, legacyPort, CString(content[pos..pos + n]));
        if !ok { return; }
        pos := pos + n;
      }
      ok := true;
      if listenerCount == 0 {
        ok := AddListenerConfig("tcp", legacyIp, legacyPort, "echo", None, 0);
      }
    }
  }

  /** `trim` on the two parts of a split line. */
  method TrimBoth(buf: array<char>, p: nat, r: nat, ghost k: string, ghost v: string) returns (key: nat, value: nat)
    requires Holds(buf[..], p, k) && Holds(buf[..], r, v) && p + |k| < r
    modifies buf
    ensures Holds(buf[..], key, Trim(k)) && Holds(buf[..], value, Trim(v))
  {
    hide Holds, SameOutside, Trim;
    ghost var a := buf[..];
    key := TrimInPlace(buf, p, k);
    ghost var b := buf[..];
    StillHolds(a, b, p, p + |k|, r, v);
    value := TrimInPlace(buf, r, v);
    StillHolds(b, buf[..], r, r + |v|, key, Trim(k));
  }

  /** `fgets` into the line buffer: the characters up to and with a newline, at most 511, and
      a NUL. */
  method Fgets(line: array<char>, content: string, pos: nat) returns (n: nat)
    requires line.Length == LINE_SIZE && pos < |content|
    modifies line
    ensures n == LineLength(content[pos..]) && pos + n <= |content|
    ensures Holds(line[..], 0, CString(content[pos..pos + n]))
  {
    ghost var rest := content[pos..];
    n := 0;
    while n < LINE_SIZE - 1 && pos + n < |content| && !(n > 0 && content[pos + n - 1] == '\n')
      invariant n <= LINE_SIZE - 1 && pos + n <= |content|
      invariant line[..n] == content[pos..pos + n]
      invariant forall i | 0 <= i < n - 1 :: rest[i] != '\n'
    {
      line[n] := content[pos + n];
      n := n + 1;
    }
    assert n > 0 && rest[n - 1] == content[pos + n - 1];
    LineEnds(rest, n);
    ghost var before := line[..n];
    line[n] := NUL;
    assert line[..n] == before;
    StringInBuffer(line[..], content[pos..pos + n]);
  }

  lemma LineEnds(content: string, n: nat)
    requires 0 < n < LINE_SIZE && n <= |content| && forall i | 0 <= i < n - 1 :: content[i] != '\n'
    requires n == LINE_SIZE - 1 || n == |content| || content[n - 1] == '\n'
    ensures LineLength(content) == n
  {
  }

  lemma StringInBuffer(buf: seq<char>, line: string)
    requires |line| < |buf| && buf[..|line|] == line && buf[|line|] == NUL
    ensures Holds(buf, 0, CString(line))
  {
    var n := IndexOf(line, NUL);
    assert buf[0..n] == line[..n];
    if n < |line| { assert buf[..|line|][n] == NUL; }
  }

  lemma NoAddress()
    ensures !IsAddress("")
  {
  }

  method FieldText(buf: array<char>, ghost fields: seq<Field>, k: nat, at: nat) returns (t: string)
    requires Apart(buf[..], fields) && k < |fields| && at == fields[k].at
    ensures t == fields[k].text
  {
    t := Text(buf, at, fields[k].text);
  }
}
