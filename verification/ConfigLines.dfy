/** Which lines of a file are skipped, which cannot be read, and which are settings, said on the
    text of the line. */
module ConfigLines {
  import opened ConfigText
  import opened TextMeaning
  import opened ConfigSpec
  import opened ConfigRoundTrip
  import opened ConfigFormat
  import opened Options

  /** White space only, or a '#' with nothing but white space before it. */
  predicate Skipped(line: string) {
    exists k | 0 <= k <= |line| :: AllSpace(line[..k]) && (k == |line| || line[k] == '#')
  }

  /** No '=', or nothing but white space on one side of the first one. */
  predicate Unreadable(line: string) {
    var eq := IndexOf(line, '=');
    !Skipped(line) && (eq == |line| || AllSpace(line[..eq]) || AllSpace(line[eq + 1..]))
  }

  /** What stands before the first '=' and after it, without the white space around. */
  function SettingOf(line: string): (string, string) {
    var eq := IndexOf(line, '=');
    if eq == |line| then ("", "") else (Trim(line[..eq]), Trim(line[eq + 1..]))
  }

  lemma SkippedParts(before: string, p: string, after: string)
    requires AllSpace(before) && AllSpace(after) && Trimmed(p)
    ensures Skipped(before + p + after) <==> p == "" || p[0] == '#'
  {
    var line := before + p + after;
    var n := |before|;
    if p == "" {
      assert AllSpace(line[..|line|]);
    } else {
      assert line[..n] == before && line[n] == p[0];
      assert forall i | 0 <= i < n :: line[i] == before[i];
    }
  }

  /** A text cut at character number `e` of its middle, into what is before it and behind it. */
  lemma CutInside(before: string, p: string, after: string, e: nat) returns (left: string, right: string)
    requires e < |p|
    ensures left == before + p[..e] + "" && right == "" + p[e + 1..] + after && |left| == |before| + e
    ensures before + p + after == left + ([p[e]] + right)
  {
    left, right := before + p[..e] + "", "" + p[e + 1..] + after;
    assert p == p[..e] + ([p[e]] + p[e + 1..]);
  }

  lemma NoneOf(before: string, p: string, after: string, c: char)
    requires forall i | 0 <= i < |before| :: before[i] != c
    requires forall i | 0 <= i < |p| :: p[i] != c
    requires forall i | 0 <= i < |after| :: after[i] != c
    ensures forall i | 0 <= i < |before + p + after| :: (before + p + after)[i] != c
  {
  }

  lemma FirstEquals(before: string, p: string, after: string)
    requires AllSpace(before) && AllSpace(after)
    ensures var line, e := before + p + after, IndexOf(p, '=');
            && (e == |p| ==> IndexOf(line, '=') == |line|)
            && (e < |p| ==> IndexOf(line, '=') == |before| + e)
  {
    hide IndexOf;
    var e := IndexOf(p, '=');
    assert forall i | 0 <= i < |before| :: IsSpace(before[i]);
    assert forall i | 0 <= i < |after| :: IsSpace(after[i]);
    if e < |p| {
      var left, right := CutInside(before, p, after, e);
      NoneOf(before, p[..e], "", '=');
      IndexOfAfter(left, '=', [p[e]] + right);
    } else {
      NoneOf(before, p, after, '=');
      NotFound(before + p + after, '=');
    }
  }

  /** A line with a '=' whose key and value are these. */
  predicate HasSetting(line: string, key: string, value: string) {
    var eq := IndexOf(line, '=');
    && eq < |line| && SettingOf(line) == (key, value)
    && (AllSpace(line[..eq]) <==> key == "") && (AllSpace(line[eq + 1..]) <==> value == "")
  }

  /** A line taken apart at its first '='. */
  lemma SettingOfParts(left: string, right: string)
    requires IndexOf(left + ("=" + right), '=') == |left|
    ensures HasSetting(left + ("=" + right), Trim(left), Trim(right))
  {
    var line := left + ("=" + right);
    assert line[..|left|] == left && line[|left| + 1..] == right;
    TrimBlank(left);
    TrimBlank(right);
    hide Trim, AllSpace, IndexOf;
  }

  lemma TrimmedInside(before: string, p: string, after: string, e: nat) returns (left: string, right: string)
    requires AllSpace(before) && AllSpace(after) && e < |p|
    ensures |left| == |before| + e && before + p + after == left + ([p[e]] + right)
    ensures Trim(left) == Trim(p[..e]) && Trim(right) == Trim(p[e + 1..])
  {
    assert AllSpace("");
    hide Trim, AllSpace;
    left, right := CutInside(before, p, after, e);
    TrimAround(before, p[..e], "");
    TrimAround("", p[e + 1..], after);
  }

  /** White space at the ends makes no difference to key and value. */
  lemma SettingParts(before: string, p: string, after: string)
    requires AllSpace(before) && AllSpace(after) && IndexOf(p, '=') < |p|
    ensures var e := IndexOf(p, '=');
            HasSetting(before + p + after, Trim(p[..e]), Trim(p[e + 1..]))
  {
    hide Trim, AllSpace, IndexOf, HasSetting;
    var e := IndexOf(p, '=');
    FirstEquals(before, p, after);
    var left, right := TrimmedInside(before, p, after, e);
    SettingOfParts(left, right);
  }

  /** `parse_config_file` on one line: skipped, refused or a setting, exactly as these say. */
  lemma LineMeans(line: string)
    ensures ReadLine(line)
      == if Skipped(line) then Nothing else if Unreadable(line) then Malformed
         else Entry(SettingOf(line).0, SettingOf(line).1)
  {
    var before, after := TrimParts(line);
    hide Trim, Skipped, AllSpace, Trimmed, IndexOf, SettingOf;
    var p := Trim(line);
    SkippedParts(before, p, after);
    FirstEquals(before, p, after);
    if IndexOf(p, '=') < |p| { SettingParts(before, p, after); }
  }

  // ---------- whole files ----------

  /** The lines as `fgets` delivers them: up to a newline or 511 characters, and up to a NUL. */
  function LinesOf(content: string): seq<string>
    decreases |content|
  {
    if content == "" then [] else [CString(content[..LineLength(content)])] + LinesOf(content[LineLength(content)..])
  }

  lemma OneLineMore(line: string, rest: string)
    requires line != "" && LineLength(line + rest) == |line| && CString(line) == line
    ensures LinesOf(line + rest) == [line] + LinesOf(rest)
  {
    hide LineLength, CString;
    assert (line + rest)[..|line|] == line && (line + rest)[|line|..] == rest;
  }

  lemma WithoutNul(line: string)
    requires forall i | 0 <= i < |line| :: line[i] != NUL
    ensures CString(line) == line
  {
    NotFound(line, NUL);
  }

  lemma NewlineAt(line: string, rest: string)
    requires |line| <= 510 && OneLine(line)
    ensures LineLength(line + "\n" + rest) == |line| + 1
  {
    IndexOfAfter(line, '\n', "\n" + rest);
    assert line + "\n" + rest == line + ("\n" + rest);
    hide IndexOf;
  }

  /** A line of up to 510 characters is read whole, with its newline. */
  lemma ShortLine(line: string, rest: string)
    requires |line| <= 510 && OneLine(line)
    ensures LinesOf(line + "\n" + rest) == [line + "\n"] + LinesOf(rest)
  {
    hide LineLength, CString, LinesOf;
    NewlineAt(line, rest);
    WithoutNul(line + "\n");
    OneLineMore(line + "\n", rest);
  }

  lemma NoNewlineSoon(line: string, rest: string)
    requires |line| == 511 && OneLine(line)
    ensures LineLength(line + rest) == 511
  {
    assert forall i | 0 <= i < 511 :: (line + rest)[i] == line[i];
    assert IndexOf(line + rest, '\n') >= 511;
    hide IndexOf;
  }

  /** Of a longer one the first 511 characters count as a line. */
  lemma LongLine(line: string, rest: string)
    requires |line| == 511 && OneLine(line)
    ensures LinesOf(line + rest) == [line] + LinesOf(rest)
  {
    hide LineLength, CString, LinesOf;
    NoNewlineSoon(line, rest);
    WithoutNul(line);
    OneLineMore(line, rest);
  }

  predicate Readable(lines: seq<string>) {
    forall i | 0 <= i < |lines| :: !Unreadable(lines[i])
  }

  /** The settings of lines, in their order. */
  function SettingsIn(lines: seq<string>): seq<(string, string)> {
    if lines == [] then []
    else (if Skipped(lines[0]) then [] else [SettingOf(lines[0])]) + SettingsIn(lines[1..])
  }

  lemma ReadableFirst(line: string, rest: seq<string>)
    ensures Readable([line] + rest) <==> !Unreadable(line) && Readable(rest)
    ensures SettingsIn([line] + rest) == (if Skipped(line) then [] else [SettingOf(line)]) + SettingsIn(rest)
  {
    var lines := [line] + rest;
    assert lines[1..] == rest && lines[0] == line;
    assert forall i | 0 < i < |lines| :: lines[i] == rest[i - 1];
    if Readable(lines) {
      assert forall i | 0 <= i < |rest| :: rest[i] == lines[i + 1];
    }
  }

  /** A file can be read if and only if each of its lines can, and its settings are theirs. */
  lemma {:induction false} FileIsItsLines(content: string)
    ensures FileSettings(content)
      == if Readable(LinesOf(content)) then Some(SettingsIn(LinesOf(content))) else None
    decreases |content|
  {
    hide ReadLine, LineLength, CString, Readable, SettingsIn, Skipped, Unreadable, SettingOf;
    if content == "" {
      NoLines();
    } else {
      SomethingIsRead(content);
      var n := LineLength(content);
      var line := CString(content[..n]);
      LineMeans(line);
      FileIsItsLines(content[n..]);
      ReadableFirst(line, LinesOf(content[n..]));
      NothingUnreadable(line);
      assert [] + SettingsIn(LinesOf(content[n..])) == SettingsIn(LinesOf(content[n..]));
    }
  }

  lemma NoLines()
    ensures Readable([]) && SettingsIn([]) == []
  {
  }

  lemma NothingUnreadable(line: string)
    ensures Skipped(line) ==> !Unreadable(line)
  {
  }

  /** One line that cannot be read makes the whole file fail. */
  lemma UnreadableLineFails(content: string, i: nat)
    requires i < |LinesOf(content)| && Unreadable(LinesOf(content)[i])
    ensures ParseFile(content) == None
  {
    FileIsItsLines(content);
    FileMeaning(START, content);
  }
}
