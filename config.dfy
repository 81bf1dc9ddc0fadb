/** The loader's configuration file: CONNECT_STRING, OUTPUT_DIRECTORY and
    blocks of FTP settings per roaming hub, opened by FTP_SETTINGS_FOR and
    closed by END_FTP_SETTINGS.  The file is given as its sequence of lines. */
module ConfigContainer {
  import opened Wrappers
  import opened Ascii

  datatype FtpSetting = FtpSetting(
    ftpServer: string,
    ftpUsername: string,
    ftpPassword: string,
    ftpPort: string,
    ftpDirectory: string)

  const EMPTY_FTP_SETTING: FtpSetting := FtpSetting("", "", "", "", "")
  const OTHERS: string := "OTHERS"
  const OUTPUT_DIRECTORY_SEPARATOR: char := '\\'

  // ---------------------------------------------------------------------------
  // Splitting a line

  predicate NotBlank(c: char)
  {
    !(c == ' ' || c == '\t' || c == '\r' || c == '\n')
  }

  predicate IsDelimiter(c: char)
  {
    c == ' ' || c == '\t' || c == '='
  }

  predicate NotDelimiter(c: char)
  {
    !IsDelimiter(c)
  }

  predicate IsValueEnd(c: char)
  {
    c == ' ' || c == '\t' || c == '#'
  }

  /** Index of the first character at or after from that satisfies p, or the
      length of s when there is none (std::string's npos). */
  function FindFirst(s: string, from: nat, p: char -> bool): (r: nat)
    requires from <= |s|
    ensures from <= r <= |s|
    ensures forall k | from <= k < r :: !p(s[k])
    ensures r < |s| ==> p(s[r])
    decreases |s| - from
  {
    if from == |s| then from else if p(s[from]) then from else FindFirst(s, from + 1, p)
  }

  datatype ConfigLine = Comment | OptionLine(name: string, value: string)

  /** A line whose first non-blank character is '#' (or NUL) is a comment.
      Otherwise the name runs from the first non-blank character to the first
      space, tab or '=' (the whole line when there is none) and is upper-cased;
      the value starts after the delimiters and ends before the first space,
      tab or '#'. */
  function SplitLine(line: string): ConfigLine
  {
    var pos := FindFirst(line, 0, NotBlank);
    if pos < |line| && (line[pos] == '#' || line[pos] == 0 as char) then Comment
    else
      var delim := FindFirst(line, pos, IsDelimiter);
      var name := if delim < |line| then line[pos..delim] else line;
      var valuePos := if delim < |line| then FindFirst(line, delim, NotDelimiter) else |line|;
      var rest := line[valuePos..];
      var value := rest[..FindFirst(rest, 0, IsValueEnd)];
      OptionLine(UpperString(name), value)
  }

  /** A name the parser can read back: non-empty, upper case, without blanks,
      delimiters, '#' or NUL. */
  predicate IsPlainName(name: string)
  {
    |name| > 0 && UpperString(name) == name
    && forall k | 0 <= k < |name| :: NotBlank(name[k]) && NotDelimiter(name[k]) && name[k] != '#' && name[k] != 0 as char
  }

  /** A value the parser can read back: no blanks, '#' or '=' at its start. */
  predicate IsPlainValue(value: string)
  {
    (|value| > 0 ==> value[0] != '=')
    && forall k | 0 <= k < |value| :: !IsValueEnd(value[k]) && NotBlank(value[k])
  }

  /** The line "NAME = value". */
  function FormatLine(name: string, value: string): string
  {
    name + " = " + value
  }

  /** Round trip: a formatted option line splits back into its name and value. */
  lemma SplitFormatLine(name: string, value: string)
    requires IsPlainName(name) && IsPlainValue(value)
    ensures SplitLine(FormatLine(name, value)) == OptionLine(name, value)
  {
    var line := FormatLine(name, value);
    var n := |name|;
    assert line[0] == name[0];
    assert FindFirst(line, 0, NotBlank) == 0;
    assert line[n] == ' ';
    assert forall k | 0 <= k < n :: line[k] == name[k];
    FindFirstAt(line, 0, n, IsDelimiter);
    assert line[0..n] == name;
    var valuePos := FindFirst(line, n, NotDelimiter);
    if |value| > 0 {
      assert line[n + 3] == value[0];
      FindFirstAt(line, n, n + 3, NotDelimiter);
    } else {
      assert valuePos == |line|;
    }
    var rest := line[valuePos..];
    assert rest == value;
    FindFirstAt(rest, 0, |rest|, IsValueEnd);
  }

  /** FindFirst stops exactly at the first position satisfying p. */
  lemma FindFirstAt(s: string, from: nat, at: nat, p: char -> bool)
    requires from <= at <= |s|
    requires forall k | from <= k < at :: !p(s[k])
    requires at < |s| ==> p(s[at])
    ensures FindFirst(s, from, p) == at
    decreases at - from
  {
    if from < at {
      FindFirstAt(s, from + 1, at, p);
    }
  }

  /** A line made only of a plain name has that name and an empty value. */
  lemma SplitBareName(name: string)
    requires IsPlainName(name)
    ensures SplitLine(name) == OptionLine(name, "")
  {
    assert name[0] == name[0];
    assert FindFirst(name, 0, NotBlank) == 0;
    FindFirstAt(name, 0, |name|, IsDelimiter);
    assert name[|name|..] == [];
  }

  // ---------------------------------------------------------------------------
  // OUTPUT_DIRECTORY

  /** The OUTPUT_DIRECTORY value as written: it reads the last character of the
      value before checking that there is one, so an empty value has no defined
      result (None). */
  function OutputDirectoryAsWritten(value: string): (r: Option<string>)
    ensures r.None? <==> value == ""
  {
    if |value| == 0 then None
    else if value[|value| - 1] == OUTPUT_DIRECTORY_SEPARATOR then Some(value[..|value| - 1])
    else Some(value)
  }

  /** An OUTPUT_DIRECTORY line without a value reaches the out-of-range read. */
  lemma OutputDirectoryWithoutValue()
    ensures SplitLine("OUTPUT_DIRECTORY") == OptionLine("OUTPUT_DIRECTORY", "")
    ensures OutputDirectoryAsWritten(SplitLine("OUTPUT_DIRECTORY").value).None?
  {
    PlainUpperName("OUTPUT_DIRECTORY");
    SplitBareName("OUTPUT_DIRECTORY");
  }

  /** The intended OUTPUT_DIRECTORY value: one trailing '\' removed, an empty
      value kept empty. */
  function StripTrailingSeparator(value: string): (r: string)
    ensures r == value || (|value| > 0 && value[|value| - 1] == OUTPUT_DIRECTORY_SEPARATOR && r == value[..|value| - 1])
  {
    if |value| > 0 && value[|value| - 1] == OUTPUT_DIRECTORY_SEPARATOR then value[..|value| - 1] else value
  }

  /** The corrected value agrees with the source wherever the source is defined,
      and removes exactly one appended separator. */
  lemma StripTrailingSeparatorCorrect(value: string)
    ensures value != "" ==> OutputDirectoryAsWritten(value) == Some(StripTrailingSeparator(value))
    ensures StripTrailingSeparator(value + [OUTPUT_DIRECTORY_SEPARATOR]) == value
    ensures (|value| == 0 || value[|value| - 1] != OUTPUT_DIRECTORY_SEPARATOR) ==> StripTrailingSeparator(value) == value
  {
    assert (value + [OUTPUT_DIRECTORY_SEPARATOR])[..|value|] == value;
  }

  // ---------------------------------------------------------------------------
  // The parser

  /** The stored options together with the parser's local variables. */
  datatype ParserState = ParserState(
    connectString: string,
    outputDirectory: string,
    ftpSettings: map<string, FtpSetting>,
    processingFtpSettings: bool,
    roamingHubName: string,
    ftpSetting: FtpSetting)

  /** The state at the start of a read: the stored options and a fresh parser. */
  function Start(connectString: string, outputDirectory: string, ftpSettings: map<string, FtpSetting>): ParserState
  {
    ParserState(connectString, outputDirectory, ftpSettings, false, "", EMPTY_FTP_SETTING)
  }

  /** The effect of one split line. */
  function Step(st: ParserState, cl: ConfigLine): ParserState
  {
    match cl
    case Comment => st
    case OptionLine(name, value) => Apply(st, name, value)
  }

  /** The effect of one option. */
  function Apply(st: ParserState, name: string, value: string): ParserState
  {
      if name == "CONNECT_STRING" then st.(connectString := value)
      else if name == "OUTPUT_DIRECTORY" then st.(outputDirectory := StripTrailingSeparator(value))
      else if name == "FTP_SETTINGS_FOR" then
        var hub := UpperString(value);
        st.(roamingHubName := hub, processingFtpSettings := st.processingFtpSettings || hub != "")
      else if st.processingFtpSettings then
        if name == "FTP_SERVER" then st.(ftpSetting := st.ftpSetting.(ftpServer := value))
        else if name == "FTP_USERNAME" then st.(ftpSetting := st.ftpSetting.(ftpUsername := value))
        else if name == "FTP_PASSWORD" then st.(ftpSetting := st.ftpSetting.(ftpPassword := value))
        else if name == "FTP_DIRECTORY" then st.(ftpSetting := st.ftpSetting.(ftpDirectory := value))
        else if name == "FTP_PORT" then st.(ftpSetting := st.ftpSetting.(ftpPort := value))
        else if name == "END_FTP_SETTINGS" then
          st.(ftpSettings := Insert(st.ftpSettings, st.roamingHubName, st.ftpSetting),
              processingFtpSettings := false,
              roamingHubName := "",
              ftpSetting := EMPTY_FTP_SETTING)
        else st
      else st
  }

  /** std::map::insert: an existing entry is kept. */
  function Insert(m: map<string, FtpSetting>, key: string, value: FtpSetting): (r: map<string, FtpSetting>)
    ensures key in r && r.Keys == m.Keys + {key}
    ensures key in m ==> r == m
    ensures key !in m ==> r[key] == value && forall k | k in m :: r[k] == m[k]
  {
    if key in m then m else m[key := value]
  }

  /** The lines, split. */
  function Parse(lines: seq<string>): (cls: seq<ConfigLine>)
    ensures |cls| == |lines|
  {
    seq(|lines|, i requires 0 <= i < |lines| => SplitLine(lines[i]))
  }

  /** The effect of split lines in order. */
  function RunLines(st: ParserState, cls: seq<ConfigLine>): ParserState
  {
    if cls == [] then st else Step(RunLines(st, cls[..|cls| - 1]), cls[|cls| - 1])
  }

  /** The effect of the lines of a file in order. */
  function Run(st: ParserState, lines: seq<string>): ParserState
  {
    RunLines(st, Parse(lines))
  }

  lemma RunStep(st: ParserState, lines: seq<string>, i: nat)
    requires i < |lines|
    ensures Run(st, lines[..i + 1]) == Step(Run(st, lines[..i]), SplitLine(lines[i]))
  {
    assert Parse(lines[..i + 1])[..i] == Parse(lines[..i]);
  }

  // ---------------------------------------------------------------------------
  // Properties of the parser

  /** A line whose first non-blank character is '#' changes nothing. */
  lemma CommentLineIsSkipped(st: ParserState, line: string, k: nat)
    requires k < |line| && line[k] == '#'
    requires forall j | 0 <= j < k :: !NotBlank(line[j])
    ensures Step(st, SplitLine(line)) == st
  {
    FindFirstAt(line, 0, k, NotBlank);
  }

  /** Outside an FTP block the FTP keys, END_FTP_SETTINGS included, change
      nothing. */
  lemma FtpKeysIgnoredOutsideBlock(st: ParserState, name: string, value: string)
    requires !st.processingFtpSettings
    requires name in {"FTP_SERVER", "FTP_USERNAME", "FTP_PASSWORD", "FTP_DIRECTORY", "FTP_PORT", "END_FTP_SETTINGS"}
    ensures Apply(st, name, value) == st
  {
  }

  predicate NotNamed(cls: seq<ConfigLine>, name: string)
  {
    forall j | 0 <= j < |cls| :: !(cls[j].OptionLine? && cls[j].name == name)
  }

  /** Lines that are not CONNECT_STRING lines keep the connection string. */
  lemma {:induction false} OtherLinesKeepConnectString(st: ParserState, cls: seq<ConfigLine>)
    requires NotNamed(cls, "CONNECT_STRING")
    ensures RunLines(st, cls).connectString == st.connectString
  {
    if cls != [] {
      var init := cls[..|cls| - 1];
      assert NotNamed(init, "CONNECT_STRING") by {
        forall j | 0 <= j < |init| ensures !(init[j].OptionLine? && init[j].name == "CONNECT_STRING") {
          assert init[j] == cls[j];
        }
      }
      OtherLinesKeepConnectString(st, init);
    }
  }

  lemma {:induction false} RunLinesConcat(st: ParserState, a: seq<ConfigLine>, b: seq<ConfigLine>)
    ensures RunLines(st, a + b) == RunLines(RunLines(st, a), b)
    decreases |b|
  {
    if b == [] {
      assert a + b == a;
    } else {
      var b' := b[..|b| - 1];
      assert (a + b)[..|a + b| - 1] == a + b';
      RunLinesConcat(st, a, b');
    }
  }

  /** The last CONNECT_STRING line wins. */
  lemma LastConnectStringWins(st: ParserState, lines: seq<string>, k: nat)
    requires k < |lines| && SplitLine(lines[k]).OptionLine? && SplitLine(lines[k]).name == "CONNECT_STRING"
    requires NotNamed(Parse(lines)[k + 1..], "CONNECT_STRING")
    ensures Run(st, lines).connectString == SplitLine(lines[k]).value
  {
    var cls := Parse(lines);
    assert cls[..k + 1] + cls[k + 1..] == cls;
    RunLinesConcat(st, cls[..k + 1], cls[k + 1..]);
    assert cls[..k + 1][..k] == cls[..k];
    OtherLinesKeepConnectString(RunLines(st, cls[..k + 1]), cls[k + 1..]);
  }

  /** The lines "NAME = value" for names and values taken pairwise. */
  function FormatLines(names: seq<string>, values: seq<string>): (lines: seq<string>)
    requires |names| == |values|
    ensures |lines| == |names|
  {
    seq(|names|, k requires 0 <= k < |names| => FormatLine(names[k], values[k]))
  }

  /** The option lines for names and values taken pairwise. */
  function OptionLines(names: seq<string>, values: seq<string>): (cls: seq<ConfigLine>)
    requires |names| == |values|
    ensures |cls| == |names|
  {
    seq(|names|, k requires 0 <= k < |names| => OptionLine(names[k], values[k]))
  }

  /** Lines written with plain names and values split back into them. */
  lemma ParseFormatLines(names: seq<string>, values: seq<string>)
    requires |names| == |values|
    requires forall k | 0 <= k < |names| :: IsPlainName(names[k]) && IsPlainValue(values[k])
    ensures Parse(FormatLines(names, values)) == OptionLines(names, values)
  {
    forall k | 0 <= k < |names|
      ensures Parse(FormatLines(names, values))[k] == OptionLines(names, values)[k]
    {
      SplitFormatLine(names[k], values[k]);
    }
  }

  lemma ParseSnoc(lines: seq<string>, line: string)
    ensures Parse(lines + [line]) == Parse(lines) + [SplitLine(line)]
  {
  }

  /** The option names of an FTP block before its closing line. */
  const FTP_BLOCK_NAMES: seq<string> :=
    ["FTP_SETTINGS_FOR", "FTP_SERVER", "FTP_USERNAME", "FTP_PASSWORD", "FTP_PORT", "FTP_DIRECTORY"]

  function FtpBlockValues(hub: string, s: FtpSetting): seq<string>
  {
    [hub, s.ftpServer, s.ftpUsername, s.ftpPassword, s.ftpPort, s.ftpDirectory]
  }

  /** The lines of one FTP block. */
  function FtpBlock(hub: string, s: FtpSetting): seq<string>
  {
    FormatLines(FTP_BLOCK_NAMES, FtpBlockValues(hub, s)) + ["END_FTP_SETTINGS"]
  }

  predicate PlainSetting(s: FtpSetting)
  {
    IsPlainValue(s.ftpServer) && IsPlainValue(s.ftpUsername) && IsPlainValue(s.ftpPassword)
    && IsPlainValue(s.ftpPort) && IsPlainValue(s.ftpDirectory)
  }

  /** The split lines of an FTP block. */
  function ParsedBlock(hub: string, s: FtpSetting): seq<ConfigLine>
  {
    [OptionLine("FTP_SETTINGS_FOR", hub),
     OptionLine("FTP_SERVER", s.ftpServer),
     OptionLine("FTP_USERNAME", s.ftpUsername),
     OptionLine("FTP_PASSWORD", s.ftpPassword),
     OptionLine("FTP_PORT", s.ftpPort),
     OptionLine("FTP_DIRECTORY", s.ftpDirectory),
     OptionLine("END_FTP_SETTINGS", "")]
  }

  lemma FtpBlockIsPlain(hub: string, s: FtpSetting)
    requires IsPlainValue(hub) && PlainSetting(s)
    ensures forall k | 0 <= k < |FTP_BLOCK_NAMES| :: IsPlainName(FTP_BLOCK_NAMES[k]) && IsPlainValue(FtpBlockValues(hub, s)[k])
  {
    forall k | 0 <= k < |FTP_BLOCK_NAMES|
      ensures IsPlainName(FTP_BLOCK_NAMES[k]) && IsPlainValue(FtpBlockValues(hub, s)[k])
    {
      FtpKeywordsArePlain();
      assert k == 0 || k == 1 || k == 2 || k == 3 || k == 4 || k == 5;
    }
  }

  /** Splitting the lines of a block written with plain values gives back the
      block's names and values. */
  lemma ParseFtpBlock(hub: string, s: FtpSetting)
    requires IsPlainValue(hub) && PlainSetting(s)
    ensures Parse(FtpBlock(hub, s)) == ParsedBlock(hub, s)
  {
    var names := FTP_BLOCK_NAMES;
    var values := FtpBlockValues(hub, s);
    FtpBlockIsPlain(hub, s);
    ParseFormatLines(names, values);
    ParseSnoc(FormatLines(names, values), "END_FTP_SETTINGS");
    SplitEndLine();
    ParsedBlockOfLines(hub, s);
  }

  lemma SplitEndLine()
    ensures SplitLine("END_FTP_SETTINGS") == OptionLine("END_FTP_SETTINGS", "")
  {
    FtpKeywordsArePlain();
    SplitBareName("END_FTP_SETTINGS");
  }

  lemma ParsedBlockOfLines(hub: string, s: FtpSetting)
    ensures OptionLines(FTP_BLOCK_NAMES, FtpBlockValues(hub, s)) + [OptionLine("END_FTP_SETTINGS", "")]
         == ParsedBlock(hub, s)
  {
  }

  /** Reading one FTP block for a new hub stores its setting under the hub's
      upper-case name, keeps the other entries and closes the block; a hub that
      already has an entry keeps it. */
  lemma FtpBlockStoresSetting(st: ParserState, hub: string, s: FtpSetting)
    requires Idle(st)
    requires IsPlainValue(hub) && hub != "" && PlainSetting(s)
    ensures Run(st, FtpBlock(hub, s)) == st.(ftpSettings := Insert(st.ftpSettings, UpperString(hub), s))
  {
    ParseFtpBlock(hub, s);
    BlockRun(st, UpperString(hub), s, hub);
  }

  /** The parser is idle outside a block: no pending hub name or setting. */
  predicate Idle(st: ParserState)
  {
    !st.processingFtpSettings && st.roamingHubName == "" && st.ftpSetting == EMPTY_FTP_SETTING
  }

  /** Outside a block the pending hub name and setting are always empty. */
  predicate PendingCleared(st: ParserState)
  {
    !st.processingFtpSettings ==> st.roamingHubName == "" && st.ftpSetting == EMPTY_FTP_SETTING
  }

  /** Every line keeps the pending state cleared outside a block. */
  lemma StepKeepsPendingCleared(st: ParserState, cl: ConfigLine)
    requires PendingCleared(st)
    ensures PendingCleared(Step(st, cl))
  {
  }

  lemma {:induction false} RunKeepsPendingCleared(st: ParserState, cls: seq<ConfigLine>)
    requires PendingCleared(st)
    ensures PendingCleared(RunLines(st, cls))
  {
    if cls != [] {
      RunKeepsPendingCleared(st, cls[..|cls| - 1]);
      StepKeepsPendingCleared(RunLines(st, cls[..|cls| - 1]), cls[|cls| - 1]);
    }
  }

  /** The FTP keys inside a block. */
  lemma ApplyInBlock(st: ParserState, v: string)
    requires st.processingFtpSettings
    ensures Apply(st, "FTP_SERVER", v) == st.(ftpSetting := st.ftpSetting.(ftpServer := v))
    ensures Apply(st, "FTP_USERNAME", v) == st.(ftpSetting := st.ftpSetting.(ftpUsername := v))
    ensures Apply(st, "FTP_PASSWORD", v) == st.(ftpSetting := st.ftpSetting.(ftpPassword := v))
    ensures Apply(st, "FTP_PORT", v) == st.(ftpSetting := st.ftpSetting.(ftpPort := v))
    ensures Apply(st, "FTP_DIRECTORY", v) == st.(ftpSetting := st.ftpSetting.(ftpDirectory := v))
    ensures Apply(st, "END_FTP_SETTINGS", v)
         == st.(ftpSettings := Insert(st.ftpSettings, st.roamingHubName, st.ftpSetting),
                processingFtpSettings := false, roamingHubName := "", ftpSetting := EMPTY_FTP_SETTING)
  {
  }

  /** The opening line of a block read while idle names the hub. */
  lemma BlockOpenRun(st: ParserState, hub: string, s: FtpSetting, value: string)
    requires Idle(st) && hub != "" && UpperString(value) == hub
    ensures RunLines(st, ParsedBlock(value, s)[..1]) == st.(roamingHubName := hub, processingFtpSettings := true)
  {
    assert ParsedBlock(value, s)[..1][..0] == [];
  }

  /** The opening line, server and user name of a block read while idle. */
  lemma BlockHeadRun(st: ParserState, hub: string, s: FtpSetting, value: string)
    requires Idle(st) && hub != "" && UpperString(value) == hub
    ensures RunLines(st, ParsedBlock(value, s)[..3])
         == st.(roamingHubName := hub, processingFtpSettings := true,
                ftpSetting := EMPTY_FTP_SETTING.(ftpServer := s.ftpServer, ftpUsername := s.ftpUsername))
  {
    var cls := ParsedBlock(value, s);
    var open := st.(roamingHubName := hub, processingFtpSettings := true);
    BlockOpenRun(st, hub, s, value);
    ApplyInBlock(open, s.ftpServer);
    var s1 := open.(ftpSetting := open.ftpSetting.(ftpServer := s.ftpServer));
    assert RunLines(st, cls[..2]) == s1 by { assert cls[..2][..1] == cls[..1]; }
    ApplyInBlock(s1, s.ftpUsername);
    assert cls[..3][..2] == cls[..2];
  }

  /** An FTP block read while idle acts on the state as one insertion. */
  lemma BlockRun(st: ParserState, hub: string, s: FtpSetting, value: string)
    requires Idle(st) && hub != "" && UpperString(value) == hub
    ensures RunLines(st, ParsedBlock(value, s)) == st.(ftpSettings := Insert(st.ftpSettings, hub, s))
  {
    var cls := ParsedBlock(value, s);
    BlockHeadRun(st, hub, s, value);
    var s2 := st.(roamingHubName := hub, processingFtpSettings := true,
                  ftpSetting := EMPTY_FTP_SETTING.(ftpServer := s.ftpServer, ftpUsername := s.ftpUsername));
    ApplyInBlock(s2, s.ftpPassword);
    var s3 := s2.(ftpSetting := s2.ftpSetting.(ftpPassword := s.ftpPassword));
    assert RunLines(st, cls[..4]) == s3 by { assert cls[..4][..3] == cls[..3]; }
    ApplyInBlock(s3, s.ftpPort);
    var s4 := s3.(ftpSetting := s3.ftpSetting.(ftpPort := s.ftpPort));
    assert RunLines(st, cls[..5]) == s4 by { assert cls[..5][..4] == cls[..4]; }
    ApplyInBlock(s4, s.ftpDirectory);
    var s5 := s4.(ftpSetting := s4.ftpSetting.(ftpDirectory := s.ftpDirectory));
    assert RunLines(st, cls[..6]) == s5 by { assert cls[..6][..5] == cls[..5]; }
    assert s5.ftpSetting == s;
    ApplyInBlock(s5, "");
    assert cls[..7] == cls && cls[..7][..6] == cls[..6];
  }

  lemma PlainUpperName(name: string)
    requires |name| > 0
    requires forall k | 0 <= k < |name| :: 'A' <= name[k] <= 'Z' || name[k] == '_'
    ensures IsPlainName(name)
  {
    assert UpperString(name) == name;
  }

  lemma FtpKeywordsArePlain()
    ensures IsPlainName("FTP_SETTINGS_FOR") && IsPlainName("FTP_SERVER") && IsPlainName("FTP_USERNAME")
    ensures IsPlainName("FTP_PASSWORD") && IsPlainName("FTP_PORT") && IsPlainName("FTP_DIRECTORY")
    ensures IsPlainName("END_FTP_SETTINGS")
  {
    PlainUpperName("FTP_SETTINGS_FOR");
    PlainUpperName("FTP_SERVER");
    PlainUpperName("FTP_USERNAME");
    PlainUpperName("FTP_PASSWORD");
    PlainUpperName("FTP_PORT");
    PlainUpperName("FTP_DIRECTORY");
    PlainUpperName("END_FTP_SETTINGS");
  }

  /** The setting for a hub: its own entry (by upper-case name), else the
      OTHERS entry, else an all-empty setting. */
  function FtpSettingFor(m: map<string, FtpSetting>, roamingHub: string): (r: FtpSetting)
    ensures UpperString(roamingHub) in m ==> r == m[UpperString(roamingHub)]
    ensures UpperString(roamingHub) !in m && OTHERS in m ==> r == m[OTHERS]
    ensures UpperString(roamingHub) !in m && OTHERS !in m ==> r == EMPTY_FTP_SETTING
  {
    var key := UpperString(roamingHub);
    if key in m then m[key] else if OTHERS in m then m[OTHERS] else EMPTY_FTP_SETTING
  }

  /** After reading a block for a hub that had no entry, looking the hub up in
      any letter case gives the block's setting. */
  lemma FtpBlockLookup(st: ParserState, hub: string, s: FtpSetting, query: string)
    requires Idle(st)
    requires IsPlainValue(hub) && hub != "" && PlainSetting(s)
    requires UpperString(hub) !in st.ftpSettings
    requires UpperString(query) == UpperString(hub)
    ensures FtpSettingFor(Run(st, FtpBlock(hub, s)).ftpSettings, query) == s
  {
    FtpBlockStoresSetting(st, hub, s);
  }

  // ---------------------------------------------------------------------------
  // The configuration object

  class Config {
    var connectString: string
    var outputDirectory: string
    var ftpSettings: map<string, FtpSetting>

    constructor()
      ensures connectString == "" && outputDirectory == "" && ftpSettings == map[]
    {
      connectString := "";
      outputDirectory := "";
      ftpSettings := map[];
    }

    /** Reads the lines of a configuration file into the stored options. */
    method ReadConfigFile(lines: seq<string>)
      modifies this
      ensures var r := Run(Start(old(connectString), old(outputDirectory), old(ftpSettings)), lines);
        connectString == r.connectString && outputDirectory == r.outputDirectory && ftpSettings == r.ftpSettings
    {
      ghost var start := Start(connectString, outputDirectory, ftpSettings);
      var processingFtpSettings := false;
      var roamingHubName := "";
      var ftpSetting := EMPTY_FTP_SETTING;
      var i := 0;
      while i < |lines|
        invariant 0 <= i <= |lines|
        invariant Run(start, lines[..i])
          == ParserState(connectString, outputDirectory, ftpSettings, processingFtpSettings, roamingHubName, ftpSetting)
      {
        RunStep(start, lines, i);
        var line := lines[i];
        i := i + 1;
        var parsed := SplitLine(line);
        if parsed.Comment? {
          continue;
        }
        var name, value := parsed.name, parsed.value;
        if name == "CONNECT_STRING" {
          connectString := value;
        } else if name == "OUTPUT_DIRECTORY" {
          outputDirectory := StripTrailingSeparator(value);
        } else if name == "FTP_SETTINGS_FOR" {
          roamingHubName := UpperString(value);
          if roamingHubName != "" {
            processingFtpSettings := true;
          }
        } else if processingFtpSettings {
          if name == "FTP_SERVER" {
            ftpSetting := ftpSetting.(ftpServer := value);
          } else if name == "FTP_USERNAME" {
            ftpSetting := ftpSetting.(ftpUsername := value);
          } else if name == "FTP_PASSWORD" {
            ftpSetting := ftpSetting.(ftpPassword := value);
          } else if name == "FTP_DIRECTORY" {
            ftpSetting := ftpSetting.(ftpDirectory := value);
          } else if name == "FTP_PORT" {
            ftpSetting := ftpSetting.(ftpPort := value);
          } else if name == "END_FTP_SETTINGS" {
            if roamingHubName !in ftpSettings {
              ftpSettings := ftpSettings[roamingHubName := ftpSetting];
            }
            processingFtpSettings := false;
            roamingHubName := "";
            ftpSetting := EMPTY_FTP_SETTING;
          }
        }
      }
      assert lines[..i] == lines;
    }

    function GetConnectString(): (r: string)
      reads this
      ensures r == connectString
    {
      connectString
    }

    function GetOutputDirectory(): (r: string)
      reads this
      ensures r == outputDirectory
    {
      outputDirectory
    }

    function GetFTPSetting(roamingHub: string): (r: FtpSetting)
      reads this
      ensures UpperString(roamingHub) in ftpSettings ==> r == ftpSettings[UpperString(roamingHub)]
      ensures UpperString(roamingHub) !in ftpSettings && OTHERS in ftpSettings ==> r == ftpSettings[OTHERS]
      ensures UpperString(roamingHub) !in ftpSettings && OTHERS !in ftpSettings ==> r == EMPTY_FTP_SETTING
    {
      FtpSettingFor(ftpSettings, roamingHub)
    }
  }
}
