/**
 * The text a log call produces: the choice of the metadata suffix, the line
 * sent to Crashlytics and the line written to the handler's stream.
 */
module LogLine {
  import opened Wrappers
  import opened Strings
  import opened Metadata
  import opened FilePath

  /** swift-log's `Logger.Level`, from least to most severe. */
  datatype Level = Trace | Debug | Info | Notice | Warning | Error | Critical

  /** `Logger.Level.rawValue`. */
  function RawValue(level: Level): string {
    match level
    case Trace => "trace"
    case Debug => "debug"
    case Info => "info"
    case Notice => "notice"
    case Warning => "warning"
    case Error => "error"
    case Critical => "critical"
  }

  /** The level as shown in a line: `level.rawValue.uppercased()`. */
  function LevelName(level: Level): string {
    Upper(RawValue(level))
  }

  /** The metadata text of one call: the cached rendering of the handler's
      metadata when the call brings none (absent or empty), otherwise a fresh
      rendering of the handler's metadata merged with the call's. */
  function ChooseMetadata(cached: Option<string>, defaults: Map, perCall: Option<Map>): Option<string> {
    if perCall.None? || |perCall.value| == 0 then cached
    else Prettify(Merge(defaults, perCall.value))
  }

  /** ` - [text]` when there is metadata text, nothing otherwise. */
  function MetadataSuffix(pretty: Option<string>): string {
    match pretty
    case Some(text) => " - [" + text + "]"
    case None => ""
  }

  /** The separator between the file label, the function and the line number:
      a space, U+279D (a triangle-headed rightwards arrow) and a space. */
  const Arrow: string := " \U{279D} "

  /** The line handed to Crashlytics: the timestamp, its body, the metadata
      suffix and a newline. */
  function CrashlyticsLine(timestamp: string, level: Level, handlerLabel: string, file: string,
                           functionName: string, line: nat, message: string, pretty: Option<string>): string
  {
    timestamp + LineBody(level, handlerLabel, file, functionName, line, message) + MetadataSuffix(pretty) + "\n"
  }

  /** Everything of a line after the timestamp up to and including the message. */
  function LineBody(level: Level, handlerLabel: string, file: string,
                    functionName: string, line: nat, message: string): string
  {
    " [" + LevelName(level) + " " + handlerLabel + "] ["
      + ShortFile(file) + Arrow + functionName + Arrow + NatToString(line) + "] : " + message
  }

  /** The line written to the handler's stream, after the level's colour tag. */
  function ConsoleLine(color: string): string {
    color + " Send to Crashlytics\n"
  }

  /** When the cache holds the rendering of the handler's metadata, the chosen
      text is the rendering of the handler's metadata merged with the call's
      (none counting as empty): the cache never changes what is logged. */
  lemma ChosenMetadataIsMerged(cached: Option<string>, defaults: Map, perCall: Option<Map>)
    requires cached == Prettify(defaults)
    ensures ChooseMetadata(cached, defaults, perCall) == Prettify(Merge(defaults, perCall.GetOr(map[])))
  {
    if perCall.None? || |perCall.value| == 0 {
      assert Merge(defaults, perCall.GetOr(map[])) == defaults;
    }
  }

  /** Under the same condition, a line has no metadata suffix exactly when
      neither the handler nor the call has metadata. */
  lemma NoSuffixIffNoMetadata(cached: Option<string>, defaults: Map, perCall: Option<Map>)
    requires cached == Prettify(defaults)
    ensures ChooseMetadata(cached, defaults, perCall).None?
        <==> |defaults| == 0 && (perCall.None? || |perCall.value| == 0)
    ensures MetadataSuffix(ChooseMetadata(cached, defaults, perCall)) == ""
        <==> |defaults| == 0 && (perCall.None? || |perCall.value| == 0)
  {
    ChosenMetadataIsMerged(cached, defaults, perCall);
    var merged := Merge(defaults, perCall.GetOr(map[]));
    if |merged| == 0 {
      assert defaults.Keys == {} && perCall.GetOr(map[]).Keys == {};
    } else {
      var k :| k in merged;
    }
  }

  /** Every line starts with the timestamp and ends in a newline. */
  lemma LineFrame(timestamp: string, level: Level, handlerLabel: string, file: string,
                  functionName: string, line: nat, message: string, pretty: Option<string>)
    ensures
      var s := CrashlyticsLine(timestamp, level, handlerLabel, file, functionName, line, message, pretty);
      && |s| > |timestamp|
      && s[..|timestamp|] == timestamp
      && s[|s| - 1] == '\n'
  {
    var body := LineBody(level, handlerLabel, file, functionName, line, message);
    LineEnds(timestamp, body, MetadataSuffix(pretty), "\n");
  }

  /** A line with metadata text is the line without it, with ` - [text]`
      inserted before the final newline. */
  lemma LineSuffix(timestamp: string, level: Level, handlerLabel: string, file: string,
                   functionName: string, line: nat, message: string, text: string)
    ensures
      var bare := CrashlyticsLine(timestamp, level, handlerLabel, file, functionName, line, message, None);
      && |bare| > 0
      && CrashlyticsLine(timestamp, level, handlerLabel, file, functionName, line, message, Some(text))
         == bare[..|bare| - 1] + (" - [" + text + "]") + "\n"
  {
    var head := timestamp + LineBody(level, handlerLabel, file, functionName, line, message);
    InsertBeforeLast(head, MetadataSuffix(None), MetadataSuffix(Some(text)), "\n");
  }

  /** `start + body + rest + last`, with `last` one character long, starts
      with `start` and ends in that character. */
  lemma LineEnds(start: string, body: string, rest: string, last: string)
    requires |last| == 1
    ensures
      var s := start + body + rest + last;
      |s| > |start| && s[..|start|] == start && s[|s| - 1] == last[0]
  {
    var s := start + body + rest + last;
    assert s == start + (body + rest + last);
  }

  /** Putting `suffix` between `head` and a one-character `last` is the same
      as putting it before the last character of `head + last`. */
  lemma InsertBeforeLast(head: string, empty: string, suffix: string, last: string)
    requires |empty| == 0 && |last| == 1
    ensures
      var bare := head + empty + last;
      |bare| > 0 && head + suffix + last == bare[..|bare| - 1] + suffix + last
  {
    var bare := head + empty + last;
    assert bare[..|bare| - 1] == head;
  }

  lemma LevelNames()
    ensures LevelName(Trace) == "TRACE" && LevelName(Debug) == "DEBUG"
    ensures LevelName(Info) == "INFO" && LevelName(Notice) == "NOTICE"
    ensures LevelName(Warning) == "WARNING" && LevelName(Error) == "ERROR"
    ensures LevelName(Critical) == "CRITICAL"
  {
  }

  /** An `error` "boom" from `run` at line 42 of `/a/b/C.ext`, on a handler
      labelled `svc` without metadata: `<timestamp> [ERROR svc] [C.ext ➝ run
      ➝ 42] : boom` and a newline, with no metadata suffix. */
  lemma EndToEndExample(timestamp: string)
    ensures CrashlyticsLine(timestamp, Error, "svc", "/a/b/C.ext", "run", 42, "boom",
                            ChooseMetadata(Prettify(map[]), map[], None))
         == timestamp
            + (" [" + "ERROR" + " " + "svc" + "] [" + "C.ext" + Arrow + "run" + Arrow + "42" + "] : " + "boom")
            + "\n"
  {
    assert ChooseMetadata(Prettify(map[]), map[], None) == None;
    assert ShortFile("/a/b/C.ext") == "C.ext" by {
      ShortFileExamples();
    }
    assert LevelName(Error) == "ERROR" by {
      LevelNames();
    }
    assert NatToString(42) == "42";
  }
}
