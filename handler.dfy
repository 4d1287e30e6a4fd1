/**
 * `ALTENFirebaseLogHandler`: a swift-log handler that keeps its own metadata
 * with a cached rendering, and sends every log call to Crashlytics and a
 * short notice to a text stream. The clock, the stream and the Crashlytics
 * client are outside the model: the timestamp is a parameter of `Log`, the
 * stream and the client are objects that record what was written to them,
 * and the level colour tags (from ALTENLoggerCore) are a function given to
 * the constructor.
 */
module FirebaseLogHandler {
  import opened Wrappers
  import opened Metadata
  import opened LogLine

  /** A `TextOutputStream`: the strings written to it, in order. */
  class TextStream {
    var written: seq<string>

    constructor ()
      ensures written == []
    {
      written := [];
    }

    method Write(text: string)
      modifies this
      ensures written == old(written) + [text]
    {
      written := written + [text];
    }
  }

  /** The Crashlytics client: the lines logged to it, in order. */
  class Crashlytics {
    var lines: seq<string>

    constructor ()
      ensures lines == []
    {
      lines := [];
    }

    method Log(line: string)
      modifies this
      ensures lines == old(lines) + [line]
    {
      lines := lines + [line];
    }
  }

  class LogHandler {
    const stream: TextStream
    const name: string
    const crashlytics: Crashlytics
    /** `Logger.Level.color`, the colour tag of each level. */
    const color: Level -> string

    var logLevel: Level
    var prettyMetadata: Option<string>
    var metadata: Map

    /** The cache is the rendering of the current metadata. */
    ghost predicate Valid()
      reads this
    {
      prettyMetadata == Prettify(metadata)
    }

    /** A handler starts at level `info` with no metadata and no cached text. */
    constructor (name: string, stream: TextStream, crashlytics: Crashlytics, color: Level -> string)
      ensures Valid()
      ensures this.name == name && this.stream == stream
      ensures this.crashlytics == crashlytics && this.color == color
      ensures logLevel == Info && metadata == map[] && prettyMetadata == None
    {
      this.name := name;
      this.stream := stream;
      this.crashlytics := crashlytics;
      this.color := color;
      logLevel := Info;
      metadata := map[];
      prettyMetadata := None;
    }

    /** Assigning the metadata; the observer re-renders the cache. */
    method SetMetadata(m: Map)
      modifies this`metadata, this`prettyMetadata
      ensures metadata == m
      ensures Valid()
    {
      metadata := m;
      prettyMetadata := Prettify(metadata);
    }

    /** Reading `handler[metadataKey: key]`. */
    function MetadataValue(key: string): (value: Option<string>)
      reads this
      ensures value.Some? <==> key in metadata
      ensures value.Some? ==> value.value == metadata[key]
    {
      if key in metadata then Some(metadata[key]) else None
    }

    /** Writing `handler[metadataKey: key] = value`: a value sets the key, `nil`
        removes it; every other key keeps its value, and the metadata setter's
        observer re-renders the cache. */
    method SetMetadataValue(key: string, value: Option<string>)
      modifies this`metadata, this`prettyMetadata
      ensures Valid()
      ensures MetadataValue(key) == value
      ensures forall k :: k != key ==> MetadataValue(k) == old(MetadataValue(k))
      ensures metadata == if value.Some? then old(metadata)[key := value.value] else old(metadata) - {key}
    {
      var m := if value.Some? then metadata[key := value.value] else metadata - {key};
      SetMetadata(m);
    }

    /** Sets the level; the metadata and its cache are untouched. */
    method SetLogLevel(level: Level)
      requires Valid()
      modifies this`logLevel
      ensures Valid()
      ensures logLevel == level
    {
      logLevel := level;
    }

    /** One log call: a notice on the stream and the full line to Crashlytics,
        whatever the handler's `logLevel`; the handler itself is left as it
        was. The metadata text is the cached one when the call brings no
        metadata, and otherwise the rendering of the merge; because the cache
        is kept up to date, it is in both cases the rendering of the handler's
        metadata merged with the call's. */
    method Log(level: Level, message: string, perCall: Option<Map>, source: string,
               file: string, functionName: string, line: nat, timestamp: string)
      requires Valid()
      modifies stream, crashlytics
      ensures stream.written == old(stream.written) + [ConsoleLine(color(level))]
      ensures crashlytics.lines == old(crashlytics.lines)
        + [CrashlyticsLine(timestamp, level, name, file, functionName, line, message,
                           ChooseMetadata(prettyMetadata, metadata, perCall))]
      ensures crashlytics.lines == old(crashlytics.lines)
        + [CrashlyticsLine(timestamp, level, name, file, functionName, line, message,
                           Prettify(Merge(metadata, perCall.GetOr(map[]))))]
    {
      var pretty := ChooseMetadata(prettyMetadata, metadata, perCall);
      stream.Write(ConsoleLine(color(level)));
      crashlytics.Log(CrashlyticsLine(timestamp, level, name, file, functionName, line, message, pretty));
      ChosenMetadataIsMerged(prettyMetadata, metadata, perCall);
    }
  }

  /** A client: a handler labelled `svc` given metadata `a: "1"`, `b: "2"`
      through its subscript, for keys `a` before `b`, logs `a: "1" b: "9"` for
      a call carrying `b: "9"`, and reports the call although its level is
      below the handler's. Returns what reached Crashlytics and the stream. */
  method Session(timestamp: string, color: Level -> string, file: string, a: string, b: string)
      returns (lines: seq<string>, notices: seq<string>)
    requires StringOrder.Less(a, b)
    ensures lines == [CrashlyticsLine(timestamp, Trace, "svc", file, "run", 7, "hi",
                                      Some(Entry(a, "1") + " " + Entry(b, "9")))]
    ensures notices == [ConsoleLine(color(Trace))]
  {
    var stream := new TextStream();
    var crashlytics := new Crashlytics();
    var handler := new LogHandler("svc", stream, crashlytics, color);
    handler.SetMetadataValue(a, Some("1"));
    handler.SetMetadataValue(b, Some("2"));
    StringOrder.LessIrreflexive(a);
    assert handler.metadata == map[a := "1", b := "2"];
    handler.SetLogLevel(Critical);
    LogAfterSetup(handler, timestamp, file, a, b);
    lines := crashlytics.lines;
    notices := stream.written;
  }

  /** The logging half of Session, on the handler it has set up: a `trace`
      call carrying `b: "9"` sends one line with the merged metadata and one
      notice, and leaves the handler as it was. */
  method LogAfterSetup(handler: LogHandler, timestamp: string, file: string, a: string, b: string)
    requires StringOrder.Less(a, b)
    requires handler.Valid() && handler.metadata == map[a := "1", b := "2"]
    requires handler.stream.written == [] && handler.crashlytics.lines == []
    modifies handler.stream, handler.crashlytics
    ensures handler.crashlytics.lines
         == [CrashlyticsLine(timestamp, Trace, handler.name, file, "run", 7, "hi",
                             Some(Entry(a, "1") + " " + Entry(b, "9")))]
    ensures handler.stream.written == [ConsoleLine(handler.color(Trace))]
    ensures handler.Valid() && handler.metadata == map[a := "1", b := "2"]
    ensures handler.logLevel == old(handler.logLevel)
  {
    handler.Log(Trace, "hi", Some(map[b := "9"]), "app", file, "run", 7, timestamp);
    MergeOverTwoKeys(a, "1", "2", b, "9");
  }
}
