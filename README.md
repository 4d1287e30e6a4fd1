# ALTENFirebaseLogHandler in Dafny

This project models `ALTENFirebaseLogHandler`, the swift-log handler that
formats each log call into one line and forwards it to Firebase Crashlytics.
The model covers:

- the handler's own state: its label, its `logLevel` and its `metadata` map;
- the cached rendering `prettyMetadata`, which the `didSet` observer keeps in
  step with the map;
- the metadata subscript;
- `prettify`, which renders a map as its sorted `key: "value"` entries;
- `log`, which picks the metadata text, cuts the caller's file path down to
  its last segment, builds the Crashlytics line, and writes one notice to the
  handler's text stream.

Modules, one per concern:

- `Wrappers` (`wrappers.dfy`): `Option`, standing for Swift's optionals.
- `Strings` (`strings.dfy`): `Join` (`joined(separator:)`), ASCII `Upper`
  (`uppercased()`) and the decimal text of the line number, with its
  read-back.
- `StringOrder` (`order.dfy`): the order keys are sorted by, proved to be a
  strict total order. Also `SortedKeys`, the one strictly ascending
  enumeration of a key set.
- `Metadata` (`metadata.dfy`): `Prettify` and `Merge` (`merging`, where the
  new value wins), with their lemmas.
- `FilePath` (`path.dfy`): `ShortFile`, the model of
  `file.split(separator: "/").last ?? file`, splitting at the character `/`
  (see "Left out" for grapheme clusters). It is characterised as the last
  maximal run of characters other than `/`. Joining the pieces, empty ones
  included, with `/` gives back the path.
- `LogLine` (`logline.dfy`): levels, the metadata choice, the Crashlytics
  line and the stream notice.
- `FirebaseLogHandler` (`handler.dfy`): the handler as a class.
  - `Valid()` says the cache equals `Prettify(metadata)`.
  - The constructor establishes it, and every metadata write re-establishes it.
  - `Log` appends exactly one line to each sink and changes nothing in the
    handler.
  - `TextStream` and `Crashlytics` are the two sinks, each recording what was
    written to it.
  - `Session` is a small client of these contracts.

Inputs taken as parameters:

- The clock: `Log` takes the timestamp as a string.
- The level colour tags from ALTENLoggerCore: the constructor takes them as a
  function from level to string.

## Model

| member | source | states |
|---|---|---|
| `StringOrder.Less` | Sources/ALTENLoggerFirebase/ALTENFirebaseLogHandler.swift:72 | the key comparison `$0.key < $1.key`, lexicographic by character (no ensures; `LessIrreflexive`, `LessTransitive` and `LessTotal` show it is a strict total order) |
| `StringOrder.LessIrreflexive` | Sources/ALTENLoggerFirebase/ALTENFirebaseLogHandler.swift:72 | no key sorts before itself |
| `StringOrder.LessTransitive` | Sources/ALTENLoggerFirebase/ALTENFirebaseLogHandler.swift:72 | the key order is transitive |
| `StringOrder.LessTotal` | Sources/ALTENLoggerFirebase/ALTENFirebaseLogHandler.swift:72 | of two distinct keys one sorts before the other, so the sort is deterministic |
| `StringOrder.LeastExists` | Sources/ALTENLoggerFirebase/ALTENFirebaseLogHandler.swift:72 | every non-empty key set has a least key |
| `StringOrder.Least` | Sources/ALTENLoggerFirebase/ALTENFirebaseLogHandler.swift:72 | returns the least key of a non-empty set |
| `StringOrder.SortedKeys` | Sources/ALTENLoggerFirebase/ALTENFirebaseLogHandler.swift:72 | lists each key of the set exactly once (same elements, same count), in strictly ascending order |
| `StringOrder.AscendingUnique` | Sources/ALTENLoggerFirebase/ALTENFirebaseLogHandler.swift:72 | two strictly ascending sequences with the same elements are equal |
| `StringOrder.SortedKeysCharacterised` | Sources/ALTENLoggerFirebase/ALTENFirebaseLogHandler.swift:72 | any strictly ascending enumeration of a key set is the sorted key list |
| `StringOrder.SortedEnds` | Sources/ALTENLoggerFirebase/ALTENFirebaseLogHandler.swift:72 | a strictly ascending enumeration of a key set starts with its least key and ends with its greatest |
| `Strings.Join` | Sources/ALTENLoggerFirebase/ALTENFirebaseLogHandler.swift:72 | `joined(separator:)`: the parts with the separator between neighbours (no ensures; described by `JoinAppend` and `JoinEnds`) |
| `Strings.JoinAppend` | Sources/ALTENLoggerFirebase/ALTENFirebaseLogHandler.swift:72 | one more part adds exactly one separator and that part at the end |
| `Strings.JoinEnds` | Sources/ALTENLoggerFirebase/ALTENFirebaseLogHandler.swift:72 | a join starts with the first part and ends with the last: no leading or trailing separator |
| `Metadata.Entry` | Sources/ALTENLoggerFirebase/ALTENFirebaseLogHandler.swift:72 | one `key: "value"` entry, the value in double quotes (no ensures; used by `PrettifyFormat`, `TwoKeyFormat` and `MergeExample`) |
| `Metadata.Prettify` | Sources/ALTENLoggerFirebase/ALTENFirebaseLogHandler.swift:70-74 | returns none exactly when the map is empty |
| `Metadata.PrettifyFormat` | Sources/ALTENLoggerFirebase/ALTENFirebaseLogHandler.swift:70-74 | for a non-empty map, the text is the join with single spaces of one `key: "value"` entry per key, in any strictly ascending order of the keys, which has one element per key |
| `Metadata.PrettifyEnds` | Sources/ALTENLoggerFirebase/ALTENFirebaseLogHandler.swift:72 | the text of a non-empty map begins with the entry of its least key and ends with the entry of its greatest key |
| `Metadata.TwoKeyFormat` | Sources/ALTENLoggerFirebase/ALTENFirebaseLogHandler.swift:72 | a two-key map renders as the smaller key's entry, a space, then the larger key's entry |
| `Metadata.Merge` | Sources/ALTENLoggerFirebase/ALTENFirebaseLogHandler.swift:63 | the merged keys are the union of both maps; the per-call value wins on a clash, and the handler's value is kept otherwise |
| `Metadata.MergeExample` | Sources/ALTENLoggerFirebase/ALTENFirebaseLogHandler.swift:61-63 | handler `a: "1"`, `b: "2"` merged with per-call `b: "9"` renders as `a: "1" b: "9"` |
| `FilePath.Pieces` | Sources/ALTENLoggerFirebase/ALTENFirebaseLogHandler.swift:67 | splitting on `/` always yields at least one piece |
| `FilePath.PiecesJoin` | Sources/ALTENLoggerFirebase/ALTENFirebaseLogHandler.swift:67 | joining the pieces with `/` gives back the path |
| `FilePath.PiecesHaveNoSlash` | Sources/ALTENLoggerFirebase/ALTENFirebaseLogHandler.swift:67 | no piece contains `/` |
| `FilePath.NoSegmentsIffAllSlashes` | Sources/ALTENLoggerFirebase/ALTENFirebaseLogHandler.swift:67 | the path has no non-empty segment exactly when it is all slashes (the empty path included) |
| `FilePath.Segments` | Sources/ALTENLoggerFirebase/ALTENFirebaseLogHandler.swift:67 | `file.split(separator: "/")`: the non-empty pieces, in order (no ensures; only its last element is used, and `ShortFileIsLastRun` and `LastRunIsShortFile` pin that down; `NoSegmentsIffAllSlashes` says when it is empty) |
| `FilePath.ShortFile` | Sources/ALTENLoggerFirebase/ALTENFirebaseLogHandler.swift:67 | `split(...).last ?? file`: the last segment, or the path when there is none (no ensures; characterised by `ShortFileAllSlashes`, `ShortFileIsLastRun` and `LastRunIsShortFile`) |
| `FilePath.ShortFileAllSlashes` | Sources/ALTENLoggerFirebase/ALTENFirebaseLogHandler.swift:67 | with no non-empty segment (`""`, `"///"`), the label is the path unchanged |
| `FilePath.ShortFileWithoutSlash` | Sources/ALTENLoggerFirebase/ALTENFirebaseLogHandler.swift:67 | a path without `/` is its own label |
| `FilePath.ShortFileIsLastRun` | Sources/ALTENLoggerFirebase/ALTENFirebaseLogHandler.swift:67 | otherwise the label is non-empty, has no `/`, is followed only by slashes, and is preceded by nothing or by `/` |
| `FilePath.LastRunIsShortFile` | Sources/ALTENLoggerFirebase/ALTENFirebaseLogHandler.swift:67 | conversely, a run placed like that is the label; with the lemma above this pins the label down |
| `FilePath.ShortFileExamples` | Sources/ALTENLoggerFirebase/ALTENFirebaseLogHandler.swift:67 | `/usr/src/app/Foo.ext` gives `Foo.ext`, `/a/b/C.ext` gives `C.ext`, `Foo.ext` gives itself, and `""` and `"///"` give themselves |
| `Strings.Upper` | Sources/ALTENLoggerFirebase/ALTENFirebaseLogHandler.swift:67 | each character is upper-cased in place, and no lower-case ASCII letter remains |
| `Strings.NatToString` | Sources/ALTENLoggerFirebase/ALTENFirebaseLogHandler.swift:67 | `\(line)`: the decimal text of the line number (no ensures; characterised by `NatToStringRoundTrip`) |
| `Strings.NatToStringRoundTrip` | Sources/ALTENLoggerFirebase/ALTENFirebaseLogHandler.swift:67 | the line number's text is non-empty digits, starts with `0` exactly for zero, is one digit long exactly below ten, and reads back as the number; together these leave only the usual decimal text |
| `LogLine.RawValue` | Sources/ALTENLoggerFirebase/ALTENFirebaseLogHandler.swift:67 | swift-log's `rawValue` of each level, in lower case (no ensures; values fixed by `LevelNames`) |
| `LogLine.LevelName` | Sources/ALTENLoggerFirebase/ALTENFirebaseLogHandler.swift:67 | `level.rawValue.uppercased()` (no ensures; values fixed by `LevelNames`) |
| `LogLine.LevelNames` | Sources/ALTENLoggerFirebase/ALTENFirebaseLogHandler.swift:67 | the upper-cased raw values are `TRACE` … `CRITICAL` |
| `LogLine.ChooseMetadata` | Sources/ALTENLoggerFirebase/ALTENFirebaseLogHandler.swift:61-63 | the cache when the call has no metadata or an empty map, otherwise the rendering of the merged maps (no ensures; `ChosenMetadataIsMerged` gives its value whenever the cache is current, and `NoSuffixIffNoMetadata` says when it is none) |
| `LogLine.ChosenMetadataIsMerged` | Sources/ALTENLoggerFirebase/ALTENFirebaseLogHandler.swift:61-63 | with the cache up to date, the chosen text (cache when the call has no metadata, otherwise a fresh render) is the rendering of the handler's metadata merged with the call's |
| `LogLine.MetadataSuffix` | Sources/ALTENLoggerFirebase/ALTENFirebaseLogHandler.swift:67 | `prettyMetadata.map { " - [\($0)]" } ?? ""` (no ensures; used by `NoSuffixIffNoMetadata` and `LineSuffix`, the definition itself being the statement of that expression) |
| `LogLine.NoSuffixIffNoMetadata` | Sources/ALTENLoggerFirebase/ALTENFirebaseLogHandler.swift:61-67 | with the cache current, the chosen metadata text is none, and so the line's ` - [...]` suffix is empty, exactly when neither the handler nor the call has metadata |
| `LogLine.LineBody` | Sources/ALTENLoggerFirebase/ALTENFirebaseLogHandler.swift:67 | the part of the Crashlytics line after the timestamp up to the message: `[LEVEL label] [file ➝ function ➝ line] : message` (no ensures; fixed for an example by `EndToEndExample`) |
| `LogLine.CrashlyticsLine` | Sources/ALTENLoggerFirebase/ALTENFirebaseLogHandler.swift:67 | the whole Crashlytics line: timestamp, body, metadata suffix, newline (no ensures; the definition itself is the statement of line 67, used by `LineFrame`, `LineSuffix`, `EndToEndExample` and `LogHandler.Log`) |
| `LogLine.ConsoleLine` | Sources/ALTENLoggerFirebase/ALTENFirebaseLogHandler.swift:66 | the stream notice: the colour tag, ` Send to Crashlytics` and a newline (no ensures; used in `LogHandler.Log`) |
| `LogLine.LineFrame` | Sources/ALTENLoggerFirebase/ALTENFirebaseLogHandler.swift:67 | every line, with or without metadata, starts with the timestamp and ends in a newline |
| `LogLine.LineSuffix` | Sources/ALTENLoggerFirebase/ALTENFirebaseLogHandler.swift:67 | with metadata text, the line is the line without metadata with ` - [text]` put before the final newline |
| `LogLine.EndToEndExample` | Sources/ALTENLoggerFirebase/ALTENFirebaseLogHandler.swift:54-67 | `error` "boom" from `run`, line 42 of `/a/b/C.ext`, handler `svc` without metadata, gives `<timestamp> [ERROR svc] [C.ext ➝ run ➝ 42] : boom` and a newline |
| `FirebaseLogHandler.TextStream.Write` | Sources/ALTENLoggerFirebase/ALTENFirebaseLogHandler.swift:65-66 | a write appends its text to the stream |
| `FirebaseLogHandler.Crashlytics.Log` | Sources/ALTENLoggerFirebase/ALTENFirebaseLogHandler.swift:67 | a Crashlytics log appends its line |
| `FirebaseLogHandler.LogHandler.Valid` | Sources/ALTENLoggerFirebase/ALTENFirebaseLogHandler.swift:31-36 | the invariant `didSet` keeps: the cached text is the rendering of the current metadata (a predicate; established by the constructor and ensured by every mutator; `SetLogLevel` and `Log` require it) |
| `FirebaseLogHandler.LogHandler.constructor` | Sources/ALTENLoggerFirebase/ALTENFirebaseLogHandler.swift:48-52 | the `init` stores the label, stream and Crashlytics; with the field defaults of lines 29-36 a new handler has level `info`, empty metadata and no cached text, so the cache invariant holds |
| `FirebaseLogHandler.LogHandler.SetMetadata` | Sources/ALTENLoggerFirebase/ALTENFirebaseLogHandler.swift:32-36 | assigning the metadata stores the map and re-renders the cache, keeping the invariant; nothing else changes |
| `FirebaseLogHandler.LogHandler.MetadataValue` | Sources/ALTENLoggerFirebase/ALTENFirebaseLogHandler.swift:38-41 | the subscript returns the key's value, or none when the key is absent |
| `FirebaseLogHandler.LogHandler.SetMetadataValue` | Sources/ALTENLoggerFirebase/ALTENFirebaseLogHandler.swift:42-44 | a value sets only its key and `nil` removes only its key; the key then reads back as what was set, every other key is unchanged, `logLevel` is untouched and the cache invariant holds |
| `FirebaseLogHandler.LogHandler.SetLogLevel` | Sources/ALTENLoggerFirebase/ALTENFirebaseLogHandler.swift:29 | sets only the level; the metadata, the cache and the cache invariant are kept |
| `FirebaseLogHandler.LogHandler.Log` | Sources/ALTENLoggerFirebase/ALTENFirebaseLogHandler.swift:54-68 | appends exactly one notice to the stream and one line to Crashlytics, for any level; the line carries the chosen metadata text, which is the rendering of the merged metadata; the handler's state is unchanged |
| `FirebaseLogHandler.LogAfterSetup` | Sources/ALTENLoggerFirebase/ALTENFirebaseLogHandler.swift:54-67 | on a handler holding `a: "1"`, `b: "2"`, a `trace` call carrying `b: "9"` sends exactly the line with `a: "1" b: "9"` and one notice, and leaves the metadata, the cache and the level unchanged |
| `FirebaseLogHandler.Session` | Sources/ALTENLoggerFirebase/ALTENFirebaseLogHandler.swift:38-44 | a handler given `a` and `b` through the subscript, then raised to `critical`, still reports a `trace` call, with the merged metadata text |

## Left out

- `timestamp()` (lines 76-86) reads the wall clock and the time zone through C `time`, `localtime` and `strftime`. `Log` takes the resulting string as a parameter.
- `standardOutput` and `standardError` (lines 16-23) only choose the process's stdout or stderr as the stream. The model's constructor takes the stream object directly, and the process streams are not modelled.
- `TextOutputStream`, `StdioOutputStream` and the Crashlytics SDK are foreign code. Each is modelled as an object that records the strings written to it. Buffering, I/O failure and upload are not modelled.
- `FirebaseLogHandler.LogHandler.Log`: the stream is assumed to have reference semantics. Line 65 copies the stream into a local variable before writing (line 66). This is right for the stdio streams chosen at lines 16-23, which write through a `FILE` pointer. A value-type stream, such as a `String` passed to the initializer at lines 48-52, receives the write in the copy, and the notice is discarded when `log` returns. The model always appends to the shared stream.
- `Logger.Level.color` comes from ALTENLoggerCore, which is not part of this model. It is a function from level to string, given to the constructor.
- Metadata values of swift-log that are dictionaries, arrays or string-convertibles render through that library's `description`. The model keeps every value as its rendered text. Messages are modelled as their text as well.
- Key order: Swift compares `String`s by Unicode canonical equivalence. The model compares keys lexicographically by character, so strings that are canonically equivalent but written differently do not compare equal, and keys not in NFC can sort differently: Swift puts `"e\u{301}"` after `"f"` (it compares `"\u{E9}"`), while the model puts it before, so the order of `prettify`'s entries can differ.
- `FilePath.ShortFile`: Swift's `split(separator: "/")` compares `Character`s, which are extended grapheme clusters. A `/` followed by a combining mark is one `Character` that is not `/`, so for `"a/\u{301}b"` Swift finds no separator and the label is the whole path. The model splits at every `/` character and gives `"\u{301}b"`.
- `Strings.Upper`: only ASCII letters are upper-cased. It is only applied to the level's raw values, which are ASCII.
- `LogLine.CrashlyticsLine`: the line number is a `nat`. Its machine-word `UInt` bound makes no difference to its decimal text.
- `FirebaseLogHandler.LogHandler`: the Swift handler is a struct with value semantics, where copies are independent. The model is a single object, so copying a handler is not modelled.
- Concurrent `log` calls: the handler has no synchronisation of its own, and the model is sequential.
- The `source` argument of `log` is accepted and, as in the code, not used.
- The handler has no switch for the stream notice, and no routing by severity. Every call writes the level's colour tag, then ` Send to Crashlytics` and a newline (line 66). The line number is printed without a prefix, between ` ➝ ` arrows (line 67). The model follows the code in each of these points.
- `Package.swift` is build configuration, with no logic to model.
