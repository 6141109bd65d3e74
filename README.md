# ASTERIX format dispatch layer

A Dafny model of `CAsterixFormat` from `src/asterix/asterixformat.cxx`. This class sits between
the physical encodings of ASTERIX surveillance data (raw streams, pcap captures, HDLC links, the
Oradis variants) and the output renderers (text, KML, tracks, XIDEF, the final and out formats).
It has four parts:

- **Format registry** (`registry.dfy`, module `Registry`). The closed set of format identifiers
  `ERaw … EOut`, the `_FormatName` table, and `GetFormatNo`. `GetFormatNo` is the `for` loop
  with a `found` flag that looks a name up ignoring case. It is proved against a reference
  lookup `Lookup`. The eleven names are proved pairwise distinct ignoring case, so every
  spelling of a canonical name maps back to its own identifier.
- **Dispatcher** (`dispatch.dfy`, module `Dispatch`). `ReadPacket`, `WritePacket`,
  `ProcessPacket` and `HeartbeatProcessing` switch on the format identifier. Each switch is a
  `Route` function that states which subformat is called, for which operation and with which
  Oradis flag, or whether the switch answers `false`. Each switch is checked against an
  independent table: the subformat behind each format, and which formats frame input or have
  housekeeping. The subformats' answers are an abstract behaviour passed in as a parameter.
  `GetStatus` and the two channel-reset hooks are modelled here too.
- **Ini text handling** (`config_text.dfy`, module `ConfigText`). Two pieces:
  - the trailing CR/LF loop, which works in place on the `fgets` buffer (an `array<char>`);
  - `find_last_of` and the ini-directory prefix used for the fallback open.
- **Lazy descriptor construction** (`descriptor.dfy`, module `Descriptor`). Class
  `AsterixFormat` holds the cached `m_pFormatDescriptor`. `CreateFormatDescriptor` works against
  an abstract disk. The disk holds the paths `fopen` succeeds on, the lines `fgets` returns,
  and the files `XMLParser::Parse` accepts. A `FileSystem` object records every `fopen`
  attempted. This shows that a second call opens nothing and that the fallback is tried only
  after a failed direct open. The body of the `while (fgets(...))` loop is the method
  `LoadLine`; its early returns are the loop's `continue`s. The loop itself is
  `ReadDefinitions`.

`ASSERT(0)` on a switch's `default:` is modelled as in a release build. Control falls through
to the error log and `return false`, leaving `discard` as it was. The `Unhandled` route marks
each place where a debug build would stop at that assertion.

The numeric values of `ERaw … EOut` are declared in `asterixformat.hxx`, which is not part of
this model. They are taken to follow the order of `_FormatName`, because `GetFormatNo` returns
the table index as the identifier.

Quirks of the code that the model keeps and proves:

- `ReadPacket` has no case for `ETxt`, `EKml`, `ETracks` or `EOut`, so these enumerated ids
  reach `ASSERT(0)` (`Dispatch.UnhandledEnumerated`).
- `lastChar <= 0` skips a one-character name as well as an empty line
  (`ConfigText.OneCharacterLineSkipped`).
- For the ini directory, the last backslash wins over a later `/`, and a separator at index 0,
  as in `/defs.ini`, gives no prefix (`ConfigText.IniDirectoryExamples`).

## Model

| member | source | states |
|---|---|---|
| `Registry.FromIndex` | src/asterix/asterixformat.cxx:46-59 | an `unsigned int` names a format exactly when it is below `ETotalFormats` (11), and then it is that format's index in the name table |
| `Registry.EqualsIgnoreCase` | src/asterix/asterixformat.cxx:296 | `strcasecmp(a, b) == 0` holds exactly when the two strings are equal once both are lower-cased in the C locale |
| `Registry.NamesDistinct` | src/asterix/asterixformat.cxx:46-59 | no two of the eleven canonical names are equal ignoring case |
| `Registry.CaseVariantsEqual` | src/asterix/asterixformat.cxx:296 | the upper- and lower-case spellings of any string compare equal to it under `strcasecmp` |
| `Registry.LookupFrom` | src/asterix/asterixformat.cxx:293-301 | the lookup from position `i` finds a name the string matches ignoring case, with no earlier match from `i`; it finds nothing only when no name from `i` on matches |
| `Registry.GetFormatNo` | src/asterix/asterixformat.cxx:288-304 | returns true iff the name equals some table entry ignoring case; the out-parameter then holds the first such index (< 11), and otherwise keeps its old value; this agrees with `Lookup` |
| `Registry.LookupIsFirstMatch` | src/asterix/asterixformat.cxx:293-301 | the reference lookup succeeds iff some entry matches, and then no earlier entry matches |
| `Registry.CanonicalNameMapsBack` | src/asterix/asterixformat.cxx:46-59 | any spelling of a format's canonical name, in any case, looks up to that format |
| `Registry.LookupIgnoresCase` | src/asterix/asterixformat.cxx:296 | two strings equal ignoring case look up to the same result |
| `Registry.CaseVariantsLookUp` | src/asterix/asterixformat.cxx:288-304 | lookup(name), lookup(upper(name)) and lookup(lower(name)) all give the format, for every canonical name |
| `Dispatch.ReadRoute` | src/asterix/asterixformat.cxx:64-88 | Raw, Pcap, both Oradis variants, Final and HDLC forward to their own subformat's read with the Oradis flag exactly for the Oradis formats; XIDEF answers false; Txt, Kml, Tracks, Out and every out-of-range id reach the default |
| `Dispatch.WriteRoute` | src/asterix/asterixformat.cxx:90-121 | every one of the eleven formats forwards to its own subformat's write; only an out-of-range id reaches the default |
| `Dispatch.ProcessRoute` | src/asterix/asterixformat.cxx:124-157 | the six framing formats forward to their own subformat's decoder; Txt, Kml, Tracks, XIDEF and Out answer false; out-of-range ids reach the default |
| `Dispatch.HeartbeatRoute` | src/asterix/asterixformat.cxx:159-193 | the framing formats and Tracks forward to their own subformat's heartbeat; Txt, Kml, XIDEF and Out answer false; out-of-range ids reach the default |
| `Dispatch.ReadPacket` | src/asterix/asterixformat.cxx:64-88 | a read succeeds only for a framing format; such a read is the subformat's answer for the caller's `discard`; every other id returns false with `discard` untouched |
| `Dispatch.WritePacket` | src/asterix/asterixformat.cxx:90-121 | every id below 11 is the own subformat's write; an id of 11 or more returns false with `discard` untouched |
| `Dispatch.ProcessPacket` | src/asterix/asterixformat.cxx:124-157 | the framing formats' decoders are called with `discard` reset to false; every other id returns false and leaves `discard` false; only a framing format can succeed |
| `Dispatch.HeartbeatProcessing` | src/asterix/asterixformat.cxx:159-193 | succeeds only for a framing format or Tracks, and is then that subformat's heartbeat |
| `Dispatch.DelegatesToOwnSubformat` | src/asterix/asterixformat.cxx:64-193 | whenever any of the four switches forwards, it calls the format's own subformat, with the Oradis flag set exactly for EOradisRaw and EOradisPcap |
| `Dispatch.OradisForwarding` | src/asterix/asterixformat.cxx:72-75 | in all four operations EOradisRaw and EOradisPcap make the same call as ERaw and EPcap with only the mode flag changed to true |
| `Dispatch.OutOfRangeIsUnhandled` | src/asterix/asterixformat.cxx:83-87 | an identifier of 11 or more reaches the `ASSERT(0)` default in every operation |
| `Dispatch.UnhandledEnumerated` | src/asterix/asterixformat.cxx:66-85 | an enumerated format reaches a default branch iff the operation is read and the format is Txt, Kml, Tracks or Out |
| `Dispatch.ReadAndProcessAgree` | src/asterix/asterixformat.cxx:64-157 | read forwards exactly for the formats whose decode forwards, to the same subformat with the same flag |
| `Dispatch.ProcessPacketIgnoresIncomingDiscard` | src/asterix/asterixformat.cxx:124-126 | the outcome of `ProcessPacket` does not depend on the `discard` value passed in |
| `Dispatch.GetStatus` | src/asterix/asterixformat.cxx:306-312 | the status is `STS_NO_DATA` exactly when the device is not open, and the 0 status exactly when it is |
| `Dispatch.StatusIgnoresFormatAndQuery` | src/asterix/asterixformat.cxx:306-312 | the status does not depend on the format id or the query |
| `Dispatch.OnResetInputChannel` | src/asterix/asterixformat.cxx:316-319 | an input-channel reset always returns false |
| `Dispatch.OnResetOutputChannel` | src/asterix/asterixformat.cxx:322-325 | an output-channel reset always returns true |
| `ConfigText.TrimEnd` | src/asterix/asterixformat.cxx:241-247 | the trimmed line is a prefix of the line, everything removed is CR or LF, and it is empty or does not itself end in CR or LF |
| `ConfigText.TrimEndRemovesLineEnding` | src/asterix/asterixformat.cxx:241-251 | a name not ending in CR/LF is recovered unchanged from the name followed by any run of CR/LF |
| `ConfigText.TrimEndIdempotent` | src/asterix/asterixformat.cxx:241-247 | trimming an already trimmed line changes nothing |
| `ConfigText.TrimTrailingNewlines` | src/asterix/asterixformat.cxx:241-247 | on the buffer, `lastChar` ends as the index of the last kept character (-1 if none), the buffer's first `lastChar + 1` characters are the trimmed line, each removed character is overwritten with NUL, and the rest of the buffer is unchanged |
| `ConfigText.OneCharacterLineSkipped` | src/asterix/asterixformat.cxx:248-249 | a one-character name and a bare CR/LF line are both skipped; a two-character name is used |
| `ConfigText.UsableLine` | src/asterix/asterixformat.cxx:248-249 | a line is kept (`lastChar > 0`) exactly when some position after the first holds a character other than CR or LF |
| `ConfigText.LastIndexOf` | src/asterix/asterixformat.cxx:229-231 | `find_last_of` as an `int`: -1 when the character is absent, otherwise an index holding it with no later occurrence |
| `ConfigText.IniDirectory` | src/asterix/asterixformat.cxx:226-235 | the prefix is a prefix of the ini path ending in its separator (a backslash whenever the path has one, else '/'), with no separator after it; it is empty only when no separator occurs past the first character |
| `ConfigText.IniDirectoryUnique` | src/asterix/asterixformat.cxx:226-235 | any prefix meeting that description is the one computed |
| `ConfigText.IniDirectoryExamples` | src/asterix/asterixformat.cxx:229-235 | `/a/b/defs.ini` gives `/a/b/`; `C:\cfg/defs.ini` gives `C:\` (the later '/' is ignored); `/defs.ini` and `defs.ini` give no prefix |
| `Descriptor.OpenedFile` | src/asterix/asterixformat.cxx:253-268 | a readable name is opened as written; otherwise the file is the name under a non-empty ini directory when that is readable; nothing opens exactly when both opens fail |
| `Descriptor.NameOpens` | src/asterix/asterixformat.cxx:253-260 | a listed name is opened first as written; a second `fopen`, of the ini directory plus the name, follows exactly when the first fails and the directory is non-empty |
| `Descriptor.LineFile` | src/asterix/asterixformat.cxx:241-268 | a line yields an opened file only if it is not skipped, and then it is the file opened for its trimmed name |
| `Descriptor.LineOpens` | src/asterix/asterixformat.cxx:248-260 | a skipped line makes no `fopen`; any other line makes one or two, the first of its trimmed name |
| `Descriptor.Loaded` | src/asterix/asterixformat.cxx:237-278 | the loop merges at most one file per line, and only files that were opened and parsed |
| `Descriptor.Construct` | src/asterix/asterixformat.cxx:216-282 | a first call yields no descriptor exactly when the ini file cannot be opened; otherwise every merged file is readable and parses |
| `Descriptor.ConstructionOpens` | src/asterix/asterixformat.cxx:219-260 | a first call opens the ini file first, and nothing else when that open fails |
| `Descriptor.FileSystem.Open` | src/asterix/asterixformat.cxx:219 | `fopen(path, "rt")` succeeds exactly for a readable path, and every attempt is recorded |
| `Descriptor.OpenListed` | src/asterix/asterixformat.cxx:253-268 | the direct open comes first; the ini-directory open is attempted only when it failed and the directory is non-empty; the result is the file that opened |
| `Descriptor.LoadLine` | src/asterix/asterixformat.cxx:239-277 | one pass of the loop body adds to the aggregate exactly that line's parsed file, and makes exactly that line's `fopen` calls |
| `Descriptor.ReadDefinitions` | src/asterix/asterixformat.cxx:237-278 | after the loop, the aggregate is the reference `Loaded` of all ini lines and the `fopen` calls are those of every line in order |
| `Descriptor.AsterixFormat.CreateFormatDescriptor` | src/asterix/asterixformat.cxx:206-285 | with a cached descriptor, returns it and opens nothing; otherwise opens the ini file, returns and caches nothing (NULL) if that fails, else caches and returns the descriptor built from every listed file that opens and parses |
| `Descriptor.LoadedExactly` | src/asterix/asterixformat.cxx:252-277 | a file is in the aggregate iff some ini line opens it (directly or under the ini directory) and it parses |
| `Descriptor.NothingOpenableLoadsNothing` | src/asterix/asterixformat.cxx:252-268 | when no line opens a file, the aggregate is empty |
| `Descriptor.ReadableIniYieldsDescriptor` | src/asterix/asterixformat.cxx:280-284 | a readable ini file yields a descriptor even when no definitions file is loaded |
| `Descriptor.MissingIniYieldsNothing` | src/asterix/asterixformat.cxx:218-224 | an ini file that cannot be opened gives NULL after a single `fopen` |
| `Descriptor.ShortLineSkipped` | src/asterix/asterixformat.cxx:248-249 | a skipped line opens nothing and adds nothing |
| `Descriptor.FallbackOnlyAfterDirectFailure` | src/asterix/asterixformat.cxx:253-268 | a readable name is opened directly with one `fopen`; with no ini directory only the direct open is tried; otherwise the fallback path is opened second |
| `Descriptor.FallbackFindsFileBesideIni` | src/asterix/asterixformat.cxx:253-261 | an ini file `/a/b/defs.ini` listing `cat001.xml`, present only as `/a/b/cat001.xml`, yields a descriptor holding that file |
| `Descriptor.CreateTwice` | src/asterix/asterixformat.cxx:209-284 | on a fresh object, a second call returns the descriptor the first one built and opens nothing more; after a NULL it tries the ini file again |

## Left out

- Subformat internals: `CAsterixRawSubformat`, `CAsterixPcapSubformat` and the other subformat classes are not part of this model. What they answer is an abstract behaviour parameter. It stands for the subformats acting on the same format descriptor and device the dispatcher was given, so those two arguments are not threaded through.
- File I/O: `fopen`, `fgets`, `fclose` and `XMLParser::Parse` are replaced by a fixed abstract disk. `fclose` has no counterpart.
- `fgets` line splitting: the 256-byte `inputFile` buffer splits longer lines into several reads; this is not modelled. Each ini line is one `fgets` result.
- NUL characters: ini lines are taken to hold none, so `strlen` is the line's length. The same goes for format names: a name is the characters before its terminating NUL.
- `find_last_of`: its `npos` result is taken to become -1 when converted to `int`. Paths longer than `INT_MAX` are not considered.
- Parse failures: the aggregate is modelled as the list of files whose parse succeeded. Whatever a failing `XMLParser::Parse` may already have added to `AsterixDefinition` is not modelled.
- Logging: `LOGERROR`, `debug_trace` and `Tracer::Configure` only write to the error log. The model records no log output.
- Concurrency: the cached descriptor is not guarded in the code, and the model is sequential.
- Memory: the `AsterixDefinition` leaked on the NULL path, and the allocation of the descriptor, are not modelled.
- `ASSERT(0)`: the debug-build abort is not modelled (see above). A NULL `formatName`, which `ASSERT(formatName)` guards against, is an input the model cannot represent; in a release build it would make `strcasecmp` undefined.
- `strcasecmp` locale: the comparison uses the C locale's `tolower`, which changes only `A`–`Z`.
- `STS_NO_DATA`: its numeric value is defined in a header that is not part of this model, so the status is a two-valued datatype.
- Unused parameters: `CreateFormatDescriptor`'s `formatType` and `sFormatDescriptor`, and `GetStatus`'s `formatType` and `query`, are kept but unused, as in the code.
