/**
  Lazy construction of the shared format descriptor, `CAsterixFormat::CreateFormatDescriptor`
  (asterixformat.cxx). The C++ file system calls are replaced by an abstract disk: the set of paths
  `fopen(path, "rt")` succeeds on, the lines `fgets` returns for a text file, and the set of files
  `XMLParser::Parse` accepts. The aggregate definition is modelled by the list of definition files
  whose parse succeeded, in the order they were parsed.
 */
module Descriptor {
  import opened Wrappers
  import opened Registry
  import opened ConfigText

  type Path = string

  /** The state of the disk, fixed for the duration of a construction. */
  datatype Disk = Disk(readable: set<Path>, text: map<Path, seq<string>>, wellFormed: set<Path>)
  {
    /** The successive strings `fgets` returns for a readable text file (none for an unknown one). */
    function Lines(path: Path): seq<string>
    {
      if path in text then text[path] else []
    }
  }

  /** `AsterixDefinition`: the definition files merged into the aggregate, in parse order. */
  datatype AsterixDefinition = AsterixDefinition(files: seq<Path>)

  /** `CAsterixFormatDescriptor`, wrapping the aggregate definition. */
  datatype FormatDescriptor = FormatDescriptor(definition: AsterixDefinition)

  /** The file system as the construction sees it: a fixed disk and the record of every `fopen` attempted. */
  class FileSystem {
    const disk: Disk
    var opens: seq<Path>

    constructor (disk: Disk)
      ensures this.disk == disk && opens == []
    {
      this.disk := disk;
      opens := [];
    }

    /** `fopen(path, "rt") != NULL`; the attempt is recorded whether it succeeds or not. */
    method Open(path: Path) returns (ok: bool)
      modifies this
      ensures ok == (path in disk.readable)
      ensures opens == old(opens) + [path]
    {
      ok := path in disk.readable;
      opens := opens + [path];
    }
  }

  // ---------------------------------------------------------------------------------------------
  // Specification of one construction, line by line.

  /** The file opened for a listed name: the name itself, else the name under the ini directory `prefix`. */
  function OpenedFile(name: Path, prefix: Path, disk: Disk): (r: Option<Path>)
    ensures r.Some? ==> r.value in disk.readable
    ensures r.Some? ==> r.value == name || (prefix != [] && r.value == prefix + name)
    ensures name in disk.readable ==> r == Some(name)
    ensures r.None? <==> name !in disk.readable && (prefix == [] || prefix + name !in disk.readable)
  {
    if name in disk.readable then Some(name)
    else if prefix != [] && prefix + name in disk.readable then Some(prefix + name)
    else None
  }

  /** The `fopen` calls made for a listed name: the fallback only after the direct open failed, and only under a non-empty directory. */
  function NameOpens(name: Path, prefix: Path, disk: Disk): (opens: seq<Path>)
    ensures 1 <= |opens| <= 2 && opens[0] == name
    ensures |opens| == 2 <==> name !in disk.readable && prefix != []
    ensures |opens| == 2 ==> opens[1] == prefix + name
  {
    if name in disk.readable || prefix == [] then [name] else [name, prefix + name]
  }

  /** The definitions file opened for one ini line, if the line is not skipped and some open succeeds. */
  function LineFile(line: string, prefix: Path, disk: Disk): (r: Option<Path>)
    ensures r.Some? ==> UsableLine(line) && r.value in disk.readable
    ensures UsableLine(line) ==> r == OpenedFile(TrimEnd(line), prefix, disk)
  {
    if UsableLine(line) then OpenedFile(TrimEnd(line), prefix, disk) else None
  }

  /** The `fopen` calls made for one ini line. */
  function LineOpens(line: string, prefix: Path, disk: Disk): (opens: seq<Path>)
    ensures opens == [] <==> !UsableLine(line)
    ensures opens != [] ==> opens[0] == TrimEnd(line) && |opens| <= 2
  {
    if UsableLine(line) then NameOpens(TrimEnd(line), prefix, disk) else []
  }

  /** What one ini line adds to the aggregate: the opened file, when it also parses. */
  function LineContribution(line: string, prefix: Path, disk: Disk): seq<Path>
  {
    match LineFile(line, prefix, disk)
    case Some(p) => if p in disk.wellFormed then [p] else []
    case None => []
  }

  /** The definition files merged while reading `lines`, in order; every skip just continues. */
  function Loaded(lines: seq<string>, prefix: Path, disk: Disk): (files: seq<Path>)
    ensures |files| <= |lines|
    ensures forall i :: 0 <= i < |files| ==> files[i] in disk.readable && files[i] in disk.wellFormed
    decreases |lines|
  {
    if lines == [] then []
    else Loaded(lines[..|lines| - 1], prefix, disk) + LineContribution(lines[|lines| - 1], prefix, disk)
  }

  /** The `fopen` calls made while reading `lines`, in order. */
  function LoopOpens(lines: seq<string>, prefix: Path, disk: Disk): seq<Path>
    decreases |lines|
  {
    if lines == [] then []
    else LoopOpens(lines[..|lines| - 1], prefix, disk) + LineOpens(lines[|lines| - 1], prefix, disk)
  }

  /** The descriptor a first call builds: none when the ini file cannot be opened. */
  function Construct(iniPath: Path, disk: Disk): (d: Option<FormatDescriptor>)
    ensures d.None? <==> iniPath !in disk.readable
    ensures d.Some? ==> forall i :: 0 <= i < |d.value.definition.files| ==>
      d.value.definition.files[i] in disk.readable && d.value.definition.files[i] in disk.wellFormed
  {
    if iniPath in disk.readable then
      Some(FormatDescriptor(AsterixDefinition(Loaded(disk.Lines(iniPath), IniDirectory(iniPath), disk))))
    else None
  }

  /** The `fopen` calls a first call makes: the ini file, then those of its lines. */
  function ConstructionOpens(iniPath: Path, disk: Disk): (opens: seq<Path>)
    ensures |opens| >= 1 && opens[0] == iniPath
    ensures iniPath !in disk.readable ==> opens == [iniPath]
  {
    [iniPath] + if iniPath in disk.readable then LoopOpens(disk.Lines(iniPath), IniDirectory(iniPath), disk) else []
  }

  /** Reading one more line extends the aggregate and the opens by that line's share. */
  lemma NextLine(lines: seq<string>, i: nat, prefix: Path, disk: Disk)
    requires i < |lines|
    ensures Loaded(lines[..i + 1], prefix, disk) == Loaded(lines[..i], prefix, disk) + LineContribution(lines[i], prefix, disk)
    ensures LoopOpens(lines[..i + 1], prefix, disk) == LoopOpens(lines[..i], prefix, disk) + LineOpens(lines[i], prefix, disk)
  {
    assert lines[..i + 1][..i] == lines[..i];
  }

  /** The open of one listed definitions file, falling back to the ini directory; None when both fail. */
  method OpenListed(name: Path, prefix: Path, fs: FileSystem) returns (file: Option<Path>)
    modifies fs
    ensures file == OpenedFile(name, prefix, fs.disk)
    ensures fs.opens == old(fs.opens) + NameOpens(name, prefix, fs.disk)
  {
    var ok := fs.Open(name);
    if ok {
      return Some(name);
    }
    // try in the folder of the ini file
    file := None;
    if prefix != [] {
      var path := prefix + name;
      ok := fs.Open(path);
      if ok {
        file := Some(path);
      }
    }
  }

  /**
    The body of the `while (fgets(...))` loop for one ini line: trims the line in the `fgets`
    buffer, skips it when `lastChar <= 0`, opens the named file (with the fallback), and parses it.
    Each early return is one of the loop's `continue`s; the result is what the line adds to the
    aggregate definition.
   */
  method LoadLine(line: string, prefix: Path, fs: FileSystem) returns (contribution: seq<Path>)
    modifies fs
    ensures contribution == LineContribution(line, prefix, fs.disk)
    ensures fs.opens == old(fs.opens) + LineOpens(line, prefix, fs.disk)
  {
    // fgets copies the line into the buffer; strlen gives back its length
    var inputFile := new char[|line|](k requires 0 <= k < |line| => line[k]);
    assert inputFile[..|line|] == line;
    var lastChar := TrimTrailingNewlines(inputFile, |line|);
    if lastChar <= 0 {
      return [];
    }
    var name := inputFile[..lastChar + 1];
    var file := OpenListed(name, prefix, fs);
    if file.None? {
      return [];
    }
    contribution := if file.value in fs.disk.wellFormed then [file.value] else [];
  }

  /**
    The `while (fgets(...))` loop over the lines of the opened ini file, `prefix` being the ini
    file's directory: every line that is skipped, cannot be opened or does not parse is passed over
    and the loop continues with the next one.
   */
  method ReadDefinitions(lines: seq<string>, prefix: Path, fs: FileSystem) returns (definition: AsterixDefinition)
    modifies fs
    ensures definition.files == Loaded(lines, prefix, fs.disk)
    ensures fs.opens == old(fs.opens) + LoopOpens(lines, prefix, fs.disk)
  {
    var parsed: seq<Path> := [];
    var i := 0;
    while i < |lines|
      invariant 0 <= i <= |lines|
      invariant parsed == Loaded(lines[..i], prefix, fs.disk)
      invariant fs.opens == old(fs.opens) + LoopOpens(lines[..i], prefix, fs.disk)
    {
      var line := lines[i];
      NextLine(lines, i, prefix, fs.disk);
      i := i + 1;
      var contribution := LoadLine(line, prefix, fs);
      parsed := parsed + contribution;
    }
    assert lines[..|lines|] == lines;
    definition := AsterixDefinition(parsed);
  }

  // ---------------------------------------------------------------------------------------------
  // The format object with its cached descriptor.

  class AsterixFormat {
    /** `m_pFormatDescriptor`; None is NULL. */
    var formatDescriptor: Option<FormatDescriptor>

    constructor ()
      ensures formatDescriptor == None
    {
      formatDescriptor := None;
    }

    /**
      `CreateFormatDescriptor`: returns the cached descriptor when there is one, without touching the
      disk; otherwise builds one from the ini file `definitionsFile` (the global
      `gAsterixDefinitionsFile`), caches it and returns it, or returns NULL, caching nothing, when the
      ini file cannot be opened. `formatType` and `sFormatDescriptor` are not used.
     */
    method CreateFormatDescriptor(formatType: UInt32, sFormatDescriptor: string, definitionsFile: Path, fs: FileSystem)
      returns (d: Option<FormatDescriptor>)
      modifies this, fs
      ensures d == formatDescriptor
      ensures old(formatDescriptor).Some? ==> d == old(formatDescriptor) && fs.opens == old(fs.opens)
      ensures old(formatDescriptor).None? ==> d == Construct(definitionsFile, fs.disk)
      ensures old(formatDescriptor).None? ==>
        fs.opens == old(fs.opens) + ConstructionOpens(definitionsFile, fs.disk)
    {
      if formatDescriptor.None? {
        var disk := fs.disk;
        var iniOpened := fs.Open(definitionsFile);
        if !iniOpened {
          return None;
        }
        var definition := ReadDefinitions(disk.Lines(definitionsFile), IniDirectory(definitionsFile), fs);
        formatDescriptor := Some(FormatDescriptor(definition));
      }
      d := formatDescriptor;
    }
  }

  // ---------------------------------------------------------------------------------------------
  // Properties of construction.

  /** The aggregate holds contributions from exactly the listed files that open (directly or under the ini directory) and parse. */
  lemma {:induction false} LoadedExactly(lines: seq<string>, prefix: Path, disk: Disk, p: Path)
    ensures p in Loaded(lines, prefix, disk) <==>
      exists k :: 0 <= k < |lines| && LineFile(lines[k], prefix, disk) == Some(p) && p in disk.wellFormed
    decreases |lines|
  {
    if lines != [] {
      var init, last := lines[..|lines| - 1], lines[|lines| - 1];
      LoadedExactly(init, prefix, disk, p);
      if p in Loaded(lines, prefix, disk) {
        if p !in Loaded(init, prefix, disk) {
          assert LineFile(lines[|lines| - 1], prefix, disk) == Some(p) && p in disk.wellFormed;
        } else {
          var k :| 0 <= k < |init| && LineFile(init[k], prefix, disk) == Some(p) && p in disk.wellFormed;
          assert lines[k] == init[k];
        }
      } else {
        forall k | 0 <= k < |lines|
          ensures !(LineFile(lines[k], prefix, disk) == Some(p) && p in disk.wellFormed)
        {
          if k < |init| {
            assert lines[k] == init[k];
          }
        }
      }
    }
  }

  /** Lines that open nothing contribute nothing, so an ini listing no usable file still yields a descriptor, with an empty definition. */
  lemma {:induction false} NothingOpenableLoadsNothing(lines: seq<string>, prefix: Path, disk: Disk)
    requires forall k :: 0 <= k < |lines| ==> LineFile(lines[k], prefix, disk).None?
    ensures Loaded(lines, prefix, disk) == []
    decreases |lines|
  {
    if lines != [] {
      NothingOpenableLoadsNothing(lines[..|lines| - 1], prefix, disk);
    }
  }

  /** A readable ini file always yields a descriptor, even when none of its files is loaded. */
  lemma ReadableIniYieldsDescriptor(iniPath: Path, disk: Disk)
    requires iniPath in disk.readable
    requires forall k :: 0 <= k < |disk.Lines(iniPath)| ==> LineFile(disk.Lines(iniPath)[k], IniDirectory(iniPath), disk).None?
    ensures Construct(iniPath, disk) == Some(FormatDescriptor(AsterixDefinition([])))
  {
    NothingOpenableLoadsNothing(disk.Lines(iniPath), IniDirectory(iniPath), disk);
  }

  /** An ini file that cannot be opened gives NULL after a single `fopen`. */
  lemma MissingIniYieldsNothing(iniPath: Path, disk: Disk)
    requires iniPath !in disk.readable
    ensures Construct(iniPath, disk) == None
    ensures ConstructionOpens(iniPath, disk) == [iniPath]
  {
  }

  /** Skipped lines (empty or one character after trimming) open nothing and add nothing. */
  lemma ShortLineSkipped(line: string, prefix: Path, disk: Disk)
    requires !UsableLine(line)
    ensures LineOpens(line, prefix, disk) == [] && LineContribution(line, prefix, disk) == []
  {
  }

  /** The fallback under the ini directory is tried only when the direct open fails and the directory is non-empty. */
  lemma FallbackOnlyAfterDirectFailure(line: string, prefix: Path, disk: Disk)
    requires UsableLine(line)
    ensures TrimEnd(line) in disk.readable ==>
      LineOpens(line, prefix, disk) == [TrimEnd(line)] && LineFile(line, prefix, disk) == Some(TrimEnd(line))
    ensures TrimEnd(line) !in disk.readable ==>
      LineFile(line, prefix, disk) == if prefix != [] && prefix + TrimEnd(line) in disk.readable then Some(prefix + TrimEnd(line)) else None
    ensures prefix == [] ==> LineOpens(line, prefix, disk) == [TrimEnd(line)]
    ensures TrimEnd(line) !in disk.readable && prefix != [] ==>
      LineOpens(line, prefix, disk) == [TrimEnd(line), prefix + TrimEnd(line)]
  {
  }

  /** An ini file at /a/b/defs.ini listing cat001.xml, present only as /a/b/cat001.xml, still loads it. */
  lemma FallbackFindsFileBesideIni()
    ensures
      var disk := Disk({"/a/b/defs.ini", "/a/b/cat001.xml"}, map["/a/b/defs.ini" := ["cat001.xml\n"]],
                       {"/a/b/cat001.xml"});
      Construct("/a/b/defs.ini", disk) == Some(FormatDescriptor(AsterixDefinition(["/a/b/cat001.xml"])))
  {
    var disk := Disk({"/a/b/defs.ini", "/a/b/cat001.xml"}, map["/a/b/defs.ini" := ["cat001.xml\n"]],
                     {"/a/b/cat001.xml"});
    IniDirectoryExamples();
    TrimEndRemovesLineEnding("cat001.xml", "\n");
    assert "cat001.xml" + "\n" == "cat001.xml\n";
    assert "/a/b/" + "cat001.xml" == "/a/b/cat001.xml";
    assert "cat001.xml" != "/a/b/defs.ini" && "cat001.xml" != "/a/b/cat001.xml";
    assert OpenedFile("cat001.xml", "/a/b/", disk) == Some("/a/b/cat001.xml");
    assert LineContribution("cat001.xml\n", "/a/b/", disk) == ["/a/b/cat001.xml"];
    var lines := disk.Lines("/a/b/defs.ini");
    assert lines == ["cat001.xml\n"];
    assert lines[..0] == [];
    assert Loaded(lines, "/a/b/", disk) == ["/a/b/cat001.xml"];
  }

  /**
    Two calls in a row on a fresh object: once a descriptor is built the second call returns that
    same descriptor and opens nothing; after a NULL the second call tries the ini file again.
   */
  method CreateTwice(format: AsterixFormat, definitionsFile: Path, fs: FileSystem)
    returns (first: Option<FormatDescriptor>, second: Option<FormatDescriptor>)
    requires format.formatDescriptor == None
    modifies format, fs
    ensures first == Construct(definitionsFile, fs.disk)
    ensures first.Some? ==> second == first && fs.opens == old(fs.opens) + ConstructionOpens(definitionsFile, fs.disk)
    ensures first.None? ==> second == None && fs.opens == old(fs.opens) + [definitionsFile, definitionsFile]
  {
    first := format.CreateFormatDescriptor(0, "", definitionsFile, fs);
    second := format.CreateFormatDescriptor(0, "", definitionsFile, fs);
  }
}
