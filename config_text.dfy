/**
  The text handling inside `CreateFormatDescriptor` (asterixformat.cxx): stripping the line ending
  that `fgets` leaves on each line of the definitions ini file, and deriving the ini file's own
  directory for the fallback open.
 */
module ConfigText {

  predicate IsLineEnd(c: char)
  {
    c == '\r' || c == '\n'
  }

  /** A line with its trailing run of CR/LF characters removed; interior ones stay. */
  function TrimEnd(s: string): (r: string)
    ensures r <= s
    ensures forall k :: |r| <= k < |s| ==> IsLineEnd(s[k])
    ensures r == [] || !IsLineEnd(r[|r| - 1])
    decreases |s|
  {
    if |s| > 0 && IsLineEnd(s[|s| - 1]) then TrimEnd(s[..|s| - 1]) else s
  }

  /** A name that does not end in CR/LF comes back unchanged, whatever line ending follows it. */
  lemma {:induction false} TrimEndRemovesLineEnding(name: string, ending: string)
    requires name == [] || !IsLineEnd(name[|name| - 1])
    requires forall k :: 0 <= k < |ending| ==> IsLineEnd(ending[k])
    ensures TrimEnd(name + ending) == name
    decreases |ending|
  {
    if ending != [] {
      var shorter := ending[..|ending| - 1];
      assert (name + ending)[..|name + ending| - 1] == name + shorter;
      TrimEndRemovesLineEnding(name, shorter);
    } else {
      assert name + ending == name;
    }
  }

  /** Trimming twice is trimming once. */
  lemma TrimEndIdempotent(s: string)
    ensures TrimEnd(TrimEnd(s)) == TrimEnd(s)
  {
    TrimEndRemovesLineEnding(TrimEnd(s), []);
    assert TrimEnd(s) + [] == TrimEnd(s);
  }

  /**
    The trailing-newline loop of `CreateFormatDescriptor`, on the `fgets` buffer itself:
    `length` is `strlen(inputFile)`. It overwrites each trailing CR/LF with NUL, walking back from
    the end, and returns `lastChar`, the index of the last character kept (-1 when none is).
   */
  method TrimTrailingNewlines(inputFile: array<char>, length: nat) returns (lastChar: int)
    requires length <= inputFile.Length
    modifies inputFile
    ensures -1 <= lastChar < length
    ensures inputFile[..lastChar + 1] == TrimEnd(old(inputFile[..length]))
    ensures forall k :: lastChar < k < length ==> inputFile[k] == '\0'
    ensures inputFile[length..] == old(inputFile[length..])
  {
    ghost var line := inputFile[..length];
    lastChar := length - 1;
    while lastChar >= 0 && (inputFile[lastChar] == '\r' || inputFile[lastChar] == '\n')
      invariant -1 <= lastChar < length
      invariant inputFile[..lastChar + 1] == line[..lastChar + 1]
      invariant TrimEnd(line[..lastChar + 1]) == TrimEnd(line)
      invariant forall k :: lastChar < k < length ==> inputFile[k] == '\0'
      invariant inputFile[length..] == old(inputFile[length..])
    {
      assert line[..lastChar + 1][..lastChar] == line[..lastChar];
      inputFile[lastChar] := '\0';
      lastChar := lastChar - 1;
    }
  }

  /**
    The loop skips a line when `lastChar <= 0`: when nothing, or only one character, is left after
    trimming. A usable line names a definitions file of at least two characters.
   */
  predicate UsableLine(line: string)
    ensures UsableLine(line) <==> exists j :: 1 <= j < |line| && !IsLineEnd(line[j])
  {
    |TrimEnd(line)| > 1
  }

  /** One-character names are skipped as well as empty ones. */
  lemma OneCharacterLineSkipped()
    ensures !UsableLine("a\n")
    ensures !UsableLine("\r\n")
    ensures UsableLine("ab\r\n")
  {
    TrimEndRemovesLineEnding("a", "\n");
    TrimEndRemovesLineEnding("", "\r\n");
    TrimEndRemovesLineEnding("ab", "\r\n");
  }

  /** `std::string::find_last_of(c)` converted to `int`: the last index of `c`, or -1 (npos) when absent. */
  function LastIndexOf(s: string, c: char): (r: int)
    ensures -1 <= r < |s|
    ensures r >= 0 ==> s[r] == c
    ensures forall k :: r < k < |s| ==> s[k] != c
    decreases |s|
  {
    if |s| == 0 then -1
    else if s[|s| - 1] == c then |s| - 1
    else LastIndexOf(s[..|s| - 1], c)
  }

  /** The separator searched for: a backslash whenever the path holds one, otherwise '/'. */
  function Separator(path: string): char
  {
    if '\\' in path then '\\' else '/'
  }

  /**
    The directory prefix of the ini file's path: everything up to and including the last
    separator, where a later '/' is ignored once any backslash is present, and nothing at all
    when that separator is absent or is the path's first character (`index > 0`).
   */
  function IniDirectory(iniPath: string): (prefix: string)
    ensures prefix <= iniPath
    ensures prefix != [] ==> |prefix| >= 2 && prefix[|prefix| - 1] == Separator(iniPath)
    ensures prefix != [] ==> forall k :: |prefix| <= k < |iniPath| ==> iniPath[k] != Separator(iniPath)
    ensures prefix == [] ==> forall k :: 0 < k < |iniPath| ==> iniPath[k] != Separator(iniPath)
  {
    var backslash := LastIndexOf(iniPath, '\\');
    var index := if backslash < 0 then LastIndexOf(iniPath, '/') else backslash;
    if index > 0 then iniPath[..index + 1] else ""
  }

  /** The contract of `IniDirectory` pins the prefix down: any prefix satisfying it is the one computed. */
  lemma IniDirectoryUnique(iniPath: string, p: string)
    requires p <= iniPath
    requires p != [] ==> |p| >= 2 && p[|p| - 1] == Separator(iniPath)
    requires p != [] ==> forall k :: |p| <= k < |iniPath| ==> iniPath[k] != Separator(iniPath)
    requires p == [] ==> forall k :: 0 < k < |iniPath| ==> iniPath[k] != Separator(iniPath)
    ensures p == IniDirectory(iniPath)
  {
  }

  /** Worked examples: a Unix directory, a backslash before a later slash, a file at the root and a bare name. */
  lemma IniDirectoryExamples()
    ensures IniDirectory("/a/b/defs.ini") == "/a/b/"
    ensures IniDirectory("C:\\cfg/defs.ini") == "C:\\"
    ensures IniDirectory("/defs.ini") == ""
    ensures IniDirectory("defs.ini") == ""
  {
    IniDirectoryUnique("/a/b/defs.ini", "/a/b/");
    assert "C:\\cfg/defs.ini"[2] == '\\';
    IniDirectoryUnique("C:\\cfg/defs.ini", "C:\\");
    IniDirectoryUnique("/defs.ini", "");
    IniDirectoryUnique("defs.ini", "");
  }
}
