/**
 * The artifact properties file (rptrc/src/operators/artifact_properties.py):
 * `generate` writes one `KEY=VALUE` line per pair into a file under an output
 * directory, creating the directory when it is missing; `read` checks its
 * arguments and the file system in a fixed order and merges the file's lines
 * into the pairs it already holds.
 *
 * The file system is an object holding the set of directories and the text of
 * each file, both keyed by path.
 */
module ArtifactProperties {
  import opened Wrappers
  import opened Exceptions
  import opened Json
  import opened Text
  import opened Dicts

  const NoPairsMessage: string := "Attempted to generate artifact properties with no keys/values."
  const NoInDirectoryMessage: string := "No in_directory specified."
  const NoInFileMessage: string := "No in_file specified."
  const MissingInDirectoryMessage: string := "The specified in_directory does not exist."
  const MissingInFileMessage: string := "The specified in_file does not exist."

  /** The directories and the files of the disk, by path. */
  class FileSystem {
    var dirs: set<string>
    var files: map<string, string>

    constructor (dirs: set<string>, files: map<string, string>)
      ensures this.dirs == dirs && this.files == files
    {
      this.dirs := dirs;
      this.files := files;
    }

    /** `os.path.exists` */
    predicate Exists(path: string)
      reads this
    {
      path in dirs || path in files
    }
  }

  /** `f'{directory}/{file}'` */
  function PathOf(directory: string, file: string): string
  {
    directory + "/" + file
  }

  /** The text of a path before its last `/`: the directory `open` creates the file in. */
  function DirectoryOf(path: string): string
    decreases |path|
  {
    if path == [] then []
    else if path[|path| - 1] == '/' then path[..|path| - 1]
    else DirectoryOf(path[..|path| - 1])
  }

  /** A file name without `/` is created in the directory it is joined to. */
  lemma {:induction false} DirectoryOfPath(directory: string, file: string)
    requires '/' !in file
    ensures DirectoryOf(PathOf(directory, file)) == directory
    decreases |file|
  {
    var path := PathOf(directory, file);
    if file == [] {
      assert path[..|path| - 1] == directory;
    } else {
      assert file[|file| - 1] in file;
      assert path[..|path| - 1] == PathOf(directory, file[..|file| - 1]);
      assert forall c :: c in file[..|file| - 1] ==> c in file;
      DirectoryOfPath(directory, file[..|file| - 1]);
    }
  }

  /** A file name naming a subdirectory is created in that subdirectory. */
  lemma DirectoryOfSubdirectory(directory: string, sub: string, file: string)
    requires '/' !in file
    ensures DirectoryOf(PathOf(directory, sub + "/" + file)) == PathOf(directory, sub)
  {
    assert PathOf(directory, sub + "/" + file) == PathOf(PathOf(directory, sub), file);
    DirectoryOfPath(PathOf(directory, sub), file);
  }

  // ---------------------------------------------------------------------------
  // The file format
  // ---------------------------------------------------------------------------

  /** One pair as `generate` writes it, without the line break. */
  function Entry(key: string, value: Json): string
  {
    key + "=" + ToStr(value)
  }

  /** Each text followed by a line break. */
  function Terminated(texts: seq<string>): seq<string>
  {
    seq(|texts|, i requires 0 <= i < |texts| => texts[i] + "\n")
  }

  function Entries(d: Dict<Json>): seq<string>
  {
    seq(|d|, i requires 0 <= i < |d| => Entry(d[i].0, d[i].1))
  }

  /** The lines `generate` writes, one per pair, in the mapping's order. */
  function EntryLines(d: Dict<Json>): seq<string>
  {
    seq(|d|, i requires 0 <= i < |d| => Entry(d[i].0, d[i].1) + "\n")
  }

  /** The text `generate` writes for the pairs. */
  function Serialize(d: Dict<Json>): string
  {
    Concat(EntryLines(d))
  }

  /**
   * Iterating over a text file: every line ends with its `\n`, except a last
   * line that the text does not end with a line break.
   */
  function Lines(text: string): (lines: seq<string>)
    ensures forall i :: 0 <= i < |lines| ==> lines[i] != []
  {
    var parts := Split(text, '\n');
    var n := |parts| - 1;
    Terminated(parts[..n]) + (if parts[n] == [] then [] else [parts[n]])
  }

  /**
   * One line as `read` stores it: the key is the text before the first `=`
   * and the value the text from there to the next `=`, trailing whitespace
   * removed; a line without `=` has no second part and raises IndexError.
   */
  function ParseLine(line: string): (r: Result<(string, string)>)
    ensures r.Ok? <==> '=' in line
    ensures r.Ok? ==> '=' !in r.value.0 && r.value.0 + "=" <= line
    ensures r.Ok? ==> '=' !in r.value.1
    ensures r.Err? ==> r == Err(IndexErr)
  {
    var parts := Split(line, '=');
    SplitFirst(line, '=');
    if |parts| < 2 then Err(IndexErr)
    else
      assert parts[0] + "=" == line[..|parts[0]| + 1];
      assert parts[1] in parts;
      Ok((parts[0], RStrip(parts[1])))
  }

  /** Every line has an `=`, so that `read` gets through the whole file. */
  predicate AllParse(lines: seq<string>)
  {
    forall i :: 0 <= i < |lines| ==> '=' in lines[i]
  }

  /**
   * The pairs after `read` has stored the lines into `d` one after the other;
   * the first line without `=` ends the reading, with the earlier lines stored.
   */
  function Merge(d: Dict<Json>, lines: seq<string>): Dict<Json>
    decreases |lines|
  {
    if lines == [] then d
    else
      match ParseLine(lines[0])
      case Err(_) => d
      case Ok((key, value)) => Merge(Set(d, key, Str(value)), lines[1..])
  }

  /** The key of a line that has an `=`. */
  function KeyOf(line: string): string
    requires '=' in line
  {
    ParseLine(line).value.0
  }

  /** The value of a line that has an `=`. */
  function ValueOf(line: string): string
    requires '=' in line
  {
    ParseLine(line).value.1
  }

  // ---------------------------------------------------------------------------
  // The operator
  // ---------------------------------------------------------------------------

  class ArtifactProperties {
    var keyValuePairs: Option<Dict<Json>>
    var outDirectory: string
    var outFile: string
    var mode: string

    constructor (keyValuePairs: Option<Dict<Json>> := None, outDirectory: string := "/usr/src/app/out",
                 outFile: string := "artifact.properties", mode: string := "w")
      ensures this.keyValuePairs == keyValuePairs && this.outDirectory == outDirectory
      ensures this.outFile == outFile && this.mode == mode
    {
      this.keyValuePairs := keyValuePairs;
      this.outDirectory := outDirectory;
      this.outFile := outFile;
      this.mode := mode;
    }

    /**
     * `generate`: no pairs (None or an empty dict) is an error before the
     * disk is touched. An empty directory name never exists and cannot be
     * created, an OS error. Otherwise a missing output directory is created, the
     * file is opened, emptied in mode `w` and kept in mode `a`, and the
     * lines are written one at a time. Opening fails when the directory the
     * file path names (the output directory, or a subdirectory of it that the
     * file name names) is not a directory, when the file path is a directory
     * or ends with `/` (an empty file name among them), or for any other mode.
     */
    method Generate(fs: FileSystem) returns (r: Result<()>)
      modifies fs
      ensures keyValuePairs.None? || keyValuePairs.value == [] ==>
                r == Err(Custom(KeyValuePairsNotSet, Some(NoPairsMessage)))
                && fs.dirs == old(fs.dirs) && fs.files == old(fs.files)
      ensures keyValuePairs.Some? && keyValuePairs.value != [] && outDirectory == "" ==>
                r == Err(OsError) && fs.dirs == old(fs.dirs) && fs.files == old(fs.files)
      ensures keyValuePairs.Some? && keyValuePairs.value != [] ==>
                fs.dirs == old(fs.dirs) + (if outDirectory == "" || old(fs.Exists(outDirectory)) then {} else {outDirectory})
      ensures keyValuePairs.Some? && keyValuePairs.value != [] && outDirectory != "" ==>
                var path := PathOf(outDirectory, outFile);
                if (mode == "w" || mode == "a") && DirectoryOf(path) in fs.dirs && path !in fs.dirs
                   && path[|path| - 1] != '/' then
                  var kept := if mode == "a" && path in old(fs.files) then old(fs.files)[path] else "";
                  r == Ok(()) && fs.files == old(fs.files)[path := kept + Serialize(keyValuePairs.value)]
                else
                  r == Err(OsError) && fs.files == old(fs.files)
    {
      if keyValuePairs.None? || keyValuePairs.value == [] {
        return Err(Custom(KeyValuePairsNotSet, Some(NoPairsMessage)));
      }
      if outDirectory == "" {
        return Err(OsError);
      }
      if !fs.Exists(outDirectory) {
        fs.dirs := fs.dirs + {outDirectory};
      }
      var path := PathOf(outDirectory, outFile);
      if !(mode == "w" || mode == "a") || DirectoryOf(path) !in fs.dirs || path in fs.dirs || path[|path| - 1] == '/' {
        return Err(OsError);
      }
      var kept := if mode == "a" && path in fs.files then fs.files[path] else "";
      WriteLines(fs, path, kept, keyValuePairs.value);
      r := Ok(());
    }

    /**
     * `read`: the arguments and the disk are checked in order (directory
     * name, file name, directory, file); then missing pairs become an empty
     * dict and each line of the file is stored into the pairs, a later line
     * overriding an earlier one. A line without `=` raises IndexError and
     * leaves the lines before it stored.
     */
    method Read(fs: FileSystem, inDirectory: Option<string> := Some("/usr/src/app/in"),
                inFile: Option<string> := Some("artifact.properties")) returns (r: Result<Dict<Json>>)
      modifies this
      ensures inDirectory.None? || inDirectory.value == [] ==>
                r == Err(Custom(InDirectoryNotSet, Some(NoInDirectoryMessage))) && keyValuePairs == old(keyValuePairs)
      ensures inDirectory.Some? && inDirectory.value != [] && (inFile.None? || inFile.value == []) ==>
                r == Err(Custom(InFileNotSet, Some(NoInFileMessage))) && keyValuePairs == old(keyValuePairs)
      ensures inDirectory.Some? && inDirectory.value != [] && inFile.Some? && inFile.value != [] ==>
                var path := PathOf(inDirectory.value, inFile.value);
                if !fs.Exists(inDirectory.value) then
                  r == Err(Custom(InDirectoryNotSet, Some(MissingInDirectoryMessage))) && keyValuePairs == old(keyValuePairs)
                else if path !in fs.files then
                  r == Err(Custom(InFileNotSet, Some(MissingInFileMessage))) && keyValuePairs == old(keyValuePairs)
                else
                  var lines := Lines(fs.files[path]);
                  var merged := Merge(old(keyValuePairs).GetOr([]), lines);
                  keyValuePairs == Some(merged) && r == (if AllParse(lines) then Ok(merged) else Err(IndexErr))
      ensures outDirectory == old(outDirectory) && outFile == old(outFile) && mode == old(mode)
    {
      if inDirectory.None? || inDirectory.value == [] {
        return Err(Custom(InDirectoryNotSet, Some(NoInDirectoryMessage)));
      }
      if inFile.None? || inFile.value == [] {
        return Err(Custom(InFileNotSet, Some(NoInFileMessage)));
      }
      var path := PathOf(inDirectory.value, inFile.value);
      if !fs.Exists(inDirectory.value) {
        return Err(Custom(InDirectoryNotSet, Some(MissingInDirectoryMessage)));
      }
      if path !in fs.files {
        return Err(Custom(InFileNotSet, Some(MissingInFileMessage)));
      }
      if keyValuePairs.None? {
        keyValuePairs := Some([]);
      }
      var complete := StoreLines(Lines(fs.files[path]));
      if !complete {
        return Err(IndexErr);
      }
      return Ok(keyValuePairs.value);
    }

    /**
     * The reading loop of `read`: each line is stored into the pairs in
     * turn; a line without `=` stops it, and `complete` tells whether every
     * line was stored.
     */
    method StoreLines(lines: seq<string>) returns (complete: bool)
      requires keyValuePairs.Some?
      modifies this
      ensures keyValuePairs == Some(Merge(old(keyValuePairs).value, lines))
      ensures complete == AllParse(lines)
      ensures outDirectory == old(outDirectory) && outFile == old(outFile) && mode == old(mode)
    {
      ghost var merged := Merge(keyValuePairs.value, lines);
      var i := 0;
      while i < |lines|
        invariant 0 <= i <= |lines|
        invariant keyValuePairs.Some? && Merge(keyValuePairs.value, lines[i..]) == merged
        invariant forall k :: 0 <= k < i ==> '=' in lines[k]
        invariant outDirectory == old(outDirectory) && outFile == old(outFile) && mode == old(mode)
      {
        var pair := ParseLine(lines[i]);
        if pair.Err? {
          NotAllParse(lines, i);
          return false;
        }
        MergeStep(keyValuePairs.value, lines, i);
        keyValuePairs := Some(Set(keyValuePairs.value, pair.value.0, Str(pair.value.1)));
        i := i + 1;
      }
      return true;
    }
  }

  /**
   * The writing loop of `generate`: the file at `path`, opened with `kept`
   * as its content, receives one line per pair.
   */
  method WriteLines(fs: FileSystem, path: string, kept: string, pairs: Dict<Json>)
    modifies fs
    ensures fs.dirs == old(fs.dirs)
    ensures fs.files == old(fs.files)[path := kept + Serialize(pairs)]
  {
    var text := kept;
    fs.files := fs.files[path := text];
    ghost var lines := EntryLines(pairs);
    assert Concat(lines[..0]) == "" by {
      assert lines[..0] == [];
    }
    for i := 0 to |pairs|
      invariant fs.dirs == old(fs.dirs)
      invariant text == kept + Concat(lines[..i])
      invariant fs.files == old(fs.files)[path := text]
    {
      WrittenStep(kept, pairs, i);
      text := text + (Entry(pairs[i].0, pairs[i].1) + "\n");
      fs.files := fs.files[path := text];
    }
    assert lines[..|pairs|] == lines;
  }

  /** Writing the line of pair i after the first i lines gives the first i + 1 lines. */
  lemma WrittenStep(kept: string, d: Dict<Json>, i: nat)
    requires i < |d|
    ensures kept + Concat(EntryLines(d)[..i + 1])
            == (kept + Concat(EntryLines(d)[..i])) + (Entry(d[i].0, d[i].1) + "\n")
  {
    var lines := EntryLines(d);
    assert lines[..i + 1] == lines[..i] + [lines[i]];
    ConcatAppend(lines[..i], [lines[i]]);
    assert Concat([lines[i]]) == lines[i] + Concat([]);
    AppendAssociates(kept, Concat(lines[..i]), lines[i]);
  }


  lemma MergeStep(d: Dict<Json>, lines: seq<string>, i: nat)
    requires i < |lines| && '=' in lines[i]
    ensures Merge(d, lines[i..]) == Merge(Set(d, KeyOf(lines[i]), Str(ValueOf(lines[i]))), lines[i + 1..])
  {
    assert lines[i..][1..] == lines[i + 1..];
  }

  lemma NotAllParse(lines: seq<string>, i: nat)
    requires i < |lines| && '=' !in lines[i]
    ensures !AllParse(lines)
  {
  }

  // ---------------------------------------------------------------------------
  // Reading back what was written
  // ---------------------------------------------------------------------------

  /**
   * A pair is written on one line when its key and, for a string value, the
   * string hold no line break: a nested value's text is a `repr`, which
   * escapes every line break.
   */
  lemma EntryOneLine(key: string, value: Json)
    requires '\n' !in key
    requires value.Str? ==> '\n' !in value.s
    ensures '\n' !in Entry(key, value)
  {
    if !value.Str? {
      ReprUnescaped(value);
    }
  }

  /** Text `generate` can write so that `read` gives it back: no `=` and no line break. */
  predicate PlainText(s: string)
  {
    '=' !in s && '\n' !in s
  }

  /** Pairs whose lines read back as written: plain keys, plain values without trailing whitespace. */
  predicate Writable(d: Dict<Json>)
  {
    forall i :: 0 <= i < |d| ==>
      PlainText(d[i].0) && PlainText(ToStr(d[i].1)) && (ToStr(d[i].1) == [] || !IsSpace(ToStr(d[i].1)[|ToStr(d[i].1)| - 1]))
  }

  predicate DistinctKeys(d: Dict<Json>)
  {
    forall i, j :: 0 <= i < j < |d| ==> d[i].0 != d[j].0
  }

  /** The pairs as `read` stores them: every value as its text. */
  function Stringified(d: Dict<Json>): Dict<Json>
  {
    seq(|d|, i requires 0 <= i < |d| => (d[i].0, Str(ToStr(d[i].1))))
  }

  /** Joining with line breaks is the lines, each but the last with its break. */
  lemma {:induction false} JoinAsLines(parts: seq<string>)
    requires |parts| >= 1
    ensures Concat(Terminated(parts[..|parts| - 1])) + parts[|parts| - 1] == Join(parts, '\n')
  {
    var n := |parts| - 1;
    if n == 0 {
      assert Terminated(parts[..0]) == [];
    } else {
      JoinAsLines(parts[1..]);
      assert Terminated(parts[..n]) == [parts[0] + "\n"] + Terminated(parts[1..][..n - 1]);
      assert Concat(Terminated(parts[..n])) == parts[0] + "\n" + Concat(Terminated(parts[1..][..n - 1]));
    }
  }

  /** Iterating over a file's lines loses nothing: they make up its text. */
  lemma LinesConcat(text: string)
    ensures Concat(Lines(text)) == text
  {
    var parts := Split(text, '\n');
    var n := |parts| - 1;
    var last: seq<string> := if parts[n] == [] then [] else [parts[n]];
    assert Lines(text) == Terminated(parts[..n]) + last;
    ConcatAppend(Terminated(parts[..n]), last);
    ConcatLast(parts[n]);
    JoinAsLines(parts);
    SplitJoin(text, '\n');
  }

  lemma ConcatLast(part: string)
    ensures Concat(if part == [] then [] else [part]) == part
  {
    if part != [] {
      assert [part][1..] == [];
    }
  }

  /** The lines of the text `generate` writes are the lines it wrote. */
  lemma LinesOfSerialized(d: Dict<Json>)
    requires Writable(d)
    ensures Lines(Serialize(d)) == EntryLines(d)
  {
    var e := Entries(d);
    assert EntryLines(d) == Terminated(e);
    var parts := e + [""];
    assert parts[..|parts| - 1] == e;
    JoinAsLines(parts);
    assert Serialize(d) == Join(parts, '\n');
    forall i | 0 <= i < |parts|
      ensures '\n' !in parts[i]
    {
      if i < |e| {
        assert e[i] == d[i].0 + "=" + ToStr(d[i].1);
      }
    }
    JoinSplit(parts, '\n');
    assert Split(Serialize(d), '\n') == parts;
  }

  /** A written line reads back as its key and the text of its value. */
  lemma ParseEntry(key: string, value: Json)
    requires PlainText(key) && PlainText(ToStr(value))
    requires ToStr(value) == [] || !IsSpace(ToStr(value)[|ToStr(value)| - 1])
    ensures ParseLine(Entry(key, value) + "\n") == Ok((key, ToStr(value)))
  {
    var s := ToStr(value);
    assert Entry(key, value) + "\n" == key + ['='] + (s + "\n");
    SplitAt(key, '=', s + "\n");
    SplitNoSep(s + "\n", '=');
    RStripNewline(s);
  }

  lemma RStripNewline(s: string)
    requires s == [] || !IsSpace(s[|s| - 1])
    ensures RStrip(s + "\n") == s
  {
    assert (s + "\n")[..|s|] == s;
  }

  /** Every line `generate` writes has an `=` after its key. */
  lemma EntryLinesParse(d: Dict<Json>)
    ensures AllParse(EntryLines(d))
  {
    forall i | 0 <= i < |d|
      ensures '=' in EntryLines(d)[i]
    {
      assert EntryLines(d)[i][|d[i].0|] == '=';
    }
  }

  lemma EntryLinesTail(d: Dict<Json>)
    requires d != []
    ensures EntryLines(d)[0] == Entry(d[0].0, d[0].1) + "\n"
    ensures EntryLines(d)[1..] == EntryLines(d[1..])
    ensures Stringified(d) == [(d[0].0, Str(ToStr(d[0].1)))] + Stringified(d[1..])
  {
  }

  /**
   * Reading written lines into pairs that hold none of their keys appends
   * the pairs, values as text, in order.
   */
  lemma {:induction false} MergeEntries(base: Dict<Json>, d: Dict<Json>)
    requires Writable(d) && DistinctKeys(d)
    requires forall i :: 0 <= i < |d| ==> d[i].0 !in Keys(base)
    ensures Merge(base, EntryLines(d)) == base + Stringified(d)
    decreases |d|
  {
    if d == [] {
      assert base + Stringified(d) == base;
    } else {
      var key, value := d[0].0, d[0].1;
      var pair := (key, Str(ToStr(value)));
      EntryLinesTail(d);
      ParseEntry(key, value);
      MergeStep(base, EntryLines(d), 0);
      assert EntryLines(d)[0..] == EntryLines(d);
      var next := Set(base, key, pair.1);
      MergeEntriesTail(base, d, pair.1);
      MergeEntries(next, d[1..]);
      AppendAssociates(base, [pair], Stringified(d[1..]));
    }
  }

  /** After the first pair is read, the rest of the pairs meet the conditions again. */
  lemma MergeEntriesTail(base: Dict<Json>, d: Dict<Json>, v: Json)
    requires d != [] && Writable(d) && DistinctKeys(d)
    requires forall i :: 0 <= i < |d| ==> d[i].0 !in Keys(base)
    ensures Set(base, d[0].0, v) == base + [(d[0].0, v)]
    ensures Writable(d[1..]) && DistinctKeys(d[1..])
    ensures forall i :: 0 <= i < |d[1..]| ==> d[1..][i].0 !in Keys(Set(base, d[0].0, v))
  {
    KeysAppend(base, d[0].0, v);
    var rest := d[1..];
    forall i | 0 <= i < |rest|
      ensures rest[i] == d[i + 1]
    {
    }
    assert Writable(rest) by {
      forall i | 0 <= i < |rest|
        ensures PlainText(rest[i].0) && PlainText(ToStr(rest[i].1))
      {
        assert rest[i] == d[i + 1];
      }
    }
  }

  /**
   * Round trip: reading a file that `generate` wrote in mode `w` into
   * missing pairs gives the written pairs back, each value as its text.
   */
  lemma ReadBackWritten(d: Dict<Json>)
    requires Writable(d) && DistinctKeys(d)
    ensures AllParse(Lines(Serialize(d)))
    ensures Merge([], Lines(Serialize(d))) == Stringified(d)
  {
    LinesOfSerialized(d);
    EntryLinesParse(d);
    MergeEntries([], d);
    assert [] + Stringified(d) == Stringified(d);
  }

  /** A key that no line of the file has keeps the value the pairs held. */
  lemma {:induction false} MergeKeeps(d: Dict<Json>, lines: seq<string>, key: string)
    requires AllParse(lines)
    requires forall i :: 0 <= i < |lines| ==> KeyOf(lines[i]) != key
    ensures Get(Merge(d, lines), key) == Get(d, key)
    decreases |lines|
  {
    if lines != [] {
      var next := Set(d, KeyOf(lines[0]), Str(ValueOf(lines[0])));
      assert Merge(d, lines) == Merge(next, lines[1..]);
      assert forall i :: 0 <= i < |lines| - 1 ==> lines[1..][i] == lines[i + 1];
      MergeKeeps(next, lines[1..], key);
    }
  }

  /** A key takes the value of the last line that has it: later lines override earlier ones. */
  lemma {:induction false} MergeOverrides(d: Dict<Json>, lines: seq<string>, i: nat)
    requires AllParse(lines) && i < |lines|
    requires forall j :: i < j < |lines| ==> KeyOf(lines[j]) != KeyOf(lines[i])
    ensures Get(Merge(d, lines), KeyOf(lines[i])) == Some(Str(ValueOf(lines[i])))
    decreases |lines|
  {
    var next := Set(d, KeyOf(lines[0]), Str(ValueOf(lines[0])));
    assert Merge(d, lines) == Merge(next, lines[1..]);
    assert forall j :: 0 <= j < |lines| - 1 ==> lines[1..][j] == lines[j + 1];
    if i == 0 {
      MergeKeeps(next, lines[1..], KeyOf(lines[0]));
    } else {
      MergeOverrides(next, lines[1..], i - 1);
    }
  }

  /** The file the test of `generate` compares against. */
  lemma GenerateExample()
    ensures Serialize([("RESOURCE_NAME", Str("env1"))]) == "RESOURCE_NAME=env1\n"
  {
    var d := [("RESOURCE_NAME", Str("env1"))];
    var line := Entry("RESOURCE_NAME", Str("env1")) + "\n";
    assert line == "RESOURCE_NAME=env1\n";
    assert EntryLines(d) == [line];
    assert Concat([line]) == line + Concat([]);
  }

  /** The file the test of `read` writes is one line. */
  lemma ReadExampleLines()
    ensures Lines("KEY=VALUE") == ["KEY=VALUE"]
  {
    SplitNoSep("KEY=VALUE", '\n');
    assert Terminated([]) == [];
  }

  /** That line reads as the key `KEY` with the value `VALUE`. */
  lemma ReadExampleLine()
    ensures ParseLine("KEY=VALUE") == Ok(("KEY", "VALUE"))
  {
    assert "KEY=VALUE" == "KEY" + ['='] + "VALUE";
    assert "VALUE"[4] == 'E';
    ParseLineOfPair("KEY", "VALUE");
  }

  /** A line made of a key, `=` and a value without `=` or trailing space reads back as that pair. */
  lemma ParseLineOfPair(k: string, v: string)
    requires '=' !in k && '=' !in v
    requires v == [] || !IsSpace(v[|v| - 1])
    ensures ParseLine(k + ['='] + v) == Ok((k, v))
  {
    SplitAt(k, '=', v);
    SplitNoSep(v, '=');
  }

  /** The pairs the test of `read` compares against. */
  lemma ReadExample()
    ensures Merge([], Lines("KEY=VALUE")) == [("KEY", Str("VALUE"))]
  {
    ReadExampleLines();
    ReadExampleLine();
    MergeOne([], "KEY=VALUE");
    assert Keys<Json>([]) == [];
  }

  /** Reading one line with an `=` stores its pair. */
  lemma MergeOne(d: Dict<Json>, line: string)
    requires '=' in line
    ensures Merge(d, [line]) == Set(d, KeyOf(line), Str(ValueOf(line)))
  {
    assert [line][1..] == [];
  }
}
