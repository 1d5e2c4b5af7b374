/** The path and file-name rules of utils/files_handler.py: which file each loader opens,
    under which extension guard, and the names the savers write to. Reading and writing the
    files is not modelled; whether a path exists is a parameter. */
module FilesHandler {
  import opened Wrappers
  import Timestamps

  const PromptsFolderPath := "prompts/prompt_templates/"
  const QueriesInputFolderPath := "data/queries/input/"
  const DataInputFolderPath := "data/input/"
  const DataOutputFolderPath := "data/output/"
  const ConfigFolderPath := "configs/"
  const ElasticsearchConfigFilePath := "configs/elasticsearch_config.yaml"

  /** `sub` occurs in `s` starting at index `i`. */
  predicate OccursAt(s: string, sub: string, i: int)
  {
    0 <= i <= |s| - |sub| && s[i..i + |sub|] == sub
  }

  /** Python's `sub in s`: `sub` occurs somewhere in `s`. */
  predicate Contains(s: string, sub: string)
  {
    exists i | 0 <= i <= |s| - |sub| :: OccursAt(s, sub, i)
  }

  /** Why a loader cannot open its file. */
  datatype FileError =
    | MissingExtension(extension: string)  // the AssertionError of the extension guard
    | FileNotFound(path: string)           // the FileNotFoundError of the last path tried

  /** The file get_config reads and write_config writes: the name in the config folder, with
      '.yaml' appended unless the name already contains it somewhere. */
  function ConfigFilePath(configFileName: string): (path: string)
    ensures ConfigFolderPath + configFileName <= path
    ensures Contains(path, ".yaml")
    ensures Contains(configFileName, ".yaml") <==> path == ConfigFolderPath + configFileName
    ensures !Contains(configFileName, ".yaml") ==> path[|path| - 5..] == ".yaml"
    ensures !Contains(configFileName, ".yaml") ==> |path| == |ConfigFolderPath| + |configFileName| + 5
  {
    if Contains(configFileName, ".yaml") then
      var path := ConfigFolderPath + configFileName;
      ContainsInSuffix(ConfigFolderPath, configFileName, ".yaml");
      path
    else
      var path := ConfigFolderPath + configFileName + ".yaml";
      assert path[|path| - 5..] == ".yaml";
      assert OccursAt(path, ".yaml", |path| - 5);
      path
  }

  /** An occurrence in `b` is an occurrence in `a + b`. */
  lemma ContainsInSuffix(a: string, b: string, sub: string)
    requires Contains(b, sub)
    ensures Contains(a + b, sub)
  {
    var i :| 0 <= i <= |b| - |sub| && OccursAt(b, sub, i);
    assert (a + b)[|a| + i..|a| + i + |sub|] == b[i..i + |sub|];
    assert OccursAt(a + b, sub, |a| + i);
  }

  /** The default name of both config operations is used as it stands. */
  lemma ConfigFilePathDefault()
    ensures ConfigFilePath("models_config.yaml") == "configs/models_config.yaml"
  {
    assert OccursAt("models_config.yaml", ".yaml", 13);
  }

  /** The connector's config file is the '.yaml'-completed form of its bare name. */
  lemma ConfigFilePathBareName()
    ensures ConfigFilePath("elasticsearch_config") == ElasticsearchConfigFilePath
  {
    NotContainsWithoutHead("elasticsearch_config", ".yaml");
  }

  /** A text lacking the first character of a pattern does not contain the pattern. */
  lemma NotContainsWithoutHead(s: string, sub: string)
    requires |sub| > 0 && sub[0] !in s
    ensures !Contains(s, sub)
  {
    forall i | 0 <= i <= |s| - |sub|
      ensures !OccursAt(s, sub, i)
    {
      assert s[i..i + |sub|][0] == s[i];
    }
  }

  /** The prompt template file: the '.txt' guard, then the prompts folder. */
  function PromptFilePath(fileName: string): (r: Result<string, FileError>)
    ensures r.Success? <==> Contains(fileName, ".txt")
    ensures r.Success? ==> r.value == PromptsFolderPath + fileName
    ensures r.Failure? ==> r.error == MissingExtension(".txt")
  {
    if Contains(fileName, ".txt") then Success(PromptsFolderPath + fileName)
    else Failure(MissingExtension(".txt"))
  }

  /** The queries file: the '.json' guard, then the queries input folder. */
  function QueriesFilePath(fileName: string): (r: Result<string, FileError>)
    ensures r.Success? <==> Contains(fileName, ".json")
    ensures r.Success? ==> r.value == QueriesInputFolderPath + fileName
    ensures r.Failure? ==> r.error == MissingExtension(".json")
  {
    if Contains(fileName, ".json") then Success(QueriesInputFolderPath + fileName)
    else Failure(MissingExtension(".json"))
  }

  /** The data file: the '.csv' guard, then the input folder, falling back to the output
      folder when the input path does not exist; a missing fallback raises. */
  function DataFilePath(fileName: string, fileExists: string -> bool): (r: Result<string, FileError>)
    ensures !Contains(fileName, ".csv") ==> r == Failure(MissingExtension(".csv"))
    ensures Contains(fileName, ".csv") && fileExists(DataInputFolderPath + fileName)
            ==> r == Success(DataInputFolderPath + fileName)
    ensures r.Success? ==> fileExists(r.value)
    ensures r.Success? ==> r.value == DataInputFolderPath + fileName || r.value == DataOutputFolderPath + fileName
    ensures r.Success? <==> Contains(fileName, ".csv")
                            && (fileExists(DataInputFolderPath + fileName) || fileExists(DataOutputFolderPath + fileName))
  {
    if !Contains(fileName, ".csv") then Failure(MissingExtension(".csv"))
    else if fileExists(DataInputFolderPath + fileName) then Success(DataInputFolderPath + fileName)
    else if fileExists(DataOutputFolderPath + fileName) then Success(DataOutputFolderPath + fileName)
    else Failure(FileNotFound(DataOutputFolderPath + fileName))
  }

  /** The guards test for a substring, not a suffix: a name whose extension is something else
      passes them. */
  lemma ExtensionGuardIsSubstringTest()
    ensures PromptFilePath("notes.txt.bak") == Success(PromptsFolderPath + "notes.txt.bak")
    ensures QueriesFilePath("q.json.old").Success?
    ensures PromptFilePath("notes").Failure?
  {
    assert OccursAt("notes.txt.bak", ".txt", 5);
    assert OccursAt("q.json.old", ".json", 1);
    NotContainsWithoutHead("notes", ".txt");
  }

  /** `s.replace(pat, '')`: scanning left to right, every non-overlapping occurrence of `pat`
      is deleted. */
  function RemoveAll(s: string, pat: string): (r: string)
    requires |pat| > 0
    ensures |r| <= |s|
    ensures Contains(s, pat) <==> |r| < |s|
    ensures !Contains(s, pat) ==> r == s
    decreases |s|
  {
    if |s| < |pat| then
      NotContainsShort(s, pat);
      s
    else if s[..|pat|] == pat then
      assert OccursAt(s, pat, 0);
      RemoveAll(s[|pat|..], pat)
    else
      ContainsTail(s, pat);
      [s[0]] + RemoveAll(s[1..], pat)
  }

  /** What `str.replace` leaves: everything before the leftmost occurrence, then the result of
      removing the occurrences from the rest after it. With the unchanged case of RemoveAll's
      contract, this fixes the result for every text. */
  lemma {:induction false} RemoveAllAtFirstOccurrence(s: string, pat: string, i: nat)
    requires |pat| > 0
    requires OccursAt(s, pat, i) && forall j :: 0 <= j < i ==> !OccursAt(s, pat, j)
    ensures RemoveAll(s, pat) == s[..i] + RemoveAll(s[i + |pat|..], pat)
    decreases i
  {
    if i == 0 {
      RemoveAllAtMatch(s, pat);
      assert s[..0] == [];
    } else {
      var t := s[1..];
      var k: nat := i - 1;
      NoEarlierOccurrenceInTail(s, pat, i);
      RemoveAllAtFirstOccurrence(t, pat, k);
      RemoveAllAtMiss(s, pat);
      RemoveAllOfTailSlice(s, t, pat, k, i);
      JoinAfterHead(s, i, t, k, RemoveAll(s, pat), RemoveAll(t, pat),
                    RemoveAll(t[k + |pat|..], pat), RemoveAll(s[i + |pat|..], pat));
    }
  }

  /** A suffix of the tail is a suffix of the text, so removal gives the same result. */
  lemma RemoveAllOfTailSlice(s: string, t: string, pat: string, k: nat, i: nat)
    requires |pat| > 0 && 0 < |s| && t == s[1..] && k + 1 == i && k + |pat| <= |t|
    ensures RemoveAll(t[k + |pat|..], pat) == RemoveAll(s[i + |pat|..], pat)
  {
    assert t[k + |pat|..] == s[i + |pat|..];
  }

  /** Sequence bookkeeping for the step above, kept apart from RemoveAll's contract: the kept
      first character, then the tail's prefix, then the rest. */
  lemma JoinAfterHead(s: string, i: nat, t: string, k: nat,
                      whole: string, tail: string, tailRest: string, rest: string)
    requires 0 < i <= |s| && t == s[1..] && k + 1 == i
    requires whole == [s[0]] + tail && tail == t[..k] + tailRest && tailRest == rest
    ensures whole == s[..i] + rest
  {
    assert t[..k] == s[1..i];
    assert s[..i] == [s[0]] + s[1..i];
  }

  /** A text that starts with the pattern loses it. */
  lemma RemoveAllAtMatch(s: string, pat: string)
    requires |pat| > 0 && OccursAt(s, pat, 0)
    ensures RemoveAll(s, pat) == RemoveAll(s[|pat|..], pat)
  {
    assert s[..|pat|] == s[0..|pat|];
  }

  /** A text that does not start with the pattern keeps its first character. */
  lemma RemoveAllAtMiss(s: string, pat: string)
    requires |pat| > 0 && |pat| <= |s| && !OccursAt(s, pat, 0)
    ensures RemoveAll(s, pat) == [s[0]] + RemoveAll(s[1..], pat)
  {
    assert s[..|pat|] == s[0..|pat|];
  }

  /** Dropping the first character shifts the leftmost occurrence one place to the left. */
  lemma NoEarlierOccurrenceInTail(s: string, pat: string, i: nat)
    requires 0 < i && OccursAt(s, pat, i) && forall j :: 0 <= j < i ==> !OccursAt(s, pat, j)
    ensures OccursAt(s[1..], pat, i - 1) && forall j :: 0 <= j < i - 1 ==> !OccursAt(s[1..], pat, j)
  {
    var t := s[1..];
    assert t[i - 1..i - 1 + |pat|] == s[i..i + |pat|];
    forall j | 0 <= j < i - 1
      ensures !OccursAt(t, pat, j)
    {
      assert !OccursAt(s, pat, j + 1);
      assert t[j..j + |pat|] == s[j + 1..j + 1 + |pat|];
    }
  }

  /** A text shorter than the pattern does not contain it. */
  lemma NotContainsShort(s: string, pat: string)
    requires |s| < |pat|
    ensures !Contains(s, pat)
  {
  }

  /** When the pattern does not start the text, the text contains it iff its tail does. */
  lemma ContainsTail(s: string, pat: string)
    requires |pat| <= |s| && s[..|pat|] != pat
    ensures Contains(s, pat) <==> Contains(s[1..], pat)
  {
    if Contains(s, pat) {
      var i :| 0 <= i <= |s| - |pat| && OccursAt(s, pat, i);
      assert i != 0 by { assert s[0..|pat|] == s[..|pat|]; }
      assert s[1..][i - 1..i - 1 + |pat|] == pat;
      assert OccursAt(s[1..], pat, i - 1);
    }
    if Contains(s[1..], pat) {
      var i :| 0 <= i <= |s| - 1 - |pat| && OccursAt(s[1..], pat, i);
      assert s[i + 1..i + 1 + |pat|] == s[1..][i..i + |pat|];
      assert OccursAt(s, pat, i + 1);
    }
  }

  /** The file save_df_to_csv writes: every '.csv' removed from the name, then '_', the stamp
      of the current time and '.csv'. `now` is the text of the current time. */
  function CsvOutputPath(fileName: string, now: string): (path: string)
    ensures path == DataOutputFolderPath + RemoveAll(fileName, ".csv") + "_" + Timestamps.GetStamp(now) + ".csv"
    ensures !Contains(fileName, ".csv") ==> path == DataOutputFolderPath + fileName + "_" + Timestamps.GetStamp(now) + ".csv"
  {
    var name := if Contains(fileName, ".csv") then RemoveAll(fileName, ".csv") else fileName;
    DataOutputFolderPath + (name + "_" + Timestamps.GetStamp(now)) + ".csv"
  }

  /** Removing every occurrence does not leave a name free of '.csv': deleting the inner one
      joins the pieces around it into a new one. */
  lemma CsvExtensionCanSurvive()
    ensures RemoveAll("a.c.csvsv", ".csv") == "a.csv"
  {
    var s := "a.c.csvsv";
    assert !OccursAt(s, ".csv", 0) by { assert s[0] == 'a'; }
    assert !OccursAt(s, ".csv", 1) by { assert s[4] == 'c'; }
    assert !OccursAt(s, ".csv", 2) by { assert s[2] == 'c'; }
    assert s[3..7] == ".csv";
    RemoveAllAtFirstOccurrence(s, ".csv", 3);
    assert s[..3] == "a.c" && s[7..] == "sv";
    assert RemoveAll("sv", ".csv") == "sv";
  }

  /** The file save_to_json writes: the name, the stamp with no separator, then '.json'. */
  function JsonOutputPath(fileName: string, now: string): (path: string)
    ensures DataOutputFolderPath + fileName <= path
    ensures path[|DataOutputFolderPath| + |fileName|..] == Timestamps.GetStamp(now) + ".json"
  {
    var path := DataOutputFolderPath + fileName + Timestamps.GetStamp(now) + ".json";
    assert path[|DataOutputFolderPath| + |fileName|..] == Timestamps.GetStamp(now) + ".json";
    path
  }
}
