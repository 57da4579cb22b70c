/**
 * The deployment script that merges the production dotenv files into one
 * `.env`: the choice of environment directory from the command line, the
 * rewriting of a Windows path into the path Docker Desktop mounts it at, and
 * the assembly of the merged content.
 */
module Dotenv {
  import opened Common

  // ---------------------------------------------------------------------------
  // Environment selection

  /** The error raised for an unknown environment type. */
  const UnknownEnvironment: string := "Unknown environment type. Use 'prod' or 'local'."

  /** The environment type: the first argument, or "prod" when it is missing or empty. */
  function EnvType(argv: seq<string>): (r: string)
    ensures r != ""
    ensures |argv| > 1 && argv[1] != "" ==> r == argv[1]
  {
    var t := if |argv| > 1 then argv[1] else "prod";
    if t == "" then "prod" else t
  }

  /** The dotenv directory, as path components below the script's directory. */
  function DotenvsDir(argv: seq<string>): (r: Result<seq<string>, string>)
    ensures r.Success? <==> EnvType(argv) == "prod" || EnvType(argv) == "local"
    ensures r.Failure? ==> r.error == UnknownEnvironment
  {
    var t := EnvType(argv);
    if t == "prod" then Success([".envs", ".production"])
    else if t == "local" then Success([".envs", ".local"])
    else Failure(UnknownEnvironment)
  }

  /** The files merged, in order: the Django settings, then the Postgres settings. */
  function DotenvFiles(dir: seq<string>): seq<seq<string>>
  {
    [dir + [".django"], dir + [".postgres"]]
  }

  /** Without an argument, or with an empty one, the production files are merged. */
  lemma DefaultIsProduction(argv: seq<string>)
    requires |argv| <= 1 || argv[1] == ""
    ensures DotenvsDir(argv) == Success([".envs", ".production"])
  {
  }

  /** "prod" and "local" pick their directories; any other argument fails. */
  lemma ArgumentPicksDirectory(argv: seq<string>)
    requires |argv| > 1 && argv[1] != ""
    ensures argv[1] == "prod" ==> DotenvsDir(argv) == Success([".envs", ".production"])
    ensures argv[1] == "local" ==> DotenvsDir(argv) == Success([".envs", ".local"])
    ensures argv[1] != "prod" && argv[1] != "local" ==> DotenvsDir(argv) == Failure(UnknownEnvironment)
  {
  }

  // ---------------------------------------------------------------------------
  // the script as a program
  //
  // `read` gives the text of a file named by its path components below the
  // script's directory; `baseDir` is the script's resolved directory.

  /** What the script writes to `.env`, or the error it raises for an unknown environment. */
  function ScriptOutput(argv: seq<string>, baseDir: string, read: seq<string> -> string): Result<string, string>
  {
    match DotenvsDir(argv)
    case Failure(e) => Failure(e)
    case Success(dir) =>
      var files := DotenvFiles(dir);
      Success(MergedContent(baseDir, seq(|files|, i requires 0 <= i < |files| => read(files[i])), true))
  }

  /** Two files are joined as the first, a newline, the second and a newline. */
  lemma JoinedTwo(a: string, b: string)
    ensures Joined([a, b]) == a + "\n" + b + "\n"
  {
    assert [a, b][..1] == [a];
    assert [a][..0] == [];
    assert Joined([a]) == "" + a + "\n" == a + "\n";
    assert Joined([a, b]) == Joined([a]) + b + "\n";
  }

  /**
   * The script fails exactly for an unknown environment type; otherwise `.env`
   * holds the `BASE_DIR` line, then the chosen directory's `.django` file, then
   * its `.postgres` file, each followed by a newline.
   */
  lemma ScriptMergesChosenFiles(argv: seq<string>, baseDir: string, read: seq<string> -> string)
    ensures ScriptOutput(argv, baseDir, read).Failure? <==> EnvType(argv) != "prod" && EnvType(argv) != "local"
    ensures ScriptOutput(argv, baseDir, read).Failure? ==> ScriptOutput(argv, baseDir, read).error == UnknownEnvironment
    ensures DotenvsDir(argv).Success? ==>
              ScriptOutput(argv, baseDir, read)
              == Success(BaseDirLine(baseDir) + read(DotenvsDir(argv).value + [".django"]) + "\n"
                           + read(DotenvsDir(argv).value + [".postgres"]) + "\n")
  {
    if DotenvsDir(argv).Success? {
      var dir := DotenvsDir(argv).value;
      var files := DotenvFiles(dir);
      var contents := seq(|files|, i requires 0 <= i < |files| => read(files[i]));
      assert contents == [read(dir + [".django"]), read(dir + [".postgres"])];
      var a, b := read(dir + [".django"]), read(dir + [".postgres"]);
      JoinedTwo(a, b);
      assert ScriptOutput(argv, baseDir, read) == Success(MergedContent(baseDir, contents, true));
      assert MergedContent(baseDir, contents, true) == BaseDirLine(baseDir) + (a + "\n" + b + "\n");
      assert BaseDirLine(baseDir) + (a + "\n" + b + "\n") == BaseDirLine(baseDir) + a + "\n" + b + "\n";
    }
  }

  /** Run without an argument, the script merges the production files. */
  lemma DefaultScriptMergesProduction(argv: seq<string>, baseDir: string, read: seq<string> -> string)
    requires |argv| <= 1
    ensures ScriptOutput(argv, baseDir, read)
            == Success(BaseDirLine(baseDir) + read([".envs", ".production", ".django"]) + "\n"
                         + read([".envs", ".production", ".postgres"]) + "\n")
  {
    DefaultIsProduction(argv);
    ScriptMergesChosenFiles(argv, baseDir, read);
    assert [".envs", ".production"] + [".django"] == [".envs", ".production", ".django"];
    assert [".envs", ".production"] + [".postgres"] == [".envs", ".production", ".postgres"];
  }

  // ---------------------------------------------------------------------------
  // to_docker_path

  /** `s.replace("\\", "/")`. */
  function Slashed(s: string): (r: string)
    ensures |r| == |s|
    ensures forall i :: 0 <= i < |s| ==> r[i] == if s[i] == '\\' then '/' else s[i]
  {
    if s == [] then [] else [if s[0] == '\\' then '/' else s[0]] + Slashed(s[1..])
  }

  /** The index of the first `c` in `s`, which must occur. */
  function FirstIndex(s: string, c: char): (k: nat)
    requires c in s
    ensures k < |s| && s[k] == c
    ensures forall i :: 0 <= i < k ==> s[i] != c
  {
    if s[0] == c then 0 else 1 + FirstIndex(s[1..], c)
  }

  /** Where Docker Desktop mounts the host's drives. */
  const HostMount: string := "/run/desktop/mnt/host/"

  /** `to_docker_path`: forward slashes, and a drive prefix turned into the mount point of that drive. */
  function ToDockerPath(path: string): string
  {
    var p := Slashed(path);
    if ':' in p then
      var k := FirstIndex(p, ':');
      HostMount + LowerAscii(p[..k]) + p[k + 1..]
    else p
  }

  /** `s` has no backslash. */
  predicate NoBackslash(s: string)
  {
    forall i :: 0 <= i < |s| ==> s[i] != '\\'
  }

  lemma NoBackslashConcat(a: string, b: string)
    requires NoBackslash(a) && NoBackslash(b)
    ensures NoBackslash(a + b)
  {
    forall i | 0 <= i < |a + b|
      ensures (a + b)[i] != '\\'
    {
      if i >= |a| {
        assert (a + b)[i] == b[i - |a|];
      }
    }
  }

  /** No backslash is left in the rewritten path. */
  lemma DockerPathHasNoBackslash(path: string)
    ensures NoBackslash(ToDockerPath(path))
  {
    var p := Slashed(path);
    assert NoBackslash(p);
    if ':' in p {
      var k := FirstIndex(p, ':');
      var drive := LowerAscii(p[..k]);
      assert NoBackslash(drive);
      assert NoBackslash(p[k + 1..]);
      assert NoBackslash(HostMount);
      NoBackslashConcat(HostMount, drive);
      NoBackslashConcat(HostMount + drive, p[k + 1..]);
    }
  }

  /** A path without a drive colon only has its backslashes turned into slashes. */
  lemma NoColonOnlySlashes(path: string)
    requires ':' !in path
    ensures ToDockerPath(path) == Slashed(path)
  {
  }

  /**
   * A path with a colon is split at the first one only: the lower-cased part
   * before it becomes the drive under the mount point, the rest follows as is,
   * later colons included.
   */
  lemma ColonSplitsAtFirst(path: string, k: nat)
    requires k < |path| && path[k] == ':' && forall i :: 0 <= i < k ==> path[i] != ':'
    ensures ToDockerPath(path) == HostMount + LowerAscii(Slashed(path[..k])) + Slashed(path[k + 1..])
  {
    var p := Slashed(path);
    assert p[k] == ':';
    assert FirstIndex(p, ':') == k;
    assert p[..k] == Slashed(path[..k]);
    assert p[k + 1..] == Slashed(path[k + 1..]);
  }

  /** A drive letter and a colon become the mount point of that drive. */
  lemma DriveLetterPath(d: char, rest: string)
    requires d != ':' && d != '\\'
    ensures ToDockerPath([d, ':'] + rest) == HostMount + [AsciiLower(d)] + Slashed(rest)
  {
    var path := [d, ':'] + rest;
    assert path[0] == d && path[1] == ':';
    ColonSplitsAtFirst(path, 1);
    assert path[..1] == [d];
    assert path[2..] == rest;
    assert Slashed([d]) == [d];
    assert LowerAscii([d]) == [AsciiLower(d)];
  }

  /** The example of the script: `C:\proj` is mounted at `/run/desktop/mnt/host/c/proj`. */
  lemma DockerPathExample()
    ensures ToDockerPath("C:\\proj") == "/run/desktop/mnt/host/c/proj"
  {
    var d, rest := 'C', "\\proj";
    DriveLetterPath(d, rest);
    assert [d, ':'] + rest == "C:\\proj";
    assert AsciiLower(d) == 'c';
    RestExample();
    assert HostMount + ['c'] + "/proj" == "/run/desktop/mnt/host/c/proj";
  }

  lemma RestExample()
    ensures Slashed("\\proj") == "/proj"
  {
    var rest := Slashed("\\proj");
    assert rest[0] == '/';
    assert forall i :: 1 <= i < 5 ==> rest[i] == "\\proj"[i];
  }

  // ---------------------------------------------------------------------------
  // merge

  /** The line naming the project directory inside the containers. */
  function BaseDirLine(baseDir: string): string
  {
    "BASE_DIR=" + ToDockerPath(baseDir) + "\n"
  }

  /** The file contents, in order, each followed by a newline. */
  function Joined(contents: seq<string>): (r: string)
  {
    if contents == [] then ""
    else Joined(contents[..|contents| - 1]) + contents[|contents| - 1] + "\n"
  }

  /** What `merge` writes: the optional `BASE_DIR` line, then the files. */
  function MergedContent(baseDir: string, contents: seq<string>, addBaseDir: bool): string
  {
    (if addBaseDir then BaseDirLine(baseDir) else "") + Joined(contents)
  }

  /** The loop of `merge`; `contents` are the files' texts, in the order given. */
  method Merge(baseDir: string, contents: seq<string>, addBaseDir: bool) returns (merged: string)
    ensures merged == MergedContent(baseDir, contents, addBaseDir)
  {
    merged := "";
    if addBaseDir {
      var dockerBaseDir := ToDockerPath(baseDir);
      merged := merged + "BASE_DIR=" + dockerBaseDir + "\n";
    }
    ghost var prefix := merged;
    for i := 0 to |contents|
      invariant merged == prefix + Joined(contents[..i])
    {
      JoinedSnoc(contents, i);
      merged := merged + contents[i];
      merged := merged + "\n";
    }
    assert contents[..|contents|] == contents;
  }

  /** One more file adds its text and a newline. */
  lemma JoinedSnoc(contents: seq<string>, i: nat)
    requires i < |contents|
    ensures Joined(contents[..i + 1]) == Joined(contents[..i]) + contents[i] + "\n"
  {
    assert contents[..i + 1][..i] == contents[..i];
  }

  /** Joining works file by file. */
  lemma {:induction false} JoinedConcat(a: seq<string>, b: seq<string>)
    ensures Joined(a + b) == Joined(a) + Joined(b)
    decreases |b|
  {
    if b == [] {
      assert a + b == a;
    } else {
      var front := b[..|b| - 1];
      assert (a + b)[..|a + b| - 1] == a + front;
      JoinedConcat(a, front);
    }
  }

  /** With `add_base_dir`, the content opens with the `BASE_DIR` line. */
  lemma MergedStartsWithBaseDir(baseDir: string, contents: seq<string>)
    ensures |BaseDirLine(baseDir)| <= |MergedContent(baseDir, contents, true)|
    ensures MergedContent(baseDir, contents, true)[..|BaseDirLine(baseDir)|] == BaseDirLine(baseDir)
  {
  }

  /** Without it there is no `BASE_DIR` line: the content is the files alone. */
  lemma MergedWithoutBaseDir(baseDir: string, contents: seq<string>)
    ensures MergedContent(baseDir, contents, false) == Joined(contents)
  {
  }

  /** File `i` appears whole, followed by a newline, right after the files before it. */
  lemma FileAppearsInOrder(contents: seq<string>, i: nat)
    requires i < |contents|
    ensures Joined(contents) == Joined(contents[..i]) + contents[i] + "\n" + Joined(contents[i + 1..])
  {
    assert contents == contents[..i + 1] + contents[i + 1..];
    JoinedConcat(contents[..i + 1], contents[i + 1..]);
    JoinedSnoc(contents, i);
  }

  /** The merged text is as long as all files together plus one newline per file. */
  lemma {:induction false} JoinedLength(contents: seq<string>)
    ensures |Joined(contents)| == TotalLength(contents) + |contents|
  {
    if contents != [] {
      var front := contents[..|contents| - 1];
      JoinedLength(front);
      TotalLengthSnoc(front, contents[|contents| - 1]);
      assert front + [contents[|contents| - 1]] == contents;
    }
  }

  /** The summed length of the files. */
  function TotalLength(contents: seq<string>): nat
  {
    if contents == [] then 0 else |contents[0]| + TotalLength(contents[1..])
  }

  lemma {:induction false} TotalLengthSnoc(a: seq<string>, s: string)
    ensures TotalLength(a + [s]) == TotalLength(a) + |s|
  {
    if a != [] {
      assert (a + [s])[1..] == a[1..] + [s];
      TotalLengthSnoc(a[1..], s);
    } else {
      assert [] + [s] == [s];
    }
  }
}
