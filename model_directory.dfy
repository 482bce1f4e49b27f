/**
 * The model-directory validator `is_model_dir` and the guarded delete
 * `remove_model`. The directory walk is taken as data: one entry per directory
 * visited, each with the directory, its child directories and its files.
 */
module ModelDirectory {
  import opened Wrappers

  /** One entry of a top-down directory walk. */
  datatype WalkEntry = WalkEntry(root: string, childDirs: seq<string>, files: seq<string>)

  /** Everything a walk yields; a path that cannot be listed yields nothing. */
  type Walk = seq<WalkEntry>

  /** The file extensions a model directory may hold; matching is case-sensitive. */
  const AllowedExtensions: set<string> := {".json", ".pkl", ".dat"}

  /** Index of the last '.' of `s`, or -1 when there is none. */
  function LastDot(s: string): (r: int)
    ensures -1 <= r < |s|
    ensures r >= 0 ==> s[r] == '.'
    ensures forall j :: r < j < |s| ==> s[j] != '.'
  {
    if s == [] then -1
    else if s[|s| - 1] == '.' then |s| - 1
    else LastDot(s[..|s| - 1])
  }

  predicate AllDots(s: string)
  {
    forall i :: 0 <= i < |s| ==> s[i] == '.'
  }

  /**
   * The extension part of splitting a file name: from its last '.' to the end,
   * unless only dots precede that '.', in which case there is no extension
   * (".json" and "..json" have none; "a." has the extension ".").
   */
  function Extension(name: string): (ext: string)
    ensures ext == "" || (ext[0] == '.' && |ext| <= |name| && name[|name| - |ext|..] == ext)
  {
    var dot := LastDot(name);
    if dot >= 0 && !AllDots(name[..dot]) then name[dot..] else ""
  }

  /**
   * `name` is a stem followed by the extension `ext`: `ext` is a '.' and no
   * further '.', and the stem is not made of dots only.
   */
  ghost predicate SplitsAt(name: string, ext: string)
  {
    && 1 <= |ext| <= |name|
    && name[|name| - |ext|..] == ext
    && ext[0] == '.'
    && (forall j :: 1 <= j < |ext| ==> ext[j] != '.')
    && !AllDots(name[..|name| - |ext|])
  }

  /** A non-empty extension splits the name. */
  lemma ExtensionSplits(name: string)
    requires Extension(name) != ""
    ensures SplitsAt(name, Extension(name))
  {
    var dot := LastDot(name);
    var ext := name[dot..];
    forall j | 1 <= j < |ext|
      ensures ext[j] != '.'
    {
      assert ext[j] == name[dot + j];
    }
  }

  /** A split determines the extension: it is the only non-empty extension a name can have. */
  lemma SplitDeterminesExtension(name: string, ext: string)
    requires SplitsAt(name, ext)
    ensures Extension(name) == ext
  {
    var d := |name| - |ext|;
    assert name[d] == ext[0] == '.';
    forall j | d < j < |name|
      ensures name[j] != '.'
    {
      assert name[j] == ext[j - d];
    }
    assert LastDot(name) == d;
  }

  /** Characterisation of Extension by splits, in both directions. */
  lemma ExtensionIff(name: string, ext: string)
    requires ext != ""
    ensures Extension(name) == ext <==> SplitsAt(name, ext)
  {
    if Extension(name) == ext {
      ExtensionSplits(name);
    }
    if SplitsAt(name, ext) {
      SplitDeterminesExtension(name, ext);
    }
  }

  /** `is_model_dir`: the walk has exactly one entry and every file in it has an allowed extension. */
  predicate IsModelDir(walk: Walk)
    ensures IsModelDir(walk) ==> |walk| == 1
    ensures |walk| == 1 && walk[0].files == [] ==> IsModelDir(walk)
  {
    |walk| == 1 && forall f :: f in walk[0].files ==> Extension(f) in AllowedExtensions
  }

  /**
   * A walk qualifies exactly when it has a single entry and each of its files is
   * a stem followed by one of the allowed extensions.
   */
  lemma IsModelDirIff(walk: Walk)
    ensures IsModelDir(walk) <==>
      |walk| == 1 && forall f :: f in walk[0].files ==> exists e :: e in AllowedExtensions && SplitsAt(f, e)
  {
    if |walk| == 1 {
      forall f | f in walk[0].files
        ensures Extension(f) in AllowedExtensions <==> exists e :: e in AllowedExtensions && SplitsAt(f, e)
      {
        if Extension(f) in AllowedExtensions {
          ExtensionSplits(f);
        }
        if e :| e in AllowedExtensions && SplitsAt(f, e) {
          SplitDeterminesExtension(f, e);
        }
      }
    }
  }

  /**
   * Only the number of walk entries is looked at, never the child directories
   * of the single entry: a listed subdirectory that the walk does not descend
   * into does not disqualify the directory.
   */
  lemma IsModelDirIgnoresChildDirs(root: string, childDirs: seq<string>, files: seq<string>)
    ensures IsModelDir([WalkEntry(root, childDirs, files)]) == IsModelDir([WalkEntry(root, [], files)])
  {
  }

  /** Extensions of sample names: the last '.' counts, a leading '.' does not, case is kept. */
  lemma ExtensionExamples()
    ensures Extension("a.json") == ".json"
    ensures Extension("b.pkl") == ".pkl"
    ensures Extension("a.txt") == ".txt"
    ensures Extension("A.JSON") == ".JSON"
    ensures Extension(".json") == ""
  {
    assert SplitsAt("a.json", ".json") by { assert "a.json"[..1][0] != '.'; }
    assert SplitsAt("b.pkl", ".pkl") by { assert "b.pkl"[..1][0] != '.'; }
    assert SplitsAt("a.txt", ".txt") by { assert "a.txt"[..1][0] != '.'; }
    assert SplitsAt("A.JSON", ".JSON") by { assert "A.JSON"[..1][0] != '.'; }
    SplitDeterminesExtension("a.json", ".json");
    SplitDeterminesExtension("b.pkl", ".pkl");
    SplitDeterminesExtension("a.txt", ".txt");
    SplitDeterminesExtension("A.JSON", ".JSON");
    assert LastDot(".json") == 0;
  }

  lemma IsModelDirExamples()
    ensures !IsModelDir([])
    ensures IsModelDir([WalkEntry("m", [], [])])
    ensures IsModelDir([WalkEntry("m", [], ["a.json", "b.pkl"])])
    ensures !IsModelDir([WalkEntry("m", ["c"], ["a.json", "b.pkl"]), WalkEntry("m/c", [], [])])
    ensures !IsModelDir([WalkEntry("m", [], ["a.json", "a.txt"])])
    ensures !IsModelDir([WalkEntry("m", [], [".json"])])
    ensures !IsModelDir([WalkEntry("m", [], ["A.JSON"])])
  {
    ExtensionExamples();
    assert "a.txt" in [WalkEntry("m", [], ["a.json", "a.txt"])][0].files;
    assert ".json" in [WalkEntry("m", [], [".json"])][0].files;
    assert "A.JSON" in [WalkEntry("m", [], ["A.JSON"])][0].files;
  }

  /** The error `remove_model` raises for a directory that fails the check. */
  datatype Error = ValueError(message: string)

  /** The ValueError for `path`: its message names the path it refused to remove. */
  function NotAModelDir(path: string): (e: Error)
    ensures "Cannot remove " <= e.message
    ensures |e.message| >= |"Cannot remove "| + |path|
    ensures e.message[|"Cannot remove "|..|"Cannot remove "| + |path|] == path
  {
    ValueError("Cannot remove " + path + ", it seems it is not a model directory")
  }

  /** A directory path as the store keeps it: not empty, and no trailing '/' unless it is the root "/". */
  predicate IsCanonical(path: string)
  {
    path != "" && (|path| == 1 || path[|path| - 1] != '/')
  }

  /** `path` without its trailing separators; "m/" and "m//" name the directory "m". */
  function Canonical(path: string): (c: string)
    ensures c <= path
    ensures |c| <= 1 || c[|c| - 1] != '/'
    ensures forall i :: |c| <= i < |path| ==> path[i] == '/'
    ensures path != "" ==> IsCanonical(c)
  {
    if |path| > 1 && path[|path| - 1] == '/' then Canonical(path[..|path| - 1]) else path
  }

  /** The prefix every path strictly inside the directory `root` starts with. */
  function ChildPrefix(root: string): string
  {
    var c := Canonical(root);
    if c == "/" then c else c + "/"
  }

  /** `path` is the directory `root` itself or lies inside it. */
  predicate IsUnder(path: string, root: string)
  {
    path == Canonical(root) || ChildPrefix(root) <= path
  }

  /** The directories left after deleting `root` and everything under it. */
  function RemoveTree(trees: map<string, Walk>, root: string): (r: map<string, Walk>)
    ensures Canonical(root) !in r
    ensures forall k :: k in trees && !IsUnder(k, root) ==> k in r && r[k] == trees[k]
    ensures forall k :: k in r ==> k in trees && !IsUnder(k, root)
  {
    map k | k in trees && !IsUnder(k, root) :: trees[k]
  }

  /** A trailing separator on the root does not change what is deleted. */
  lemma RemoveTreeTrailingSeparator(trees: map<string, Walk>, root: string)
    requires root != ""
    ensures RemoveTree(trees, root + "/") == RemoveTree(trees, root)
  {
    assert (root + "/")[..|root|] == root;
    assert Canonical(root + "/") == Canonical(root);
  }

  /**
   * An abstract filesystem: for each existing directory, under its canonical
   * path, what walking it yields. A walk of an existing directory starts with
   * that directory.
   */
  class FileSystem {
    var trees: map<string, Walk>

    ghost predicate Valid()
      reads this
    {
      forall p :: p in trees ==> IsCanonical(p) && |trees[p]| >= 1 && trees[p][0].root == p
    }

    constructor (trees: map<string, Walk>)
      requires forall p :: p in trees ==> IsCanonical(p) && |trees[p]| >= 1 && trees[p][0].root == p
      ensures Valid() && this.trees == trees
    {
      this.trees := trees;
    }

    /** The walk of `path`; a missing path yields nothing instead of raising. */
    function WalkOf(path: string): (w: Walk)
      reads this
      requires Valid()
      ensures Canonical(path) !in trees <==> w == []
      ensures w != [] ==> w[0].root == Canonical(path)
    {
      var c := Canonical(path);
      if c in trees then trees[c] else []
    }

    /**
     * `remove_model(path)`: deletes `path` and everything under it and returns
     * true when the walk of `path` passes `is_model_dir`; otherwise raises a
     * ValueError naming `path` and deletes nothing.
     */
    method RemoveModel(path: string) returns (r: Result<bool, Error>)
      requires Valid()
      modifies this
      ensures Valid()
      ensures IsModelDir(old(WalkOf(path))) ==> r == Ok(true) && trees == RemoveTree(old(trees), path)
      ensures !IsModelDir(old(WalkOf(path))) ==> r == Err(NotAModelDir(path)) && trees == old(trees)
      ensures r.Ok? ==> WalkOf(path) == [] && !IsModelDir(WalkOf(path))
    {
      if IsModelDir(WalkOf(path)) {
        trees := RemoveTree(trees, path);
        r := Ok(true);
      } else {
        r := Err(NotAModelDir(path));
      }
    }
  }
}
