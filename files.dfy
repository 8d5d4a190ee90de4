/**
 * The filesystem as the engine observes it: what each path names, the three
 * `os.path` tests the classification uses, `os.path.join` (POSIX), and the
 * output of `os.walk`, which is taken as given.
 */
module Files {
  import opened Common

  type Path = string

  /** The ten fields of `os.stat`, in the order the program unpacks them. */
  datatype Meta = Meta(mode: int, ino: int, dev: int, nlink: int, uid: int, gid: int,
                       size: nat, atime: int, mtime: int, ctime: int)

  /**
   * A regular file: the bytes a full read returns, whether `open` succeeds,
   * the index of the `read` call that raises (if any), and what `os.stat`
   * returns (None when it raises).
   */
  datatype FileData = FileData(content: seq<byte>, openOk: bool, readFault: Option<nat>, stat: Option<Meta>)

  /** What a symbolic link resolves to. */
  datatype Target = Dangling | ToRegular | ToOther

  /**
   * What a path names at the moment it is examined. `NotRegular` covers
   * directories, pipes, sockets and devices.
   */
  datatype Node = Missing | Link(target: Target) | NotRegular | Regular(file: FileData)

  type FileSystem = map<Path, Node>

  function Lookup(fs: FileSystem, p: Path): Node
  {
    if p in fs then fs[p] else Missing
  }

  /** `os.path.exists`: follows links, so a dangling link does not exist. */
  predicate Exists(n: Node)
  {
    match n
    case Missing => false
    case Link(t) => t != Dangling
    case _ => true
  }

  /** `os.path.islink`: does not follow links. */
  predicate IsLink(n: Node)
  {
    n.Link?
  }

  /** `os.path.isfile`: follows links. */
  predicate IsFile(n: Node)
  {
    n.Regular? || n == Link(ToRegular)
  }

  /** The three tests in the order the engine applies them pass exactly for a regular file. */
  lemma ClassificationSelectsRegular(n: Node)
    ensures Exists(n) && !IsLink(n) && IsFile(n) <==> n.Regular?
  {
  }

  /** `os.path.join(root, name)` on POSIX, for two arguments. */
  function Join(root: Path, name: string): Path
  {
    if |name| > 0 && name[0] == '/' then name
    else if root == [] || root[|root| - 1] == '/' then root + name
    else root + "/" + name
  }

  /**
   * The joined path ends with the name; a relative name is placed after the
   * root, with one separator between them unless the root is empty or already
   * ends in one; an absolute name replaces the root.
   */
  lemma JoinShape(root: Path, name: string)
    ensures var p := Join(root, name);
            && |name| <= |p| && p[|p| - |name|..] == name
            && ((|name| == 0 || name[0] != '/') ==>
                  var sep := if root == [] || root[|root| - 1] == '/' then 0 else 1;
                  root <= p && |p| == |root| + sep + |name| && (sep == 1 ==> p[|root|] == '/'))
            && (|name| > 0 && name[0] == '/' ==> p == name)
  {
  }

  /** One triple `(root, dirs, files)` yielded by `os.walk`. */
  datatype WalkStep = WalkStep(root: Path, dirs: seq<string>, files: seq<string>)

  /** The full paths of the names, in order. */
  function JoinAll(root: Path, names: seq<string>): (ps: seq<Path>)
    ensures |ps| == |names|
  {
    if names == [] then []
    else JoinAll(root, names[..|names| - 1]) + [Join(root, names[|names| - 1])]
  }

  /**
   * The sequence of full paths the two nested loops of `ProcessFiles` hand
   * to `HashFile`: the file names of each step joined to its root, step by
   * step. The `dirs` of a step contribute nothing.
   */
  function WalkPaths(walk: seq<WalkStep>): seq<Path>
  {
    if walk == [] then []
    else WalkPaths(walk[..|walk| - 1]) + JoinAll(walk[|walk| - 1].root, walk[|walk| - 1].files)
  }

  /** The number of file entries `os.walk` lists, directories excluded. */
  function FileCount(walk: seq<WalkStep>): nat
  {
    if walk == [] then 0 else |walk[0].files| + FileCount(walk[1..])
  }

  lemma {:induction false} FileCountSnoc(walk: seq<WalkStep>, w: WalkStep)
    ensures FileCount(walk + [w]) == FileCount(walk) + |w.files|
  {
    if walk != [] {
      assert (walk + [w])[1..] == walk[1..] + [w];
      FileCountSnoc(walk[1..], w);
    }
  }

  /** One path per file entry of the walk, and none for a directory. */
  lemma {:induction false} WalkPathsCount(walk: seq<WalkStep>)
    ensures |WalkPaths(walk)| == FileCount(walk)
  {
    if walk != [] {
      var init := walk[..|walk| - 1];
      WalkPathsCount(init);
      assert walk == init + [walk[|walk| - 1]];
      FileCountSnoc(init, walk[|walk| - 1]);
    }
  }

  /** One more name: one more path at the end. */
  lemma JoinAllSnoc(root: Path, names: seq<string>, j: nat)
    requires j < |names|
    ensures JoinAll(root, names[..j + 1]) == JoinAll(root, names[..j]) + [Join(root, names[j])]
  {
    assert names[..j + 1][..j] == names[..j];
  }

  /** `JoinAll` is a prefix of itself on a longer list of names. */
  lemma {:induction false} JoinAllPrefix(root: Path, names: seq<string>, j: nat)
    requires j <= |names|
    ensures JoinAll(root, names[..j]) <= JoinAll(root, names)
  {
    var a := JoinAll(root, names[..j]);
    var b := JoinAll(root, names);
    forall i | 0 <= i < |a|
      ensures a[i] == b[i]
    {
      JoinAllAt(root, names[..j], i);
      JoinAllAt(root, names, i);
    }
  }

  /** The `k`-th path of a step is its `k`-th name joined to its root. */
  lemma {:induction false} JoinAllAt(root: Path, names: seq<string>, k: nat)
    requires k < |names|
    ensures JoinAll(root, names)[k] == Join(root, names[k])
    decreases |names|
  {
    if k < |names| - 1 {
      JoinAllAt(root, names[..|names| - 1], k);
    }
  }

  /** The paths of the first `i` steps are a prefix of the paths of the whole walk. */
  lemma {:induction false} WalkPathsPrefix(walk: seq<WalkStep>, i: nat)
    requires i <= |walk|
    ensures WalkPaths(walk[..i]) <= WalkPaths(walk)
    decreases |walk| - i
  {
    if i < |walk| {
      var init := walk[..|walk| - 1];
      assert init[..i] == walk[..i];
      WalkPathsPrefix(init, i);
    } else {
      assert walk[..i] == walk;
    }
  }
}
