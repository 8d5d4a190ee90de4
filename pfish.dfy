/**
 * The `FileHasher` object: its configuration, its result list and its three
 * counters, and the two methods that change them, `HashFile` and
 * `ProcessFiles`, each proved against the functions of Verdicts and Runs.
 */
module PFish {
  import opened Common
  import opened Hashing
  import opened Files
  import opened Streaming
  import opened Verdicts
  import opened Runs

  class FileHasher {
    /** Bytes requested by each read: 2^24, that is 16 MiB. */
    const BLOCKSIZE: ChunkSize := 0x100_0000
    const ROOTPATH: Path
    const HASHTYPE: string
    /** hashlib's `hexdigest()`, which the model does not compute. */
    const hexdigest: HexFn

    var resultList: seq<Record>
    var processCount: nat
    var processSize: nat
    var errorCount: nat

    /** The object invariant between two files. */
    ghost predicate Valid()
      reads this
    {
      IsHashTypeName(HASHTYPE) && Consistent(State())
    }

    function State(): Summary
      reads this
    {
      Summary(resultList, processCount, processSize, errorCount)
    }

    /** The verdict `HashFile` gives each path of the filesystem. */
    function JudgeFor(fs: FileSystem): Judge
    {
      JudgeOf(fs, HASHTYPE, hexdigest, BLOCKSIZE)
    }

    /**
     * `__init__` after the command line has been parsed: the flags of the
     * mutually exclusive group choose HASHTYPE, and the results start empty.
     */
    constructor (rootPath: Path, md5: bool, sha1: bool, sha256: bool, sha512: bool, hexdigest: HexFn)
      ensures Valid()
      ensures ROOTPATH == rootPath && this.hexdigest == hexdigest
      ensures HASHTYPE == SelectHashType(md5, sha1, sha256, sha512)
      ensures resultList == [] && processCount == 0 && processSize == 0 && errorCount == 0
    {
      ROOTPATH := rootPath;
      HASHTYPE := SelectHashType(md5, sha1, sha256, sha512);
      this.hexdigest := hexdigest;
      resultList := [];
      processCount := 0;
      processSize := 0;
      errorCount := 0;
    }

    /**
     * `HashFile(theFile)`: classify the entry, stream it through the hash
     * object, stat it, and on success append its row and add its size. On
     * every other outcome `resultList` and `processSize` are unchanged.
     */
    method HashFile(fs: FileSystem, theFile: Path) returns (v: Verdict)
      requires processSize == SumSizes(resultList)
      modifies this
      ensures processSize == SumSizes(resultList)
      ensures v == HashFileSpec(theFile, Lookup(fs, theFile), HASHTYPE, hexdigest, BLOCKSIZE)
      ensures resultList == old(resultList) + (if v.Hashed? then [v.record] else [])
      ensures processSize == old(processSize) + (if v.Hashed? then v.record.fileSize else 0)
      ensures processCount == old(processCount) && errorCount == old(errorCount)
    {
      var node := Lookup(fs, theFile);
      if Exists(node) {
        if !IsLink(node) {
          if IsFile(node) {
            var f := node.file;
            // the try block: open, then the read loop
            if !f.openOk {
              return Refused(OpenFailed);
            }
            var inFile := new InFile(f);
            var hashObj := InitializeHashObject(HASHTYPE);
            var hashDigest: string;
            if hashObj.Some? {
              var fed, chunks := StreamDigest(inFile, hashObj.value, BLOCKSIZE);
              if fed.None? {
                return Refused(OpenFailed);
              }
              hashDigest := Upper(fed.value.HexDigest(hexdigest));
            } else {
              hashDigest := "INVALID";
            }
            // os.stat, outside the try
            if f.stat.None? {
              return StatRaised;
            }
            var m := f.stat.value;
            var fileSize := m.size;
            processSize := processSize + fileSize;
            var row := MakeRecord(theFile, hashDigest, m);
            assert (resultList + [row])[..|resultList|] == resultList;
            resultList := resultList + [row];
            return Hashed(row);
          } else {
            return Refused(NotAFile);
          }
        } else {
          return Refused(LinkSkipped);
        }
      }
      return Refused(PathMissing);
    }

    /**
     * `ProcessFiles`: for each step `(root, dirs, files)` of the walk, hash
     * and count the files of the step. The new state is the run of all the
     * walk's paths from the old state; `raised` says the run ended with the
     * exception of an `os.stat`.
     */
    method ProcessFiles(fs: FileSystem, walk: seq<WalkStep>) returns (raised: bool)
      requires Valid()
      modifies this
      ensures Valid()
      ensures Run(old(State()), WalkPaths(walk), JudgeFor(fs)) == RunResult(State(), raised)
      ensures !raised ==> processCount + errorCount == old(processCount + errorCount) + FileCount(walk)
      ensures old(resultList) <= resultList
    {
      ghost var s0 := State();
      ghost var judge := JudgeFor(fs);
      var i := 0;
      while i < |walk|
        invariant 0 <= i <= |walk|
        invariant Valid() && s0.resultList <= resultList
        invariant Run(s0, WalkPaths(walk[..i]), judge) == RunResult(State(), false)
      {
        ghost var before := WalkPaths(walk[..i]);
        ghost var mid := State();
        raised := ProcessStep(fs, walk[i].root, walk[i].files);
        assert walk[..i + 1][..i] == walk[..i];
        RunAppend(s0, before, JoinAll(walk[i].root, walk[i].files), judge);
        if raised {
          WalkPathsPrefix(walk, i + 1);
          RunStaysRaised(s0, WalkPaths(walk[..i + 1]), WalkPaths(walk), judge);
          return;
        }
        i := i + 1;
      }
      assert walk[..i] == walk;
      raised := false;
      Conservation(s0, WalkPaths(walk), judge);
      WalkPathsCount(walk);
    }

    /**
     * The inner loop of `ProcessFiles` over the file names of one step: each
     * name joined to the root goes to `HashFile`, and True adds one to
     * `processCount`, False one to `errorCount`; an exception of `os.stat`
     * ends the loop and leaves the counters as they were.
     */
    method ProcessStep(fs: FileSystem, root: Path, files: seq<string>) returns (raised: bool)
      requires Valid()
      modifies this
      ensures Valid() && old(resultList) <= resultList
      ensures Run(old(State()), JoinAll(root, files), JudgeFor(fs)) == RunResult(State(), raised)
    {
      ghost var s0 := State();
      ghost var judge := JudgeFor(fs);
      var j := 0;
      assert files[..0] == [];
      while j < |files|
        invariant 0 <= j <= |files|
        invariant Valid() && s0.resultList <= resultList
        invariant Run(s0, JoinAll(root, files[..j]), judge) == RunResult(State(), false)
      {
        var fullPath := Join(root, files[j]);
        ghost var sBefore := State();
        var result := HashAndCount(fs, fullPath);
        JoinAllSnoc(root, files, j);
        RunExtend(s0, JoinAll(root, files[..j]), fullPath, judge, sBefore, result);
        if result.StatRaised? {
          raised := true;
          JoinAllPrefix(root, files, j + 1);
          RunStaysRaised(s0, JoinAll(root, files[..j + 1]), JoinAll(root, files), judge);
          return;
        }
        j := j + 1;
      }
      assert files[..j] == files;
      raised := false;
    }

    /**
     * The body of the inner loop for one path: `HashFile`, then True adds
     * one to `processCount` and False one to `errorCount`. The new state is
     * the step of the path's verdict.
     */
    method HashAndCount(fs: FileSystem, fullPath: Path) returns (v: Verdict)
      requires Valid()
      modifies this
      ensures v == JudgeFor(fs)(fullPath)
      ensures Step(old(State()), v) == RunResult(State(), v.StatRaised?)
      ensures Valid() && old(resultList) <= resultList
    {
      v := HashFile(fs, fullPath);
      if v.Hashed? {
        processCount := processCount + 1;
      } else if v.Refused? {
        errorCount := errorCount + 1;
      }
    }
  }

  /** One more path: the step of its verdict from the state the run reached. */
  lemma RunExtend(s0: Summary, paths: seq<Path>, p: Path, judge: Judge, s: Summary, v: Verdict)
    requires Run(s0, paths, judge) == RunResult(s, false) && judge(p) == v
    ensures Run(s0, paths + [p], judge) == Step(s, v)
  {
    assert (paths + [p])[..|paths|] == paths;
  }
}
