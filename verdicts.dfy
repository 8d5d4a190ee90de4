/**
 * What `HashFile` does with one path, as a function of what the path names:
 * the classification (exists, not a link, regular file), the open and the
 * read loop, and the `os.stat` call that follows them.
 */
module Verdicts {
  import opened Common
  import opened Hashing
  import opened Files
  import opened Streaming

  /**
   * The nine fields of a result row, in the order of FIL_NDX .. MDD_NDX.
   * The times, ids and mode are the raw `os.stat` values.
   */
  datatype Record = Record(path: Path, hashDigest: string, fileSize: nat,
                           modifiedTime: int, accessTime: int, createdTime: int,
                           ownerID: int, groupID: int, fileMode: int)

  /** The diagnostic each `return False` of `HashFile` prints. */
  datatype Reason =
    | PathMissing   // "Path does NOT exist"
    | LinkSkipped   // "Skipped Link NOT a File"
    | NotAFile      // "Skipped NOT a File"
    | OpenFailed    // "Open Failed: ..." (open or a read raised)

  /**
   * The outcome of `HashFile`: True with the row it appended, False with its
   * diagnostic, or the exception `os.stat` raises, which is not caught.
   */
  datatype Verdict = Hashed(record: Record) | Refused(reason: Reason) | StatRaised

  function MakeRecord(path: Path, digest: string, m: Meta): Record
  {
    Record(path, digest, m.size, m.mtime, m.atime, m.ctime, m.uid, m.gid, m.mode)
  }

  /** The part of `HashFile` after the `try`: stat the file and build its row. */
  function AfterStat(path: Path, digest: string, stat: Option<Meta>): Verdict
  {
    if stat.None? then StatRaised else Hashed(MakeRecord(path, digest, stat.value))
  }

  /**
   * `HashFile(theFile)` on the entry `node`: the three tests in order, the
   * open, the read loop, then `os.stat`. A row is only ever built for a
   * regular file that was stat'ed, from its path and its stat values.
   */
  function HashFileSpec(path: Path, node: Node, hashType: string, hex: HexFn, size: ChunkSize): (v: Verdict)
    ensures !v.Refused? ==> node.Regular? && node.file.openOk
    ensures !v.Refused? && IsHashTypeName(hashType) ==> !ReadFails(node.file, size)
    ensures v.StatRaised? <==> !v.Refused? && node.file.stat.None?
    ensures v.Hashed? ==> v.record.path == path && v.record.fileSize == node.file.stat.value.size
  {
    if !Exists(node) then Refused(PathMissing)
    else if IsLink(node) then Refused(LinkSkipped)
    else if !IsFile(node) then Refused(NotAFile)
    else
      var f := node.file;
      if !f.openOk then Refused(OpenFailed)
      else match InitializeHashObject(hashType)
        case None => AfterStat(path, "INVALID", f.stat)
        case Some(h) =>
          if ReadFails(f, size) then Refused(OpenFailed)
          else AfterStat(path, Upper(HashObject(h.algorithm, h.updates + Chunks(f.content, size)).HexDigest(hex)), f.stat)
  }

  /** The entry passed every test of `HashFile` and was read to the end. */
  predicate ReadableRegular(node: Node, size: ChunkSize)
  {
    node.Regular? && node.file.openOk && !ReadFails(node.file, size)
  }

  /**
   * With a valid HASHTYPE, `HashFile` returns True exactly when the path
   * exists, is not a link, is a regular file, opens, is read to the end, and
   * can be stat'ed; False exactly when one of the first five fails; it raises
   * exactly when all of those hold and `os.stat` fails.
   */
  lemma {:induction false} HashFileOutcomes(path: Path, node: Node, hashType: string, hex: HexFn, size: ChunkSize)
    requires IsHashTypeName(hashType)
    ensures var v := HashFileSpec(path, node, hashType, hex, size);
            && (v.Hashed? <==> Exists(node) && !IsLink(node) && IsFile(node) && ReadableRegular(node, size) && node.file.stat.Some?)
            && (v.Refused? <==> !(Exists(node) && !IsLink(node) && IsFile(node) && ReadableRegular(node, size)))
            && (v.StatRaised? <==> ReadableRegular(node, size) && node.file.stat.None?)
  {
    ClassificationSelectsRegular(node);
  }

  /**
   * A symbolic link is refused as a link even when it points at a regular
   * file, which `os.path.isfile` alone would accept.
   */
  lemma LinkRefusedEvenToRegular(path: Path, hashType: string, hex: HexFn, size: ChunkSize)
    ensures IsFile(Link(ToRegular)) && Exists(Link(ToRegular))
    ensures HashFileSpec(path, Link(ToRegular), hashType, hex, size) == Refused(LinkSkipped)
  {
  }

  /**
   * The existence test follows links and comes first, so a dangling link is
   * reported as a path that does not exist, not as a link.
   */
  lemma DanglingLinkReportedMissing(path: Path, hashType: string, hex: HexFn, size: ChunkSize)
    ensures HashFileSpec(path, Link(Dangling), hashType, hex, size) == Refused(PathMissing)
  {
  }

  /** The refusal reason of each kind of entry that is not a regular file. */
  lemma RefusalReasons(path: Path, node: Node, hashType: string, hex: HexFn, size: ChunkSize)
    requires !node.Regular?
    ensures HashFileSpec(path, node, hashType, hex, size)
         == Refused(if node == Missing || node == Link(Dangling) then PathMissing
                    else if node.Link? then LinkSkipped else NotAFile)
  {
  }

  /**
   * The row `HashFile` appends: the path, the upper-cased hex digest of the
   * whole content under the selected algorithm (never "INVALID" for a valid
   * HASHTYPE), and the stat fields, the size at index 2.
   */
  lemma HashedRecord(path: Path, node: Node, hashType: string, hex: HexFn, size: ChunkSize)
    requires IsHashTypeName(hashType)
    requires HashFileSpec(path, node, hashType, hex, size).Hashed?
    ensures node.Regular? && node.file.stat.Some?
    ensures var r := HashFileSpec(path, node, hashType, hex, size).record;
            var m := node.file.stat.value;
            && r.path == path
            && r.hashDigest == Upper(hex(InitializeHashObject(hashType).value.algorithm, node.file.content))
            && r == MakeRecord(path, r.hashDigest, m)
  {
    var h := InitializeHashObject(hashType).value;
    assert h.updates + Chunks(node.file.content, size) == Chunks(node.file.content, size);
    FlattenChunks(node.file.content, size);
  }

  /**
   * With hashlib's format, the stored digest is upper-case hex of the
   * algorithm's length, so it cannot be "INVALID".
   */
  lemma HashedDigestFormat(path: Path, node: Node, hashType: string, hex: HexFn, size: ChunkSize)
    requires IsHashTypeName(hashType) && HexdigestContract(hex)
    requires HashFileSpec(path, node, hashType, hex, size).Hashed?
    ensures var d := HashFileSpec(path, node, hashType, hex, size).record.hashDigest;
            && IsUpperHex(d)
            && |d| == 2 * DigestSize(InitializeHashObject(hashType).value.algorithm)
            && d != "INVALID"
  {
    HashedRecord(path, node, hashType, hex, size);
    var a := InitializeHashObject(hashType).value.algorithm;
    StoredDigestFormat(hex, a, node.file.content);
    var d := HashFileSpec(path, node, hashType, hex, size).record.hashDigest;
    if |d| > 0 {
      assert IsUpperHexChar(d[0]) && d[0] != 'I';
    }
  }

  /** Without a read fault, the block size changes nothing in the outcome. */
  lemma BlockSizeDoesNotChangeVerdict(path: Path, node: Node, hashType: string, hex: HexFn, s1: ChunkSize, s2: ChunkSize)
    requires !node.Regular? || node.file.readFault.None?
    ensures HashFileSpec(path, node, hashType, hex, s1) == HashFileSpec(path, node, hashType, hex, s2)
  {
    if node.Regular? && InitializeHashObject(hashType).Some? {
      var h := InitializeHashObject(hashType).value;
      var c := node.file.content;
      FlattenConcat(h.updates, Chunks(c, s1));
      FlattenConcat(h.updates, Chunks(c, s2));
      FlattenChunks(c, s1);
      FlattenChunks(c, s2);
    }
  }
}
