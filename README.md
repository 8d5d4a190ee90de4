# pFish FileHasher in Dafny

This project models the classify-hash-aggregate engine of p-fish, the Python file
system hash program (`pFish-py3.py`), and proves properties of the model.
A `FileHasher` works in four stages:

1. It picks a hash algorithm from the command-line flags.
2. It walks a directory tree.
3. It handles each file the walk yields: the file must exist, must not be a symbolic
   link, and must be a regular file. Such a file is opened and read in blocks of
   `BLOCKSIZE` = 2^24 bytes, and every block is fed to a hash object. Then the file
   is stat'ed and a nine-field row is appended to `resultList`.
4. It keeps three counters. A True answer from `HashFile` adds one to
   `processCount` and a False answer adds one to `errorCount`. `processSize`
   accumulates the sizes of the hashed files.

The modules follow the program's structure:

- `Common`: `Option`, `byte` and `Min`.
- `Hashing`: the selection chain of `__init__`, `InitializeHashObject`, and the hash
  object as a value: the algorithm plus the chunks it has been updated with, in
  order. Also the upper-casing of the hex digest.
- `Files`: the filesystem as a map from paths to entries (missing, link, other
  entry, regular file). Also the `os.path.exists`/`islink`/`isfile` tests,
  `os.path.join`, and the output of `os.walk`.
- `Streaming`: the chunks that `read(BLOCKSIZE)` returns, the opened file as a class
  `InFile` with a read position, and the `while True` read loop as the method
  `StreamDigest`.
- `Verdicts`: what `HashFile` does with one path, as the function `HashFileSpec`,
  with lemmas on when it returns True, returns False, or raises.
- `Runs`: `ProcessFiles` as a fold `Run` of `HashFile` verdicts over the walk's
  paths, with conservation, the sum invariant, append-only and stop-at-the-exception
  lemmas.
- `PFish`: the class `FileHasher`. Its fields are `BLOCKSIZE`, `ROOTPATH`,
  `HASHTYPE`, the constant `hexdigest` (the digest function the object is given),
  `resultList` and the three counters. Its methods `HashFile` and
  `ProcessFiles` are proved against `HashFileSpec` and `Run`.

The model takes these inputs as parameters:

- The filesystem (`FileSystem`) and the walk (`seq<WalkStep>`), which carries the
  root and file names of each directory visited.
- What `hexdigest()` returns, as a function `HexFn` from algorithm and bytes to a
  string. `HexdigestContract` states hashlib's lower-case hex format where a lemma
  needs it.
- Whether the open succeeds, the index of the read call that raises (if any), and
  the result of `os.stat`, as fields of each regular file.

A failed stat is not a per-file error, and the model follows the code there:

- `os.stat` (`pFish-py3.py:177-178`) sits outside the `try`. A failing stat
  therefore propagates out of `HashFile` and `ProcessFiles`; it is not counted as a
  per-file error.
- The model's verdict for that case is `StatRaised`. `Run` stops at it and leaves
  the counters as that file found them.
- `ProcessFiles` returns `raised` to report it.

## Model

| member | source | states |
|---|---|---|
| `Hashing.SelectHashType` | pFish-py3.py:42-51 | HASHTYPE is always one of MD5/SHA1/SHA256/SHA512. The first set flag in the order md5, sha1, sha256, sha512 selects its name, and MD5 is the default when none is set (each name iff its condition) |
| `Hashing.SelectionFollowsTheFlag` | pFish-py3.py:42-51 | When exactly one flag is set, as the required mutually exclusive group of the command line ensures, the selected name is that flag's algorithm |
| `Hashing.InitializeHashObject` | pFish-py3.py:112-123 | A hash object is returned exactly when HASHTYPE is one of the four names; it is of that algorithm and has been fed nothing yet. Otherwise the result is None |
| `Hashing.Upper` | pFish-py3.py:167 | Defines `.upper()` on the ASCII letters, character by character; it keeps the length |
| `Hashing.HashObject.Update` | pFish-py3.py:164 | `update(chunk)` adds the chunk as the object's next update and keeps the algorithm; the bytes fed become the old ones followed by the chunk |
| `Hashing.HashObject.HexDigest` | pFish-py3.py:167 | Defines `hexdigest()`: the given digest function of the object's algorithm and of all the bytes fed, so only their concatenation matters |
| `Hashing.UpperOfLowerHex` | pFish-py3.py:167 | `.upper()` keeps the length of a lower-case hex string, makes it upper-case hex, and leaves its digits unchanged |
| `Hashing.StoredDigestFormat` | pFish-py3.py:167 | With hashlib's format, the stored digest is upper-case hex of twice the algorithm's digest size: 32, 40, 64 or 128 characters |
| `Files.Exists` | pFish-py3.py:148 | Defines `os.path.exists` on an entry: it follows links, so a dangling link does not exist |
| `Files.IsLink` | pFish-py3.py:151 | Defines `os.path.islink`: true of every link, dangling or not |
| `Files.IsFile` | pFish-py3.py:154 | Defines `os.path.isfile`: it follows links, so a regular file or a link to one |
| `Files.ClassificationSelectsRegular` | pFish-py3.py:148-154 | An entry passes exists, not-a-link and isfile exactly when it is a regular file, not a link to one |
| `Files.Join` | pFish-py3.py:135 | Defines two-argument POSIX `os.path.join(root, name)`; its shape is stated by `Files.JoinShape` |
| `Files.JoinShape` | pFish-py3.py:135 | `os.path.join(root, name)` ends with the name. An absolute name replaces the root. A relative one follows the root, with exactly one separator between them unless the root is empty or already ends in one, and nothing else: the length is fixed |
| `Files.WalkPaths` | pFish-py3.py:131-135 | Defines the sequence of full paths the two nested loops hand to `HashFile`: each step's file names joined to its root, step after step; the `dirs` of a step are not used |
| `Files.WalkPathsCount` | pFish-py3.py:131-135 | The paths the nested loops visit are exactly one per file name of the walk; directories contribute none |
| `Streaming.ChunksFrom` | pFish-py3.py:161-164 | Every chunk `read(BLOCKSIZE)` returns before the end is non-empty and at most the block size; there are no more chunks than bytes left |
| `Streaming.FlattenChunks` | pFish-py3.py:160-168 | The chunks put back together, in order, are exactly the file's content |
| `Streaming.ChunksAreFullBlocks` | pFish-py3.py:160-164 | Every chunk but the last is a full block of the requested size |
| `Streaming.ChunkCount` | pFish-py3.py:160-168 | The chunks cover the content and no block more: `ceil(len / BLOCKSIZE)` of them |
| `Streaming.BlockSizeIrrelevant` | pFish-py3.py:160-168 | The bytes fed to the hash are the same whatever the block size |
| `Streaming.InFile.constructor` | pFish-py3.py:157 | `open(theFile, 'rb')` yields a file positioned at its start, with no read made yet |
| `Streaming.InFile.Read` | pFish-py3.py:161 | `read(size)` returns the next `min(size, remaining)` bytes and advances the position by that much (empty at the end), or raises as the file's fault says; each call is counted |
| `Streaming.StreamDigest` | pFish-py3.py:160-168 | The loop ends with a hash object exactly when no read up to the final empty one raises. That object's updates are the old ones followed by exactly the file's chunks, in order, one `update` per non-empty read. It has been fed the whole content, and the loop made one read more than there are chunks. When a read raises, the chunks read were the file's first chunks |
| `Verdicts.HashFileSpec` | pFish-py3.py:145-207 | Defines `HashFile`'s outcome in the source's order: exists, not a link, is a file, open, read loop, `os.stat`. The digest is that of the object updated with the file's chunks. Its contract: only a regular file that opened gets past the `try`, a file read with a valid HASHTYPE had no read fault, a stat exception comes exactly when the stat is missing, and a row holds the path and the stat size |
| `Verdicts.HashFileOutcomes` | pFish-py3.py:148-207 | For a valid HASHTYPE, `HashFile` answers True iff the path exists, is not a link, is a regular file, opens, is read to the end and can be stat'ed. It answers False iff one of the first five fails, and raises iff only the stat fails |
| `Verdicts.LinkRefusedEvenToRegular` | pFish-py3.py:148-204 | A symlink to a regular file passes exists and isfile but is refused as a link |
| `Verdicts.DanglingLinkReportedMissing` | pFish-py3.py:148-207 | A dangling link is refused as a path that does not exist, because the existence test follows links and comes first |
| `Verdicts.RefusalReasons` | pFish-py3.py:148-207 | Each kind of entry that is not a regular file gets its diagnostic: missing or dangling gives "does not exist", any other link gives "link", and anything else gives "not a file" |
| `Verdicts.HashedRecord` | pFish-py3.py:167-195 | A True answer's row holds the path and the upper-cased hex digest of the whole content under the selected algorithm. Its other fields are the stat values, with the size at index 2 |
| `Verdicts.HashedDigestFormat` | pFish-py3.py:167-195 | With hashlib's format, a stored digest is upper-case hex of the algorithm's length, never "INVALID" |
| `Verdicts.BlockSizeDoesNotChangeVerdict` | pFish-py3.py:160-168 | Without a read fault, the block size changes nothing in `HashFile`'s outcome or row |
| `Runs.Step` | pFish-py3.py:136-143 | One iteration of the inner loop: True appends the row, adds one to `processCount` and the size to `processSize`; False adds one to `errorCount`; a stat exception raises. Its contract: the counter sum grows by one unless it raised, it raises exactly on a stat exception, and rows are only appended |
| `Runs.Run` | pFish-py3.py:131-143 | Defines the state after the loops handled the paths in order, stopping at the first stat exception; its properties are stated by the lemmas below |
| `Runs.FirstRaise` | pFish-py3.py:131-178 | The index of the first visited path whose `os.stat` raises: none before it raises, and it raises unless it is past the end |
| `Runs.RunWithoutRaise` | pFish-py3.py:134-195 | Over paths whose stat never raises, the run appends exactly the rows of the paths that hash, in order. It adds one to `processCount` per row, one to `errorCount` per other path, and the rows' sizes to `processSize` |
| `Runs.RunStaysRaised` | pFish-py3.py:177-178 | Once `os.stat` has raised, no later path changes the outcome |
| `Runs.RunStopsAtFirstRaise` | pFish-py3.py:131-178 | The run raises exactly when some path's stat raises, and ends in the state the paths before the first such one left |
| `Runs.Conservation` | pFish-py3.py:131-143 | `processCount + errorCount` grows by exactly the number of paths handled before the first stat exception. A run completes iff no stat raises, and then the sum grows by the number of paths |
| `Runs.AppendOnly` | pFish-py3.py:182-195 | The final `resultList` is the old one followed by the rows of the handled paths that hash, in walk order; earlier rows are never modified |
| `Runs.RunKeepsConsistent` | pFish-py3.py:140-195 | `len(resultList) == processCount`, and `processSize` equals the sum of the size field (SIZ_NDX) over the rows, after every run that starts with both |
| `Runs.RecordsAppend` | pFish-py3.py:131-195 | The rows of a run over two parts are those of the first part followed by those of the second |
| `Runs.RecordsComplete` | pFish-py3.py:172-207 | No partial records: every row is exactly the True answer of some visited path, and every True answer's row is present |
| `PFish.FileHasher.constructor` | pFish-py3.py:31-56 | HASHTYPE is the selected name, the results start empty with the counters at zero, and the object invariant holds |
| `PFish.FileHasher.HashFile` | pFish-py3.py:145-207 | The method's answer is `HashFileSpec` of the path. It appends the row and adds its size only on True; on False or a stat exception `resultList` and `processSize` are unchanged. The counters are untouched, and the sum invariant is kept |
| `PFish.FileHasher.HashAndCount` | pFish-py3.py:136-143 | One iteration of the inner loop: the new state is the step of the path's verdict, with one more `processCount` on True and one more `errorCount` on False. The object invariant is kept |
| `PFish.FileHasher.ProcessStep` | pFish-py3.py:134-143 | The inner loop over one directory's file names leaves the state that the run over their joined paths reaches, keeps the invariant, and only appends rows |
| `PFish.FileHasher.ProcessFiles` | pFish-py3.py:125-143 | The new state is the run of all the walk's paths from the old state, and `raised` says a stat exception ended it. The invariant is kept and rows are only appended. On a complete run, `processCount + errorCount` grows by the number of files the walk yields |

## Left out

- Command-line parsing (`ParseCommandLine`, `ValidateDirectory`, argparse and `os.access`): the constructor takes the four resulting flags and the root path.
- `os.path.abspath` of the root: `ROOTPATH` is kept as given, because the walk is an input.
- `os.walk` itself: the walk is an input sequence of `(root, dirs, files)` steps, and only its file names are visited.
- Hash internals (RFC 1321 for MD5, FIPS 180-4 for the SHA family): `hexdigest()` is an uninterpreted function of the algorithm and the bytes fed. The incremental hash object is a value holding its updates, not an object updated in place.
- `time.ctime`, `str(uid)`, `str(gid)` and `bin(mode)`: rows keep the raw stat values, because these renderings depend on the platform and library. So the model cannot show one path of the source: `time.ctime` (`pFish-py3.py:185-187`) runs after `processSize` has already grown (line 182) and before the append (line 195). If it raises on an out-of-range timestamp, the object is left with `processSize` ahead of the sizes in `resultList`, and the exception ends the program.
- Short reads: `read(n)` on a regular file is modelled as returning `min(n, remaining)` bytes.
- Exceptions inside the `try` other than failing to open or a read raising, and errors on closing the file: not modelled.
- `str.upper()` is modelled on ASCII letters only, which covers every hex digest.
- Paths follow POSIX `os.path.join`; Windows drive and separator rules are not modelled.
- All `print` diagnostics: they are replaced by the `Reason` a False answer carries.
- The optional `prettytable` import, `DumpResults`, `PrettyResults` and `CSVResults`, and the timing in `__main__`: output only.
- The comment beside `BLOCKSIZE` says 1 Megabyte, but the value 2^24 is 16 MiB; the model uses the value.
- The nested loops of `ProcessFiles` are split into three methods: `ProcessFiles` (outer loop), `ProcessStep` (inner loop) and `HashAndCount` (one iteration's body).
- Python's exception for a failed `os.stat` is modelled as the `raised` result that ends the run, not as a traceback.
