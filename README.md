# Resumable chunk upload server, modelled in Dafny

The server in `backend/server.js` lets a client upload a large file in
chunks, ask which chunks it already has, and then merge them into one file.
It has three HTTP handlers, and they share one piece of state: the upload
directory on disk.

- `POST /upload/chunk` takes the form fields `fileKey` and `chunkIndex` and the
  uploaded chunk. It creates the directory `UPLOAD_DIR/fileKey` if that
  directory is missing, then moves the chunk into it under the name
  `${chunkIndex}`.
- `GET /upload/chunk/status?fileKey=…` lists that directory. It reports
  `parseInt(name, 10)` for each entry: NaN is shown as `null`.
- `POST /upload/merge` takes the field `fileKey`. It lists the directory,
  parses and numerically sorts the names, and reads the chunks back in that
  order. Each chunk is written to a write stream on the merged path and then
  unlinked. When the stream finishes, the directory is removed and the handler
  answers with the merged path. That path is the directory path with its first
  `-chunk` removed.

The model has these modules:

- **`Server`**: the class `UploadServer` holds the filesystem under
  `UPLOAD_DIR`. It has two parts:
  - `staging`: the staging directory of each key, mapping chunk name to bytes.
  - `files`: the regular files the merges wrote, mapping path to bytes.

  `Valid()` says that no path is both a directory and a file, the root
  included. Each handler is
  a method that returns a `Response`, which is one of:
  - the status and JSON body the handler sends;
  - `ServerError`: the 500 that Express sends when a synchronous handler
    throws;
  - `NoResponse`: the asynchronous merge handler threw, or an unhandled
    write-stream error stopped the process.

  The module also holds the path rules, a model of `readdirSync`, and client
  scenarios built on the three handlers.
- **`Staging`**: the value-level theory the handlers are proved against:
  - how puts accumulate in a directory: last write wins, and with distinct
    names the arrival order does not matter;
  - what the status listing reports;
  - `DrainChunks`, the merge loop as a function;
  - `AscendingConcat`, a reference meaning for a merge that does not depend on
    sorting: the least index first, then the rest.
- **`JsNumber`**: `parseInt(s, 10)` and the template literal `${n}` for
  integers, in the terms of section 19.2.5 of ECMA-262. Leading white space,
  an optional sign, then a digit prefix; NaN is modelled as `None`.
  - A name is *canonical* when `${parseInt(name)}` gives the name back.
  - The canonical names are exactly `"0"` and the decimal spellings without a
    leading zero. The round trip `parseInt(`${n}`) == n` is proved.
- **`JsString`**: `indexOf` and `String.prototype.replace` with a string
  pattern. Only the first occurrence is replaced.
- **`Ordering`**: `chunks.sort((a, b) => a - b)` on integers, modelled as an
  insertion sort that yields the ascending permutation of its input.
- **`Wrappers`**: `Option`.

The main results:

1. **Put results.** A put answers 400 when a field is missing.
   - When the key's path is a regular file (a merged output), a put with an
     uploaded file and `chunkIndex` `""` renames the upload over that file
     and answers 200, since `path.join` drops the empty segment. Every other
     put on that path answers 500 and changes nothing.
   - Otherwise the directory is created. The put answers 500 when there is no
     uploaded file or `chunkIndex` is `""`. Otherwise it overwrites the one
     chunk it names, and nothing else changes.
2. **Status listing.** The status names exactly `parseInt` of each entry. For
   chunks uploaded as `${n}`, in any order and with repeats, it lists each
   index once and nothing else (`UploadThenStatus`).
3. **Merge rejections.** The three 400 answers of the merge write nothing and
   change nothing.
4. **Merge success.** For a canonical directory, a successful merge writes
   `AscendingConcat` of the chunks, that is the chunks in numeric order.
   `"10"` comes after `"2"` (`TenAfterTwo`). The merge also removes the
   directory, so merging again answers `FileKey does not exist.`
   (`MergeTwice`). Uploading and then merging restores the staging area and
   leaves the ascending concatenation at the merged path (`UploadThenMerge`).
5. **Merge with a non-canonical name.** If the directory holds a name that is
   not canonical (`"01"`, `"+1"`, `"1a"`, …), the read of `${n}` throws
   part-way through the loop. The chunks already read have been unlinked, and
   the bytes written so far reach the output file, on a runtime where an
   unhandled promise rejection does not stop the process (see "## Left
   out"). The model states this with `DrainChunks`. A merge completes exactly when every name is canonical
   (`MergeCompletesIffCanonical`).
6. **Key without `-chunk`.** The merged path of such a key is its own staging
   directory. The loop unlinks every chunk, then the write stream fails with
   EISDIR: there is no reply, no output, and the directory is left empty
   (`MergeUnmarkedKey`). So a merge can only succeed for a key containing
   `-chunk`. The key `-chunk` itself is merged onto the upload root, a
   directory, with the same outcome (`MergeOntoRoot`).
7. **Merge cleanup.** The directory is removed only when the loop has
   unlinked every chunk. `rmdirSync` of a non-empty directory throws inside
   the stream's `finish` callback, which stops the process (`MergeListed`).

## Model

| member | source | states |
|---|---|---|
| `Server.UploadServer.constructor` | backend/server.js:10-12 | a fresh upload root starts with no staging directories and no files (an existing root with contents is any `Valid()` state the methods accept) |
| `Server.UploadServer.PutChunk` | backend/server.js:21-35 | 400 "Missing required parameters." with nothing changed when fileKey is absent or empty or chunkIndex is absent; when the key's path is a regular file: 200 with the upload replacing that file for chunkIndex "" and a file, otherwise 500 with nothing changed; 500 after creating the directory when the upload has no file or chunkIndex is ""; otherwise 200, the staging area is exactly `StagePut` of the old one and no file changes |
| `Server.UploadServer.ChunkStatus` | backend/server.js:37-51 | 400 "Missing fileKey parameter." when fileKey is absent or empty; 500 when the key's path is a file; 200 with [] for an unknown key; otherwise 200 with `parseInt` of every entry of some listing of the directory, each entry once |
| `Server.ReadDir` | backend/server.js:49 | a listing of a directory: every entry exactly once and nothing else |
| `Server.UploadServer.Merge` | backend/server.js:53-86 | the three 400 rejections change nothing; a path that is a file gives no reply and changes nothing; for a canonical non-empty directory whose merged path is not a directory (neither the root nor a staging directory): 200 with the merged path, that file holds `AscendingConcat` of the chunks, the directory is gone; merged path on a directory: no reply, no file written, the chunks are all unlinked; a non-canonical name: no reply, exactly the chunks `DrainChunks` did not reach remain unchanged, and the bytes it read are in the output file |
| `Server.UploadServer.MergeListed` | backend/server.js:70-85 | the merge after validation: 200 and the directory removed exactly when `DrainChunks` completes, leaves no chunk behind (else `rmdirSync` throws) and the merged path is neither the root nor a staging directory; the output holds the bytes drained whenever the stream could open; otherwise the directory holds what the drain did not unlink |
| `Server.UploadServer.ReadAndUnlink` | backend/server.js:74-79 | the loop reads, writes and unlinks exactly as `DrainChunks` does on the old directory: same bytes, same chunks left, same completion flag; nothing else changes |
| `Server.Missing` | backend/server.js:24 | `!fileKey` on a request field (also lines 40 and 56): absent or the empty string; no contract, the handlers' 400 cases state its meaning |
| `Server.StagingPath` | backend/server.js:28 | `path.join(UPLOAD_DIR, fileKey)` (also lines 44 and 60): the root, one separator, then the key, as its prefix and suffix |
| `Server.MergedPath` | backend/server.js:71 | the staging path with `.replace('-chunk', '')`; no contract, `MergedPathWithoutSuffix`, `MergedPathStripsFirst`, `UnmarkedKeyMergesOntoItself` and `DashChunkMergesOntoRoot` fix it |
| `Server.StagingDirIff` | backend/server.js:28 | the computable test for "this path is a staging directory" holds exactly when some key's `path.join(UPLOAD_DIR, key)` is that path |
| `Server.MergedPathWithoutSuffix` | backend/server.js:71 | a staging path without "-chunk" is its own merged path |
| `Server.MergedPathStripsFirst` | backend/server.js:71 | the merged path is the staging path with its first "-chunk" cut out, six characters shorter |
| `Server.UnmarkedKeyMergesOntoItself` | backend/server.js:71-73 | the write stream of a key without "-chunk" is opened on a staging directory |
| `Server.DashChunkMergesOntoRoot` | backend/server.js:71-73 | the key "-chunk" has the upload root as merged path, which is a directory |
| `Server.MergeOntoRoot` | backend/server.js:71-79 | merging the canonical key "-chunk" gives no reply, writes no file, and leaves its directory present and empty |
| `Server.MergeTwice` | backend/server.js:60-63 | after a merge answered 200, merging the same key again answers 400 "FileKey does not exist." |
| `Server.MergeUnmarkedKey` | backend/server.js:71-79 | merging a canonical key without "-chunk" gives no reply, writes no file, and leaves its directory present and empty |
| `Server.UploadAll` | backend/server.js:21-35 | uploading the chunks of a new key one by one answers 200 each time and leaves that key's directory equal to `Replay` of the puts, with nothing else changed |
| `Server.UploadThenStatus` | backend/server.js:37-51 | after uploading chunks named `${n}`, the status lists every uploaded index, each once, and no other value or NaN |
| `Server.UploadThenMerge` | backend/server.js:53-86 | after uploading chunks named `${n}` under a key with "-chunk", the merge answers 200 with the merged path, the file holds the chunks in ascending index order, and the staging area is as before the upload |
| `Staging.MakeDir` | backend/server.js:29 | creating a missing directory adds an empty one and keeps an existing one unchanged |
| `Staging.StagePut` | backend/server.js:28-32 | after a put the key has a directory holding the new payload under the name; every other chunk and every other key is unchanged |
| `Staging.ReplayStep` | backend/server.js:31-32 | one more put is one more write on the directory |
| `Staging.ReplayNames` | backend/server.js:31-32 | the entries after a run of puts are the entries before plus the names put |
| `Staging.ReplayUntouched` | backend/server.js:31-32 | a name that no put uses keeps its presence and its contents |
| `Staging.ReplayLastWriteWins` | backend/server.js:32 | each chunk holds the payload of the last put that named it |
| `Staging.ReplayOrderIrrelevant` | backend/server.js:31-32 | with distinct names, any permutation of the puts leaves the same directory |
| `Staging.CanonicalPutsIndices` | backend/server.js:31 | puts named `${n}` leave a canonical directory whose indices are exactly the n put |
| `Staging.ParseAll` | backend/server.js:49 | one entry per name, entry i being `parseInt` of name i |
| `Staging.ParseValues` | backend/server.js:65 | for names that all parse, entry i is the integer name i parses to |
| `Staging.MergeOrder` | backend/server.js:65-70 | the names parsed (line 65) and sorted numerically (line 70); no contract, `MergeOrderOfCanonical` and `SortAscending` fix it |
| `Staging.StatusOfCanonical` | backend/server.js:49 | for a canonical directory the status has no NaN, no repeated index, and exactly the directory's indices |
| `Staging.MergeOrderOfCanonical` | backend/server.js:65-70 | the sorted indices of a canonical directory are ascending, distinct, as many as the chunks, and exactly its indices |
| `Staging.AscendingConcatLeast` | backend/server.js:70-77 | the reference merge starts with the chunk of the least index |
| `Staging.AscendingConcatTwo` | backend/server.js:70-77 | two chunks `${m}` and `${n}` with m < n merge as the first followed by the second |
| `Staging.TenAfterTwo` | backend/server.js:70 | chunk "10" is merged after chunk "2" |
| `Staging.DrainChunks` | backend/server.js:74-79 | the merge loop as a function: read `${n}`, append, unlink, stop at the first missing name; no contract, `DrainCanonical`, `DrainFrame`, `MergeCompletesIffCanonical` and `ReadAndUnlink` fix it |
| `Staging.DrainCanonical` | backend/server.js:74-79 | visiting every index of a canonical directory once, in ascending order, writes `AscendingConcat`, unlinks every chunk and completes |
| `Staging.DrainFrame` | backend/server.js:74-79 | the loop only unlinks: remaining chunks keep their bytes, every unlinked chunk is canonical, and when it completes one chunk was unlinked per index visited |
| `Staging.MergeOfCanonical` | backend/server.js:65-79 | for a canonical directory, whatever the listing order, the loop writes `AscendingConcat`, leaves nothing and completes |
| `Staging.DrainCompleteCanonical` | backend/server.js:74-79 | a loop over as many indices as chunks completes only on a canonical directory |
| `Staging.MergeCompletesIffCanonical` | backend/server.js:65-79 | the loop completes if and only if every chunk name is canonical |
| `Ordering.Insert` | backend/server.js:70 | inserting into an ascending sequence gives an ascending sequence holding one more copy of the element |
| `Ordering.ConsAscending` | backend/server.js:70 | the head of an ascending sequence stays in front of an insertion into its tail |
| `Ordering.SortAscending` | backend/server.js:70 | the numeric sort yields an ascending permutation of its input |
| `Ordering.SortKeepsDistinct` | backend/server.js:70 | sorting indices without repeats gives indices without repeats |
| `JsNumber.ParseInt` | backend/server.js:65 | `parseInt(s, 10)` (also line 49), NaN as `None`; no contract, `ParseDigits`, `DecimalRoundTrip`, `CanonicalIffSpelling` and `NonCanonicalNames` fix it |
| `JsNumber.DecimalString` | backend/server.js:75 | `${n}` for an integer: never empty; `NatStringShape`, `DecimalRoundTrip` and `DecimalInjective` fix the rest |
| `JsNumber.NatStringShape` | backend/server.js:75 | `${n}` of a natural is all digits, starts with "0" only for 0, and has value n |
| `JsNumber.ParseDigits` | backend/server.js:65 | `parseInt` of a digit string reads all of it |
| `JsNumber.DecimalRoundTrip` | backend/server.js:75-76 | `parseInt(${n}, 10)` is n for every integer n |
| `JsNumber.DecimalInjective` | backend/server.js:75 | distinct indices are written under distinct names |
| `JsNumber.DecimalIsCanonical` | backend/server.js:31 | every name of the form `${n}` is canonical |
| `JsNumber.CanonicalInjective` | backend/server.js:49 | two canonical names parse to the same index only when they are the same name |
| `JsNumber.CanonicalHasSpelling` | backend/server.js:75 | a canonical name is "0", or digits without a leading zero, optionally after a minus sign |
| `JsNumber.PositiveSpellingIsCanonical` | backend/server.js:75 | digits without a leading zero are canonical |
| `JsNumber.NegativeSpellingIsCanonical` | backend/server.js:75 | a minus sign followed by digits without a leading zero is canonical |
| `JsNumber.CanonicalIffSpelling` | backend/server.js:75 | a name is canonical exactly when it has that spelling |
| `JsNumber.NonCanonicalNames` | backend/server.js:65-76 | "01", "+1", " 1" and "1a" parse to 1 and "-0" to 0, yet none of them is the `${}` spelling of its index, so the merge reads a different file |
| `JsString.IndexFrom` | backend/server.js:71 | the first occurrence of the pattern at or after a position, or none at all |
| `JsString.IndexOf` | backend/server.js:71 | the first occurrence of the pattern, or none at all |
| `JsString.ReplaceFirst` | backend/server.js:71 | `String.prototype.replace` with a string pattern; no contract, `ReplaceFirstAbsent` and `ReplaceFirstPresent` fix it |
| `JsString.ReplaceFirstAbsent` | backend/server.js:71 | replace with an absent pattern is the identity |
| `JsString.ReplaceFirstPresent` | backend/server.js:71 | replace cuts out exactly the first occurrence and puts the replacement there |

## Left out

- Express, multer, CORS and the body parsers are left out. A request is
  modelled by its already-parsed fields: `Some(text)` or `None`. Query
  parameters given twice (arrays) and other non-string fields are not
  modelled.
- The temporary file multer writes under `UPLOAD_DIR` and its rename are not
  modelled. A put is modelled as writing the payload under the chunk name. A
  failed rename leaves the temporary file behind, which is not modelled
  either.
- `path.join` normalisation is reduced to `root + "/" + name`. Keys or chunk
  indices containing `/`, `.` or `..` are opaque names in the model.
  - Escapes from the upload directory are not modelled.
  - Neither are merged paths whose parent directory does not exist; that can
    only happen when `UPLOAD_DIR` itself contains `-chunk`.
- The model calls `${n}` and `parseInt` on exact integers. IEEE double
  rounding beyond 2^53 and the exponent form `${1e21}` are not modelled.
- The write stream is asynchronous, and the model collapses it.
  - Bytes handed to `write` are taken as landing in the file in order.
  - A stream error is taken as a process crash with no reply.
  - After a crash the model keeps the state at the moment of failure. The
    restart and the lost in-memory state are not modelled.
- The model assumes a runtime on which an unhandled promise rejection does not
  stop the process: Node before version 15, or one started with
  `--unhandled-rejections=warn`. After a `readFileSync` throw in the merge
  loop, the write stream then still opens the merged path and the bytes
  handed to it land there. From Node 15 on, the rejection ends the process.
  The output may then be left absent, or created empty, depending on whether
  the asynchronous open ran. The model does not capture that outcome.
- The model follows Express 4: a rejected promise from the `async` merge
  handler is never answered. Express 5 would answer it with a 500.
- `readdirSync` order is left unspecified, and the contracts hold for every
  order.
- Concurrent requests are not modelled. Each handler runs to completion
  before the next one starts.
- Not modelled because the source does not implement them: a guard against
  path traversal, a conflict state for a second upload of the same key, a
  check that the chunk indices are contiguous, and an atomic rename of the
  merged file.
- `Server.UploadServer.Merge`: requires every chunk name in the directory to
  parse to an integer. With a NaN, `a - b` is NaN and the order that
  `Array.prototype.sort` then produces is left to the engine. Reading the
  file "NaN" is also not modelled.
- `Server.UploadServer.ChunkStatus`: states its result through some listing
  of the directory, not a fixed order, because `readdirSync` order is
  platform-defined.
