/**
 * The three HTTP handlers of the chunk-upload server, over an abstract
 * filesystem: the staging directories under the upload root (one per
 * `fileKey`, holding one file per chunk) and the regular files the merge
 * writes beside them.
 */
module Server {
  import opened Wrappers
  import opened JsNumber
  import opened JsString
  import opened Ordering
  import opened Staging

  /** The JSON bodies the handlers send. */
  datatype Body =
    | Message(message: string)
    | UploadedChunks(uploadedChunks: seq<Option<int>>)
    | MergedFile(message: string, filePath: string)

  /**
   * What the client gets back.  `ServerError` is the 500 page Express sends
   * when a synchronous handler throws; `NoResponse` is an asynchronous
   * handler that throws (the rejected promise is never answered) or an
   * unhandled stream error that takes the process down.
   */
  datatype Response =
    | Json(status: int, body: Body)
    | ServerError
    | NoResponse

  /** `!field` for a form or query field: absent, or the empty string. */
  predicate Missing(field: Option<string>) {
    field.None? || field.value == ""
  }

  /** `path.join(UPLOAD_DIR, fileKey)` for a plain key. */
  function StagingPath(root: string, key: string): (p: string)
    ensures |p| == |root| + 1 + |key|
    ensures p[..|root| + 1] == root + "/" && p[|root| + 1..] == key
  {
    root + "/" + key
  }

  /** Where the merge writes: the staging path with its first "-chunk" removed. */
  function MergedPath(root: string, key: string): string {
    ReplaceFirst(StagingPath(root, key), "-chunk", "")
  }

  /** The path is the staging directory of some key (computable form). */
  predicate IsStagingDir(root: string, staging: map<string, Dir>, p: string) {
    |root| + 1 <= |p| && p[..|root| + 1] == root + "/" && p[|root| + 1..] in staging
  }

  /**
   * The path is a directory under the root: the root itself, spelled with
   * its trailing separator as `"…/uploads/-chunk".replace('-chunk', '')`
   * gives it, or a staging directory.
   */
  predicate IsDirectory(root: string, staging: map<string, Dir>, p: string) {
    p == root + "/" || IsStagingDir(root, staging, p)
  }

  lemma StagingDirIff(root: string, staging: map<string, Dir>, p: string)
    ensures IsStagingDir(root, staging, p) <==> exists key :: key in staging && StagingPath(root, key) == p
  {
    if IsStagingDir(root, staging, p) {
      var key := p[|root| + 1..];
      assert StagingPath(root, key) == p;
    }
    if key :| key in staging && StagingPath(root, key) == p {
      assert p[..|root| + 1] == root + "/" && p[|root| + 1..] == key;
    }
  }

  /** A path that is not a staging directory is no key's staging path. */
  lemma NoStagingDirAt(root: string, staging: map<string, Dir>, p: string)
    requires !IsStagingDir(root, staging, p)
    ensures forall key :: key in staging ==> StagingPath(root, key) != p
  {
  }

  /** Removing a directory that was just created restores the staging area. */
  lemma RemoveAddedKey(staging: map<string, Dir>, key: string, dir: Dir)
    requires key !in staging
    ensures staging[key := dir] - {key} == staging
  {
    assert (staging[key := dir] - {key}).Keys == staging.Keys;
  }

  /** A key without "-chunk" in its path is merged onto its own staging directory. */
  lemma MergedPathWithoutSuffix(root: string, key: string)
    requires forall j :: 0 <= j <= |StagingPath(root, key)| ==> !OccursAt(StagingPath(root, key), "-chunk", j)
    ensures MergedPath(root, key) == StagingPath(root, key)
  {
    ReplaceFirstAbsent(StagingPath(root, key), "-chunk", "");
  }

  /** With its first "-chunk" at i, the merged path is the staging path without those six characters. */
  lemma MergedPathStripsFirst(root: string, key: string, i: nat)
    requires OccursAt(StagingPath(root, key), "-chunk", i)
    requires forall j :: 0 <= j < i ==> !OccursAt(StagingPath(root, key), "-chunk", j)
    ensures MergedPath(root, key) == StagingPath(root, key)[..i] + StagingPath(root, key)[i + 6..]
    ensures |MergedPath(root, key)| == |StagingPath(root, key)| - 6
  {
    ReplaceFirstPresent(StagingPath(root, key), "-chunk", "", i);
  }

  /** A key whose path has no "-chunk" is merged onto a staging directory: its own. */
  lemma UnmarkedKeyMergesOntoItself(root: string, staging: map<string, Dir>, key: string)
    requires key in staging
    requires forall j :: 0 <= j <= |StagingPath(root, key)| ==> !OccursAt(StagingPath(root, key), "-chunk", j)
    ensures IsStagingDir(root, staging, MergedPath(root, key))
  {
    MergedPathWithoutSuffix(root, key);
    StagingDirIff(root, staging, MergedPath(root, key));
  }

  /** The key "-chunk" is merged onto the upload root itself, a directory. */
  lemma DashChunkMergesOntoRoot(root: string, staging: map<string, Dir>)
    requires forall j :: 0 <= j <= |root| ==> !OccursAt(StagingPath(root, "-chunk"), "-chunk", j)
    ensures MergedPath(root, "-chunk") == root + "/"
    ensures IsDirectory(root, staging, MergedPath(root, "-chunk"))
  {
    var p := StagingPath(root, "-chunk");
    assert p[|root| + 1..] == "-chunk";
    MergedPathStripsFirst(root, "-chunk", |root| + 1);
    assert p[..|root| + 1] == root + "/";
  }

  /** Creating the directory of a key adds no merge target other than its own staging path. */
  lemma NewDirIsNoMergeTarget(root: string, staging: map<string, Dir>, key: string, dir: Dir, p: string)
    requires !IsStagingDir(root, staging, p) && p != StagingPath(root, key)
    ensures !IsStagingDir(root, staging[key := dir], p)
  {
  }

  /** `readdirSync`: the names of a directory's entries, each once. */
  method ReadDir(dir: Dir) returns (names: seq<string>)
    ensures IsListing(names, dir)
  {
    names := [];
    var unread := dir.Keys;
    while unread != {}
      invariant unread <= dir.Keys
      invariant Distinct(names)
      invariant forall name :: name in names <==> name in dir && name !in unread
      invariant |names| + |unread| == |dir|
      decreases |unread|
    {
      NonEmptyHasMember(unread);
      var name :| name in unread;
      names := names + [name];
      unread := unread - {name};
    }
  }

  class UploadServer {
    /** UPLOAD_DIR. */
    const root: string
    /** The staging directories under the root, by fileKey. */
    var staging: map<string, Dir>
    /** The regular files under the root (merged outputs), by path. */
    var files: map<string, Bytes>

    /** A path under the root is a directory or a file, never both; the root itself is a directory. */
    ghost predicate Valid()
      reads this
    {
      && (forall key :: key in staging ==> StagingPath(root, key) !in files)
      && root + "/" !in files
    }

    constructor (root: string)
      ensures Valid()
      ensures this.root == root && staging == map[] && files == map[]
    {
      this.root := root;
      staging := map[];
      files := map[];
    }

    /** POST /upload/chunk with the form fields fileKey and chunkIndex and the uploaded file. */
    method PutChunk(fileKey: Option<string>, chunkIndex: Option<string>, payload: Option<Bytes>) returns (res: Response)
      requires Valid()
      modifies this
      ensures Valid()
      ensures Missing(fileKey) || chunkIndex.None? ==>
        res == Json(400, Message("Missing required parameters.")) && staging == old(staging) && files == old(files)
      ensures (&& !Missing(fileKey) && chunkIndex.Some? && StagingPath(root, fileKey.value) in old(files)
               && (payload.None? || chunkIndex.value != "")) ==>
        res == ServerError && staging == old(staging) && files == old(files)
      ensures (&& !Missing(fileKey) && chunkIndex.Some? && StagingPath(root, fileKey.value) in old(files)
               && payload.Some? && chunkIndex.value == "") ==>
        && res == Json(200, Message("Chunk uploaded successfully."))
        && staging == old(staging)
        && files == old(files)[StagingPath(root, fileKey.value) := payload.value]
      ensures (&& !Missing(fileKey) && chunkIndex.Some? && StagingPath(root, fileKey.value) !in old(files)
               && (payload.None? || chunkIndex.value == "")) ==>
        res == ServerError && staging == MakeDir(old(staging), fileKey.value) && files == old(files)
      ensures (&& !Missing(fileKey) && chunkIndex.Some? && StagingPath(root, fileKey.value) !in old(files)
               && payload.Some? && chunkIndex.value != "") ==>
        && res == Json(200, Message("Chunk uploaded successfully."))
        && staging == StagePut(old(staging), fileKey.value, chunkIndex.value, payload.value)
        && files == old(files)
    {
      if Missing(fileKey) || chunkIndex.None? {
        return Json(400, Message("Missing required parameters."));
      }
      var key := fileKey.value;
      if StagingPath(root, key) in files {
        // the path exists, so no mkdir
        if payload.None? || chunkIndex.value != "" {
          // req.file is undefined, or the rename targets a path inside a regular file
          return ServerError;
        }
        // path.join drops the empty segment: the upload is renamed over the file itself
        files := files[StagingPath(root, key) := payload.value];
        return Json(200, Message("Chunk uploaded successfully."));
      }
      staging := MakeDir(staging, key);
      if payload.None? {
        // req.file is undefined
        return ServerError;
      }
      if chunkIndex.value == "" {
        // the chunk path is the directory itself, which the rename cannot replace
        return ServerError;
      }
      staging := StagePut(staging, key, chunkIndex.value, payload.value);
      return Json(200, Message("Chunk uploaded successfully."));
    }

    /** GET /upload/chunk/status?fileKey=… */
    method ChunkStatus(fileKey: Option<string>) returns (res: Response)
      requires Valid()
      ensures Missing(fileKey) ==> res == Json(400, Message("Missing fileKey parameter."))
      ensures !Missing(fileKey) && StagingPath(root, fileKey.value) in files ==> res == ServerError
      ensures !Missing(fileKey) && fileKey.value !in staging && StagingPath(root, fileKey.value) !in files ==>
        res == Json(200, UploadedChunks([]))
      ensures !Missing(fileKey) && fileKey.value in staging ==>
        && res.Json? && res.status == 200 && res.body.UploadedChunks?
        && exists names :: IsListing(names, staging[fileKey.value]) && res.body.uploadedChunks == ParseAll(names)
    {
      if Missing(fileKey) {
        return Json(400, Message("Missing fileKey parameter."));
      }
      var key := fileKey.value;
      if StagingPath(root, key) in files {
        // readdirSync of a regular file throws ENOTDIR
        return ServerError;
      }
      if key !in staging {
        return Json(200, UploadedChunks([]));
      }
      var names := ReadDir(staging[key]);
      return Json(200, UploadedChunks(ParseAll(names)));
    }

    /**
     * POST /upload/merge with the field fileKey.  Every chunk name must
     * parse to an integer: the order of a NaN under the numeric comparator
     * is left to the engine.
     */
    method Merge(fileKey: Option<string>) returns (res: Response)
      requires Valid()
      requires !Missing(fileKey) && fileKey.value in staging ==> AllParse(staging[fileKey.value])
      modifies this
      ensures Valid()
      ensures Missing(fileKey) ==>
        res == Json(400, Message("Missing fileKey parameter.")) && staging == old(staging) && files == old(files)
      ensures !Missing(fileKey) && StagingPath(root, fileKey.value) in old(files) ==>
        res == NoResponse && staging == old(staging) && files == old(files)
      ensures !Missing(fileKey) && fileKey.value !in old(staging) && StagingPath(root, fileKey.value) !in old(files) ==>
        res == Json(400, Message("FileKey does not exist.")) && staging == old(staging) && files == old(files)
      ensures !Missing(fileKey) && fileKey.value in old(staging) && old(staging)[fileKey.value] == map[] ==>
        res == Json(400, Message("No chunks to merge.")) && staging == old(staging) && files == old(files)
      ensures (&& !Missing(fileKey) && fileKey.value in old(staging) && old(staging)[fileKey.value] != map[]
               && AllCanonical(old(staging)[fileKey.value])
               && !IsDirectory(root, old(staging), MergedPath(root, fileKey.value))) ==>
        && res == Json(200, MergedFile("File merged successfully.", MergedPath(root, fileKey.value)))
        && files == old(files)[MergedPath(root, fileKey.value) := AscendingConcat(old(staging)[fileKey.value])]
        && staging == old(staging) - {fileKey.value}
      ensures (&& !Missing(fileKey) && fileKey.value in old(staging) && old(staging)[fileKey.value] != map[]
               && IsDirectory(root, old(staging), MergedPath(root, fileKey.value))) ==>
        && res == NoResponse && files == old(files) && fileKey.value in staging
        && staging == old(staging)[fileKey.value := staging[fileKey.value]]
      ensures (&& !Missing(fileKey) && fileKey.value in old(staging) && old(staging)[fileKey.value] != map[]
               && AllCanonical(old(staging)[fileKey.value])
               && IsDirectory(root, old(staging), MergedPath(root, fileKey.value))) ==>
        staging == old(staging)[fileKey.value := map[]]
      ensures !Missing(fileKey) && fileKey.value in old(staging) && !AllCanonical(old(staging)[fileKey.value]) ==>
        var chunks := old(staging)[fileKey.value];
        var out := MergedPath(root, fileKey.value);
        && res == NoResponse && fileKey.value in staging
        && staging == old(staging)[fileKey.value := staging[fileKey.value]]
        && staging[fileKey.value].Keys <= chunks.Keys
        && (forall name :: name in staging[fileKey.value] ==> staging[fileKey.value][name] == chunks[name])
        && exists names :: IsListing(names, chunks) &&
             var drain := DrainChunks(chunks, MergeOrder(names));
             && staging[fileKey.value] == drain.rest
             && files == if IsDirectory(root, old(staging), out) then old(files) else old(files)[out := drain.written]
    {
      if Missing(fileKey) {
        return Json(400, Message("Missing fileKey parameter."));
      }
      var key := fileKey.value;
      if StagingPath(root, key) in files {
        // readdirSync of a regular file throws inside the async handler
        return NoResponse;
      }
      if key !in staging {
        return Json(400, Message("FileKey does not exist."));
      }
      var names := ReadDir(staging[key]);
      if |names| == 0 {
        return Json(400, Message("No chunks to merge."));
      }
      ghost var chunks := staging[key];
      assert forall i :: 0 <= i < |names| ==> names[i] in chunks;
      res := MergeListed(key, MergeOrder(names));
      MergeCompletesIffCanonical(chunks, names);
      DrainFrame(chunks, MergeOrder(names));
      if AllCanonical(chunks) {
        MergeOfCanonical(chunks, names);
      }
    }

    /**
     * The merge proper, once the chunk order is known: the write
     * stream is opened on the merged path, every chunk is read back in
     * numeric order, written and unlinked; on 'finish' the directory is
     * removed and the reply sent.
     */
    method MergeListed(key: string, order: seq<int>) returns (res: Response)
      requires Valid()
      requires key in staging && StagingPath(root, key) !in files
      modifies this
      ensures Valid()
      ensures
        var drain := DrainChunks(old(staging)[key], order);
        var out := MergedPath(root, key);
        var isDir := IsDirectory(root, old(staging), out);
        if drain.complete && drain.rest == map[] && !isDir then
          && res == Json(200, MergedFile("File merged successfully.", out))
          && files == old(files)[out := drain.written]
          && staging == old(staging) - {key}
        else
          && res == NoResponse
          && staging == old(staging)[key := drain.rest]
          && files == if isDir then old(files) else old(files)[out := drain.written]
    {
      var out := MergedPath(root, key);
      // createWriteStream opens asynchronously: a directory at `out` only fails after the loop
      var isDir := IsDirectory(root, staging, out);
      var written, complete := ReadAndUnlink(key, order);
      assert DrainChunks(old(staging)[key], order) == Drain(written, staging[key], complete);
      if !isDir {
        // the stream flushes what it was given, whether or not the loop threw
        NoStagingDirAt(root, staging, out);
        files := files[out := written];
      }
      if !complete || isDir {
        // readFileSync threw ENOENT, or EISDIR on the stream crashes the process
        return NoResponse;
      }
      if staging[key] != map[] {
        // rmdirSync of a non-empty directory throws ENOTEMPTY in the 'finish' callback
        return NoResponse;
      }
      staging := staging - {key};
      return Json(200, MergedFile("File merged successfully.", out));
    }

    /**
     * The loop of the merge: for each index in order, read the chunk
     * `${index}`, append it to the output and unlink it.  The loop stops
     * with `complete` false at the first read that throws.
     */
    method ReadAndUnlink(key: string, order: seq<int>) returns (written: Bytes, complete: bool)
      requires key in staging
      modifies this
      ensures key in staging && staging == old(staging)[key := staging[key]]
      ensures files == old(files)
      ensures DrainChunks(old(staging)[key], order) == Drain(written, staging[key], complete)
    {
      ghost var chunks := staging[key];
      written := [];
      var i := 0;
      while i < |order|
        invariant 0 <= i <= |order|
        invariant key in staging && staging == old(staging)[key := staging[key]]
        invariant files == old(files)
        invariant DrainChunks(chunks, order) == Prefixed(written, DrainChunks(staging[key], order[i..]))
        decreases |order| - i
      {
        var name := DecimalString(order[i]);
        if name !in staging[key] {
          assert written + [] == written;
          return written, false;
        }
        var data := staging[key][name];
        assert order[i..][1..] == order[i + 1..];
        written := written + data;
        staging := staging[key := staging[key] - {name}];
        i := i + 1;
      }
      assert written + [] == written && order[i..] == [];
      return written, true;
    }
  }

  /** A client that merges twice: after a merge that succeeded, the next merge of that key finds nothing. */
  method MergeTwice(server: UploadServer, fileKey: Option<string>) returns (first: Response, second: Response)
    requires server.Valid()
    requires !Missing(fileKey) && fileKey.value in server.staging ==> AllParse(server.staging[fileKey.value])
    modifies server
    ensures server.Valid()
    ensures first.Json? && first.status == 200 ==> second == Json(400, Message("FileKey does not exist."))
  {
    first := server.Merge(fileKey);
    second := server.Merge(fileKey);
  }

  /** A client that uploads the chunks of a new key, one request per chunk, in the order given. */
  method UploadAll(server: UploadServer, key: string, puts: seq<Put>) returns (responses: seq<Response>)
    requires server.Valid()
    requires key != "" && key !in server.staging && StagingPath(server.root, key) !in server.files
    requires |puts| > 0
    requires forall i :: 0 <= i < |puts| ==> puts[i].name != ""
    modifies server
    ensures server.Valid() && server.files == old(server.files)
    ensures server.staging == old(server.staging)[key := Replay(map[], puts)]
    ensures |responses| == |puts|
    ensures forall i :: 0 <= i < |responses| ==> responses[i] == Json(200, Message("Chunk uploaded successfully."))
  {
    responses := [];
    var i := 0;
    while i < |puts|
      invariant 0 <= i <= |puts| && |responses| == i
      invariant server.Valid() && server.files == old(server.files)
      invariant i == 0 ==> server.staging == old(server.staging)
      invariant i > 0 ==> server.staging == old(server.staging)[key := Replay(map[], puts[..i])]
      invariant forall j :: 0 <= j < i ==> responses[j] == Json(200, Message("Chunk uploaded successfully."))
      decreases |puts| - i
    {
      var res := server.PutChunk(Some(key), Some(puts[i].name), Some(puts[i].payload));
      ReplayStep(map[], puts[..i], puts[i]);
      assert puts[..i + 1] == puts[..i] + [puts[i]];
      responses := responses + [res];
      i := i + 1;
    }
    assert puts[..i] == puts;
  }

  /**
   * After uploading chunks named `${n}` for each n in `indices`, in any
   * order and with repetitions, the status of the key lists every index
   * uploaded, each once, and nothing else.
   */
  method UploadThenStatus(server: UploadServer, key: string, puts: seq<Put>, indices: seq<int>) returns (res: Response)
    requires server.Valid()
    requires key != "" && key !in server.staging && StagingPath(server.root, key) !in server.files
    requires |puts| > 0 && |puts| == |indices|
    requires forall i :: 0 <= i < |puts| ==> puts[i].name == DecimalString(indices[i])
    modifies server
    ensures server.Valid()
    ensures res.Json? && res.status == 200 && res.body.UploadedChunks?
    ensures forall c :: c in res.body.uploadedChunks ==> c.Some? && c.value in indices
    ensures forall i :: 0 <= i < |indices| ==> Some(indices[i]) in res.body.uploadedChunks
    ensures Distinct(res.body.uploadedChunks)
  {
    var _ := UploadAll(server, key, puts);
    res := server.ChunkStatus(Some(key));
    CanonicalPutsIndices(puts, indices);
    ghost var dir := Replay(map[], puts);
    ghost var names :| IsListing(names, dir) && res.body.uploadedChunks == ParseAll(names);
    StatusOfCanonical(dir, names);
    forall c | c in res.body.uploadedChunks ensures c.Some? && c.value in indices {
      var i :| 0 <= i < |names| && ParseAll(names)[i] == c;
      assert c.value in Indices(dir);
    }
    forall i | 0 <= i < |indices| ensures Some(indices[i]) in res.body.uploadedChunks {
      assert indices[i] in Indices(dir);
    }
  }

  /**
   * Uploading chunks named `${n}` for a key marked "-chunk" and merging it
   * writes the chunks in ascending index order to the merged path and
   * leaves the staging area as it was before the upload.
   */
  method UploadThenMerge(server: UploadServer, key: string, puts: seq<Put>, indices: seq<int>) returns (res: Response)
    requires server.Valid()
    requires key != "" && key !in server.staging && StagingPath(server.root, key) !in server.files
    requires MergedPath(server.root, key) != StagingPath(server.root, key)
    requires !IsDirectory(server.root, server.staging, MergedPath(server.root, key))
    requires |puts| > 0 && |puts| == |indices|
    requires forall i :: 0 <= i < |puts| ==> puts[i].name == DecimalString(indices[i])
    modifies server
    ensures server.Valid() && AllCanonical(Replay(map[], puts))
    ensures res == Json(200, MergedFile("File merged successfully.", MergedPath(server.root, key)))
    ensures server.files == old(server.files)[MergedPath(server.root, key) := AscendingConcat(Replay(map[], puts))]
    ensures server.staging == old(server.staging)
  {
    ghost var before := server.staging;
    ghost var dir := Replay(map[], puts);
    var _ := UploadAll(server, key, puts);
    assert server.staging == before[key := dir];
    CanonicalPutsIndices(puts, indices);
    ReplayNames(map[], puts);
    assert puts[0].name in dir;
    NewDirIsNoMergeTarget(server.root, before, key, dir, MergedPath(server.root, key));
    res := server.Merge(Some(key));
    RemoveAddedKey(before, key, dir);
  }

  /**
   * Merging a key whose path has no "-chunk" unlinks every chunk and then
   * fails on the write stream: there is no reply, no output, and the
   * directory is left empty.
   */
  method MergeUnmarkedKey(server: UploadServer, key: string) returns (res: Response)
    requires server.Valid()
    requires key != "" && key in server.staging && server.staging[key] != map[] && AllCanonical(server.staging[key])
    requires forall j :: 0 <= j <= |StagingPath(server.root, key)| ==> !OccursAt(StagingPath(server.root, key), "-chunk", j)
    modifies server
    ensures server.Valid()
    ensures res == NoResponse
    ensures server.files == old(server.files)
    ensures server.staging == old(server.staging)[key := map[]]
  {
    UnmarkedKeyMergesOntoItself(server.root, server.staging, key);
    res := server.Merge(Some(key));
  }

  /**
   * Merging the key "-chunk" unlinks every chunk and then fails to open the
   * upload root as the output file: no reply, no output, and the directory
   * is left present and empty.
   */
  method MergeOntoRoot(server: UploadServer) returns (res: Response)
    requires server.Valid()
    requires "-chunk" in server.staging && server.staging["-chunk"] != map[] && AllCanonical(server.staging["-chunk"])
    requires forall j :: 0 <= j <= |server.root| ==> !OccursAt(StagingPath(server.root, "-chunk"), "-chunk", j)
    modifies server
    ensures server.Valid()
    ensures res == NoResponse
    ensures server.files == old(server.files)
    ensures server.staging == old(server.staging)["-chunk" := map[]]
  {
    DashChunkMergesOntoRoot(server.root, server.staging);
    res := server.Merge(Some("-chunk"));
  }
}
