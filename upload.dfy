/** The `/upload` endpoint of the ranking server: validate the uploaded
    names against the two required spreadsheets, then write each file to the
    container its name selects, stopping at the first bad name or failed
    write. */
module Upload {
  import opened Base
  import opened Text
  import opened Storage

  /** One part of the multipart `files` field: client file name and bytes. */
  datatype UploadFile = UploadFile(filename: string, content: Bytes)

  /** The JSON answer: 200 with the name-to-URL map, or an error status with
      its message. */
  datatype UploadReply =
    | Uploaded(message: string, uploads: map<string, string>)
    | Rejected(status: nat, error: string)

  /** `secure_filename`, left uninterpreted. */
  type Sanitizer = string -> string

  const NoFilesError: string := "No files provided"
  const SuccessMessage: string := "Files uploaded successfully"
  const ExpectedList: string := "['Companies_in_Milwaukee.xlsx', 'Affiliated_Program_Industry_Features.xlsx']"

  function MissingError(missing: seq<string>): string
  {
    "Missing files: " + Join(missing, ", ")
  }

  function UnexpectedError(name: string): string
  {
    "Unexpected file: " + name + ". Expected only " + ExpectedList
  }

  function FailedError(name: string, cause: string): string
  {
    "Upload failed for " + name + ": " + cause
  }

  /** `uploaded_filenames`: the sanitized names, in upload order. */
  function Names(secure: Sanitizer, files: seq<UploadFile>): seq<string>
  {
    seq(|files|, k requires 0 <= k < |files| => secure(files[k].filename))
  }

  /** `missing_files`: the entries of `required` absent from `uploaded`. */
  function Missing(required: seq<string>, uploaded: seq<string>): (m: seq<string>)
    ensures forall x :: x in m <==> x in required && x !in uploaded
    ensures |m| <= |required|
  {
    if required == [] then []
    else if required[0] in uploaded then Missing(required[1..], uploaded)
    else [required[0]] + Missing(required[1..], uploaded)
  }

  /** The key a file with sanitized name `name` is written under. */
  function KeyOf(cfg: Config, name: string): BlobKey
  {
    (ContainerFor(cfg, name), name)
  }

  /** The store after writing `files`, in order, each under its key. */
  function Written(cfg: Config, secure: Sanitizer, blobs: map<BlobKey, Bytes>, files: seq<UploadFile>): map<BlobKey, Bytes>
    decreases |files|
  {
    if files == [] then blobs
    else Written(cfg, secure, blobs[KeyOf(cfg, secure(files[0].filename)) := files[0].content], files[1..])
  }

  /** The upload loop from the current file on, with the store and the
      `responses` dict built so far. */
  function StoreLoop(cfg: Config, faults: map<BlobKey, string>, secure: Sanitizer, files: seq<UploadFile>,
                     blobs: map<BlobKey, Bytes>, uploads: map<string, string>): (UploadReply, map<BlobKey, Bytes>)
    decreases |files|
  {
    if files == [] then (Uploaded(SuccessMessage, uploads), blobs)
    else
      var name := secure(files[0].filename);
      var key := KeyOf(cfg, name);
      if name !in RequiredFiles then (Rejected(400, UnexpectedError(name)), blobs)
      else if key in faults then (Rejected(500, FailedError(name, faults[key])), blobs)
      else StoreLoop(cfg, faults, secure, files[1..], blobs[key := files[0].content],
                     uploads[name := BlobUrl(cfg.account, key.0, name)])
  }

  /** The endpoint: its reply and the store afterwards. `files == None` is a
      request without a `files` field. */
  function UploadSpec(cfg: Config, faults: map<BlobKey, string>, secure: Sanitizer,
                      files: Option<seq<UploadFile>>, blobs: map<BlobKey, Bytes>): (UploadReply, map<BlobKey, Bytes>)
  {
    if files.None? then (Rejected(400, NoFilesError), blobs)
    else
      var missing := Missing(RequiredFiles, Names(secure, files.value));
      if |missing| > 0 then (Rejected(400, MissingError(missing)), blobs)
      else StoreLoop(cfg, faults, secure, files.value, blobs, map[])
  }

  /** Whether the file at index `k` passes the loop: an accepted name whose
      write succeeds. */
  predicate Passes(cfg: Config, faults: map<BlobKey, string>, secure: Sanitizer, files: seq<UploadFile>, k: nat)
    requires k < |files|
  {
    secure(files[k].filename) in RequiredFiles && KeyOf(cfg, secure(files[k].filename)) !in faults
  }

  /** The reply the loop gives for a file that does not pass. */
  function StopReply(cfg: Config, faults: map<BlobKey, string>, name: string): UploadReply
    requires name !in RequiredFiles || KeyOf(cfg, name) in faults
  {
    if name !in RequiredFiles then Rejected(400, UnexpectedError(name))
    else Rejected(500, FailedError(name, faults[KeyOf(cfg, name)]))
  }

  /** The loop stops at the first file that does not pass, with its reply;
      every earlier file has been written and no later file is touched. */
  lemma {:induction false} LoopStopsAt(cfg: Config, faults: map<BlobKey, string>, secure: Sanitizer,
                                       files: seq<UploadFile>, blobs: map<BlobKey, Bytes>,
                                       uploads: map<string, string>, j: nat)
    requires j < |files|
    requires forall k :: 0 <= k < j ==> Passes(cfg, faults, secure, files, k)
    requires !Passes(cfg, faults, secure, files, j)
    ensures StoreLoop(cfg, faults, secure, files, blobs, uploads)
         == (StopReply(cfg, faults, secure(files[j].filename)), Written(cfg, secure, blobs, files[..j]))
    decreases j
  {
    if j > 0 {
      var name := secure(files[0].filename);
      var key := KeyOf(cfg, name);
      assert Passes(cfg, faults, secure, files, 0);
      forall k | 0 <= k < j - 1
        ensures Passes(cfg, faults, secure, files[1..], k)
      {
        assert Passes(cfg, faults, secure, files, k + 1);
      }
      LoopStopsAt(cfg, faults, secure, files[1..], blobs[key := files[0].content],
                  uploads[name := BlobUrl(cfg.account, key.0, name)], j - 1);
      assert files[1..][..j - 1] == files[..j][1..];
    }
  }

  /** The URL map of a successful upload, for the set of names stored. */
  function UrlMap(cfg: Config, names: set<string>): map<string, string>
  {
    map n | n in names :: BlobUrl(cfg.account, ContainerFor(cfg, n), n)
  }

  /** When every file passes, the loop writes all of them and records one URL
      per distinct name. */
  lemma {:induction false} LoopCompletes(cfg: Config, faults: map<BlobKey, string>, secure: Sanitizer,
                                         files: seq<UploadFile>, blobs: map<BlobKey, Bytes>, seen: set<string>)
    requires forall k :: 0 <= k < |files| ==> Passes(cfg, faults, secure, files, k)
    ensures StoreLoop(cfg, faults, secure, files, blobs, UrlMap(cfg, seen))
         == (Uploaded(SuccessMessage, UrlMap(cfg, seen + set k | 0 <= k < |files| :: secure(files[k].filename))),
             Written(cfg, secure, blobs, files))
    decreases |files|
  {
    var names := set k | 0 <= k < |files| :: secure(files[k].filename);
    if files == [] {
      assert names == {};
      assert seen + names == seen;
    } else {
      var name := secure(files[0].filename);
      var key := KeyOf(cfg, name);
      assert Passes(cfg, faults, secure, files, 0);
      forall k | 0 <= k < |files| - 1
        ensures Passes(cfg, faults, secure, files[1..], k)
      {
        assert Passes(cfg, faults, secure, files, k + 1);
      }
      assert UrlMap(cfg, seen)[name := BlobUrl(cfg.account, key.0, name)] == UrlMap(cfg, seen + {name});
      LoopCompletes(cfg, faults, secure, files[1..], blobs[key := files[0].content], seen + {name});
      var rest := set k | 0 <= k < |files[1..]| :: secure(files[1..][k].filename);
      assert seen + {name} + rest == seen + names by {
        forall n | n in names ensures n in {name} + rest {
          var k :| 0 <= k < |files| && n == secure(files[k].filename);
          if k > 0 { assert n == secure(files[1..][k - 1].filename); }
        }
        forall n | n in rest ensures n in names {
          var k :| 0 <= k < |files[1..]| && n == secure(files[1..][k].filename);
          assert n == secure(files[k + 1].filename);
        }
      }
    }
  }

  /** No `files` field, or a required name missing from the upload: 400,
      with the missing names listed in `required_files` order, and nothing
      written. */
  lemma ValidationFailuresWriteNothing(cfg: Config, faults: map<BlobKey, string>, secure: Sanitizer,
                                       files: Option<seq<UploadFile>>, blobs: map<BlobKey, Bytes>)
    ensures files.None? ==> UploadSpec(cfg, faults, secure, files, blobs) == (Rejected(400, NoFilesError), blobs)
    ensures files.Some? && |Missing(RequiredFiles, Names(secure, files.value))| > 0 ==>
              UploadSpec(cfg, faults, secure, files, blobs)
              == (Rejected(400, MissingError(Missing(RequiredFiles, Names(secure, files.value)))), blobs)
  {
  }

  /** The missing names are listed in `required_files` order. */
  lemma MissingInRequiredOrder(uploaded: seq<string>)
    ensures Missing(RequiredFiles, uploaded)
         == (if MilwaukeeFile in uploaded then [] else [MilwaukeeFile])
          + (if AffiliatedFile in uploaded then [] else [AffiliatedFile])
  {
    assert RequiredFiles[0] == MilwaukeeFile && RequiredFiles[1..] == [AffiliatedFile];
    assert [AffiliatedFile][1..] == [];
  }

  /** Only one of the two required files uploaded: the error names the other. */
  lemma OnlyMilwaukeeUploaded(cfg: Config, faults: map<BlobKey, string>, secure: Sanitizer,
                              f: UploadFile, blobs: map<BlobKey, Bytes>)
    requires secure(f.filename) == MilwaukeeFile
    ensures UploadSpec(cfg, faults, secure, Some([f]), blobs)
         == (Rejected(400, "Missing files: " + AffiliatedFile), blobs)
  {
    var names := Names(secure, [f]);
    assert names == [MilwaukeeFile];
    MissingInRequiredOrder(names);
    JoinShortLists(AffiliatedFile, ", ");
    ValidationFailuresWriteNothing(cfg, faults, secure, Some([f]), blobs);
    assert MissingError([AffiliatedFile]) == "Missing files: " + AffiliatedFile;
  }

  /** An unexpected name reached in the loop: 400 naming that file, every
      earlier file already stored, no later file touched. */
  lemma UnexpectedNameStopsUpload(cfg: Config, faults: map<BlobKey, string>, secure: Sanitizer,
                                  files: seq<UploadFile>, blobs: map<BlobKey, Bytes>, j: nat)
    requires |Missing(RequiredFiles, Names(secure, files))| == 0
    requires j < |files| && secure(files[j].filename) !in RequiredFiles
    requires forall k :: 0 <= k < j ==> Passes(cfg, faults, secure, files, k)
    ensures UploadSpec(cfg, faults, secure, Some(files), blobs)
         == (Rejected(400, UnexpectedError(secure(files[j].filename))), Written(cfg, secure, blobs, files[..j]))
  {
    LoopStopsAt(cfg, faults, secure, files, blobs, map[], j);
  }

  /** A failed write: 500 naming that file, every earlier file already
      stored, no later file attempted. */
  lemma StorageFailureStopsUpload(cfg: Config, faults: map<BlobKey, string>, secure: Sanitizer,
                                  files: seq<UploadFile>, blobs: map<BlobKey, Bytes>, j: nat)
    requires |Missing(RequiredFiles, Names(secure, files))| == 0
    requires j < |files| && secure(files[j].filename) in RequiredFiles
    requires KeyOf(cfg, secure(files[j].filename)) in faults
    requires forall k :: 0 <= k < j ==> Passes(cfg, faults, secure, files, k)
    ensures UploadSpec(cfg, faults, secure, Some(files), blobs)
         == (Rejected(500, FailedError(secure(files[j].filename), faults[KeyOf(cfg, secure(files[j].filename))])),
             Written(cfg, secure, blobs, files[..j]))
  {
    LoopStopsAt(cfg, faults, secure, files, blobs, map[], j);
  }

  /** A successful upload: the `uploads` keys are exactly the distinct names,
      each mapped to the URL of its container and name, and every file has
      been written. */
  lemma SuccessfulUpload(cfg: Config, faults: map<BlobKey, string>, secure: Sanitizer,
                         files: seq<UploadFile>, blobs: map<BlobKey, Bytes>)
    requires |Missing(RequiredFiles, Names(secure, files))| == 0
    requires forall k :: 0 <= k < |files| ==> Passes(cfg, faults, secure, files, k)
    ensures UploadSpec(cfg, faults, secure, Some(files), blobs)
         == (Uploaded(SuccessMessage, UrlMap(cfg, set k | 0 <= k < |files| :: secure(files[k].filename))),
             Written(cfg, secure, blobs, files))
  {
    assert UrlMap(cfg, {}) == map[];
    LoopCompletes(cfg, faults, secure, files, blobs, {});
    assert {} + (set k | 0 <= k < |files| :: secure(files[k].filename))
        == set k | 0 <= k < |files| :: secure(files[k].filename);
  }

  /** Writing changes the store only at the keys of the written files. */
  lemma {:induction false} WrittenFrame(cfg: Config, secure: Sanitizer, blobs: map<BlobKey, Bytes>,
                                        files: seq<UploadFile>, key: BlobKey)
    requires forall k :: 0 <= k < |files| ==> KeyOf(cfg, secure(files[k].filename)) != key
    ensures key in Written(cfg, secure, blobs, files) <==> key in blobs
    ensures key in blobs ==> Written(cfg, secure, blobs, files)[key] == blobs[key]
    decreases |files|
  {
    if files != [] {
      assert KeyOf(cfg, secure(files[0].filename)) != key;
      WrittenFrame(cfg, secure, blobs[KeyOf(cfg, secure(files[0].filename)) := files[0].content], files[1..], key);
    }
  }

  /** The last file written under a key determines its content, so a
      duplicate name overwrites the earlier upload. */
  lemma {:induction false} LastWriteWins(cfg: Config, secure: Sanitizer, blobs: map<BlobKey, Bytes>,
                                         files: seq<UploadFile>, j: nat)
    requires j < |files|
    requires forall k :: j < k < |files| ==>
               KeyOf(cfg, secure(files[k].filename)) != KeyOf(cfg, secure(files[j].filename))
    ensures KeyOf(cfg, secure(files[j].filename)) in Written(cfg, secure, blobs, files)
    ensures Written(cfg, secure, blobs, files)[KeyOf(cfg, secure(files[j].filename))] == files[j].content
    decreases |files|
  {
    var key := KeyOf(cfg, secure(files[j].filename));
    var next := blobs[KeyOf(cfg, secure(files[0].filename)) := files[0].content];
    if j == 0 {
      WrittenFrame(cfg, secure, next, files[1..], key);
    } else {
      LastWriteWins(cfg, secure, next, files[1..], j - 1);
    }
  }

  /** `upload_files()`: validation, then the loop that writes each file. */
  method UploadFiles(cfg: Config, store: BlobStore, secure: Sanitizer, files: Option<seq<UploadFile>>)
    returns (reply: UploadReply)
    modifies store
    ensures (reply, store.blobs) == UploadSpec(cfg, store.faults, secure, files, old(store.blobs))
  {
    if files.None? {
      return Rejected(400, NoFilesError);
    }
    var list := files.value;
    var uploaded := Names(secure, list);
    var missing := Missing(RequiredFiles, uploaded);
    if |missing| > 0 {
      return Rejected(400, MissingError(missing));
    }
    var responses: map<string, string> := map[];
    var i := 0;
    while i < |list|
      invariant 0 <= i <= |list|
      invariant StoreLoop(cfg, store.faults, secure, list, old(store.blobs), map[])
             == StoreLoop(cfg, store.faults, secure, list[i..], store.blobs, responses)
    {
      var filename := secure(list[i].filename);
      if filename !in RequiredFiles {
        return Rejected(400, UnexpectedError(filename));
      }
      var raw := list[i].content;
      var container := ContainerFor(cfg, filename);
      var error := store.Upload((container, filename), raw);
      if error.Some? {
        return Rejected(500, FailedError(filename, error.value));
      }
      responses := responses[filename := BlobUrl(cfg.account, container, filename)];
      assert list[i..][1..] == list[i + 1..];
      i := i + 1;
    }
    reply := Uploaded(SuccessMessage, responses);
  }
}
