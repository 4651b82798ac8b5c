/**
 * The serverless handler of the gallery (netlify/functions/api.js): it gates
 * each request on the HTTP method and on the tenant root its passcode maps to,
 * then lists, uploads or deletes inside that root. The storage calls are not
 * performed here; the handler returns the `Command` it would send, and a
 * listing is read from the `Store` model.
 */
module Api {
  import opened Wrappers
  import opened Strings
  import opened Store

  // ---------------------------------------------------------------- tenants

  /**
   * The property name `mapping[passcode]` looks up: a missing `x-passcode`
   * header is `undefined`, which JavaScript turns into the name "undefined".
   */
  function PasscodeKey(passcode: Option<string>): string {
    match passcode
    case None => "undefined"
    case Some(p) => p
  }

  /**
   * `getUserRoot`: the root the passcode maps to, or `None` (JavaScript's
   * `null`) when there is no entry or the entry is the falsy empty string.
   */
  function GetUserRoot(mapping: map<string, string>, passcode: Option<string>): (r: Option<string>)
    ensures r.Some? <==> PasscodeKey(passcode) in mapping && mapping[PasscodeKey(passcode)] != ""
    ensures r.Some? ==> r.value == mapping[PasscodeKey(passcode)] && r.value != ""
  {
    var key := PasscodeKey(passcode);
    if key in mapping && mapping[key] != "" then Some(mapping[key]) else None
  }

  // ---------------------------------------------------------------- listing

  /** One entry of the `files` array of a listing response. */
  datatype FileEntry = FileEntry(key: string, url: string, size: nat, lastModified: int)

  /** The body of a successful listing: `{files, totalSize, folders}`. */
  datatype ListData = ListData(files: seq<FileEntry>, totalSize: nat, folders: seq<string>)

  /** The public link of an object: `${DOMAIN}/${key}`. */
  function ObjectUrl(domain: string, key: string): string {
    domain + "/" + key
  }

  /** Different keys always get different links under one domain. */
  lemma ObjectUrlInjective(domain: string, k1: string, k2: string)
    requires ObjectUrl(domain, k1) == ObjectUrl(domain, k2)
    ensures k1 == k2
  {
    var n := |domain| + 1;
    assert k1 == ObjectUrl(domain, k1)[n..];
    assert k2 == ObjectUrl(domain, k2)[n..];
  }

  /** `objects.reduce((acc, obj) => acc + obj.Size, 0)`, the fold taken from the left. */
  function TotalSize(objects: seq<ObjectRecord>): nat {
    if objects == [] then 0 else TotalSize(objects[..|objects| - 1]) + objects[|objects| - 1].size
  }

  /** The total of a listing split in two is the sum of the totals of its parts. */
  lemma {:induction false} TotalSizeAppend(a: seq<ObjectRecord>, b: seq<ObjectRecord>)
    ensures TotalSize(a + b) == TotalSize(a) + TotalSize(b)
    decreases |b|
  {
    if b == [] {
      assert a + b == a;
    } else {
      var last := |b| - 1;
      assert (a + b)[..|a + b| - 1] == a + b[..last];
      TotalSizeAppend(a, b[..last]);
    }
  }

  /** The total counts every object once: it is at least the size of each of them. */
  lemma {:induction false} TotalSizeBounds(objects: seq<ObjectRecord>, i: nat)
    requires i < |objects|
    ensures objects[i].size <= TotalSize(objects)
  {
    var upTo := objects[..i + 1];
    TotalSizeAppend(upTo, objects[i + 1..]);
    assert upTo + objects[i + 1..] == objects;
    assert upTo[..|upTo| - 1] == objects[..i];
  }

  /** A listing response entry for one stored object. */
  function ToFileEntry(domain: string, o: ObjectRecord): FileEntry {
    FileEntry(o.key, ObjectUrl(domain, o.key), o.size, o.lastModified)
  }

  /** `objects.map(item => ({key, url, size, lastModified}))`. */
  function FileEntries(domain: string, objects: seq<ObjectRecord>): (r: seq<FileEntry>)
    ensures |r| == |objects|
    ensures forall i :: 0 <= i < |objects| ==>
      r[i].key == objects[i].key && r[i].size == objects[i].size &&
      r[i].lastModified == objects[i].lastModified && r[i].url == ObjectUrl(domain, objects[i].key)
  {
    seq(|objects|, i requires 0 <= i < |objects| => ToFileEntry(domain, objects[i]))
  }

  /**
   * The folder one key adds to the listing: the text before the first "/" of
   * `key.replace(root, "")`, when that relative path holds a "/".
   */
  function FolderOf(key: string, root: string): Option<string> {
    var relativePath := ReplaceFirst(key, root, "");
    if Includes(relativePath, "/") then Some(BeforeFirst(relativePath, "/")) else None
  }

  /** Under the root, the relative path is what follows the root. */
  lemma RelativePathOfListedKey(key: string, root: string)
    requires StartsWith(key, root)
    ensures ReplaceFirst(key, root, "") == key[|root|..]
    ensures key == root + key[|root|..]
  {
    ReplaceFirstOfPrefix(key, root);
  }

  /** A key that continues the root with a "/"-free name and a "/" adds that name. */
  lemma FolderOfNamedKey(key: string, root: string, n: string)
    requires StartsWith(key, root + n + "/") && '/' !in n
    ensures FolderOf(key, root) == Some(n)
  {
    assert root + n + "/" == root + (n + "/");
    StartsWithLonger(key, root, n + "/");
    RelativePathOfListedKey(key, root);
    var rel := key[|root|..];
    var post := rel[|n| + 1..];
    assert key[..|root + n + "/"|] == root + n + "/";
    assert rel == n + "/" + post;
    BeforeFirstSlash(n, post);
  }

  /** The folder a key under the root adds is a "/"-free name that the key continues the root with, followed by "/". */
  lemma NamedKeyOfFolderOf(key: string, root: string, n: string)
    requires StartsWith(key, root) && FolderOf(key, root) == Some(n)
    ensures StartsWith(key, root + n + "/") && '/' !in n
  {
    RelativePathOfListedKey(key, root);
    var rel := key[|root|..];
    var i := IndexOf(rel, "/").value;
    OccursAtChar(rel, '/', i);
    assert n == rel[..i];
    forall j | 0 <= j < i ensures rel[j] != '/' {
      OccursAtChar(rel, '/', j);
    }
    assert rel[..i + 1] == n + "/";
    assert key[..|root + n + "/"|] == root + rel[..i + 1];
  }

  /** Under the root, a key adds folder `n` exactly when it continues with `n` and a "/" and `n` holds no "/". */
  lemma FolderOfListedKey(key: string, root: string, n: string)
    requires StartsWith(key, root)
    ensures FolderOf(key, root) == Some(n) <==> StartsWith(key, root + n + "/") && '/' !in n
  {
    if StartsWith(key, root + n + "/") && '/' !in n {
      FolderOfNamedKey(key, root, n);
    }
    if FolderOf(key, root) == Some(n) {
      NamedKeyOfFolderOf(key, root, n);
    }
  }

  /** Under the root, a key adds no folder exactly when its relative path holds no "/". */
  lemma NoFolderForRootKey(key: string, root: string)
    requires StartsWith(key, root)
    ensures FolderOf(key, root) == None <==> '/' !in key[|root|..]
  {
    ReplaceFirstOfPrefix(key, root);
    IncludesChar(key[|root|..], '/');
  }

  /** A key with a doubled separator right after the root adds the empty folder name. */
  lemma DoubledSeparatorFolder(root: string, rest: string)
    ensures FolderOf(root + "/" + rest, root) == Some("")
  {
    var key := root + "/" + rest;
    assert key[..|root|] == root;
    assert key[..|root + "" + "/"|] == root + "" + "/";
    FolderOfListedKey(key, root, "");
  }

  /** No name occurs twice, as in the `Set` the loop fills. */
  ghost predicate Distinct(s: seq<string>) {
    forall i, j :: 0 <= i < j < |s| ==> s[i] != s[j]
  }

  /** `folders.add(name)` on the insertion-ordered set, for a key that adds a folder. */
  function AddFolder(folders: seq<string>, name: Option<string>): seq<string> {
    match name
    case None => folders
    case Some(n) => if n in folders then folders else folders + [n]
  }

  /** The `Set` filled with the names present in `names`, read back in insertion order. */
  function DistinctNames(names: seq<Option<string>>): (r: seq<string>)
    ensures Distinct(r)
    ensures forall n :: n in r <==> Some(n) in names
  {
    if names == [] then []
    else
      var prefix := names[..|names| - 1];
      assert names == prefix + [names[|names| - 1]];
      AddFolder(DistinctNames(prefix), names[|names| - 1])
  }

  /** One more name extends the set's order by that name, unless it is already there. */
  lemma DistinctNamesStep(names: seq<Option<string>>, i: nat)
    requires i < |names|
    ensures DistinctNames(names[..i + 1]) == AddFolder(DistinctNames(names[..i]), names[i])
  {
    assert names[..i + 1][..i] == names[..i];
  }

  /** The folder each listed file adds, if any, in listing order. */
  function FolderOfEach(files: seq<FileEntry>, root: string): seq<Option<string>> {
    seq(|files|, i requires 0 <= i < |files| => FolderOf(files[i].key, root))
  }

  /** The folders the listing reports: each name once, in the order the loop first adds it. */
  function FolderNames(files: seq<FileEntry>, root: string): (r: seq<string>)
    ensures Distinct(r)
    ensures forall n :: n in r <==> exists i :: 0 <= i < |files| && FolderOf(files[i].key, root) == Some(n)
  {
    var names := FolderOfEach(files, root);
    assert |names| == |files| && forall i :: 0 <= i < |files| ==> names[i] == FolderOf(files[i].key, root);
    assert forall n :: Some(n) in names <==> exists i :: 0 <= i < |files| && names[i] == Some(n);
    DistinctNames(names)
  }

  /** The `forEach` loop of the listing that fills the `folders` set. */
  method CollectFolders(files: seq<FileEntry>, root: string) returns (folders: seq<string>)
    ensures folders == FolderNames(files, root)
  {
    ghost var names := FolderOfEach(files, root);
    folders := [];
    var i := 0;
    while i < |files|
      invariant 0 <= i <= |files|
      invariant folders == DistinctNames(names[..i])
    {
      DistinctNamesStep(names, i);
      var relativePath := ReplaceFirst(files[i].key, root, "");
      if Includes(relativePath, "/") {
        var name := BeforeFirst(relativePath, "/");
        assert names[i] == Some(name);
        if name !in folders {
          folders := folders + [name];
        }
      } else {
        assert names[i] == None;
      }
      i := i + 1;
    }
    assert names[..|files|] == names;
  }

  /** The body a listing of `objects` under `root` returns. */
  function Project(domain: string, root: string, objects: seq<ObjectRecord>): ListData {
    var files := FileEntries(domain, objects);
    ListData(files, TotalSize(objects), FolderNames(files, root))
  }

  /** Every file a listing reports belongs to the tenant: its key starts with the root. */
  lemma ListedFilesInRoot(domain: string, root: string, bucket: seq<ObjectRecord>)
    ensures forall f :: f in Project(domain, root, ListObjects(bucket, root)).files ==> StartsWith(f.key, root)
  {
    var objects := ListObjects(bucket, root);
    var files := FileEntries(domain, objects);
    forall f | f in files ensures StartsWith(f.key, root) {
      var i :| 0 <= i < |files| && files[i] == f;
      assert objects[i] in objects;
    }
  }

  /** A folder the listing reports holds no "/" and comes from one of the tenant's keys. */
  lemma ListedFolderHasKey(files: seq<FileEntry>, root: string, n: string) returns (i: nat)
    requires forall f :: f in files ==> StartsWith(f.key, root)
    requires n in FolderNames(files, root)
    ensures '/' !in n && i < |files| && StartsWith(files[i].key, root + n + "/")
  {
    i :| 0 <= i < |files| && FolderOf(files[i].key, root) == Some(n);
    assert files[i] in files;
    FolderOfListedKey(files[i].key, root, n);
  }

  /** A key that continues the root with a "/"-free name and a "/" makes that name a listed folder. */
  lemma KeyGivesListedFolder(files: seq<FileEntry>, root: string, n: string, i: nat)
    requires i < |files| && '/' !in n && StartsWith(files[i].key, root + n + "/")
    ensures n in FolderNames(files, root)
  {
    var key := files[i].key;
    StartsWithLonger(key, root, n + "/");
    assert root + n + "/" == root + (n + "/");
    FolderOfListedKey(key, root, n);
  }

  /** The folders of a listing under the root come from the tenant's own keys. */
  lemma ListedFolderIsTenantKey(domain: string, root: string, bucket: seq<ObjectRecord>, n: string)
    requires n in Project(domain, root, ListObjects(bucket, root)).folders
    ensures '/' !in n && exists o :: o in bucket && StartsWith(o.key, root + n + "/")
  {
    var objects := ListObjects(bucket, root);
    var files := FileEntries(domain, objects);
    ListedFilesInRoot(domain, root, bucket);
    assert n in FolderNames(files, root);
    var i := ListedFolderHasKey(files, root, n);
    var o := objects[i];
    assert o in objects;
    assert o.key == files[i].key;
    assert o in bucket && StartsWith(o.key, root + n + "/");
  }

  /** A tenant key that continues the root with a "/"-free name and a "/" lists that folder. */
  lemma TenantKeyIsListedFolder(domain: string, root: string, bucket: seq<ObjectRecord>, n: string, o: ObjectRecord)
    requires o in bucket && '/' !in n && StartsWith(o.key, root + n + "/")
    ensures n in Project(domain, root, ListObjects(bucket, root)).folders
  {
    var objects := ListObjects(bucket, root);
    var files := FileEntries(domain, objects);
    assert root + n + "/" == root + (n + "/");
    StartsWithLonger(o.key, root, n + "/");
    assert o in objects;
    var i :| 0 <= i < |objects| && objects[i] == o;
    KeyGivesListedFolder(files, root, n, i);
  }

  /**
   * A name is a folder of the listing exactly when it holds no "/" and some
   * object of the bucket has a key that continues the root with that name and
   * a "/"; objects whose key does not start with the root never contribute.
   */
  lemma ListedFolders(domain: string, root: string, bucket: seq<ObjectRecord>, n: string)
    ensures n in Project(domain, root, ListObjects(bucket, root)).folders <==>
      '/' !in n && exists o :: o in bucket && StartsWith(o.key, root + n + "/")
  {
    if n in Project(domain, root, ListObjects(bucket, root)).folders {
      ListedFolderIsTenantKey(domain, root, bucket, n);
    }
    if '/' !in n && exists o :: o in bucket && StartsWith(o.key, root + n + "/") {
      var o :| o in bucket && StartsWith(o.key, root + n + "/");
      TenantKeyIsListedFolder(domain, root, bucket, n, o);
    }
  }

  // ---------------------------------------------------------------- upload

  /** The content type stored when the request gives none (`body.contentType || 'image/jpeg'`). */
  const DEFAULT_CONTENT_TYPE := "image/jpeg"

  function ContentTypeOrDefault(contentType: string): string {
    if contentType != "" then contentType else DEFAULT_CONTENT_TYPE
  }

  /**
   * The text `targetKey += filename` appends: a body without `filename` gives
   * `undefined`, which string concatenation turns into "undefined".
   */
  function FilenameText(filename: Option<string>): string {
    match filename
    case None => "undefined"
    case Some(f) => f
  }

  /** The key an upload writes: root, then `folder + "/"` when the folder is truthy, then the file name. */
  function TargetKey(root: string, folder: string, filename: string): string {
    root + (if folder != "" then folder + "/" else "") + filename
  }

  /** The successive `+=` updates that build `targetKey`. */
  method BuildTargetKey(root: string, folder: string, filename: string) returns (targetKey: string)
    ensures targetKey == TargetKey(root, folder, filename)
  {
    targetKey := root;
    if folder != "" {
      targetKey := targetKey + folder + "/";
    }
    targetKey := targetKey + filename;
  }

  /** An upload always writes inside the tenant root, and its owner's delete request keeps that key. */
  lemma TargetKeyInRoot(root: string, folder: string, filename: string)
    ensures StartsWith(TargetKey(root, folder, filename), root)
    ensures SafeKeys([TargetKey(root, folder, filename)], root) == [TargetKey(root, folder, filename)]
  {
    var key := TargetKey(root, folder, filename);
    assert key[..|root|] == root;
  }

  /** Uploading into a folder whose name holds no "/" makes that folder appear in the next listing. */
  lemma UploadedIntoFolder(root: string, folder: string, filename: string)
    requires folder != "" && '/' !in folder
    ensures FolderOf(TargetKey(root, folder, filename), root) == Some(folder)
  {
    var key := TargetKey(root, folder, filename);
    assert key == (root + folder + "/") + filename;
    assert key[..|root|] == root;
    assert key[..|root + folder + "/"|] == root + folder + "/";
    FolderOfListedKey(key, root, folder);
  }

  /** Uploading without a folder a name that holds no "/" puts the file directly under the root. */
  lemma UploadedIntoRoot(root: string, filename: string)
    requires '/' !in filename
    ensures FolderOf(TargetKey(root, "", filename), root) == None
  {
    var key := TargetKey(root, "", filename);
    assert key[..|root|] == root;
    assert key[|root|..] == filename;
    NoFolderForRootKey(key, root);
  }

  // ---------------------------------------------------------------- delete

  /** `keys.filter(k => k.startsWith(userRoot))`: the requested keys inside the root, in request order. */
  function SafeKeys(keys: seq<string>, root: string): (r: seq<string>)
    ensures |r| <= |keys|
    ensures forall k :: k in r ==> StartsWith(k, root)
    ensures forall k :: multiset(r)[k] == if StartsWith(k, root) then multiset(keys)[k] else 0
  {
    if keys == [] then []
    else
      assert keys == [keys[0]] + keys[1..];
      var rest := SafeKeys(keys[1..], root);
      if StartsWith(keys[0], root) then [keys[0]] + rest else rest
  }

  /** The filter keeps request order: filtering a concatenation concatenates the filtered parts. */
  lemma {:induction false} SafeKeysAppend(a: seq<string>, b: seq<string>, root: string)
    ensures SafeKeys(a + b, root) == SafeKeys(a, root) + SafeKeys(b, root)
    decreases |a|
  {
    if a == [] {
      assert a + b == b;
    } else {
      assert (a + b)[1..] == a[1..] + b;
      assert (a + b)[0] == a[0];
      SafeKeysAppend(a[1..], b, root);
    }
  }

  /**
   * No object whose key does not start with the root is removed by the batch
   * delete the guard lets through. That protects another tenant's objects only
   * when the two roots are not prefixes of each other (`TenantsIsolated`).
   */
  lemma DeleteSparesKeysOutsideRoot(bucket: seq<ObjectRecord>, keys: seq<string>, root: string)
    ensures forall o :: o in bucket && !StartsWith(o.key, root) ==> o in RemoveKeys(bucket, SafeKeys(keys, root))
    ensures forall o :: o in bucket && o.key in keys && StartsWith(o.key, root) ==>
      o !in RemoveKeys(bucket, SafeKeys(keys, root))
  {
    var safe := SafeKeys(keys, root);
    forall o | o in bucket && o.key in keys && StartsWith(o.key, root)
      ensures o.key in safe
    {
      assert multiset(keys)[o.key] > 0;
    }
  }

  /** A key under two roots means one root starts with the other. */
  lemma SharedKeyNestsRoots(key: string, r1: string, r2: string)
    ensures StartsWith(key, r1) && StartsWith(key, r2) ==> StartsWith(r1, r2) || StartsWith(r2, r1)
  {
    if StartsWith(key, r1) && StartsWith(key, r2) {
      if |r1| <= |r2| {
        assert r2[..|r1|] == key[..|r1|];
      } else {
        assert r1[..|r2|] == key[..|r2|];
      }
    }
  }

  /**
   * When neither of two configured roots starts with the other, the listing of
   * the first holds no object of the second, and the first's delete removes none.
   */
  lemma TenantsIsolated(domain: string, bucket: seq<ObjectRecord>, keys: seq<string>, r1: string, r2: string)
    requires !StartsWith(r1, r2) && !StartsWith(r2, r1)
    ensures forall f :: f in Project(domain, r1, ListObjects(bucket, r1)).files ==> !StartsWith(f.key, r2)
    ensures forall o :: o in bucket && StartsWith(o.key, r2) ==> o in RemoveKeys(bucket, SafeKeys(keys, r1))
  {
    ListedFilesInRoot(domain, r1, bucket);
    DeleteSparesKeysOutsideRoot(bucket, keys, r1);
    forall k: string
      ensures !(StartsWith(k, r1) && StartsWith(k, r2))
    {
      SharedKeyNestsRoots(k, r1, r2);
    }
  }

  /**
   * The code does not check that roots are unrelated: with the root "t/a", the
   * object "t/ab/x/y.jpg" of a tenant rooted at "t/ab/" is listed under the
   * folder "b" ...
   */
  lemma PrefixRootListsForeignFolder()
    ensures var o := ObjectRecord("t/ab/x/y.jpg", 1, 0);
      && StartsWith(o.key, "t/ab/")
      && "b" in Project("d", "t/a", ListObjects([o], "t/a")).folders
  {
    var o := ObjectRecord("t/ab/x/y.jpg", 1, 0);
    assert o.key[..|"t/ab/"|] == "t/ab/";
    assert o.key[..|"t/a" + "b" + "/"|] == "t/a" + "b" + "/";
    TenantKeyIsListedFolder("d", "t/a", [o], "b", o);
  }

  /** ... and a delete request under the root "t/a" removes that object. */
  lemma PrefixRootDeletesForeignObject()
    ensures var o := ObjectRecord("t/ab/x/y.jpg", 1, 0);
      && StartsWith(o.key, "t/ab/")
      && o !in RemoveKeys([o], SafeKeys([o.key], "t/a"))
  {
    var o := ObjectRecord("t/ab/x/y.jpg", 1, 0);
    assert o.key[..|"t/ab/"|] == "t/ab/";
    assert o.key[..|"t/a"|] == "t/a";
    DeleteSparesKeysOutsideRoot([o], [o.key], "t/a");
  }

  // ---------------------------------------------------------------- handler

  /** The parsed JSON body, as far as the actions read it. */
  datatype Body =
    | Unreadable                                   // `JSON.parse` throws
    | UploadFields(filename: Option<string>, folder: string, fileData: Option<string>, contentType: string)
    | DeleteFields(keys: seq<string>)

  /** The parts of the Netlify event the handler reads. */
  datatype Request = Request(httpMethod: string, passcode: Option<string>, action: Option<string>, body: Body)

  /** The deployment's configuration: the passcode mapping and the public domain. */
  datatype Env = Env(mapping: map<string, string>, domain: string)

  datatype Payload =
    | Text(text: string)                           // a plain-text body
    | ErrorMessage(message: string)                // `{error: message}`
    | Malformed                                    // a body the action cannot read: a 500 with a library message
    | Listing(data: ListData)                      // `{files, totalSize, folders}`
    | Uploaded(url: string)                        // `{success: true, url}`
    | Deleted(count: nat)                          // `{success: true, count}`

  datatype Response = Response(statusCode: int, payload: Payload)

  /** The storage call a request issues, if any. */
  datatype Command =
    | NoCommand
    | ListCmd(prefix: string)
    | PutCmd(key: string, data: string, contentType: string)
    | DeleteCmd(keys: seq<string>)

  const METHOD_NOT_ALLOWED := "Method Not Allowed"
  const ACCESS_DENIED := "口令错误或无权限"
  const UNKNOWN_ACTION := "Unknown Action"

  /** A storage call confined to the tenant root. */
  predicate WithinRoot(cmd: Command, root: string) {
    match cmd
    case NoCommand => true
    case ListCmd(prefix) => prefix == root
    case PutCmd(key, _, _) => StartsWith(key, root)
    case DeleteCmd(keys) => |keys| > 0 && forall k :: k in keys ==> StartsWith(k, root)
  }

  /** The error response of a storage call that throws. */
  function StoreFailure(storeError: Option<string>): Response
    requires storeError.Some?
  {
    Response(500, ErrorMessage(storeError.value))
  }

  /**
   * `handler`. `bucket` is what the store holds; `storeError` is `Some(m)` when
   * the storage call throws with message `m`.
   */
  method Handle(env: Env, req: Request, bucket: seq<ObjectRecord>, storeError: Option<string>)
    returns (resp: Response, cmd: Command)
    ensures req.httpMethod != "POST" ==>
      resp == Response(405, Text(METHOD_NOT_ALLOWED)) && cmd == NoCommand
    ensures req.httpMethod == "POST" && GetUserRoot(env.mapping, req.passcode).None? ==>
      resp == Response(403, ErrorMessage(ACCESS_DENIED)) && cmd == NoCommand
    ensures cmd != NoCommand ==>
      && req.httpMethod == "POST"
      && GetUserRoot(env.mapping, req.passcode).Some?
      && WithinRoot(cmd, GetUserRoot(env.mapping, req.passcode).value)
    ensures req.httpMethod == "POST" && GetUserRoot(env.mapping, req.passcode).Some? ==>
      var root := GetUserRoot(env.mapping, req.passcode).value;
      && (req.action == Some("list") ==>
            && cmd == ListCmd(root)
            && resp == if storeError.Some? then StoreFailure(storeError)
                       else Response(200, Listing(Project(env.domain, root, ListObjects(bucket, root)))))
      && (req.action == Some("upload") && req.body.UploadFields? && req.body.fileData.Some? ==>
            var key := TargetKey(root, req.body.folder, FilenameText(req.body.filename));
            && cmd == PutCmd(key, req.body.fileData.value, ContentTypeOrDefault(req.body.contentType))
            && resp == if storeError.Some? then StoreFailure(storeError)
                       else Response(200, Uploaded(ObjectUrl(env.domain, key))))
      && (req.action == Some("upload") && !(req.body.UploadFields? && req.body.fileData.Some?) ==>
            resp == Response(500, Malformed) && cmd == NoCommand)
      && (req.action == Some("delete") && req.body.DeleteFields? ==>
            var safe := SafeKeys(req.body.keys, root);
            && cmd == (if |safe| > 0 then DeleteCmd(safe) else NoCommand)
            && resp == if |safe| > 0 && storeError.Some? then StoreFailure(storeError)
                       else Response(200, Deleted(|safe|)))
      && (req.action == Some("delete") && !req.body.DeleteFields? ==>
            resp == Response(500, Malformed) && cmd == NoCommand)
      && (req.action !in {Some("list"), Some("upload"), Some("delete")} ==>
            resp == Response(400, Text(UNKNOWN_ACTION)) && cmd == NoCommand)
  {
    if req.httpMethod != "POST" {
      return Response(405, Text(METHOD_NOT_ALLOWED)), NoCommand;
    }
    var userRoot := GetUserRoot(env.mapping, req.passcode);
    if userRoot.None? {
      return Response(403, ErrorMessage(ACCESS_DENIED)), NoCommand;
    }
    var root := userRoot.value;

    if req.action == Some("list") {
      cmd := ListCmd(root);
      if storeError.Some? {
        return StoreFailure(storeError), cmd;
      }
      var objects := ListObjects(bucket, root);
      var totalSize := TotalSize(objects);
      var files := FileEntries(env.domain, objects);
      var folders := CollectFolders(files, root);
      return Response(200, Listing(ListData(files, totalSize, folders))), cmd;
    }

    if req.action == Some("upload") {
      if !req.body.UploadFields? {
        return Response(500, Malformed), NoCommand;
      }
      var targetKey := BuildTargetKey(root, req.body.folder, FilenameText(req.body.filename));
      TargetKeyInRoot(root, req.body.folder, FilenameText(req.body.filename));
      if req.body.fileData.None? {
        // `Buffer.from(undefined, 'base64')` throws before the put is sent.
        return Response(500, Malformed), NoCommand;
      }
      cmd := PutCmd(targetKey, req.body.fileData.value, ContentTypeOrDefault(req.body.contentType));
      if storeError.Some? {
        return StoreFailure(storeError), cmd;
      }
      return Response(200, Uploaded(ObjectUrl(env.domain, targetKey))), cmd;
    }

    if req.action == Some("delete") {
      if !req.body.DeleteFields? {
        return Response(500, Malformed), NoCommand;
      }
      var safeKeys := SafeKeys(req.body.keys, root);
      cmd := NoCommand;
      if |safeKeys| > 0 {
        cmd := DeleteCmd(safeKeys);
        if storeError.Some? {
          return StoreFailure(storeError), cmd;
        }
      }
      return Response(200, Deleted(|safeKeys|)), cmd;
    }

    return Response(400, Text(UNKNOWN_ACTION)), NoCommand;
  }
}
