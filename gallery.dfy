/**
 * The browser side of the gallery (app.js): the rules it applies to what the
 * user types and selects, and the `app` object whose fields its handlers
 * update. The DOM is reduced to the two action buttons' disabled flags and to
 * the list of files a render shows.
 */
module Gallery {
  import opened Wrappers
  import opened Strings
  import opened Api

  // ---------------------------------------------------------------- new folder

  /** A character of the class `[a-zA-Z0-9_-]`. */
  predicate IsFolderNameChar(c: char) {
    ('a' <= c <= 'z') || ('A' <= c <= 'Z') || ('0' <= c <= '9') || c == '_' || c == '-'
  }

  /** `/^[a-zA-Z0-9_-]+$/.test(name)`. */
  predicate MatchesFolderPattern(name: string) {
    |name| > 0 && forall i :: 0 <= i < |name| ==> IsFolderNameChar(name[i])
  }

  /** What `createNewFolder` does with the prompt's answer. */
  datatype NewFolder =
    | Dismissed              // the prompt was cancelled (`null`) or left empty: nothing happens
    | Accepted(name: string) // the name is offered as the upload folder
    | Rejected(name: string) // "folder name format is wrong"

  /** `createNewFolder`: `None` stands for a cancelled prompt. */
  function CreateNewFolder(answer: Option<string>): (r: NewFolder)
    ensures r == Dismissed <==> answer == None || answer == Some("")
    ensures r.Accepted? <==> answer.Some? && MatchesFolderPattern(answer.value)
    ensures r.Accepted? || r.Rejected? ==> answer == Some(r.name)
  {
    match answer
    case None => Dismissed
    case Some(name) =>
      if name == "" then Dismissed
      else if MatchesFolderPattern(name) then Accepted(name)
      else Rejected(name)
  }

  /** A name holding a path separator or a dot, such as "a/b" or "..", is refused. */
  lemma PathLikeNamesRejected(name: string)
    requires '/' in name || '.' in name
    ensures CreateNewFolder(Some(name)) == Rejected(name)
  {
    var i :| 0 <= i < |name| && (name[i] == '/' || name[i] == '.');
    assert !IsFolderNameChar(name[i]);
  }

  // ---------------------------------------------------------------- upload file name

  /** The pattern `\.[^/.]+$` matches `s` from index `i`: a dot, then one or more characters up to the end, none a "/" or a ".". */
  predicate ExtensionAt(s: string, i: nat) {
    i + 1 < |s| && s[i] == '.' && forall j :: i < j < |s| ==> s[j] != '/' && s[j] != '.'
  }

  /** The regular expression search: the leftmost index at or after `from` where the pattern matches. */
  function FindExtension(s: string, from: nat): (r: Option<nat>)
    ensures r.Some? ==> from <= r.value && ExtensionAt(s, r.value)
    ensures r.None? ==> forall j :: from <= j ==> !ExtensionAt(s, j)
    decreases |s| - from
  {
    if from >= |s| then None
    else if ExtensionAt(s, from) then Some(from)
    else FindExtension(s, from + 1)
  }

  /** The pattern can match at one index at most, so the leftmost match is the only one. */
  lemma ExtensionUnique(s: string, i: nat, j: nat)
    requires ExtensionAt(s, i) && ExtensionAt(s, j)
    ensures i == j
  {
  }

  /** `filename.replace(/\.[^/.]+$/, "")`. */
  function StripExtension(s: string): string {
    match FindExtension(s, 0)
    case None => s
    case Some(i) => s[..i]
  }

  /** The name an image compressed in "chat" mode is uploaded under. */
  function WebpName(s: string): (r: string)
    ensures EndsWith(r, ".webp")
    ensures StartsWith(s, r[..|r| - 5])
  {
    var base := StripExtension(s);
    var r := base + ".webp";
    assert r[..|r| - 5] == base;
    assert s[..|base|] == base;
    r
  }

  /** The final extension is replaced: "a.b.png" becomes "a.b.webp". */
  lemma WebpReplacesExtension(base: string, ext: string)
    requires ext != "" && '/' !in ext && '.' !in ext
    ensures WebpName(base + "." + ext) == base + ".webp"
  {
    var s := base + "." + ext;
    assert ExtensionAt(s, |base|) by {
      forall j | |base| < j < |s| ensures s[j] != '/' && s[j] != '.' {
        assert s[j] == ext[j - |base| - 1];
      }
    }
    var i := FindExtension(s, 0).value;
    ExtensionUnique(s, i, |base|);
    assert s[..|base|] == base;
  }

  /** A name without such an extension gains one: "photo" becomes "photo.webp". */
  lemma WebpAppendsExtension(s: string)
    requires forall i :: !ExtensionAt(s, i)
    ensures WebpName(s) == s + ".webp"
  {
  }

  /** Renaming an already renamed file changes nothing. */
  lemma WebpIdempotent(s: string)
    ensures WebpName(WebpName(s)) == WebpName(s)
  {
    var base := StripExtension(s);
    assert WebpName(s) == base + "." + "webp";
    WebpReplacesExtension(base, "webp");
  }

  /** The name `startUpload` sends: rewritten in "chat" mode, kept in the other modes. */
  function UploadFilename(mode: string, name: string): string {
    if mode == "chat" then WebpName(name) else name
  }

  /** Every "chat" upload is stored under a key ending in ".webp", whatever folder it goes to. */
  lemma ChatUploadsAreWebp(root: string, folder: string, name: string)
    ensures EndsWith(TargetKey(root, folder, UploadFilename("chat", name)), ".webp")
  {
    var r := WebpName(name);
    var key := TargetKey(root, folder, r);
    assert key[|key| - 5..] == r[|r| - 5..];
  }

  /**
   * A folder made with "new folder" takes effect with the first upload into
   * it: the uploaded key lists that folder, whatever the mode and file name.
   */
  lemma NewFolderTakesEffectOnUpload(answer: Option<string>, root: string, mode: string, name: string)
    requires CreateNewFolder(answer).Accepted?
    ensures var folder := CreateNewFolder(answer).name;
      FolderOf(TargetKey(root, folder, UploadFilename(mode, name)), root) == Some(folder)
  {
    var folder := CreateNewFolder(answer).name;
    if '/' in folder {
      PathLikeNamesRejected(folder);
    }
    UploadedIntoFolder(root, folder, UploadFilename(mode, name));
  }

  // ---------------------------------------------------------------- folder filter

  /** The filter value that shows every file. */
  const ALL_FOLDERS := "all"

  /** The filter test of `renderGallery`: all files, or the keys that contain `/filter/`. */
  predicate Shown(key: string, filter: string) {
    filter == ALL_FOLDERS || Includes(key, "/" + filter + "/")
  }

  /** The files `renderGallery` draws, in `app.files` order. */
  function Visible(files: seq<FileEntry>, filter: string): (r: seq<FileEntry>)
    ensures |r| <= |files|
    ensures forall f :: f in r <==> f in files && Shown(f.key, filter)
  {
    if files == [] then []
    else
      var prev := Visible(files[..|files| - 1], filter);
      var last := files[|files| - 1];
      assert files == files[..|files| - 1] + [last];
      if Shown(last.key, filter) then prev + [last] else prev
  }

  /** One more file is drawn after the others exactly when the filter shows it. */
  lemma VisibleStep(files: seq<FileEntry>, filter: string, i: nat)
    requires i < |files|
    ensures Visible(files[..i + 1], filter) ==
      if Shown(files[i].key, filter) then Visible(files[..i], filter) + [files[i]] else Visible(files[..i], filter)
  {
    assert files[..i + 1][..i] == files[..i];
  }

  /** The filter keeps the file order: filtering a concatenation concatenates the filtered parts. */
  lemma {:induction false} VisibleAppend(a: seq<FileEntry>, b: seq<FileEntry>, filter: string)
    ensures Visible(a + b, filter) == Visible(a, filter) + Visible(b, filter)
    decreases |b|
  {
    if b == [] {
      assert a + b == a;
    } else {
      var n := |b| - 1;
      assert (a + b)[..|a + b| - 1] == a + b[..n];
      assert (a + b)[|a + b| - 1] == b[n];
      VisibleAppend(a, b[..n], filter);
    }
  }

  /** The "all" filter shows every file in order. */
  lemma {:induction false} VisibleAll(files: seq<FileEntry>)
    ensures Visible(files, ALL_FOLDERS) == files
    decreases |files|
  {
    if files != [] {
      VisibleAll(files[..|files| - 1]);
      assert files == files[..|files| - 1] + [files[|files| - 1]];
    }
  }

  /** With a root ending in "/", the filter never hides a file of the folder it names. */
  lemma FolderFilesShown(key: string, root: string, folder: string)
    requires EndsWith(root, "/") && StartsWith(key, root)
    requires FolderOf(key, root) == Some(folder)
    ensures Shown(key, folder)
  {
    FolderOfListedKey(key, root, folder);
    var pre := root[..|root| - 1];
    assert root == pre + "/";
    SlashSegmentOccurs(pre, folder, key);
  }

  /** A key that starts with `pre + "/" + seg + "/"` contains "/seg/" right after `pre`. */
  lemma SlashSegmentOccurs(pre: string, seg: string, key: string)
    requires StartsWith(key, pre + "/" + seg + "/")
    ensures OccursAt(key, "/" + seg + "/", |pre|)
    ensures Shown(key, seg)
  {
    var t := pre + "/" + seg + "/";
    var p := "/" + seg + "/";
    assert t[|pre|..|pre| + |p|] == p;
    OccursInPrefix(key, t, p, |pre|);
  }

  /**
   * The filter tests a substring of the whole key, not the listing's folder:
   * when the root ends in "/<seg>/", filtering by a folder named `seg` shows
   * every file of the tenant, including those directly under the root.
   */
  lemma RootSegmentFilterShowsAll(pre: string, seg: string, root: string, key: string)
    requires root == pre + "/" + seg + "/" && StartsWith(key, root)
    ensures Shown(key, seg)
  {
    SlashSegmentOccurs(pre, seg, key);
  }

  // ---------------------------------------------------------------- newest first

  /** Ordered by `lastModified`, newest first. */
  ghost predicate NewestFirst(files: seq<FileEntry>) {
    forall i, j :: 0 <= i < j < |files| ==> files[i].lastModified >= files[j].lastModified
  }

  /** Places `x` before the first entry that is not newer than it. */
  function Insert(x: FileEntry, sorted: seq<FileEntry>): (r: seq<FileEntry>)
    ensures multiset(r) == multiset(sorted) + multiset{x}
    ensures |r| == |sorted| + 1
  {
    if sorted == [] then [x]
    else if sorted[0].lastModified <= x.lastModified then [x] + sorted
    else
      assert sorted == [sorted[0]] + sorted[1..];
      [sorted[0]] + Insert(x, sorted[1..])
  }

  /** Inserting into a newest-first list keeps it newest first. */
  lemma {:induction false} InsertNewestFirst(x: FileEntry, sorted: seq<FileEntry>)
    requires NewestFirst(sorted)
    ensures NewestFirst(Insert(x, sorted))
    decreases |sorted|
  {
    if sorted != [] && sorted[0].lastModified > x.lastModified {
      var tail := Insert(x, sorted[1..]);
      InsertNewestFirst(x, sorted[1..]);
      forall j | 0 <= j < |tail| ensures tail[j].lastModified <= sorted[0].lastModified {
        assert tail[j] in multiset(tail);
        assert tail[j] == x || tail[j] in multiset(sorted[1..]);
        if tail[j] != x {
          var k :| 0 <= k < |sorted[1..]| && sorted[1..][k] == tail[j];
          assert sorted[k + 1] == tail[j];
        }
      }
      var r := [sorted[0]] + tail;
      assert forall j :: 0 < j < |r| ==> r[j] == tail[j - 1];
    }
  }

  /** `files.sort((a, b) => b.lastModified - a.lastModified)`, a stable sort. */
  function SortNewestFirst(files: seq<FileEntry>): (r: seq<FileEntry>)
    ensures NewestFirst(r)
    ensures multiset(r) == multiset(files)
  {
    if files == [] then []
    else
      assert files == [files[0]] + files[1..];
      var rest := SortNewestFirst(files[1..]);
      InsertNewestFirst(files[0], rest);
      Insert(files[0], rest)
  }

  // ---------------------------------------------------------------- selection

  /** The selection after `toggleSelect(key)`. */
  function Toggled(selected: set<string>, key: string): (r: set<string>)
    ensures key in r <==> key !in selected
    ensures forall k :: k != key ==> (k in r <==> k in selected)
  {
    if key in selected then selected - {key} else selected + {key}
  }

  /** Toggling the same key twice restores the selection. */
  lemma ToggleTwice(selected: set<string>, key: string)
    ensures Toggled(Toggled(selected, key), key) == selected
  {
  }

  /** The `app` object: its file list, folder set, selection and the state of its two action buttons. */
  class App {
    var files: seq<FileEntry>
    var folders: set<string>
    var selectedKeys: set<string>
    var copyDisabled: bool
    var deleteDisabled: bool

    /** What `updateActionButtons` maintains: both buttons are disabled exactly when nothing is selected. */
    ghost predicate ButtonsMatchSelection()
      reads this
    {
      copyDisabled == (selectedKeys == {}) && deleteDisabled == (selectedKeys == {})
    }

    constructor ()
      ensures files == [] && folders == {} && selectedKeys == {}
      ensures ButtonsMatchSelection()
    {
      files, folders, selectedKeys := [], {}, {};
      copyDisabled, deleteDisabled := true, true;
    }

    /** `updateActionButtons`. */
    method UpdateActionButtons()
      modifies this`copyDisabled, this`deleteDisabled
      ensures ButtonsMatchSelection()
    {
      var hasSel := |selectedKeys| > 0;
      copyDisabled := !hasSel;
      deleteDisabled := !hasSel;
    }

    /** `toggleSelect`: the key leaves the selection if it was in it and joins it otherwise. */
    method ToggleSelect(key: string)
      modifies this`selectedKeys, this`copyDisabled, this`deleteDisabled
      ensures selectedKeys == Toggled(old(selectedKeys), key)
      ensures ButtonsMatchSelection()
    {
      if key in selectedKeys {
        selectedKeys := selectedKeys - {key};
      } else {
        selectedKeys := selectedKeys + {key};
      }
      UpdateActionButtons();
    }

    /** `renderGallery`: clears the selection and draws the files the filter shows. */
    method RenderGallery(filter: string) returns (shown: seq<FileEntry>)
      modifies this`selectedKeys, this`copyDisabled, this`deleteDisabled
      ensures selectedKeys == {} && copyDisabled && deleteDisabled
      ensures shown == Visible(files, filter)
    {
      selectedKeys := {};
      UpdateActionButtons();
      shown := [];
      var i := 0;
      while i < |files|
        invariant 0 <= i <= |files|
        invariant selectedKeys == {} && copyDisabled && deleteDisabled
        invariant shown == Visible(files[..i], filter)
      {
        VisibleStep(files, filter, i);
        if Shown(files[i].key, filter) {
          shown := shown + [files[i]];
        }
        i := i + 1;
      }
      assert files[..|files|] == files;
    }

    /**
     * `loadGallery` with the listing request's outcome (`None` when it
     * throws). Rebuilding the filter's options resets its value to "all", so the
     * render that follows shows every file: `shown` is what it draws.
     */
    method LoadGallery(response: Option<ListData>) returns (shown: Option<seq<FileEntry>>)
      modifies this`files, this`folders, this`selectedKeys, this`copyDisabled, this`deleteDisabled
      ensures response.None? ==>
        && shown == None && files == old(files) && folders == old(folders)
        && selectedKeys == old(selectedKeys)
        && copyDisabled == old(copyDisabled) && deleteDisabled == old(deleteDisabled)
      ensures response.Some? ==>
        && files == SortNewestFirst(response.value.files)
        && NewestFirst(files) && multiset(files) == multiset(response.value.files)
        && folders == (set f | f in response.value.folders)
        && selectedKeys == {} && ButtonsMatchSelection()
        && shown == Some(files)
    {
      if response.None? {
        return None;
      }
      var data := response.value;
      files := SortNewestFirst(data.files);
      folders := set f | f in data.folders;
      var drawn := RenderGallery(ALL_FOLDERS);
      VisibleAll(files);
      shown := Some(drawn);
    }
  }
}
