# Password-gated gallery over a flat object store: a Dafny model

The gallery gives each tenant a key prefix ("root") of one object-storage
bucket and makes that flat key space look like folders. A serverless handler
(`netlify/functions/api.js`) checks the HTTP method, looks the request's
passcode up in a passcode-to-root mapping, and then does one of three things
inside that root. It lists the objects, adding their total size, a public link
per object and the folder names it infers from the keys. It uploads a file
under `root + folder/ + filename`. It deletes the requested keys, but only
those that start with the root. The browser client (`app.js`) checks new
folder names, renames "chat"-mode uploads to `.webp`, sorts the listing
newest first, and filters it by folder. It also keeps a set of selected keys
that decides whether the copy and delete buttons are enabled.

The model has five modules:

- `Wrappers` holds `Option`.
- `Strings` holds the JavaScript string builtins the code relies on:
  `startsWith`, `indexOf`, `includes`, `replace` with a string pattern (which
  replaces the first occurrence only) and `split(sep)[0]`.
- `Store` models the bucket as a sequence of `(key, size, lastModified)`
  records in listing order. A prefix listing keeps the records under the
  prefix. A batch delete removes the named keys.
- `Api` models the handler. `Handle` is a method that changes nothing and
  returns the HTTP response together with the storage `Command` it would send
  (none, a list, a put or a batch delete). Its contract states every branch:
  405, 403, 400, 500, and 200 for each action. It also states that any
  storage call is made only after both gates and stays inside the resolved
  root.
- `Gallery` models `app.js`. Its pure rules are functions. The `app` object
  is the class `App`: its fields `files`, `folders` and `selectedKeys`, plus
  the disabled flags of the copy and delete buttons, are updated in place by
  `ToggleSelect`, `RenderGallery` and `LoadGallery`.

What the model takes as parameters rather than computing:

- the deployment's mapping and public domain (`Env`);
- the parsed request (`Request`, with `Body` for the JSON body);
- the bucket contents;
- whether a storage call throws, and its message (`storeError`);
- on the client, the prompt's answer, the compression mode, the filter value
  and the outcome of the listing request.

How the code handles uploads, keys and folders, as the model states it:

- **Uploads are proxied.** The code sends the bytes itself with one put
  (api.js:92-117). The browser never writes to the store directly.
- **Nothing validates filenames or folders on the server.** Any folder and
  filename go into the key (api.js:99-101). The only containment argument is
  that the key starts with the root (`TargetKeyInRoot`).
- **Leading separators are not normalised.** A key `root + "/c.jpg"` adds the
  folder `""` (`DoubledSeparatorFolder`). It does not become a file at the
  root.
- **Folders are one level deep.** There is no projection at a relative path.
  The server reports only the first segment after the root. The client's
  filter tests whether the whole key contains `/<name>/`
  (`RootSegmentFilterShowsAll` shows what follows from that).
- **The listing body has no root.** It carries `{files, totalSize, folders}`.
- **`replace` is modelled as the code wrote it.** `Api.FolderOf` uses
  first-occurrence replacement. `Strings.ReplaceFirstOfPrefix` proves that this
  strips the prefix for every key a prefix listing returns.

Other consequences of the code that the model keeps:

- **A missing `x-passcode` header looks up the entry `"undefined"`.** This is
  `PasscodeKey`.
- **An entry that maps to `""` denies access**, like a missing one.
- **Tenants are isolated only when no configured root is a prefix of another.**
  Both the listing and the delete guard test `startsWith(userRoot)` and nothing
  more, and the code does not check the mapping for this. `TenantsIsolated`
  proves the isolation when no root starts with another.
  `PrefixRootListsForeignFolder` and `PrefixRootDeletesForeignObject` show what
  happens otherwise: the root "t/a" sees and can delete the objects of "t/ab/".
- **A request without an `action` gets 400.**
- **An upload body without `filename` still writes.** `targetKey += filename`
  appends the text `"undefined"` (`FilenameText`), so the object is stored as
  `root[folder/]undefined` and the response is 200.
- **`loadGallery` always renders with the filter `"all"`.**
  `updateFolderSelects` rebuilds the filter's options by assigning
  `innerHTML`, so the select falls back to its first option, `"all"`, before
  `renderGallery` reads it (app.js:101-104, 113).

## Model

| member | source | states |
|---|---|---|
| `Api.GetUserRoot` | netlify/functions/api.js:20-31 | A root is returned exactly when the passcode's entry exists and is not the falsy `""`; it is that entry and is never empty. A missing header looks up `"undefined"`. |
| `Api.Handle` | netlify/functions/api.js:33-148 | A non-POST request gets 405 and no storage call. A POST without a root gets 403 and no storage call. Any issued command comes after both gates and stays in the root. It states the commands and responses of list, upload (default content type `image/jpeg`; a body without `filename` writes the key `root[folder/]undefined` and answers 200; a body without `fileData` gets 500 and no put), delete (no call and count 0 when nothing survives), the 500s for a failing store or an unreadable body, and the 400 for any other action. |
| `Store.ListObjects` | netlify/functions/api.js:58-62 | The prefix query returns exactly the bucket's records whose key starts with the prefix. |
| `Store.RemoveKeys` | netlify/functions/api.js:127-130 | The batch delete keeps exactly the records whose key it does not name. |
| `Api.TotalSizeAppend` | netlify/functions/api.js:65-66 | The left fold of sizes is additive over concatenation. It is 0 for no objects. |
| `Api.TotalSizeBounds` | netlify/functions/api.js:66 | Every object's size is counted in the total. |
| `Api.FileEntries` | netlify/functions/api.js:69-74 | The same length and order as the listed objects. Key, size and lastModified are copied unchanged, and url is `DOMAIN + "/" + key`. |
| `Api.ObjectUrlInjective` | netlify/functions/api.js:71 | Different keys get different public links under one domain. |
| `Strings.ReplaceFirstOfPrefix` | netlify/functions/api.js:79 | For a key that starts with the root, `key.replace(root, "")` is the text after the root. |
| `Strings.Includes` | netlify/functions/api.js:80 | `includes` holds exactly when the pattern occurs at some index. |
| `Strings.IndexOfFrom` | netlify/functions/api.js:79-81 | The search returns the leftmost occurrence at or after the start, or none when there is none. |
| `Api.RelativePathOfListedKey` | netlify/functions/api.js:79 | Under the root, the relative path is the key without its root prefix. |
| `Api.FolderOfNamedKey` | netlify/functions/api.js:79-81 | A key continuing the root with a "/"-free name and "/" adds that name. |
| `Api.NamedKeyOfFolderOf` | netlify/functions/api.js:79-81 | A folder a key under the root adds is "/"-free, and the key continues the root with it and "/". |
| `Api.FolderOfListedKey` | netlify/functions/api.js:78-82 | Under the root, a key adds folder `n` iff it starts with `root + n + "/"` and `n` has no "/". |
| `Api.NoFolderForRootKey` | netlify/functions/api.js:79-81 | A key adds no folder iff its relative path has no "/": keys directly under the root add none. |
| `Api.DoubledSeparatorFolder` | netlify/functions/api.js:79-81 | A relative path starting with "/" adds the folder `""`. No normalisation is done. |
| `Api.DistinctNames` | netlify/functions/api.js:77-83 | The insertion-ordered set has no repeats. A name is in it iff some step added it. |
| `Api.DistinctNamesStep` | netlify/functions/api.js:81 | Each `folders.add` appends the name unless it is already present. |
| `Api.FolderNames` | netlify/functions/api.js:77-83 | Folder names appear once each. A name is listed iff some file's key adds it. |
| `Api.CollectFolders` | netlify/functions/api.js:77-83 | The `forEach` loop yields exactly `FolderNames`. |
| `Api.ListedFilesInRoot` | netlify/functions/api.js:58-74 | Every file of a listing has a key starting with the tenant root. |
| `Api.ListedFolderHasKey` | netlify/functions/api.js:77-83 | A listed folder is "/"-free and comes from a key `root + n + "/" + ...`. |
| `Api.KeyGivesListedFolder` | netlify/functions/api.js:77-83 | A key `root + n + "/" + ...` with "/"-free `n` makes `n` a listed folder. |
| `Api.ListedFolderIsTenantKey` | netlify/functions/api.js:58-83 | A folder of the tenant's listing comes from one of the bucket's objects under `root + n + "/"`. |
| `Api.TenantKeyIsListedFolder` | netlify/functions/api.js:58-83 | Any bucket object under `root + n + "/"`, with "/"-free `n`, makes `n` a folder of the listing. |
| `Api.ListedFolders` | netlify/functions/api.js:58-83 | `n` is a listed folder iff `n` has no "/" and some bucket object's key starts with `root + n + "/"`. Objects whose key does not start with the root never contribute. |
| `Api.BuildTargetKey` | netlify/functions/api.js:98-101 | The successive `+=` updates give `root + (folder ? folder + "/" : "") + filename`. |
| `Api.TargetKeyInRoot` | netlify/functions/api.js:99-101 | Every upload key starts with the root, so the delete guard keeps it. |
| `Api.UploadedIntoFolder` | netlify/functions/api.js:99-101 | Uploading into a "/"-free non-empty folder makes that folder appear in the next listing. |
| `Api.UploadedIntoRoot` | netlify/functions/api.js:99-101 | Uploading a "/"-free filename without a folder adds no folder. |
| `Api.SafeKeys` | netlify/functions/api.js:124 | Only keys starting with the root survive. Each such key survives as often as requested, and other keys never do. |
| `Api.SafeKeysAppend` | netlify/functions/api.js:124 | The filter keeps request order: it distributes over concatenation. |
| `Api.DeleteSparesKeysOutsideRoot` | netlify/functions/api.js:124-130 | After the guarded delete, every object whose key does not start with the root is still there, and every requested object inside it is gone. |
| `Api.SharedKeyNestsRoots` | netlify/functions/api.js:124 | A key that starts with two roots exists only when one root starts with the other. |
| `Api.TenantsIsolated` | netlify/functions/api.js:58-130 | When neither of two roots starts with the other, the first tenant's listing holds no object of the second, and the first tenant's delete removes none of them. |
| `Api.PrefixRootListsForeignFolder` | netlify/functions/api.js:58-83 | With roots "t/a" and "t/ab/", the object "t/ab/x/y.jpg" of "t/ab/" is listed for "t/a" under the folder "b". |
| `Api.PrefixRootDeletesForeignObject` | netlify/functions/api.js:124-130 | With roots "t/a" and "t/ab/", a delete request under "t/a" removes the object "t/ab/x/y.jpg" of "t/ab/". |
| `Gallery.CreateNewFolder` | app.js:125-137 | Nothing happens for a cancelled or empty answer. A name is accepted iff it matches `^[a-zA-Z0-9_-]+$`. Other names are rejected. |
| `Gallery.PathLikeNamesRejected` | app.js:127 | Any name containing "/" or ".", such as "a/b" or "..", is rejected. |
| `Gallery.NewFolderTakesEffectOnUpload` | app.js:133 | An accepted new folder is the listed folder of any file uploaded into it, in any mode. |
| `Gallery.FindExtension` | app.js:220 | The regex search finds a match of `\.[^/.]+$` at or after the start, or reports that none exists. |
| `Gallery.ExtensionUnique` | app.js:220 | That pattern matches at most one index, so the leftmost match is the only one. |
| `Gallery.WebpName` | app.js:220 | The result ends in ".webp", and what precedes it is a prefix of the original name. |
| `Gallery.WebpReplacesExtension` | app.js:220 | `base + "." + ext`, with an `ext` that is non-empty and has no "/" or ".", becomes `base + ".webp"`. |
| `Gallery.WebpAppendsExtension` | app.js:220 | A name with no such suffix gets ".webp" appended. |
| `Gallery.WebpIdempotent` | app.js:220 | Renaming twice is the same as renaming once. |
| `Gallery.ChatUploadsAreWebp` | app.js:213-220 | Every "chat"-mode upload is stored under a key ending in ".webp". |
| `Gallery.Visible` | app.js:150-155 | A file is drawn iff the filter is "all" or its key contains `"/" + filter + "/"`. |
| `Gallery.VisibleStep` | app.js:150-155 | Each file is drawn after the earlier ones exactly when the filter shows it. |
| `Gallery.VisibleAppend` | app.js:150-155 | Filtering keeps `app.files` order. |
| `Gallery.VisibleAll` | app.js:155 | The "all" filter draws every file, in order. |
| `Gallery.FolderFilesShown` | app.js:155 | With a root ending in "/", filtering by a folder never hides a file the listing puts in that folder. |
| `Gallery.SlashSegmentOccurs` | app.js:155 | A key starting with `pre + "/" + seg + "/"` passes the filter `seg`. |
| `Gallery.RootSegmentFilterShowsAll` | app.js:152-155 | When the root ends in `/seg/`, the filter `seg` shows every file of the tenant, including root-level files. |
| `Gallery.Insert` | app.js:94 | Insertion adds exactly one entry, `x`, to the multiset and keeps everything else. |
| `Gallery.InsertNewestFirst` | app.js:94 | Insertion keeps a newest-first list newest first. |
| `Gallery.SortNewestFirst` | app.js:94 | The result is ordered by lastModified descending and is a permutation of the input. |
| `Gallery.Toggled` | app.js:169-178 | The toggled key flips membership, and every other key is unchanged. |
| `Gallery.ToggleTwice` | app.js:169-178 | Toggling the same key twice restores the selection. |
| `Gallery.App.constructor` | app.js:3-7 | The app starts with no files, no folders and no selection, with both buttons disabled. |
| `Gallery.App.UpdateActionButtons` | app.js:182-187 | Both buttons are disabled iff the selection is empty. |
| `Gallery.App.ToggleSelect` | app.js:169-180 | The selection becomes `Toggled(old selection, key)`, and the buttons follow it. Nothing else changes. |
| `Gallery.App.RenderGallery` | app.js:143-167 | The selection is cleared, both buttons are disabled, and the drawn files are `Visible(files, filter)`. |
| `Gallery.App.LoadGallery` | app.js:91-108 | On success, `files` is a newest-first permutation of the listed files and `folders` is the set of listed folder names. The selection is cleared and every file is drawn. On failure nothing changes. |

## Left out

- The S3 client, the environment variables and the `busboy` import, as
  external configuration. The three `send` calls become the returned `Command`,
  and a listing reads the `Store` model.
- Pagination: the code reads only the first page of the listing. Page size and
  truncation are store behaviour that the code does not show.
- Parsing: the `USER_MAPPING` JSON (an unparsable value acts as an empty
  mapping, so pass `map[]`), the request body JSON, and base64 decoding. The
  mapping is a `map<string, string>`, and `fileData` is passed through as it
  arrives.
- JavaScript prototype-chain lookups (`mapping["__proto__"]`, `"toString"`).
  Mapping values that are not strings are also left out.
- `Api.Handle` does not model JSON values of other types in the body fields.
  A `keys` entry that is not a string makes `startsWith` throw, a 500 the model
  does not state. An upload `folder`, `filename` or `contentType` that is a
  number or a boolean is turned into text by the code (`5` gives the segment
  `"5/"`, while `0` and `false` give none); the model takes `folder` and
  `contentType` as strings, an absent one as `""`, and `filename` as a string
  or absent.
- `Api.TotalSize` adds unbounded naturals. JavaScript numbers lose precision
  above 2^53 bytes.
- Timestamps are integers. The JSON date round trip and `new Date(...)`
  parsing in the sort comparator are left out.
- `Gallery.SortNewestFirst` is defined as a stable insertion sort, as
  `Array.prototype.sort` is. Only its ordering and permutation are proved;
  stability has no lemma.
- All DOM work:
  - Card markup and the `selected-card` class.
  - `dataset.url` and the clipboard copy of links (`copySelectedLinks`).
  - Alerts, confirms and prompts, apart from the prompt's answer.
  - The copy button's label text with the count.
  - The `<option>` lists built by `updateFolderSelects`.
  - `localStorage`, `login`, `logout` and `location.reload`.
  - The request wrapper and its 403 handling, which are I/O.
- The buttons' initial disabled state belongs to the page markup, which is not
  part of this model. `Gallery.App.constructor` starts with both buttons
  disabled, which is what `updateActionButtons` sets for an empty selection.
- `deleteSelected`: it sends `Array.from(selectedKeys)` and then reloads the gallery listing
  (`app.loadGallery()`). Only the
  server side of a delete is modelled.
- `imageCompression`, `fileToBase64`, the upload loop's progress bar and
  `setTimeout`. These are an external image library and asynchronous browser
  APIs. The filename rule of the "chat" mode is kept (`UploadFilename`).
- The MB formatting of the storage total (`toFixed`), which is floating-point
  display.
