# Blast annotation backend, modelled in Dafny

The system is a small Flask backend (`app.py`). Users annotate
blast-monitoring videos: they attach timestamped comments to a video and mark
one "critical moment" per video. The annotations live in a process-global
dict. A second route lists the blast folders of the static directory that
hold a video, a CSV file and a PDF report.

This project models the two pieces of logic behind those routes.

- **Annotation store** (`store.dfy`, module `AnnotationStore`). The dict
  becomes a value `Store = map<string, Record>`. Each of the five handlers is
  a pure function of the store and the request. The two writers,
  `save_annotation` and `set_critical_moment`, return the response and the new
  store. The three readers, `get_annotations`, `get_critical_moment` and
  `review_annotations`, return only a response, so they cannot change the
  store. Responses are `Ok`, `BadRequest(message)` (the 400 reply) and
  `ServerError` (the 500 Flask sends when a handler raises).
- **Request histories** (`history.dfy`, module `StoreHistory`). Writes are
  replayed in arrival order. Reference definitions state what each id's
  annotations, critical moment and existence should be after a run of
  writes, and lemmas prove that the handlers produce exactly that.
- **File names** (`filenames.dfy`, module `FileNames`). This covers
  `str.rfind`, `os.path.splitext`, `str.lower()` and the classification of a
  file into the video (`.mp4`), table (`.csv`) or document (`.pdf`) bucket.
- **Blast-folder scan** (`scanner.dfy`, module `BlastScanner`). The output of
  `os.listdir` and `os.path.isdir` becomes a tree of `File` and `Dir`
  entries. The two loops of `list_videos` are methods with loop invariants,
  proved equal to declarative reference functions. The folder logic is stated
  for any classifier; `ListVideos` runs it with `FileNames.Classify`.
- `json.dfy` (module `Json`) holds the JSON scalars of a request body and
  `float()` applied to them.

Behaviour of the code as written that a reader may not expect:

- A save whose `time` cannot be coerced raises inside the handler, so
  Flask replies with a 500. The create-if-absent step has
  already run, so an unseen id is left with an empty record. The same holds
  for `set_critical_moment` with an absent or non-numeric value.
- A folder is listed when it holds at least one file of each kind, even
  when it holds several. When a bucket has several candidates, the last one in listing
  order is used.

## Model

| member | source | states |
|---|---|---|
| Json.ToFloat | app.py:59 | Python's `float()`, also used for the critical moment at line 95: it raises exactly for a missing field, for JSON null, and for text it cannot read. A JSON number keeps its value. `true` and `false` become 1.0 and 0.0, because a Python bool is an int. Readable text gives the number it spells. |
| AnnotationStore.IdField | app.py:47 | `data.get('video_id')`, here and at line 85: an id is read exactly when the body's `video_id` field exists and holds a string. The id is that string. |
| AnnotationStore.SaveAnnotation | app.py:33-64 | A missing or empty id gives the 400 reply and the same store. With an id, the reply is a success exactly when `time` coerces, and the id has a record afterwards either way. A failed coercion leaves the old record, or a new empty one for an unseen id. Success appends the stored entry after the old annotations and keeps the critical moment. The entry has the body's fields plus a float `time` and the given timestamp. No other id's record changes. Valid stores stay valid. |
| AnnotationStore.GetAnnotations | app.py:66-76 | Never fails. A missing or empty id gives `[]`. Otherwise it gives the stored sequence verbatim, or `[]` for an unknown id. |
| AnnotationStore.SetCriticalMoment | app.py:78-97 | A missing or empty id gives the 400 reply and the same store. With an id, the reply is a success exactly when the value coerces, and the record exists afterwards either way. A failure leaves an unseen id with an empty record. Success overwrites the moment with the coerced value, echoes the raw value, and keeps the annotations. Other ids are unchanged. |
| AnnotationStore.GetCriticalMoment | app.py:99-109 | Never fails. A missing, empty or unknown id gives None. Otherwise it gives the stored moment, which may itself be None. |
| AnnotationStore.ReviewAnnotations | app.py:114-129 | Its annotation list is always exactly what get_annotations returns. It is the found shape, carrying the id, exactly when the id is present and stored. Otherwise it is the no-data shape with `[]` and the fixed message. |
| StoreHistory.ReplayAnnotations | app.py:51-62 | After any run of writes, an id's annotations are its old ones followed by the entries of the accepted saves for it, in arrival order. Appends never lose or reorder earlier entries. |
| StoreHistory.ReplayCriticalMoment | app.py:91-95 | After any run of writes, an id's critical moment is the value of the last accepted set for it, or the moment it had before. |
| StoreHistory.ReplayKeys | app.py:47-95 | After any run of writes, the ids in the store are the old ones plus every id a write named, whether or not that write succeeded. No record is ever removed. |
| StoreHistory.ReplayValid | app.py:47-62 | Every store reached from the empty one has no record under the empty id, and every stored annotation has a float `time` and a string `timestamp`. |
| StoreHistory.ApplyIsLocal | app.py:51-95 | A write that names no id leaves the store as it was. Otherwise it replaces only the named id's record, by a value that depends on that record and the request alone. |
| StoreHistory.ApplyRecord | app.py:51-95 | One id's record after a write is the updated record when the write names that id, and the old record otherwise. |
| StoreHistory.DistinctIdsCommute | app.py:51-95 | Two writes to different ids give the same store in either order. |
| StoreHistory.SetTwiceOverwrites | app.py:88-109 | Setting one value and then a second for the same id reads back the second. The id's annotations are those it had before. |
| StoreHistory.SaveThenGet | app.py:51-76 | After an accepted save, reading the id gives the old list with the stamped entry last. The critical moment read is unchanged. |
| StoreHistory.FirstAnnotationScenario | app.py:38-64 | On an empty store, a save for "v1" with time "12.34" gives one annotation with time 12.34, the comment and the timestamp. |
| FileNames.RFind | app.py:159 | Returns the index of the last occurrence of the character before `end`, or -1. Every later position holds something else. |
| FileNames.SplitExt | app.py:159 | Stem and extension concatenate back to the name. The extension is non-empty exactly when a dot follows some non-dot character. A non-empty extension starts with its only dot, and its stem has a non-dot character. |
| FileNames.Lower | app.py:159 | `str.lower()` keeps the length, lower-cases character by character, and leaves no ASCII capital in its result. |
| FileNames.LowerIdempotent | app.py:159 | Lower-casing an already lower-cased extension changes nothing. |
| FileNames.Classify | app.py:159-165 | A classified name's lower-cased extension is its bucket's suffix. An unclassified name's extension matches no suffix. |
| FileNames.ClassifyMeaning | app.py:159-165 | Both directions: a name is in bucket `k` exactly when its last four characters lower-case to `k`'s suffix and some earlier character is not a dot. |
| FileNames.ClassifyWithSuffix | app.py:159-165 | Any stem with a non-dot character, followed by a bucket's suffix, is classified into that bucket. |
| FileNames.UpperCaseExtension | app.py:159-160 | "X.MP4" is a video. |
| FileNames.OnlyLastSuffixCounts | app.py:159-165 | "a.mp4.bak" is in no bucket. |
| FileNames.LeadingDotIsNoExtension | app.py:159-165 | ".mp4" and "..pdf" are in no bucket: their only non-dot text follows the last dot, so `splitext` sees no extension. |
| BlastScanner.LastIndex | app.py:152-165 | Returns the index of the last file of the kind, or -1. Nothing after it is a file of that kind. |
| BlastScanner.Chosen | app.py:147-165 | A bucket's reference choice is present exactly when the listing holds a non-directory file of that kind. |
| BlastScanner.Step | app.py:153-165 | One loop iteration overwrites exactly the bucket of the current file, if any. A subdirectory or an unknown extension changes nothing. |
| BlastScanner.ScanFolder | app.py:147-165 | After the inner loop, every bucket holds the last file of its kind in listing order, or nothing. |
| BlastScanner.FolderBlast | app.py:167-174 | A root entry yields a blast exactly when it is a directory holding a file of each kind. The blast names the folder. Its three URLs are `<prefix>blasts/<folder>/<chosen file>`. |
| BlastScanner.UrlParts | app.py:171-173 | `url_for` on the static folder, as `Url` models it: the URL is the static prefix, then `blasts/`, then the folder, a `/` and the file name, each part at its own position. |
| BlastScanner.UrlDeterminesFile | app.py:171-173 | Under one prefix, two URLs are equal only when their folders and file names are equal, for folder names without `/`. So distinct chosen files give distinct URLs. |
| BlastScanner.ScanRoot | app.py:138-174 | The outer loop over the root listing computes exactly the reference list of blasts. |
| BlastScanner.ListVideos | app.py:133-174 | The route's scan, with files classified by their lower-cased extension, gives exactly the reference list of blasts. |
| BlastScanner.BlastsAppend | app.py:143-174 | The result for two listings one after the other is the first result followed by the second. So the output follows folder listing order. |
| BlastScanner.SingleEntry | app.py:138-174 | One root entry yields at most one blast, and a plain file of the root yields none. |
| BlastScanner.BlastsMembers | app.py:144-174 | A blast is in the output exactly when some root entry yields it. |
| BlastScanner.BlastsBounded | app.py:143-174 | There are never more blasts than root entries. |
| BlastScanner.TwoFolderScenario | app.py:138-174 | Folder A with all three kinds is listed. Folder B without a pdf is dropped, and so is a loose video in the root. |
| BlastScanner.LastVideoWins | app.py:152-174 | With two videos in one folder, exactly one is used: the later in listing order. |

## Left out

- Flask routing, `request.get_json`, `jsonify` and HTTP status codes. Replies are the `Response` and `Review` datatypes.
- The `index` route and both `render_template` calls. They are UI with no logic, and the `/videos` result is the list given to the template.
- `app.run`, the entry point.
- `time.strftime`, which depends on the clock. The timestamp is an opaque string parameter.
- How `float()` reads decimal text. It is the `parse` parameter. `Time` is an exact `real`, so rounding, NaN, the infinities and overflow of huge JSON integers are not modelled.
- The unlocked global dict and any interleaving of concurrent requests. The store is a value threaded through calls.
- Request bodies that are not a JSON object, and field values that are arrays or objects. A body that is not an object makes `data.get` raise.
- AnnotationStore.IdField: only a JSON string counts as an id. A truthy non-string id, such as a non-zero number or `true`, is a usable dict key in the source but is treated as absent here, because the store is keyed by strings.
- `os.listdir` and `os.path.isdir`, which are filesystem I/O. Their results are the `Entry` tree. A listing that raises is not modelled: a missing blasts directory, or a blast subfolder that `os.listdir` cannot read at app.py:152 (permission denied, or removed between the two listings). Either makes the route fail with a 500.
- `url_for`, a call into Flask. It is concatenation onto a `prefix` parameter, without URL percent-encoding.
- FileNames.SplitExt: models POSIX `splitext` for a single path component. Names from `os.listdir` contain no `/`, so separator handling is left out, and so are Windows path rules.
- FileNames.LowerChar: lower-cases ASCII letters only. Apart from KELVIN SIGN, which becomes `k`, and capital I with dot above, which becomes `i` plus a combining dot, no non-ASCII character lower-cases into ASCII. Neither letter occurs in `.mp4`, `.csv` or `.pdf`, so the buckets come out as the full Unicode `lower()` would give them.
