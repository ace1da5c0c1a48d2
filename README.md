# Traktor library exporter, modelled in Dafny

This project models the exporter of *traktorlibrarian*, the tool that copies a
Traktor DJ collection onto a removable volume (export.py, class `Exporter`).
One export run does the following.

1. It checks that the volume is mounted under `/Volumes`.
2. It scans the COLLECTION of the Traktor document (NML). Entries whose audio
   file is missing are dropped, and so are Traktor's own recordings (AUTHOR_TYPE
   `importer` with a `.wav` FILE). Every other entry is rewritten in place to
   point at the hidden `.Music` directory of the volume, appended to the
   "All tracks" list and indexed by its normalised file name.
3. It starts three workers:
   - a copy worker, which copies each source file unless its copy on the volume
     is less than 3602 seconds older than the source (or newer);
   - an orphan worker, enabled by configuration, which deletes the files in
     `.Music` that no exported entry names;
   - a playlist worker, which writes "All tracks" and then walks the playlist
     hierarchy. It creates one directory per folder and writes one `.nml`
     document per playlist, passing over `_LOOPS` and `_RECORDINGS`. It resolves
     each playlist's primary keys against the index.

   Each file copied, each orphan deleted and each playlist written queues a
   progress message, which `get_messages` drains. A skipped copy and a
   directory creation queue nothing.

The modules follow the exporter's parts:

| module | file | contents |
|---|---|---|
| `Library` | library.dfy | the NML entities, file status, documents and messages, as datatypes |
| `Names` | names.dfy | file-name sanitisation |
| `Keys` | keys.dfy | Traktor's `/:` path notation: split, join and replace |
| `Paths` | paths.dfy | `os.path.join` and `os.path.basename` |
| `Scan` | scan.dfy | the collection scan, as functions over a prefix of the collection |
| `Playlists` | playlists.dfy | member resolution, the recursive walk and the plan it follows |
| `Sync` | sync.dfy | the copy worker's skip rule, its fold over the sources and the buffer size |
| `Cleanup` | cleanup.dfy | the orphan set, when a copied file can and cannot be an orphan, and what the volume holds after the copy and orphan workers |
| `Seqs` | seqs.dfy | three sequence facts used by the loop proofs |
| `Export` | exporter.dfy | the classes `FileSystem`, `Catalogue` and `Exporter` |

In exporter.dfy, the `Exporter` class holds `_entries`, `_all_tracks`, the
message queue, the worker flags and the cancel flag as fields. Its methods
update those fields in place, as the Python does. Each loop (the scan, the copy,
the orphan removal, the playlist walk and the queue drain) is proved against
the specification functions of the other modules. The properties of those
functions are proved as lemmas.

The three workers run one after another, in the order the exporter starts them.
The volume is abstract:

- `files` maps source paths to their status (modification time and size);
- `dirs` is the set of existing directories;
- `music` maps the names in `.Music` to their status;
- `documents` maps paths to the playlist documents written.

Unicode NFD normalisation is a function-valued field of the exporter. It is
applied to each accepted entry's FILE to make its index key, and to the last
component of each playlist PRIMARYKEY. It is not applied to the name the copy
worker writes, nor to the names the orphan worker lists.

## Model

| member | source | states |
|---|---|---|
| Names.ReplaceChar | export.py:168 | `value.replace(c, '-')` for one character keeps the length; ReplaceCharPointwise states its effect position by position |
| Names.ReplaceEach | export.py:166-169 | the loop over the forbidden characters, one replace after another, keeps the length; ReplaceEachPointwise states its effect |
| Names.Sanitize | export.py:166-169 | the per-character definition of a sanitised name keeps the length; SanitizeIsReplaceEach ties it to the loop |
| Names.ReplaceEachPointwise | export.py:166-169 | replacing each listed character in turn turns every occurrence of a listed character into `-` and keeps every other character in its place |
| Names.SanitizeIsReplaceEach | export.py:166-169 | the replace loop over `REPLACE_CHARS` is the same as sanitising each character on its own, so the order of the replacements does not matter |
| Names.SanitizeChars | export.py:19 | a sanitised name keeps each allowed character, has `-` where one of the nine forbidden characters was, and holds none of them |
| Names.SanitizeIdempotent | export.py:166-169 | sanitising twice gives the same name as sanitising once |
| Names.SanitizeKeepsCleanNames | export.py:166-169 | a name without forbidden characters is left unchanged |
| Names.SanitizedHasNoSlash | export.py:140-141 | a sanitised folder name holds no `/`, so it adds exactly one path component |
| Keys.Split | export.py:176 | `split(u'/:')` yields at least one piece; the first piece begins the key; no piece holds the separator |
| Keys.SplitJoin | export.py:176 | joining the pieces with `/:` gives back the key, so splitting loses nothing |
| Keys.ReplaceSep | export.py:54 | `replace("/:", "/")` scanning from the left; ReplaceSepIsSplitJoin states what it computes |
| Keys.LastComponent | export.py:176 | `split(u'/:')[-1]`; LastComponentProperties states what it is |
| Keys.ReplaceSepIsSplitJoin | export.py:54 | `replace("/:", "/")` equals splitting on `/:` and joining with `/`, so Traktor's directory components become the POSIX path's components in order |
| Keys.LastComponentProperties | export.py:176 | the last piece holds no separator, ends the key, and is the whole key when the key holds no separator |
| Paths.Join | export.py:28-29 | an absolute second component replaces the first; otherwise the result is at least as long as both together |
| Paths.JoinShape | export.py:54 | a relative component is appended after the directory and after a slash when the directory is non-empty |
| Paths.BaseName | export.py:223 | `os.path.basename` is never longer than the path; BaseNameShape and BaseNameUnique characterise it |
| Paths.BaseNameShape | export.py:223 | the base name ends the path, holds no slash, and is the whole path or follows a slash |
| Paths.BaseNameUnique | export.py:223 | any slash-free ending that follows a slash, or is the whole path, is the base name |
| Paths.BaseNameOfJoin | export.py:223-224 | the base name of a slash-free file joined onto a directory is that file |
| Scan.SourcePath | export.py:54 | the source path of an entry is DIR with `/:` replaced by `/`, joined with FILE; BaseNameOfJoin gives FILE back from it |
| Scan.IsRecording | export.py:58 | a recording is an entry with AUTHOR_TYPE `importer` whose FILE ends with `.wav` |
| Scan.Accepts | export.py:56-60 | an entry is exported when its source path exists and it is not a recording; AcceptedMembership ties it to the scan |
| Scan.Indexed | export.py:65-66 | `_entries[normalize(FILE)] = entry` for each accepted entry in turn; IndexedKeys, IndexedLastWins, IndexedOtherKeys and IndexedValuesFrom state what it holds |
| Scan.Rewrite | export.py:69-71 | an exported entry gets DIR `/:.Music/:`, and VOLUME and VOLUMEID set to the volume; FILE and AUTHOR_TYPE are kept |
| Scan.Accepted | export.py:46-63 | the accepted entries are no more than the collection, and each is an entry of it whose source exists and that is not a recording |
| Scan.AcceptedMembership | export.py:55-63 | an entry is accepted exactly when it is in the collection, its source path exists and it is not an `importer` `.wav` |
| Scan.AcceptedAppend | export.py:46-63 | scanning two stretches of the collection accepts what each stretch accepts, in collection order |
| Scan.AcceptedAll | export.py:46-63 | when every entry passes the filter, all of them are accepted, in order |
| Scan.IndexedKeys | export.py:65-66 | the index's keys are the old keys plus the normalised FILE of every indexed entry, and no others |
| Scan.IndexedLastWins | export.py:65-66 | the last entry with a given normalised FILE is the one the index holds for it |
| Scan.IndexedOtherKeys | export.py:65-66 | a key that no indexed entry has keeps its old binding, or stays absent |
| Scan.IndexedValuesFrom | export.py:65-66 | every value of the index is an old value or one of the indexed entries |
| Scan.IndexHoldsRewrittenEntries | export.py:63-71 | every entry of the index after a scan is a rewritten form of an accepted collection entry |
| Playlists.KeyName | export.py:176 | the index key a PRIMARYKEY names is its last `/:` component, normalised |
| Playlists.Resolve | export.py:171-183 | a resolved playlist is never longer than the playlist |
| Playlists.ResolveFromIndex | export.py:178-179 | every member of a resolved playlist is an entry of the index |
| Playlists.ResolveAppend | export.py:174-182 | resolving two stretches of a playlist resolves each of them, in order |
| Playlists.DropUnresolved | export.py:178-181 | a key whose last component names no indexed entry is dropped, and the rest resolve as they would without it |
| Playlists.ResolveAllFound | export.py:174-179 | when every key is found, the i-th member is the entry the i-th key names |
| Playlists.RecursiveScan | export.py:134-137 | a cancelled walk yields no steps, otherwise the walk of the nodes in order; CancelledScanIsEmpty, NoReservedExport and WalkMatchesPlan state what it yields |
| Playlists.ScanNodes | export.py:138-156 | the nodes are walked one after another and their steps concatenated in document order |
| Playlists.ScanNode | export.py:139-156 | a folder yields the creation of its sanitised directory and then the walk of its subnodes inside it. A playlist that is not reserved yields one export with its resolved members. Any other node yields nothing |
| Playlists.ScanNodesMatchesPlan | export.py:134-156 | the uncancelled walk of the nodes under some folders exports exactly the planned playlists, in document order |
| Playlists.WalkMatchesPlan | export.py:160-163 | the walk from the destination exports exactly the non-reserved playlists of the hierarchy, in document order. Each one is exported in the path of its sanitised enclosing folders, with its resolved members |
| Playlists.PlannedMembership | export.py:150-156 | an export is planned exactly when it is the export of a listed, non-reserved playlist in its folder path with its resolved members |
| Playlists.NoReservedExport | export.py:150-153 | neither `_LOOPS` nor `_RECORDINGS` is ever exported, cancelled or not |
| Playlists.CancelledScanIsEmpty | export.py:135-136 | a cancelled walk does nothing |
| Playlists.FolderPathExtend | export.py:139-148 | entering a folder extends the directory by the folder's sanitised name |
| Playlists.DocumentPath | export.py:204-205 | a document is written at the sanitised display name plus `.nml`, joined onto its directory; DocumentPathBaseName states its file name |
| Playlists.DocumentPathBaseName | export.py:204-205 | a playlist document's file name is the sanitised display name plus `.nml`, so it lands in its folder's directory |
| Sync.UpToDate | export.py:229-232 | a destination is up to date when the source's modification time minus the destination's is less than 3602 seconds |
| Sync.CopyOne | export.py:223-238 | one source: missing, skipped when up to date, otherwise copied under its base name with the source's status and recorded as copied; CopiedIsUpToDate and SkippedChangesNothing state both branches |
| Sync.CopyAll | export.py:219-238 | the sources taken in order; CopyAllMakesUpToDate and CopyAllNothingToDo state what it achieves |
| Sync.BufferSize | export.py:246-263 | the buffer is the source size capped at 10485760 bytes, or 1024 bytes for an empty source |
| Sync.CopiedIsUpToDate | export.py:236-238 | a copied file takes the source's status, is up to date afterwards, and its base name is the last name copied |
| Sync.SkippedChangesNothing | export.py:227-232 | a missing source, or one whose copy is less than 3602 seconds older, changes nothing |
| Sync.CopyOneOtherName | export.py:223-238 | copying one source leaves every other name in the audio directory alone |
| Sync.CopyOneUpToDate | export.py:227-238 | after one step its existing source has an up-to-date copy |
| Sync.CopyOneKeepsUpToDate | export.py:229-238 | a copy only replaces a destination with a source at least 3602 seconds newer, so a name that was up to date with some status stays up to date with it |
| Sync.CopyAllMakesUpToDate | export.py:219-238 | after the copy worker, every existing source has an up-to-date copy under its base name, also when several sources share a base name |
| Sync.CopyAllNothingToDo | export.py:229-232 | when every existing source is already up to date, the copy worker copies nothing and changes nothing |
| Sync.SecondSyncCopiesNothing | export.py:219-238 | a second run of the copy worker over its own result, against unchanged sources, copies nothing; Cleanup.SecondExportCopiesNothing states it for a second export after orphan removal |
| Cleanup.Orphans | export.py:116-117 | the orphans are exactly the names listed in the audio directory that are not keys of the index |
| Cleanup.CopiedNamesFromSources | export.py:219-238 | every name the copy worker writes is the base name of one of its existing sources |
| Cleanup.CopiedNeverOrphaned | export.py:116-117 | when FILE names are plain and already normalised, every name the copy worker writes is an index key, so the orphan worker never deletes it |
| Cleanup.CopiedCanBeOrphaned | export.py:65-66 | for an entry with FILE `a.mp3` and a normalisation that changes it, the copy worker writes `a.mp3` and that name is an orphan of the index |
| Cleanup.CopiedNormalisedNeverOrphaned | export.py:116-117 | for plain FILE names and any normalisation, the normalised form of every name the copy worker writes is an index key. So on a volume that lists names normalised, the orphan worker never deletes a copied file |
| Cleanup.AfterCleanup | export.py:116-126 | the audio directory after the orphan worker holds exactly the listed names that are index keys, each with the status the copy left |
| Cleanup.ExportedFilesSurviveCleanup | export.py:116-126 | when FILE names are plain and already normalised, after the copy worker and then the orphan worker, every exported entry's audio file is in `.Music` under its FILE, up to date with its source |
| Cleanup.SurvivorsUpToDate | export.py:116-126 | removing the orphans keeps every up-to-date copy whose name is an index key |
| Cleanup.SecondExportCopiesNothing | export.py:219-238 | when FILE names are plain and already normalised, a second export against unchanged sources, after the first export's copy and orphan removal, copies nothing |
| Export.Exporter.constructor | export.py:24-35 | the destination is `/Volumes/<volume>` and the audio directory is `.Music` inside it; the index, the track list, the queue and the workers start empty; messages are not live and the export is not cancelled |
| Export.Exporter.GetMessages | export.py:87-97 | `None` exactly when messages are live and no worker is alive; otherwise every queued message, oldest first, with the queue left empty |
| Export.Exporter.Cancel | export.py:99-101 | sets the cancel flag and changes nothing else |
| Export.Exporter.CheckVolume | export.py:103-105 | passes exactly when the destination exists, and otherwise reports the missing volume |
| Export.Exporter.ScanCollection | export.py:46-71 | a cancelled scan of a non-empty collection stops with nothing changed. Otherwise the locations are the accepted entries' source paths, the track list grows by the rewritten accepted entries in order, the index gains them and the collection is rewritten |
| Export.Exporter.ScanOne | export.py:46-71 | one iteration keeps the scan state: the state for the first `i` entries becomes the state for the first `i + 1` |
| Export.Exporter.ScanEntry | export.py:50-71 | a missing or recording entry changes nothing; an accepted one is rewritten in place, appended to the track list and indexed under its normalised FILE |
| Export.Exporter.Copy | export.py:245-282 | the destination takes the source's size and modification time, and the buffer is the capped size |
| Export.Exporter.CopyFiles | export.py:214-221 | the audio directory is created when missing. A cancelled worker with sources copies nothing. Otherwise the audio directory and the `copy` messages are those of the copy fold over the locations |
| Export.Exporter.CopyIfNewer | export.py:223-240 | one source: the audio directory and the queued `copy` messages become those of one step of the fold |
| Export.Exporter.RemoveOrphanFiles | export.py:114-126 | when not cancelled, the deleted names are exactly the orphans, each deleted once and announced by a `delete` message in the same order; when cancelled, nothing is deleted; a name the index holds is never deleted |
| Export.Exporter.RemoveOrphan | export.py:123-126 | a `delete` message with the name is queued, then the file is gone |
| Export.Exporter.RemoveIfEnabled | export.py:75-76 | without orphan removal, or when cancelled, nothing is deleted. Otherwise the deleted names are exactly the orphans. Each name is deleted once, and the audio directory and the `delete` messages follow the deletions in order |
| Export.Exporter.ExportPlaylist | export.py:185-206 | a `playlist` message with the display name is queued. A document is written at the sanitised name plus `.nml` in the directory, holding the entries and their count |
| Export.Exporter.Perform | export.py:139-156 | one step of the walk creates its directory or writes its document and queues its message |
| Export.Exporter.ProcessPlaylists | export.py:158-163 | "All tracks" is exported first, to the destination, then the steps of the walk in order; the queue, the directories and the documents are exactly those of these steps |
| Export.Exporter.Export | export.py:39-82 | a missing destination fails with nothing changed. A cancelled scan of a non-empty collection changes nothing. Otherwise the collection, track list, index, audio directory, directories, queue and documents are those of the scan, the copy, the orphan removal and the walk, in that order, and at the end messages are live and no worker is alive |
| Export.Exporter.RunWorkers | export.py:73-82 | the copy, orphan and playlist workers run in order. Their effects on the audio directory, the directories (`.Music` when it was missing, then the walk's folders), the queue and the documents compose, and afterwards messages are live and every worker has finished |
| Export.Exporter.StartWorkers | export.py:73-79 | one live worker is added for copying, one for orphan removal when enabled and one for playlists, and messages go live |
| Export.Exporter.JoinWorkers | export.py:81-82 | every started worker has finished |

## Left out

- Threads: the three workers run one after another, in the order they are started. Interleavings of their messages and file operations are not modelled.
- Cancellation during a loop: the cancel flag is constant while the exporter runs. Each loop therefore stops at its first check or runs to the end. A cancel that arrives between two iterations from another thread is not modelled.
- Export.Exporter.Export: for a cancelled export over an empty collection, the contract states only that the export passes, not the workers' effects.
- Export.Exporter.RunWorkers: for a cancelled export, the contract states only the lifecycle flags.
- I/O errors: the model's file operations always succeed. In the source, only some errors are swallowed: an `IOError` inside the copy loop (export.py:242-243), an `OSError` inside `_copy` (export.py:284-285) and an `OSError` from a folder's `mkdir` (export.py:143-146). An error from `os.makedirs` of the audio directory (export.py:217), from `os.remove` of an orphan (export.py:126) or an `OSError` from `os.stat` in the skip test (export.py:230) escapes. It ends that worker's loop and leaves its remaining files or orphans untouched. The model does not capture a worker dying part-way through its loop.
- The same-file and named-pipe checks of `_copy` (export.py:265-277): they raise `shutil.Error` and `SpecialFileError`, which no handler catches, so they end the copy worker. The model copies in both cases. The same-file case cannot arise in practice: an identical file has the same modification time, so the skip rule passes it over. Also left out: the byte-by-byte copy and the creation of the destination's parent directory. The copy is modelled as the destination taking the source's size and modification time.
- Sources inside the volume's audio directory: `files` (the sources) and `music` (the names in `.Music`) are independent maps. A source that lives in the destination's `.Music` directory is not modelled, and copying or deleting there does not change `files`.
- XML construction: the library factories `create_new`, `create_playlist_structure` and `get_full_path` are not part of this model, and neither are the PRIMARYKEY elements of a written playlist. A document is modelled by its title, its ENTRIES count and its entries.
- Unicode NFD normalisation: it is a parameter of the exporter. It is applied to FILE for the index key and to the last PRIMARYKEY component, as in the source, and not to the copied name or the listing.
- Cleanup.CopiedNeverOrphaned: the promise that the copy worker and the orphan worker never touch the same file holds only when every exported FILE is already in normalised form. The copy worker writes the base name of the source as written (export.py:223-224), while the orphans are the listing minus the normalised keys (export.py:116-117). So on a volume that keeps names as written, a file whose FILE the normalisation changes is copied and then deleted, as Cleanup.CopiedCanBeOrphaned exhibits. On a volume that stores names normalised, Cleanup.CopiedNormalisedNeverOrphaned shows there is no collision. The model's `music` keeps names as written, as the source's own operations would on such a volume.
- Cleanup.ExportedFilesSurviveCleanup: carries the same premise as Cleanup.CopiedNeverOrphaned. Without it the orphan worker can delete a file just copied (Cleanup.CopiedCanBeOrphaned), so that file is not in `.Music` after the export.
- Cleanup.SecondExportCopiesNothing: carries the same premise. Without it a file deleted as an orphan by the first export is copied again by the second.
- Modification times are integers; the source's floating-point `st_mtime` differences are not modelled.
- Logging, the global `Exporter.instance` and the `conf` object: orphan removal is a boolean parameter of `Export`.
- guiserver.py and library.py are not part of this model.
- Malformed documents: a missing LOCATION, MODIFICATION_INFO, SUBNODES or attribute would raise in the source. The model's datatypes always hold them.
- Sources that name directories: `files` holds regular files only.
