/** The exporter: one export run of a Traktor collection onto a volume. The
    copy, orphan-removal and playlist workers run one after another, in the
    order the exporter starts them; their liveness is a flag per worker. */
module Export {
  import opened Library
  import Paths
  import Keys
  import Names
  import Scan
  import Playlists
  import Sync
  import Cleanup
  import Seqs

  datatype Option<T> = None | Some(value: T)

  /** The one failure an export reports to its caller. */
  datatype Outcome = Pass | VolumeMissing(volume: string)

  /** Where the volumes are mounted. */
  const VolumesRoot: string := "/Volumes"

  /** The volume as the exporter sees it: regular files by path, directories,
      the audio directory's files by name, and the playlist documents written. */
  class FileSystem {
    var files: map<string, Stat>
    var dirs: set<string>
    var music: map<string, Stat>
    var documents: map<string, Document>

    constructor (files: map<string, Stat>, dirs: set<string>, music: map<string, Stat>)
      ensures this.files == files && this.dirs == dirs && this.music == music
      ensures documents == map[]
    {
      this.files := files;
      this.dirs := dirs;
      this.music := music;
      documents := map[];
    }

    /** `os.path.exists(path)`. */
    predicate Exists(path: string)
      reads this
    {
      path in files || path in dirs
    }
  }

  /** The caller's library: the COLLECTION's entries, which an export
      rewrites in place, and the subnodes of the playlist hierarchy's root. */
  class Catalogue {
    var collection: seq<Entry>
    const playlists: seq<Node>

    constructor (collection: seq<Entry>, playlists: seq<Node>)
      ensures this.collection == collection && this.playlists == playlists
    {
      this.collection := collection;
      this.playlists := playlists;
    }
  }

  /** `{"action": "copy", "item": name}` for each copied name, in order. */
  function CopyMessages(names: seq<string>): (r: seq<Message>)
    ensures |r| == |names|
  {
    seq(|names|, i requires 0 <= i < |names| => Message(CopyAction, names[i]))
  }

  lemma CopyMessagesAppend(names: seq<string>, name: string)
    ensures CopyMessages(names + [name]) == CopyMessages(names) + [Message(CopyAction, name)]
  {
  }

  /** `{"action": "delete", "item": name}` for each removed name, in order. */
  function DeleteMessages(names: seq<string>): (r: seq<Message>)
    ensures |r| == |names|
  {
    seq(|names|, i requires 0 <= i < |names| => Message(DeleteAction, names[i]))
  }

  /** The names a sequence of names holds. */
  function NameSet(names: seq<string>): (r: set<string>)
    ensures forall n :: n in r <==> n in names
  {
    set n | n in names
  }

  /** The `playlist` message of each export among the steps, in order. */
  function PlaylistMessages(effects: seq<Playlists.Effect>): seq<Message> {
    if effects == [] then []
    else
      var last := effects[|effects| - 1];
      PlaylistMessages(effects[..|effects| - 1])
      + (if last.Export? then [Message(PlaylistAction, last.name)] else [])
  }

  /** The directories the steps create. */
  function Directories(effects: seq<Playlists.Effect>): set<string> {
    if effects == [] then {}
    else
      var last := effects[|effects| - 1];
      Directories(effects[..|effects| - 1]) + (if last.MakeDir? then {last.path} else {})
  }

  /** The document a playlist export writes. */
  function DocumentOf(name: string, entries: seq<Entry>): Document {
    Document(name, |entries|, entries)
  }

  /** The documents on the volume after the steps: each export writes its
      document at its path, replacing what was there. */
  function Written(docs: map<string, Document>, effects: seq<Playlists.Effect>): map<string, Document> {
    if effects == [] then docs
    else
      var last := effects[|effects| - 1];
      var before := Written(docs, effects[..|effects| - 1]);
      if last.Export? then before[Playlists.DocumentPath(last.directory, last.name) := DocumentOf(last.name, last.entries)]
      else before
  }

  /** One more step: its message, its directory and its document come last. */
  lemma EffectsStep(docs: map<string, Document>, steps: seq<Playlists.Effect>, x: Playlists.Effect)
    ensures PlaylistMessages(steps + [x])
            == PlaylistMessages(steps) + (if x.Export? then [Message(PlaylistAction, x.name)] else [])
    ensures Directories(steps + [x]) == Directories(steps) + (if x.MakeDir? then {x.path} else {})
    ensures Written(docs, steps + [x])
            == if x.Export? then Written(docs, steps)[Playlists.DocumentPath(x.directory, x.name) := DocumentOf(x.name, x.entries)]
               else Written(docs, steps)
  {
    assert (steps + [x])[..|steps|] == steps;
  }

  class Exporter {
    const library: Catalogue
    const fs: FileSystem
    const volume: string
    const destination: string
    const musicDir: string
    /** Unicode NFD normalisation, applied to each accepted entry's FILE to
        make its index key and to the last component of each PRIMARYKEY; not
        to the name the copy worker writes nor to the names the orphan worker
        lists. */
    const normalize: string -> string

    /** `_entries`: exported entries by normalised file name. */
    var entries: map<string, Entry>
    /** `_all_tracks`: exported entries in collection order. */
    var allTracks: seq<Entry>
    /** `message_queue`, oldest first. */
    var messages: seq<Message>
    var startMessages: bool
    /** For each started worker, whether it is still alive. */
    var workers: seq<bool>
    var cancelled: bool

    constructor (library: Catalogue, fs: FileSystem, volume: string, normalize: string -> string)
      ensures this.library == library && this.fs == fs && this.volume == volume && this.normalize == normalize
      ensures destination == Paths.Join(VolumesRoot, volume)
      ensures musicDir == Paths.Join(destination, Scan.MusicDir)
      ensures entries == map[] && allTracks == [] && messages == [] && workers == []
      ensures !startMessages && !cancelled
    {
      this.library := library;
      this.fs := fs;
      this.volume := volume;
      this.normalize := normalize;
      destination := Paths.Join(VolumesRoot, volume);
      musicDir := Paths.Join(Paths.Join(VolumesRoot, volume), Scan.MusicDir);
      entries := map[];
      allTracks := [];
      messages := [];
      startMessages := false;
      workers := [];
      cancelled := false;
    }

    /** True when no started worker is alive. */
    predicate AllFinished()
      reads this
    {
      true !in workers
    }

    /** `get_messages`: the finished sentinel once messages went live and no
        worker is alive; otherwise every queued message, oldest first, and
        the queue is left empty. */
    method GetMessages() returns (r: Option<seq<Message>>)
      modifies this`messages
      ensures startMessages && AllFinished() ==> r == None && messages == old(messages)
      ensures !(startMessages && AllFinished()) ==> r == Some(old(messages)) && messages == []
    {
      if startMessages && AllFinished() {
        return None;
      }
      var batch := [];
      while messages != []
        invariant batch + messages == old(messages)
        decreases |messages|
      {
        var message := messages[0];
        messages := messages[1..];
        batch := batch + [message];
      }
      assert batch + messages == batch;
      return Some(batch);
    }

    /** `cancel`: sets the flag and nothing else, so a second call changes nothing. */
    method Cancel()
      modifies this`cancelled
      ensures cancelled
    {
      cancelled := true;
    }

    /** `_check_volume`: the destination must exist. */
    method CheckVolume() returns (r: Outcome)
      ensures r == Pass <==> fs.Exists(destination)
      ensures r != Pass ==> r == VolumeMissing(volume)
    {
      if !fs.Exists(destination) {
        return VolumeMissing(volume);
      }
      return Pass;
    }

    /** The state of the scan loop after the first `i` entries of `coll`:
        what the exporter holds is built from the entries accepted so far,
        starting from `tracks0` and `index0`. */
    ghost predicate ScanState(coll: seq<Entry>, i: nat, accepted: seq<Entry>, locations: seq<string>,
                              tracks0: seq<Entry>, index0: map<string, Entry>)
      reads this, library, fs
    {
      && i <= |coll|
      && accepted == Scan.Accepted(coll[..i], fs.files.Keys)
      && locations == Scan.SourcePaths(accepted)
      && allTracks == tracks0 + Scan.RewriteAll(accepted, volume)
      && entries == Scan.Indexed(index0, Scan.RewriteAll(accepted, volume), normalize)
      && library.collection == Scan.RewrittenCollection(coll[..i], fs.files.Keys, volume) + coll[i..]
    }

    /** The scan loop of `export`: accepts entries, records their source
        paths, indexes them, lists them in order and rewrites them in place.
        A cancelled export stops at the first entry with nothing changed. */
    method ScanCollection() returns (locations: seq<string>, stopped: bool)
      modifies this`entries, this`allTracks, library`collection
      ensures stopped == (cancelled && old(library.collection) != [])
      ensures stopped ==> library.collection == old(library.collection) &&
                          entries == old(entries) && allTracks == old(allTracks)
      ensures !stopped ==>
                var accepted := Scan.Accepted(old(library.collection), fs.files.Keys);
                && locations == Scan.SourcePaths(accepted)
                && allTracks == old(allTracks) + Scan.RewriteAll(accepted, volume)
                && entries == Scan.Indexed(old(entries), Scan.RewriteAll(accepted, volume), normalize)
                && library.collection == Scan.RewrittenCollection(old(library.collection), fs.files.Keys, volume)
    {
      var coll := library.collection;
      locations := [];
      stopped := false;
      var i := 0;
      ghost var accepted: seq<Entry> := [];
      assert coll[..0] == [] && coll[0..] == coll;
      assert ScanState(coll, 0, accepted, locations, allTracks, entries);
      while i < |coll|
        invariant i > 0 ==> !cancelled
        invariant ScanState(coll, i, accepted, locations, old(allTracks), old(entries))
      {
        if cancelled {
          assert coll[..i] == [] && coll[i..] == coll;
          stopped := true;
          return;
        }
        locations, accepted := ScanOne(coll, i, accepted, locations, old(allTracks), old(entries));
        i := i + 1;
      }
      assert coll[..i] == coll && coll[i..] == [];
    }

    /** One iteration of the scan loop, from the state after `i` entries to
        the state after `i + 1`. */
    method ScanOne(coll: seq<Entry>, i: nat, ghost accepted: seq<Entry>, locations: seq<string>,
                   ghost tracks0: seq<Entry>, ghost index0: map<string, Entry>)
      returns (locations': seq<string>, ghost accepted': seq<Entry>)
      requires i < |coll|
      requires ScanState(coll, i, accepted, locations, tracks0, index0)
      modifies this`entries, this`allTracks, library`collection
      ensures ScanState(coll, i + 1, accepted', locations', tracks0, index0)
    {
      var files := fs.files.Keys;
      var entry := coll[i];
      Scan.ScanStep(coll, i, files, volume);
      Scan.CollectionStep(coll, i, files, volume, library.collection);
      Scan.TracksStep(accepted, entry, volume, index0, normalize, tracks0, allTracks, entries);
      var src, accept := ScanEntry(i);
      if accept {
        locations' := locations + [src];
        accepted' := accepted + [entry];
      } else {
        locations' := locations;
        accepted' := accepted;
      }
    }

    /** One entry of the scan loop: an entry whose audio file is missing, or
        that is a recording, is passed over; otherwise it is rewritten in
        place, appended to the track list and indexed by its normalised file
        name. */
    method ScanEntry(i: nat) returns (src: string, accept: bool)
      requires i < |library.collection|
      modifies this`entries, this`allTracks, library`collection
      ensures var e := old(library.collection[i]);
              && src == Scan.SourcePath(e)
              && accept == Scan.Accepts(e, fs.files.Keys)
              && library.collection == old(library.collection)[i := Scan.Scanned(e, fs.files.Keys, volume)]
              && (accept ==>
                    && entries == old(entries)[Scan.KeyOf(e, normalize) := Scan.Rewrite(e, volume)]
                    && allTracks == old(allTracks) + [Scan.Rewrite(e, volume)])
              && (!accept ==>
                    entries == old(entries) && allTracks == old(allTracks) && library.collection == old(library.collection))
    {
      var entry := library.collection[i];
      var location := entry.location;
      src := Paths.Join(Keys.ReplaceSep(location.dir), location.file);
      if src !in fs.files {
        // the audio file is missing: skipped
        return src, false;
      }
      if entry.authorType == Scan.Importer && Keys.IsSuffix(Scan.WavExtension, location.file) {
        // a recording: skipped
        return src, false;
      }
      var fileName := normalize(location.file);
      var rewritten := entry.(location := location.(dir := Scan.ExportedDir, volume := volume, volumeId := volume));
      entries := entries[fileName := rewritten];
      allTracks := allTracks + [rewritten];
      library.collection := library.collection[i := rewritten];
      return src, true;
    }

    /** `_copy`: writes the destination under its name with the source's size
        and modification time, using a buffer of the source size capped at
        10 MiB (1024 bytes for an empty file). */
    method Copy(src: string, name: string) returns (bufferSize: nat)
      requires src in fs.files
      modifies fs`music
      ensures fs.music == old(fs.music)[name := fs.files[src]]
      ensures bufferSize == Sync.BufferSize(fs.files[src].size)
    {
      bufferSize := Sync.MaxBuffer;
      var size := fs.files[src].size;
      if size < bufferSize {
        bufferSize := size;
      }
      if bufferSize == 0 {
        bufferSize := Sync.EmptyFileBuffer;
      }
      fs.music := fs.music[name := fs.files[src]];
    }

    /** `_copy_files`: creates the audio directory when it is missing, then
        copies each source that is newer than its destination, after queueing
        a `copy` message with its name. A cancelled export copies nothing. */
    method CopyFiles(locations: seq<string>)
      modifies fs`dirs, fs`music, this`messages
      ensures fs.dirs == old(fs.dirs) + (if old(fs.Exists(musicDir)) then {} else {musicDir})
      ensures cancelled && locations != [] ==> fs.music == old(fs.music) && messages == old(messages)
      ensures !cancelled || locations == [] ==>
                var result := Sync.CopyAll(fs.files, Sync.SyncState(old(fs.music), []), locations);
                fs.music == result.music && messages == old(messages) + CopyMessages(result.copied)
    {
      if !fs.Exists(musicDir) {
        fs.dirs := fs.dirs + {musicDir};
      }
      ghost var st := Sync.SyncState(fs.music, []);
      assert locations[..0] == [];
      var i := 0;
      while i < |locations|
        invariant 0 <= i <= |locations|
        invariant fs.dirs == old(fs.dirs) + (if old(fs.Exists(musicDir)) then {} else {musicDir})
        invariant i > 0 ==> !cancelled
        invariant st == Sync.CopyAll(fs.files, Sync.SyncState(old(fs.music), []), locations[..i])
        invariant fs.music == st.music && messages == old(messages) + CopyMessages(st.copied)
      {
        if cancelled {
          return;
        }
        Sync.CopyAllStep(fs.files, Sync.SyncState(old(fs.music), []), locations, i);
        CopyIfNewer(locations[i], st, old(messages));
        st := Sync.CopyOne(fs.files, st, locations[i]);
        i := i + 1;
      }
      assert locations[..i] == locations;
    }

    /** One source of `_copy_files`: a missing source is passed over; a
        source whose destination is up to date is skipped; otherwise a
        `copy` message is queued and the file copied. */
    method CopyIfNewer(src: string, ghost st: Sync.SyncState, ghost queued: seq<Message>)
      requires fs.music == st.music && messages == queued + CopyMessages(st.copied)
      modifies fs`music, this`messages
      ensures fs.music == Sync.CopyOne(fs.files, st, src).music
      ensures messages == queued + CopyMessages(Sync.CopyOne(fs.files, st, src).copied)
    {
      ghost var files := fs.files;
      if src in fs.files {
        var fileName := Paths.BaseName(src);
        var skip := false;
        if fileName in fs.music {
          var diff := fs.files[src].mtime - fs.music[fileName].mtime;
          skip := diff < Sync.SkipTolerance;
        }
        if !skip {
          ghost var next := Sync.SyncState(st.music[fileName := files[src]], st.copied + [fileName]);
          assert Sync.CopyOne(files, st, src) == next;
          CopyMessagesAppend(st.copied, fileName);
          ghost var sent := CopyMessages(st.copied);
          Seqs.AppendAssoc(queued, sent, [Message(CopyAction, fileName)]);
          messages := messages + [Message(CopyAction, fileName)];
          var _ := Copy(src, fileName);
          assert fs.music == next.music;
          assert messages == queued + CopyMessages(next.copied);
        } else {
          assert Sync.CopyOne(files, st, src) == st;
        }
      } else {
        assert Sync.CopyOne(files, st, src) == st;
      }
      assert fs.files == files;
    }

    /** What the orphan worker has done after deleting `deleted`, each name
        once, out of `orphans`: those names are gone from the audio directory
        and announced after `queued`, and `remaining` is what is left to do. */
    ghost predicate OrphanState(orphans: set<string>, remaining: set<string>, deleted: seq<string>,
                                music0: map<string, Stat>, queued: seq<Message>)
      reads this, fs
    {
      && remaining <= orphans
      && NameSet(deleted) == orphans - remaining
      && (forall i, j :: 0 <= i < j < |deleted| ==> deleted[i] != deleted[j])
      && fs.music == music0 - NameSet(deleted)
      && messages == queued + DeleteMessages(deleted)
    }

    /** `_remove_orphan_files`: every name in the audio directory that is not
        a key of the index is removed, each after a `delete` message, in some
        order; a cancelled export removes nothing. */
    method RemoveOrphanFiles() returns (ghost deleted: seq<string>)
      modifies fs`music, this`messages
      ensures cancelled ==> deleted == []
      ensures !cancelled ==> NameSet(deleted) == Cleanup.Orphans(old(fs.music).Keys, entries.Keys)
      ensures forall i, j :: 0 <= i < j < |deleted| ==> deleted[i] != deleted[j]
      ensures fs.music == old(fs.music) - NameSet(deleted)
      ensures messages == old(messages) + DeleteMessages(deleted)
      ensures forall n :: n in old(fs.music) && n in entries ==> n in fs.music && fs.music[n] == old(fs.music)[n]
    {
      var orphans := fs.music.Keys - entries.Keys;
      var remaining := orphans;
      deleted := [];
      assert NameSet(deleted) == {};
      assert messages == old(messages) + DeleteMessages(deleted);
      while remaining != {}
        invariant cancelled ==> deleted == []
        invariant OrphanState(orphans, remaining, deleted, old(fs.music), old(messages))
        decreases remaining
      {
        if cancelled {
          break;
        }
        var orphan :| orphan in remaining;
        RemoveOrphan(orphan);
        remaining := remaining - {orphan};
        assert DeleteMessages(deleted + [orphan]) == DeleteMessages(deleted) + [Message(DeleteAction, orphan)];
        assert NameSet(deleted + [orphan]) == NameSet(deleted) + {orphan};
        deleted := deleted + [orphan];
      }
    }

    /** One orphan: a `delete` message with its name is queued, then the file
        is removed from the audio directory. */
    method RemoveOrphan(orphan: string)
      modifies fs`music, this`messages
      ensures messages == old(messages) + [Message(DeleteAction, orphan)]
      ensures fs.music == old(fs.music) - {orphan}
    {
      messages := messages + [Message(DeleteAction, orphan)];
      fs.music := fs.music - {orphan};
    }

    /** The orphan worker, started only when orphan removal is enabled. */
    method RemoveIfEnabled(removeOrphans: bool) returns (ghost deleted: seq<string>)
      modifies fs`music, this`messages
      ensures !removeOrphans || cancelled ==> deleted == []
      ensures removeOrphans && !cancelled ==> NameSet(deleted) == Cleanup.Orphans(old(fs.music).Keys, entries.Keys)
      ensures forall i, j :: 0 <= i < j < |deleted| ==> deleted[i] != deleted[j]
      ensures fs.music == old(fs.music) - NameSet(deleted)
      ensures messages == old(messages) + DeleteMessages(deleted)
    {
      deleted := [];
      if removeOrphans {
        deleted := RemoveOrphanFiles();
      } else {
        assert NameSet(deleted) == {};
        assert messages == old(messages) + DeleteMessages(deleted);
      }
    }

    /** `_export_playlist`: queues a `playlist` message with the display
        name, then writes a document holding the entries and their count to
        the sanitised name with the `.nml` extension in `directory`. */
    method ExportPlaylist(es: seq<Entry>, name: string, directory: string)
      modifies fs`documents, this`messages
      ensures messages == old(messages) + [Message(PlaylistAction, name)]
      ensures fs.documents == old(fs.documents)[Playlists.DocumentPath(directory, name) := DocumentOf(name, es)]
    {
      messages := messages + [Message(PlaylistAction, name)];
      var document := Document(name, |es|, es);
      var fullPath := Paths.Join(directory, Names.Sanitize(name) + Playlists.Extension);
      fs.documents := fs.documents[fullPath := document];
    }

    /** What the playlist worker has done after the steps: their messages
        queued after `queued`, their directories created and their documents
        written. */
    ghost predicate PlaylistState(steps: seq<Playlists.Effect>, queued: seq<Message>,
                                  dirs: set<string>, docs: map<string, Document>)
      reads this, fs
    {
      && messages == queued + PlaylistMessages(steps)
      && fs.dirs == dirs + Directories(steps)
      && fs.documents == Written(docs, steps)
    }

    /** One step of the playlist walk: a directory is created, or a
        playlist is exported. */
    method Perform(x: Playlists.Effect, ghost steps: seq<Playlists.Effect>,
                   ghost queued: seq<Message>, ghost dirs: set<string>, ghost docs: map<string, Document>)
      requires PlaylistState(steps, queued, dirs, docs)
      modifies fs`documents, fs`dirs, this`messages
      ensures PlaylistState(steps + [x], queued, dirs, docs)
    {
      EffectsStep(docs, steps, x);
      match x
      case MakeDir(path) =>
        fs.dirs := fs.dirs + {path};
      case Export(directory, name, es) =>
        ghost var sent := PlaylistMessages(steps);
        Seqs.AppendAssoc(queued, sent, [Message(PlaylistAction, name)]);
        ExportPlaylist(es, name, directory);
    }

    /** `_process_playlists`: exports "All tracks" at the destination, then
        carries out the walk of the playlist hierarchy step by step. */
    method ProcessPlaylists()
      modifies fs`documents, fs`dirs, this`messages
      ensures var effects := [Playlists.Export(destination, Playlists.AllTracks, allTracks)]
                             + Playlists.RecursiveScan(library.playlists, destination, cancelled, entries, normalize);
              && messages == old(messages) + PlaylistMessages(effects)
              && fs.dirs == old(fs.dirs) + Directories(effects)
              && fs.documents == Written(old(fs.documents), effects)
    {
      var first := Playlists.Export(destination, Playlists.AllTracks, allTracks);
      assert messages == old(messages) + [] && fs.dirs == old(fs.dirs) + {};
      assert PlaylistState([], old(messages), old(fs.dirs), old(fs.documents));
      Perform(first, [], old(messages), old(fs.dirs), old(fs.documents));
      var effects := Playlists.RecursiveScan(library.playlists, destination, cancelled, entries, normalize);
      assert [] + [first] == [first] + effects[..0];
      for i := 0 to |effects|
        invariant PlaylistState([first] + effects[..i], old(messages), old(fs.dirs), old(fs.documents))
      {
        Perform(effects[i], [first] + effects[..i], old(messages), old(fs.dirs), old(fs.documents));
        Seqs.PrefixStep(effects, i);
        Seqs.AppendAssoc([first], effects[..i], [effects[i]]);
      }
      assert effects[..|effects|] == effects;
    }

    /** `export`: a missing destination fails before anything else; a
        cancelled export stops during the scan; otherwise the collection is
        scanned and the copy worker, the orphan worker (when enabled) and the
        playlist worker run to completion, after which messages are live and
        no worker is alive. */
    method Export(removeOrphans: bool) returns (r: Outcome, ghost deleted: seq<string>)
      modifies this`entries, this`allTracks, this`messages, this`startMessages, this`workers
      modifies library`collection, fs`dirs, fs`music, fs`documents
      ensures !old(fs.Exists(destination)) ==>
                && r == VolumeMissing(volume)
                && library.collection == old(library.collection)
                && entries == old(entries) && allTracks == old(allTracks) && messages == old(messages)
                && fs.music == old(fs.music) && fs.dirs == old(fs.dirs) && fs.documents == old(fs.documents)
                && startMessages == old(startMessages) && workers == old(workers)
      ensures old(fs.Exists(destination)) ==> r == Pass
      ensures old(fs.Exists(destination)) && cancelled && old(library.collection) != [] ==>
                && library.collection == old(library.collection)
                && entries == old(entries) && allTracks == old(allTracks) && messages == old(messages)
                && fs.music == old(fs.music) && fs.dirs == old(fs.dirs) && fs.documents == old(fs.documents)
                && startMessages == old(startMessages) && workers == old(workers)
      ensures old(fs.Exists(destination)) && !cancelled ==>
                var accepted := Scan.Accepted(old(library.collection), fs.files.Keys);
                var tracks := Scan.RewriteAll(accepted, volume);
                var copied := Sync.CopyAll(fs.files, Sync.SyncState(old(fs.music), []), Scan.SourcePaths(accepted));
                var effects := [Playlists.Export(destination, Playlists.AllTracks, allTracks)]
                               + Playlists.RecursiveScan(library.playlists, destination, false, entries, normalize);
                && library.collection == Scan.RewrittenCollection(old(library.collection), fs.files.Keys, volume)
                && allTracks == old(allTracks) + tracks
                && entries == Scan.Indexed(old(entries), tracks, normalize)
                && (removeOrphans ==> NameSet(deleted) == Cleanup.Orphans(copied.music.Keys, entries.Keys))
                && (!removeOrphans ==> deleted == [])
                && fs.music == copied.music - NameSet(deleted)
                && messages == old(messages) + CopyMessages(copied.copied) + DeleteMessages(deleted)
                               + PlaylistMessages(effects)
                && fs.dirs == old(fs.dirs) + (if old(fs.Exists(musicDir)) then {} else {musicDir}) + Directories(effects)
                && fs.documents == Written(old(fs.documents), effects)
                && startMessages && AllFinished()
    {
      deleted := [];
      r := CheckVolume();
      if r != Pass {
        return;
      }
      var locations, stopped := ScanCollection();
      if stopped {
        return;
      }
      deleted := RunWorkers(locations, removeOrphans);
    }

    /** The workers an uncancelled export starts once the collection is
        scanned: the copy worker, the orphan worker when enabled and the
        playlist worker, each run to completion in that order. */
    method RunWorkers(locations: seq<string>, removeOrphans: bool) returns (ghost deleted: seq<string>)
      modifies this`messages, this`startMessages, this`workers, fs`dirs, fs`music, fs`documents
      ensures startMessages && AllFinished()
      ensures !cancelled ==>
              var copied := Sync.CopyAll(fs.files, Sync.SyncState(old(fs.music), []), locations);
              var effects := [Playlists.Export(destination, Playlists.AllTracks, allTracks)]
                             + Playlists.RecursiveScan(library.playlists, destination, false, entries, normalize);
              && (removeOrphans ==> NameSet(deleted) == Cleanup.Orphans(copied.music.Keys, entries.Keys))
              && (!removeOrphans ==> deleted == [])
              && fs.music == copied.music - NameSet(deleted)
              && messages == old(messages) + CopyMessages(copied.copied) + DeleteMessages(deleted)
                             + PlaylistMessages(effects)
              && fs.dirs == old(fs.dirs) + (if old(fs.Exists(musicDir)) then {} else {musicDir}) + Directories(effects)
              && fs.documents == Written(old(fs.documents), effects)
    {
      StartWorkers(removeOrphans);
      CopyFiles(locations);
      deleted := RemoveIfEnabled(removeOrphans);
      ProcessPlaylists();
      JoinWorkers();
    }

    /** Starting the workers: one more live worker each for copying, for
        orphan removal when enabled, and for the playlists; messages go live. */
    method StartWorkers(removeOrphans: bool)
      modifies this`workers, this`startMessages
      ensures workers == old(workers) + (if removeOrphans then [true, true, true] else [true, true])
      ensures startMessages
    {
      workers := workers + [true];
      if removeOrphans {
        workers := workers + [true];
      }
      workers := workers + [true];
      startMessages := true;
    }

    /** Every started worker runs to completion. */
    method JoinWorkers()
      modifies this`workers
      ensures |workers| == |old(workers)| && AllFinished()
    {
      workers := seq(|workers|, i => false);
    }
  }
}
