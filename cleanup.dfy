/** Orphan removal: the names in the volume's audio directory that no
    exported entry claims, when a file the copy worker writes can and cannot
    be among them, and what the directory holds once both workers are done. */
module Cleanup {
  import opened Library
  import Paths
  import Keys
  import Scan
  import Sync

  /** The orphans: names listed in the audio directory that are not keys of
      the file-name index. */
  function Orphans(listing: set<string>, keys: set<string>): (r: set<string>)
    ensures r <= listing
    ensures forall n :: n in r ==> n !in keys
    ensures forall n :: n in listing && n !in keys ==> n in r
  {
    listing - keys
  }

  /** Every name a sync copies is the base name of one of its existing sources. */
  lemma {:induction false} CopiedNamesFromSources(files: map<string, Stat>, music: map<string, Stat>, srcs: seq<string>)
    ensures forall n :: n in Sync.CopyAll(files, Sync.SyncState(music, []), srcs).copied ==>
              exists i :: 0 <= i < |srcs| && srcs[i] in files && n == Paths.BaseName(srcs[i])
    decreases |srcs|
  {
    if srcs != [] {
      var init := srcs[..|srcs| - 1];
      CopiedNamesFromSources(files, music, init);
      forall n | n in Sync.CopyAll(files, Sync.SyncState(music, []), srcs).copied
        ensures exists i :: 0 <= i < |srcs| && srcs[i] in files && n == Paths.BaseName(srcs[i])
      {
        if n in Sync.CopyAll(files, Sync.SyncState(music, []), init).copied {
          var i :| 0 <= i < |init| && init[i] in files && n == Paths.BaseName(init[i]);
          assert srcs[i] == init[i];
        } else {
          assert n == Paths.BaseName(srcs[|srcs| - 1]);
        }
      }
    }
  }

  /** The copy worker and the orphan worker never collide: when each exported
      entry's FILE is a plain file name that normalisation leaves unchanged,
      every name the copy worker writes is a key of the index, so it is never
      an orphan. */
  lemma CopiedNeverOrphaned(coll: seq<Entry>, files: map<string, Stat>, music: map<string, Stat>,
                            volume: string, normalize: string -> string, listing: set<string>)
    requires forall e :: e in coll && Scan.Accepts(e, files.Keys) ==>
               '/' !in e.location.file && normalize(e.location.file) == e.location.file
    ensures var accepted := Scan.Accepted(coll, files.Keys);
            var keys := Scan.Indexed(map[], Scan.RewriteAll(accepted, volume), normalize).Keys;
            forall n :: n in Sync.CopyAll(files, Sync.SyncState(music, []), Scan.SourcePaths(accepted)).copied ==>
              n in keys && n !in Orphans(listing, keys)
  {
    var accepted := Scan.Accepted(coll, files.Keys);
    var tracks := Scan.RewriteAll(accepted, volume);
    var srcs := Scan.SourcePaths(accepted);
    var keys := Scan.Indexed(map[], tracks, normalize).Keys;
    Scan.IndexedKeys(map[], tracks, normalize);
    CopiedNamesFromSources(files, music, srcs);
    forall n | n in Sync.CopyAll(files, Sync.SyncState(music, []), srcs).copied
      ensures n in keys
    {
      var i :| 0 <= i < |srcs| && srcs[i] in files && n == Paths.BaseName(srcs[i]);
      var e := accepted[i];
      Scan.AcceptedMembership(coll, files.Keys, e);
      Paths.BaseNameOfJoin(Keys.ReplaceSep(e.location.dir), e.location.file);
      assert Scan.KeyOf(tracks[i], normalize) == n;
    }
  }

  /** An entry whose FILE `a.mp3` a normalisation turns into `b.mp3`, with
      its audio file present. */
  const SampleEntry: Entry := Entry(Location("/:src/:", "a.mp3", "v", "v"), "user")
  const SampleFiles: map<string, Stat> := map["/src/a.mp3" := Stat(0, 1)]
  const SampleNormalize: string -> string := (s: string) => if s == "a.mp3" then "b.mp3" else s

  /** The sample's audio file is read from `/src/a.mp3`. */
  lemma SampleSourcePath()
    ensures Scan.SourcePath(SampleEntry) == "/src/a.mp3"
  {
    assert Keys.ReplaceSep("/:src/:") == "/src/";
    assert Paths.Join("/src/", "a.mp3") == "/src/a.mp3";
  }

  /** The scan of the sample accepts the entry. */
  lemma SampleAccepted()
    ensures Scan.Accepted([SampleEntry], SampleFiles.Keys) == [SampleEntry]
  {
    SampleSourcePath();
    assert "/src/a.mp3" in SampleFiles.Keys;
    assert Scan.Accepts(SampleEntry, SampleFiles.Keys);
    assert [SampleEntry][..0] == [];
  }

  /** The scan of the sample reads the entry from `/src/a.mp3` and indexes it
      under `b.mp3` only. */
  lemma SampleScan()
    ensures Scan.SourcePaths(Scan.Accepted([SampleEntry], SampleFiles.Keys)) == ["/src/a.mp3"]
    ensures Scan.Indexed(map[], Scan.RewriteAll(Scan.Accepted([SampleEntry], SampleFiles.Keys), "v"), SampleNormalize).Keys
            == {"b.mp3"}
  {
    SampleAccepted();
    SampleSourcePath();
    var tracks := Scan.RewriteAll([SampleEntry], "v");
    assert tracks[..0] == [];
    assert Scan.KeyOf(tracks[0], SampleNormalize) == "b.mp3";
  }

  /** The copy of the sample writes `a.mp3`, the base name of its source. */
  lemma SampleCopy()
    ensures Sync.CopyAll(SampleFiles, Sync.SyncState(map[], []), ["/src/a.mp3"]).copied == ["a.mp3"]
    ensures "a.mp3" in Sync.CopyAll(SampleFiles, Sync.SyncState(map[], []), ["/src/a.mp3"]).music
  {
    assert Paths.Join("/src/", "a.mp3") == "/src/a.mp3";
    assert '/' !in "a.mp3";
    Paths.BaseNameOfJoin("/src/", "a.mp3");
    var srcs := ["/src/a.mp3"];
    assert srcs[..0] == [];
  }

  /** Without that premise the workers can collide. With a normalisation that
      changes the FILE `a.mp3`, the copy worker writes `a.mp3` under the name
      it has in the source path, while the index holds only the normalised
      name; on a volume that lists names as written, the orphan worker then
      deletes the file just copied. */
  lemma CopiedCanBeOrphaned()
    ensures var accepted := Scan.Accepted([SampleEntry], SampleFiles.Keys);
            var keys := Scan.Indexed(map[], Scan.RewriteAll(accepted, "v"), SampleNormalize).Keys;
            var copied := Sync.CopyAll(SampleFiles, Sync.SyncState(map[], []), Scan.SourcePaths(accepted));
            "a.mp3" in copied.copied && "a.mp3" in Orphans(copied.music.Keys, keys)
  {
    SampleScan();
    SampleCopy();
  }

  /** On a volume that stores every name in its normalised form (as HFS+
      does with NFD), what the orphan worker lists for a copied name is its
      normalised form, and that is always a key of the index: the copy
      worker and the orphan worker never collide there, whatever the
      normalisation does. */
  lemma CopiedNormalisedNeverOrphaned(coll: seq<Entry>, files: map<string, Stat>, music: map<string, Stat>,
                                      volume: string, normalize: string -> string, listing: set<string>)
    requires forall e :: e in coll && Scan.Accepts(e, files.Keys) ==> '/' !in e.location.file
    ensures var accepted := Scan.Accepted(coll, files.Keys);
            var keys := Scan.Indexed(map[], Scan.RewriteAll(accepted, volume), normalize).Keys;
            forall n :: n in Sync.CopyAll(files, Sync.SyncState(music, []), Scan.SourcePaths(accepted)).copied ==>
              normalize(n) in keys && normalize(n) !in Orphans(listing, keys)
  {
    var accepted := Scan.Accepted(coll, files.Keys);
    var tracks := Scan.RewriteAll(accepted, volume);
    var srcs := Scan.SourcePaths(accepted);
    var keys := Scan.Indexed(map[], tracks, normalize).Keys;
    Scan.IndexedKeys(map[], tracks, normalize);
    CopiedNamesFromSources(files, music, srcs);
    forall n | n in Sync.CopyAll(files, Sync.SyncState(music, []), srcs).copied
      ensures normalize(n) in keys
    {
      var i :| 0 <= i < |srcs| && srcs[i] in files && n == Paths.BaseName(srcs[i]);
      var e := accepted[i];
      Scan.AcceptedMembership(coll, files.Keys, e);
      Paths.BaseNameOfJoin(Keys.ReplaceSep(e.location.dir), e.location.file);
      assert Scan.KeyOf(tracks[i], normalize) == normalize(n);
    }
  }

  /** The audio directory after the copy worker and then the orphan worker:
      what the copy left, less the orphans of its listing. */
  function AfterCleanup(copied: map<string, Stat>, keys: set<string>): (r: map<string, Stat>)
    ensures r.Keys == copied.Keys * keys
    ensures forall n :: n in r ==> r[n] == copied[n]
  {
    copied - Orphans(copied.Keys, keys)
  }

  /** After a successful export whose entries have plain FILE names that
      normalisation leaves unchanged, every exported entry's audio file is in
      the audio directory, up to date with its source, even once the orphan
      worker has run. */
  lemma {:induction false} ExportedFilesSurviveCleanup(coll: seq<Entry>, files: map<string, Stat>, music: map<string, Stat>,
                                                       volume: string, normalize: string -> string)
    requires forall e :: e in coll && Scan.Accepts(e, files.Keys) ==>
               '/' !in e.location.file && normalize(e.location.file) == e.location.file
    ensures var accepted := Scan.Accepted(coll, files.Keys);
            var keys := Scan.Indexed(map[], Scan.RewriteAll(accepted, volume), normalize).Keys;
            var after := AfterCleanup(Sync.CopyAll(files, Sync.SyncState(music, []), Scan.SourcePaths(accepted)).music, keys);
            forall i :: 0 <= i < |accepted| ==>
              Scan.SourcePath(accepted[i]) in files && accepted[i].location.file in after &&
              Sync.UpToDate(files[Scan.SourcePath(accepted[i])], after[accepted[i].location.file])
    ensures var accepted := Scan.Accepted(coll, files.Keys);
            var keys := Scan.Indexed(map[], Scan.RewriteAll(accepted, volume), normalize).Keys;
            var after := AfterCleanup(Sync.CopyAll(files, Sync.SyncState(music, []), Scan.SourcePaths(accepted)).music, keys);
            Sync.AllUpToDate(files, after, Scan.SourcePaths(accepted))
  {
    var accepted := Scan.Accepted(coll, files.Keys);
    var tracks := Scan.RewriteAll(accepted, volume);
    var srcs := Scan.SourcePaths(accepted);
    var keys := Scan.Indexed(map[], tracks, normalize).Keys;
    var copied := Sync.CopyAll(files, Sync.SyncState(music, []), srcs).music;
    var after := AfterCleanup(copied, keys);
    Scan.IndexedKeys(map[], tracks, normalize);
    Sync.CopyAllMakesUpToDate(files, Sync.SyncState(music, []), srcs);
    forall i | 0 <= i < |accepted|
      ensures Scan.SourcePath(accepted[i]) in files && accepted[i].location.file in keys
      ensures Paths.BaseName(srcs[i]) == accepted[i].location.file
    {
      var e := accepted[i];
      assert e in accepted;
      Scan.AcceptedMembership(coll, files.Keys, e);
      Paths.BaseNameOfJoin(Keys.ReplaceSep(e.location.dir), e.location.file);
      assert Scan.KeyOf(tracks[i], normalize) == e.location.file;
    }
    SurvivorsUpToDate(files, copied, keys, accepted, srcs);
  }

  /** The survivors of the orphan worker keep what the copy worker left:
      an entry whose audio file the copy brought up to date under a name the
      index holds is still there, up to date. */
  lemma SurvivorsUpToDate(files: map<string, Stat>, copied: map<string, Stat>, keys: set<string>,
                          accepted: seq<Entry>, srcs: seq<string>)
    requires srcs == Scan.SourcePaths(accepted)
    requires Sync.AllUpToDate(files, copied, srcs)
    requires forall i :: 0 <= i < |accepted| ==>
               Scan.SourcePath(accepted[i]) in files && accepted[i].location.file in keys &&
               Paths.BaseName(srcs[i]) == accepted[i].location.file
    ensures forall i :: 0 <= i < |accepted| ==>
              accepted[i].location.file in AfterCleanup(copied, keys) &&
              Sync.UpToDate(files[Scan.SourcePath(accepted[i])], AfterCleanup(copied, keys)[accepted[i].location.file])
    ensures Sync.AllUpToDate(files, AfterCleanup(copied, keys), srcs)
  {
    var after := AfterCleanup(copied, keys);
    forall i | 0 <= i < |accepted|
      ensures accepted[i].location.file in after
      ensures Sync.UpToDate(files[Scan.SourcePath(accepted[i])], after[accepted[i].location.file])
    {
      assert srcs[i] == Scan.SourcePath(accepted[i]);
    }
  }

  /** Exporting again against unchanged sources, after the first export's
      copy and orphan removal, copies nothing. */
  lemma SecondExportCopiesNothing(coll: seq<Entry>, files: map<string, Stat>, music: map<string, Stat>,
                                  volume: string, normalize: string -> string)
    requires forall e :: e in coll && Scan.Accepts(e, files.Keys) ==>
               '/' !in e.location.file && normalize(e.location.file) == e.location.file
    ensures var accepted := Scan.Accepted(coll, files.Keys);
            var keys := Scan.Indexed(map[], Scan.RewriteAll(accepted, volume), normalize).Keys;
            var after := AfterCleanup(Sync.CopyAll(files, Sync.SyncState(music, []), Scan.SourcePaths(accepted)).music, keys);
            Sync.CopyAll(files, Sync.SyncState(after, []), Scan.SourcePaths(accepted)).copied == []
  {
    var accepted := Scan.Accepted(coll, files.Keys);
    var srcs := Scan.SourcePaths(accepted);
    var keys := Scan.Indexed(map[], Scan.RewriteAll(accepted, volume), normalize).Keys;
    var after := AfterCleanup(Sync.CopyAll(files, Sync.SyncState(music, []), srcs).music, keys);
    ExportedFilesSurviveCleanup(coll, files, music, volume, normalize);
    Sync.CopyAllNothingToDo(files, Sync.SyncState(after, []), srcs);
  }
}
