/** The copy worker's decisions: which source files are copied into the
    volume's audio directory, and with what buffer. The audio directory is a
    map from file name to what `os.stat` reports for that name. */
module Sync {
  import opened Library
  import Paths

  /** A destination at most this many seconds older than its source is taken
      to be up to date (one hour plus two seconds of clock skew). */
  const SkipTolerance: int := 3602

  /** The default and largest copy buffer, 10 MiB. */
  const MaxBuffer: nat := 10485760

  /** The buffer used for an empty source file. */
  const EmptyFileBuffer: nat := 1024

  /** The destination is recent enough that the source is not copied again. */
  predicate UpToDate(src: Stat, dest: Stat) {
    src.mtime - dest.mtime < SkipTolerance
  }

  /** The buffer size of a copy: the source size capped at 10 MiB, and 1024
      bytes for an empty source. */
  function BufferSize(size: nat): (b: nat)
    ensures 0 < b <= MaxBuffer
    ensures 0 < size <= MaxBuffer ==> b == size
    ensures size > MaxBuffer ==> b == MaxBuffer
    ensures size == 0 ==> b == EmptyFileBuffer
  {
    var capped := if size < MaxBuffer then size else MaxBuffer;
    if capped == 0 then EmptyFileBuffer else capped
  }

  /** The audio directory and the names copied into it so far, in order. */
  datatype SyncState = SyncState(music: map<string, Stat>, copied: seq<string>)

  /** One source path: a missing source is passed over; an up-to-date
      destination is kept; otherwise the file is copied under its base name,
      taking the source's size and modification time. */
  function CopyOne(files: map<string, Stat>, st: SyncState, src: string): SyncState {
    if src !in files then st
    else
      var name := Paths.BaseName(src);
      if name in st.music && UpToDate(files[src], st.music[name]) then st
      else SyncState(st.music[name := files[src]], st.copied + [name])
  }

  /** The source paths taken in order. */
  function CopyAll(files: map<string, Stat>, st: SyncState, srcs: seq<string>): SyncState
  {
    if srcs == [] then st
    else CopyOne(files, CopyAll(files, st, srcs[..|srcs| - 1]), srcs[|srcs| - 1])
  }

  /** Taking one more source of a list is one more step. */
  lemma CopyAllStep(files: map<string, Stat>, st: SyncState, srcs: seq<string>, i: nat)
    requires i < |srcs|
    ensures CopyAll(files, st, srcs[..i + 1]) == CopyOne(files, CopyAll(files, st, srcs[..i]), srcs[i])
  {
    assert srcs[..i + 1][..i] == srcs[..i];
  }

  /** Every existing source has an up-to-date copy under its base name. */
  predicate AllUpToDate(files: map<string, Stat>, music: map<string, Stat>, srcs: seq<string>) {
    forall i :: 0 <= i < |srcs| && srcs[i] in files ==>
      Paths.BaseName(srcs[i]) in music && UpToDate(files[srcs[i]], music[Paths.BaseName(srcs[i])])
  }

  /** A step leaves every name other than its source's base name alone. */
  lemma CopyOneOtherName(files: map<string, Stat>, st: SyncState, src: string, name: string)
    requires name in st.music
    requires src in files ==> name != Paths.BaseName(src)
    ensures name in CopyOne(files, st, src).music
    ensures CopyOne(files, st, src).music[name] == st.music[name]
  {
  }

  /** After a step its own source, when it exists, is up to date. */
  lemma CopyOneUpToDate(files: map<string, Stat>, st: SyncState, src: string)
    requires src in files
    ensures Paths.BaseName(src) in CopyOne(files, st, src).music
    ensures UpToDate(files[src], CopyOne(files, st, src).music[Paths.BaseName(src)])
  {
  }

  /** A copy only ever replaces a destination with a source that is at least
      3602 seconds newer, so whatever was up to date with a name stays up to
      date with it. */
  lemma CopyOneKeepsUpToDate(files: map<string, Stat>, st: SyncState, src: string, name: string, s: Stat)
    requires name in st.music && UpToDate(s, st.music[name])
    ensures name in CopyOne(files, st, src).music
    ensures UpToDate(s, CopyOne(files, st, src).music[name])
  {
  }

  /** After a sync every existing source is up to date on the volume, even
      when several sources share a base name: the later copies under that
      name are newer still. */
  lemma {:induction false} CopyAllMakesUpToDate(files: map<string, Stat>, st: SyncState, srcs: seq<string>)
    ensures AllUpToDate(files, CopyAll(files, st, srcs).music, srcs)
    decreases |srcs|
  {
    if srcs != [] {
      var init := srcs[..|srcs| - 1];
      var src := srcs[|srcs| - 1];
      CopyAllMakesUpToDate(files, st, init);
      var before := CopyAll(files, st, init);
      var after := CopyOne(files, before, src);
      assert after == CopyAll(files, st, srcs);
      forall i | 0 <= i < |srcs| && srcs[i] in files
        ensures Paths.BaseName(srcs[i]) in after.music
        ensures UpToDate(files[srcs[i]], after.music[Paths.BaseName(srcs[i])])
      {
        if i < |init| {
          assert init[i] == srcs[i];
          CopyOneKeepsUpToDate(files, before, src, Paths.BaseName(srcs[i]), files[srcs[i]]);
        } else {
          CopyOneUpToDate(files, before, src);
        }
      }
    }
  }

  /** When every existing source is already up to date, a sync copies nothing
      and leaves the directory as it was. */
  lemma {:induction false} CopyAllNothingToDo(files: map<string, Stat>, st: SyncState, srcs: seq<string>)
    requires AllUpToDate(files, st.music, srcs)
    ensures CopyAll(files, st, srcs) == st
    decreases |srcs|
  {
    if srcs != [] {
      var init := srcs[..|srcs| - 1];
      assert AllUpToDate(files, st.music, init) by {
        forall i | 0 <= i < |init| && init[i] in files
          ensures Paths.BaseName(init[i]) in st.music && UpToDate(files[init[i]], st.music[Paths.BaseName(init[i])])
        {
          assert init[i] == srcs[i];
        }
      }
      CopyAllNothingToDo(files, st, init);
    }
  }

  /** Running the copy worker again over its own result, against unchanged
      sources, copies nothing the second time. */
  lemma SecondSyncCopiesNothing(files: map<string, Stat>, music: map<string, Stat>, srcs: seq<string>)
    ensures var first := CopyAll(files, SyncState(music, []), srcs);
            CopyAll(files, SyncState(first.music, []), srcs).copied == []
  {
    var first := CopyAll(files, SyncState(music, []), srcs);
    CopyAllMakesUpToDate(files, SyncState(music, []), srcs);
    CopyAllNothingToDo(files, SyncState(first.music, []), srcs);
  }

  /** A freshly copied file is up to date: the copy takes the source's
      modification time, so the difference is zero. */
  lemma CopiedIsUpToDate(files: map<string, Stat>, st: SyncState, src: string)
    requires src in files
    requires CopyOne(files, st, src) != st
    ensures Paths.BaseName(src) in CopyOne(files, st, src).music
    ensures CopyOne(files, st, src).music[Paths.BaseName(src)] == files[src]
    ensures UpToDate(files[src], CopyOne(files, st, src).music[Paths.BaseName(src)])
    ensures CopyOne(files, st, src).copied == st.copied + [Paths.BaseName(src)]
  {
  }

  /** A source whose destination is up to date, or that is missing, is not
      copied and changes nothing. */
  lemma SkippedChangesNothing(files: map<string, Stat>, st: SyncState, src: string)
    requires src !in files ||
             (Paths.BaseName(src) in st.music && UpToDate(files[src], st.music[Paths.BaseName(src)]))
    ensures CopyOne(files, st, src) == st
  {
  }
}
