/** The collection scan of an export: which entries are exported, where their
    audio files are read from, how their locations are rewritten and how they
    are indexed by file name. These functions describe the scan over a prefix
    of the collection; the exporter's loop is proved against them. */
module Scan {
  import opened Library
  import Keys
  import Paths
  import Seqs

  /** The hidden directory on the volume that receives the audio files. */
  const MusicDir: string := ".Music"

  /** The DIR attribute every exported entry gets: the audio directory in
      Traktor's notation. */
  const ExportedDir: string := Keys.Sep + MusicDir + Keys.Sep

  /** Where the audio file of an entry is read from: DIR with `/:` turned
      into `/`, joined with FILE. */
  function SourcePath(e: Entry): string {
    Paths.Join(Keys.ReplaceSep(e.location.dir), e.location.file)
  }

  /** The AUTHOR_TYPE of entries Traktor imported itself. */
  const Importer: string := "importer"

  /** The extension of Traktor's own recordings. */
  const WavExtension: string := ".wav"

  /** A recording made inside Traktor: imported by the "importer" and a `.wav` file. */
  predicate IsRecording(e: Entry) {
    e.authorType == Importer && Keys.IsSuffix(WavExtension, e.location.file)
  }

  /** An entry is exported when its audio file exists and it is not a recording. */
  predicate Accepts(e: Entry, files: set<string>) {
    SourcePath(e) in files && !IsRecording(e)
  }

  /** The entry pointed at the audio directory of `volume`; FILE and every
      other attribute are kept. */
  function Rewrite(e: Entry, volume: string): (r: Entry)
    ensures r.location.dir == ExportedDir
    ensures r.location.volume == volume && r.location.volumeId == volume
    ensures r.location.file == e.location.file && r.authorType == e.authorType
  {
    e.(location := e.location.(dir := ExportedDir, volume := volume, volumeId := volume))
  }

  /** The entries of `coll` the scan accepts, in collection order. */
  function Accepted(coll: seq<Entry>, files: set<string>): (r: seq<Entry>)
    ensures |r| <= |coll|
    ensures forall e :: e in r ==> e in coll && Accepts(e, files)
  {
    if coll == [] then []
    else
      var init := Accepted(coll[..|coll| - 1], files);
      var last := coll[|coll| - 1];
      if Accepts(last, files) then init + [last] else init
  }

  /** The source path of each entry, in order. */
  function SourcePaths(es: seq<Entry>): (r: seq<string>)
    ensures |r| == |es|
  {
    seq(|es|, i requires 0 <= i < |es| => SourcePath(es[i]))
  }

  /** Each entry rewritten for `volume`, in order. */
  function RewriteAll(es: seq<Entry>, volume: string): (r: seq<Entry>)
    ensures |r| == |es|
  {
    seq(|es|, i requires 0 <= i < |es| => Rewrite(es[i], volume))
  }

  /** An entry of the collection after the scan: rewritten when accepted,
      left as it was otherwise. */
  function Scanned(e: Entry, files: set<string>, volume: string): Entry {
    if Accepts(e, files) then Rewrite(e, volume) else e
  }

  /** The collection after the scan, entry by entry. */
  function RewrittenCollection(coll: seq<Entry>, files: set<string>, volume: string): (r: seq<Entry>)
    ensures |r| == |coll|
  {
    seq(|coll|, i requires 0 <= i < |coll| => Scanned(coll[i], files, volume))
  }

  /** The index key of an entry: its normalised FILE. */
  function KeyOf(e: Entry, normalize: string -> string): string {
    normalize(e.location.file)
  }

  /** `index[normalize(FILE)] = entry` for each entry in turn: a later entry
      with the same key replaces an earlier one. */
  function Indexed(index: map<string, Entry>, es: seq<Entry>, normalize: string -> string): (r: map<string, Entry>)
  {
    if es == [] then index
    else
      var last := es[|es| - 1];
      Indexed(index, es[..|es| - 1], normalize)[KeyOf(last, normalize) := last]
  }

  /** One more entry of the collection: the accepted entries grow by that
      entry when it passes the filter, and the rewritten collection by the
      entry, rewritten when it passes. */
  lemma ScanStep(coll: seq<Entry>, i: nat, files: set<string>, volume: string)
    requires i < |coll|
    ensures var e := coll[i];
            && Accepted(coll[..i + 1], files)
               == (if Accepts(e, files) then Accepted(coll[..i], files) + [e] else Accepted(coll[..i], files))
            && RewrittenCollection(coll[..i + 1], files, volume)
               == RewrittenCollection(coll[..i], files, volume) + [Scanned(e, files, volume)]
  {
    assert coll[..i + 1][..i] == coll[..i];
  }

  /** One more accepted entry: one more source path, one more rewritten
      entry, and one more binding in the index. */
  lemma AcceptStep(accepted: seq<Entry>, e: Entry, volume: string, index: map<string, Entry>,
                   normalize: string -> string)
    ensures SourcePaths(accepted + [e]) == SourcePaths(accepted) + [SourcePath(e)]
    ensures RewriteAll(accepted + [e], volume) == RewriteAll(accepted, volume) + [Rewrite(e, volume)]
    ensures Indexed(index, RewriteAll(accepted + [e], volume), normalize)
            == Indexed(index, RewriteAll(accepted, volume), normalize)[KeyOf(e, normalize) := Rewrite(e, volume)]
  {
    var r := RewriteAll(accepted + [e], volume);
    assert r == RewriteAll(accepted, volume) + [Rewrite(e, volume)];
    assert r[..|r| - 1] == RewriteAll(accepted, volume);
  }

  /** One step of the scan loop on the collection it rewrites in place: the
      entry at `i` is still the original one, and taking it, rewritten when
      it passes the filter, gives the collection rewritten up to `i + 1`. */
  lemma CollectionStep(coll: seq<Entry>, i: nat, files: set<string>, volume: string, collection: seq<Entry>)
    requires i < |coll|
    requires collection == RewrittenCollection(coll[..i], files, volume) + coll[i..]
    ensures i < |collection| && collection[i] == coll[i]
    ensures collection[i := Scanned(coll[i], files, volume)]
            == RewrittenCollection(coll[..i + 1], files, volume) + coll[i + 1..]
  {
    var e := coll[i];
    ScanStep(coll, i, files, volume);
    var done := RewrittenCollection(coll[..i], files, volume);
    assert coll[i..] == [e] + coll[i + 1..];
    assert collection == done + [e] + coll[i + 1..];
    Seqs.ReplaceBetween(done, e, coll[i + 1..], Scanned(e, files, volume));
  }

  /** One step of the scan loop on the state built from the accepted entries:
      an accepted entry adds its source path, its rewritten form at the end of
      the track list and its binding in the index. */
  lemma TracksStep(accepted: seq<Entry>, e: Entry, volume: string, index: map<string, Entry>,
                   normalize: string -> string, base: seq<Entry>, tracks: seq<Entry>, entries: map<string, Entry>)
    requires tracks == base + RewriteAll(accepted, volume)
    requires entries == Indexed(index, RewriteAll(accepted, volume), normalize)
    ensures SourcePaths(accepted + [e]) == SourcePaths(accepted) + [SourcePath(e)]
    ensures tracks + [Rewrite(e, volume)] == base + RewriteAll(accepted + [e], volume)
    ensures entries[KeyOf(e, normalize) := Rewrite(e, volume)] == Indexed(index, RewriteAll(accepted + [e], volume), normalize)
  {
    AcceptStep(accepted, e, volume, index, normalize);
    var rewritten := RewriteAll(accepted, volume);
    Seqs.AppendAssoc(base, rewritten, [Rewrite(e, volume)]);
  }

  /** Scanning two stretches of the collection accepts what each stretch
      accepts, in order. */
  lemma {:induction false} AcceptedAppend(a: seq<Entry>, b: seq<Entry>, files: set<string>)
    ensures Accepted(a + b, files) == Accepted(a, files) + Accepted(b, files)
    decreases |b|
  {
    if b == [] {
      assert a + b == a;
    } else {
      var b' := b[..|b| - 1];
      assert (a + b)[..|a + b| - 1] == a + b';
      AcceptedAppend(a, b', files);
    }
  }

  /** An entry is accepted exactly when it is in the collection and passes the filter. */
  lemma {:induction false} AcceptedMembership(coll: seq<Entry>, files: set<string>, e: Entry)
    ensures e in Accepted(coll, files) <==> e in coll && Accepts(e, files)
    decreases |coll|
  {
    if coll != [] {
      var init := coll[..|coll| - 1];
      AcceptedMembership(init, files, e);
      assert coll == init + [coll[|coll| - 1]];
    }
  }

  /** When every entry passes, the scan keeps the whole collection in order. */
  lemma {:induction false} AcceptedAll(coll: seq<Entry>, files: set<string>)
    requires forall i :: 0 <= i < |coll| ==> Accepts(coll[i], files)
    ensures Accepted(coll, files) == coll
    decreases |coll|
  {
    if coll != [] {
      AcceptedAll(coll[..|coll| - 1], files);
      assert coll == coll[..|coll| - 1] + [coll[|coll| - 1]];
    }
  }

  /** The index holds the old keys and the key of every indexed entry, and no other. */
  lemma {:induction false} IndexedKeys(index: map<string, Entry>, es: seq<Entry>, normalize: string -> string)
    ensures Indexed(index, es, normalize).Keys ==
            index.Keys + set i | 0 <= i < |es| :: KeyOf(es[i], normalize)
    decreases |es|
  {
    if es != [] {
      var init := es[..|es| - 1];
      IndexedKeys(index, init, normalize);
      var keysInit := set i | 0 <= i < |init| :: KeyOf(init[i], normalize);
      var keysAll := set i | 0 <= i < |es| :: KeyOf(es[i], normalize);
      assert keysAll == keysInit + {KeyOf(es[|es| - 1], normalize)} by {
        forall k | k in keysAll ensures k in keysInit + {KeyOf(es[|es| - 1], normalize)} {
          var i :| 0 <= i < |es| && k == KeyOf(es[i], normalize);
          if i < |init| {
            assert init[i] == es[i];
          }
        }
        forall k | k in keysInit ensures k in keysAll {
          var i :| 0 <= i < |init| && k == KeyOf(init[i], normalize);
          assert es[i] == init[i];
        }
      }
    }
  }

  /** The last entry with a given key is the one the index holds for it. */
  lemma {:induction false} IndexedLastWins(index: map<string, Entry>, es: seq<Entry>, normalize: string -> string, j: nat)
    requires j < |es|
    requires forall k :: j < k < |es| ==> KeyOf(es[k], normalize) != KeyOf(es[j], normalize)
    ensures KeyOf(es[j], normalize) in Indexed(index, es, normalize)
    ensures Indexed(index, es, normalize)[KeyOf(es[j], normalize)] == es[j]
    decreases |es|
  {
    if j < |es| - 1 {
      var init := es[..|es| - 1];
      assert init[j] == es[j];
      IndexedLastWins(index, init, normalize, j);
    }
  }

  /** A key that no indexed entry has keeps its old binding, or stays absent. */
  lemma {:induction false} IndexedOtherKeys(index: map<string, Entry>, es: seq<Entry>, normalize: string -> string, key: string)
    requires forall k :: 0 <= k < |es| ==> KeyOf(es[k], normalize) != key
    ensures key in Indexed(index, es, normalize) <==> key in index
    ensures key in index ==> Indexed(index, es, normalize)[key] == index[key]
    decreases |es|
  {
    if es != [] {
      IndexedOtherKeys(index, es[..|es| - 1], normalize, key);
    }
  }

  /** Every entry of the index after a scan is an exported entry: rewritten
      for the volume and accepted by the filter in its original form. */
  lemma IndexHoldsRewrittenEntries(coll: seq<Entry>, files: set<string>, volume: string, normalize: string -> string, key: string)
    requires key in Indexed(map[], RewriteAll(Accepted(coll, files), volume), normalize)
    ensures var e := Indexed(map[], RewriteAll(Accepted(coll, files), volume), normalize)[key];
            e.location.dir == ExportedDir && e.location.volume == volume &&
            exists orig :: orig in coll && Accepts(orig, files) && e == Rewrite(orig, volume)
  {
    var tracks := RewriteAll(Accepted(coll, files), volume);
    var e := Indexed(map[], tracks, normalize)[key];
    IndexedValuesFrom(map[], tracks, normalize, key);
    var j :| 0 <= j < |tracks| && e == tracks[j];
    var orig := Accepted(coll, files)[j];
    AcceptedMembership(coll, files, orig);
  }

  /** Each value of the index is an old value or one of the indexed entries. */
  lemma {:induction false} IndexedValuesFrom(index: map<string, Entry>, es: seq<Entry>, normalize: string -> string, key: string)
    requires key in Indexed(index, es, normalize)
    ensures (key in index && Indexed(index, es, normalize)[key] == index[key]) ||
            exists j :: 0 <= j < |es| && Indexed(index, es, normalize)[key] == es[j]
    decreases |es|
  {
    if es != [] {
      var init := es[..|es| - 1];
      var last := es[|es| - 1];
      if key != KeyOf(last, normalize) {
        IndexedValuesFrom(index, init, normalize, key);
        if exists j :: 0 <= j < |init| && Indexed(index, init, normalize)[key] == init[j] {
          var j :| 0 <= j < |init| && Indexed(index, init, normalize)[key] == init[j];
          assert es[j] == init[j];
        }
      }
    }
  }
}
