/** The playlist side of an export: resolving a playlist's member keys against
    the file-name index, and the recursive walk over the folder hierarchy
    that yields, in order, the directories to create and the playlist files
    to write. */
module Playlists {
  import opened Library
  import Keys
  import Paths
  import Names
  import Seqs

  const Loops: string := "_LOOPS"
  const Recordings: string := "_RECORDINGS"

  /** Playlists Traktor keeps for itself; they are never exported. */
  const Reserved: set<string> := {Loops, Recordings}

  /** The extension of a playlist document. */
  const Extension: string := ".nml"

  /** The title of the playlist that lists every exported track. */
  const AllTracks: string := "All tracks"

  /** The index key a PRIMARYKEY refers to: its last `/:` component, normalised. */
  function KeyName(key: string, normalize: string -> string): string {
    normalize(Keys.LastComponent(key))
  }

  /** The members of a playlist: for each key in order, the indexed entry it
      names; keys that name no indexed entry are dropped. */
  function Resolve(keys: seq<string>, index: map<string, Entry>, normalize: string -> string): (r: seq<Entry>)
    ensures |r| <= |keys|
  {
    if keys == [] then []
    else
      var init := Resolve(keys[..|keys| - 1], index, normalize);
      var name := KeyName(keys[|keys| - 1], normalize);
      if name in index then init + [index[name]] else init
  }

  /** Every member of a resolved playlist is an entry of the index. */
  lemma {:induction false} ResolveFromIndex(keys: seq<string>, index: map<string, Entry>, normalize: string -> string)
    ensures forall e :: e in Resolve(keys, index, normalize) ==> e in index.Values
    decreases |keys|
  {
    if keys != [] {
      ResolveFromIndex(keys[..|keys| - 1], index, normalize);
    }
  }

  /** Resolving two stretches of a playlist resolves each, in order. */
  lemma {:induction false} ResolveAppend(a: seq<string>, b: seq<string>, index: map<string, Entry>, normalize: string -> string)
    ensures Resolve(a + b, index, normalize) == Resolve(a, index, normalize) + Resolve(b, index, normalize)
    decreases |b|
  {
    if b == [] {
      assert a + b == a;
    } else {
      var b' := b[..|b| - 1];
      assert (a + b)[..|a + b| - 1] == a + b';
      ResolveAppend(a, b', index, normalize);
    }
  }

  /** A key that names no indexed entry is dropped, and the rest of the
      playlist resolves as it would without it. */
  lemma DropUnresolved(a: seq<string>, key: string, b: seq<string>, index: map<string, Entry>, normalize: string -> string)
    requires KeyName(key, normalize) !in index
    ensures Resolve(a + [key] + b, index, normalize) == Resolve(a + b, index, normalize)
  {
    ResolveAppend(a + [key], b, index, normalize);
    ResolveAppend(a, [key], index, normalize);
    ResolveAppend(a, b, index, normalize);
    assert [key][..0] == [];
  }

  /** When every key names an indexed entry, nothing is dropped: the i-th
      member is the entry the i-th key names. */
  lemma {:induction false} ResolveAllFound(keys: seq<string>, index: map<string, Entry>, normalize: string -> string)
    requires forall i :: 0 <= i < |keys| ==> KeyName(keys[i], normalize) in index
    ensures |Resolve(keys, index, normalize)| == |keys|
    ensures forall i :: 0 <= i < |keys| ==> Resolve(keys, index, normalize)[i] == index[KeyName(keys[i], normalize)]
    decreases |keys|
  {
    if keys != [] {
      ResolveAllFound(keys[..|keys| - 1], index, normalize);
    }
  }

  /** One step of the walk: a directory to create, or a playlist to export
      (its directory, its display name and its resolved members). */
  datatype Effect =
    | MakeDir(path: string)
    | Export(directory: string, name: string, entries: seq<Entry>)

  /** `recursive_scan(nodes, directory)`: nothing once the export is
      cancelled, otherwise the nodes in order. */
  function RecursiveScan(nodes: seq<Node>, directory: string, cancelled: bool,
                         index: map<string, Entry>, normalize: string -> string): seq<Effect>
    decreases nodes, 1
  {
    if cancelled then [] else ScanNodes(nodes, directory, cancelled, index, normalize)
  }

  function ScanNodes(nodes: seq<Node>, directory: string, cancelled: bool,
                     index: map<string, Entry>, normalize: string -> string): seq<Effect>
    decreases nodes, 0
  {
    if nodes == [] then []
    else ScanNode(nodes[0], directory, cancelled, index, normalize)
         + ScanNodes(nodes[1..], directory, cancelled, index, normalize)
  }

  /** A folder becomes a directory named after it, sanitised, and its
      subnodes are walked inside it; a playlist that is not reserved is
      exported in the current directory; any other node is passed over. */
  function ScanNode(node: Node, directory: string, cancelled: bool,
                    index: map<string, Entry>, normalize: string -> string): seq<Effect>
    decreases node, 2
  {
    match node
    case Folder(name, subnodes) =>
      var dir := Paths.Join(directory, Names.Sanitize(name));
      [MakeDir(dir)] + RecursiveScan(subnodes, dir, cancelled, index, normalize)
    case Playlist(name, keys) =>
      if name in Reserved then [] else [Export(directory, name, Resolve(keys, index, normalize))]
    case Other(_, _) => []
  }

  /** A playlist of the hierarchy together with the names of its enclosing
      folders, outermost first. */
  datatype Listed = Listed(folders: seq<string>, name: string, keys: seq<string>)

  /** Every playlist of the hierarchy, in document order, reserved or not. */
  function Flatten(nodes: seq<Node>, folders: seq<string>): seq<Listed>
    decreases nodes
  {
    if nodes == [] then []
    else FlattenNode(nodes[0], folders) + Flatten(nodes[1..], folders)
  }

  function FlattenNode(node: Node, folders: seq<string>): seq<Listed>
    decreases node
  {
    match node
    case Folder(name, subnodes) => Flatten(subnodes, folders + [name])
    case Playlist(name, keys) => [Listed(folders, name, keys)]
    case Other(_, _) => []
  }

  /** The directory of a playlist with the given enclosing folders: each
      folder name sanitised and joined onto the base in turn. */
  function FolderPath(base: string, folders: seq<string>): string {
    Paths.JoinAll(base, SanitizeAll(folders))
  }

  function SanitizeAll(names: seq<string>): (r: seq<string>)
    ensures |r| == |names|
  {
    seq(|names|, i requires 0 <= i < |names| => Names.Sanitize(names[i]))
  }

  /** The reference description of what the walk exports: every listed
      playlist whose name is not reserved, in its folder path, with its
      resolved members. */
  function Planned(listed: seq<Listed>, base: string, index: map<string, Entry>,
                   normalize: string -> string): seq<Effect>
  {
    if listed == [] then []
    else PlanOne(listed[0], base, index, normalize) + Planned(listed[1..], base, index, normalize)
  }

  /** The export planned for one listed playlist: none when it is reserved. */
  function PlanOne(l: Listed, base: string, index: map<string, Entry>, normalize: string -> string): seq<Effect> {
    if l.name in Reserved then []
    else [Export(FolderPath(base, l.folders), l.name, Resolve(l.keys, index, normalize))]
  }

  /** The playlist exports among the steps of a walk, in order. */
  function Exports(effects: seq<Effect>): seq<Effect> {
    if effects == [] then []
    else ExportOf(effects[0]) + Exports(effects[1..])
  }

  /** A step as it appears among the exports: itself when it is an export. */
  function ExportOf(x: Effect): seq<Effect> {
    if x.Export? then [x] else []
  }

  lemma {:induction false} ExportsAppend(a: seq<Effect>, b: seq<Effect>)
    ensures Exports(a + b) == Exports(a) + Exports(b)
    decreases |a|
  {
    if a == [] {
      assert a + b == b;
    } else {
      assert (a + b)[0] == a[0];
      assert (a + b)[1..] == a[1..] + b;
      ExportsAppend(a[1..], b);
      Seqs.AppendAssoc(ExportOf(a[0]), Exports(a[1..]), Exports(b));
    }
  }

  lemma {:induction false} PlannedAppend(a: seq<Listed>, b: seq<Listed>, base: string,
                                         index: map<string, Entry>, normalize: string -> string)
    ensures Planned(a + b, base, index, normalize) == Planned(a, base, index, normalize) + Planned(b, base, index, normalize)
    decreases |a|
  {
    if a == [] {
      assert a + b == b;
    } else {
      var first := PlanOne(a[0], base, index, normalize);
      assert (a + b)[0] == a[0];
      assert (a + b)[1..] == a[1..] + b;
      PlannedAppend(a[1..], b, base, index, normalize);
      assert Planned(a + b, base, index, normalize)
             == first + (Planned(a[1..], base, index, normalize) + Planned(b, base, index, normalize));
    }
  }

  lemma FolderPathExtend(base: string, folders: seq<string>, name: string)
    ensures FolderPath(base, folders + [name]) == Paths.Join(FolderPath(base, folders), Names.Sanitize(name))
  {
    var s := SanitizeAll(folders + [name]);
    assert s[..|folders|] == SanitizeAll(folders);
    assert s[|folders|] == Names.Sanitize(name);
  }

  /** Without cancellation, the walk exports exactly the planned playlists,
      in document order: each non-reserved playlist in the directory made of
      its enclosing folders' sanitised names. */
  lemma {:induction false} ScanNodesMatchesPlan(nodes: seq<Node>, base: string, folders: seq<string>,
                                               index: map<string, Entry>, normalize: string -> string)
    ensures Exports(ScanNodes(nodes, FolderPath(base, folders), false, index, normalize))
            == Planned(Flatten(nodes, folders), base, index, normalize)
    decreases nodes, 0
  {
    if nodes != [] {
      var dir := FolderPath(base, folders);
      ScanNodeMatchesPlan(nodes[0], base, folders, index, normalize);
      ScanNodesMatchesPlan(nodes[1..], base, folders, index, normalize);
      ExportsAppend(ScanNode(nodes[0], dir, false, index, normalize),
                    ScanNodes(nodes[1..], dir, false, index, normalize));
      PlannedAppend(FlattenNode(nodes[0], folders), Flatten(nodes[1..], folders), base, index, normalize);
    }
  }

  lemma {:induction false} ScanNodeMatchesPlan(node: Node, base: string, folders: seq<string>,
                                              index: map<string, Entry>, normalize: string -> string)
    ensures Exports(ScanNode(node, FolderPath(base, folders), false, index, normalize))
            == Planned(FlattenNode(node, folders), base, index, normalize)
    decreases node, 1
  {
    var dir := FolderPath(base, folders);
    match node
    case Folder(name, subnodes) =>
      var sub := Paths.Join(dir, Names.Sanitize(name));
      FolderPathExtend(base, folders, name);
      ScanNodesMatchesPlan(subnodes, base, folders + [name], index, normalize);
      ExportsAppend([MakeDir(sub)], ScanNodes(subnodes, sub, false, index, normalize));
    case Playlist(name, keys) =>
      var l := Listed(folders, name, keys);
      assert Planned([l], base, index, normalize) == PlanOne(l, base, index, normalize) + [];
    case Other(_, _) =>
  }

  /** The walk from the destination, not cancelled, exports exactly the
      planned playlists of the whole hierarchy, in document order. */
  lemma WalkMatchesPlan(nodes: seq<Node>, base: string, index: map<string, Entry>, normalize: string -> string)
    ensures Exports(RecursiveScan(nodes, base, false, index, normalize))
            == Planned(Flatten(nodes, []), base, index, normalize)
  {
    assert SanitizeAll([]) == [];
    assert FolderPath(base, []) == base;
    ScanNodesMatchesPlan(nodes, base, [], index, normalize);
  }

  /** What the plan holds: exports only, never of a reserved playlist, each
      one of a listed playlist in its folder path with its resolved members;
      and every listed playlist that is not reserved is in it. */
  lemma {:induction false} PlannedMembership(listed: seq<Listed>, base: string, index: map<string, Entry>,
                                             normalize: string -> string, e: Effect)
    ensures e in Planned(listed, base, index, normalize) <==>
            exists l :: l in listed && l.name !in Reserved &&
                        e == Export(FolderPath(base, l.folders), l.name, Resolve(l.keys, index, normalize))
    decreases |listed|
  {
    if listed != [] {
      PlannedMembership(listed[1..], base, index, normalize, e);
      var l := listed[0];
      assert forall l' :: l' in listed <==> l' == l || l' in listed[1..];
    }
  }

  /** The walk never exports `_LOOPS` or `_RECORDINGS`, cancelled or not. */
  lemma {:induction false} NoReservedExport(nodes: seq<Node>, directory: string, cancelled: bool,
                                            index: map<string, Entry>, normalize: string -> string)
    ensures forall e :: e in RecursiveScan(nodes, directory, cancelled, index, normalize) && e.Export?
                        ==> e.name !in Reserved
    decreases nodes, 1
  {
    if !cancelled {
      NoReservedExportNodes(nodes, directory, index, normalize);
    }
  }

  lemma {:induction false} NoReservedExportNodes(nodes: seq<Node>, directory: string,
                                                 index: map<string, Entry>, normalize: string -> string)
    ensures forall e :: e in ScanNodes(nodes, directory, false, index, normalize) && e.Export?
                        ==> e.name !in Reserved
    decreases nodes, 0
  {
    if nodes != [] {
      NoReservedExportNodes(nodes[1..], directory, index, normalize);
      match nodes[0]
      case Folder(name, subnodes) =>
        NoReservedExport(subnodes, Paths.Join(directory, Names.Sanitize(name)), false, index, normalize);
      case Playlist(_, _) =>
      case Other(_, _) =>
    }
  }

  /** A cancelled walk does nothing. */
  lemma CancelledScanIsEmpty(nodes: seq<Node>, directory: string, index: map<string, Entry>,
                             normalize: string -> string)
    ensures RecursiveScan(nodes, directory, true, index, normalize) == []
  {
  }

  /** The path a playlist document is written to: its sanitised display name
      with the `.nml` extension, in the given directory. */
  function DocumentPath(directory: string, name: string): string {
    Paths.Join(directory, Names.Sanitize(name) + Extension)
  }

  /** The file name of a playlist document is its base name, so a playlist
      never lands outside its folder's directory. */
  lemma DocumentPathBaseName(directory: string, name: string)
    ensures Paths.BaseName(DocumentPath(directory, name)) == Names.Sanitize(name) + Extension
  {
    Names.SanitizedHasNoSlash(name);
    var file := Names.Sanitize(name) + Extension;
    assert '/' !in file by {
      assert forall c :: c in file ==> c in Names.Sanitize(name) || c in Extension;
    }
    Paths.BaseNameOfJoin(directory, file);
  }
}
