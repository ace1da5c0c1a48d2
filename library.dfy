/** The parts of a Traktor collection document (NML) that the exporter reads
    and writes, and the abstract file system it works against. */
module Library {

  /** The LOCATION element of an entry: its DIR, FILE, VOLUME and VOLUMEID
      attributes. DIR is written in Traktor's `/:` notation. */
  datatype Location = Location(dir: string, file: string, volume: string, volumeId: string)

  /** An ENTRY of the COLLECTION: its location and the AUTHOR_TYPE attribute
      of its MODIFICATION_INFO element. */
  datatype Entry = Entry(location: Location, authorType: string)

  /** A NODE of the playlist hierarchy, by its TYPE attribute: a FOLDER with
      SUBNODES, a PLAYLIST with the KEY of each PRIMARYKEY in order, or a node
      of any other type (a smart list, say), which the exporter passes over. */
  datatype Node =
    | Folder(name: string, subnodes: seq<Node>)
    | Playlist(name: string, keys: seq<string>)
    | Other(kind: string, name: string)

  /** What `os.stat` tells the exporter about a regular file. */
  datatype Stat = Stat(mtime: int, size: nat)

  /** A playlist document written by the exporter: the playlist's display
      name, the ENTRIES count of its COLLECTION and the entries it holds, in
      playlist order. */
  datatype Document = Document(title: string, entryCount: nat, collection: seq<Entry>)

  /** One progress message: `{"action": ..., "item": ...}`. */
  datatype Action = CopyAction | DeleteAction | PlaylistAction
  datatype Message = Message(action: Action, item: string)
}
