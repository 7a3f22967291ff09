/** The entities of the virtual drive: files and folders, and the read-only
    store that maps an identifier to its entity (an entry may be absent). */
module DriveItems {

  /** An optional value: `undefined` in the store's record type. */
  datatype Option<+T> = None | Some(value: T)

  /** The content kinds a file may carry. */
  datatype FileKind = Document | Spreadsheet | Presentation | Pdf | Image

  /** The `type` tag shared by both item shapes. */
  datatype ItemTag = FileTag(kind: FileKind) | FolderTag

  /** A drive item is either a file with display metadata or a folder
      holding an ordered list of child identifiers. The `url`, `size` and
      `modified` strings are display data with no behaviour. */
  datatype DriveItem =
    | File(id: string, name: string, kind: FileKind, url: string, size: string, modified: string)
    | Folder(id: string, name: string, children: seq<string>)

  /** The store: identifier to item. An identifier outside the key set is
      absent. */
  type Store = map<string, DriveItem>

  /** The `type` field of an item: "folder" exactly for the folder shape,
      and for a file its content kind. */
  function Tag(item: DriveItem): (r: ItemTag)
    ensures r == FolderTag <==> item.Folder?
    ensures r.FileTag? ==> item.File? && r.kind == item.kind
  {
    match item
    case File(_, _, kind, _, _, _) => FileTag(kind)
    case Folder(_, _, _) => FolderTag
  }

  /** The type guard: decides on the tag alone, and is sound and complete
      for the folder shape, so a caller may read `children` exactly when it
      holds. */
  predicate IsFolder(item: DriveItem)
    ensures IsFolder(item) <==> item.Folder?
  {
    Tag(item) == FolderTag
  }

  /** Indexing the store: absent identifiers give `None`, never a fault. */
  function Lookup(store: Store, id: string): (r: Option<DriveItem>)
    ensures r.Some? <==> id in store
    ensures r.Some? ==> r.value == store[id]
  {
    if id in store then Some(store[id]) else None
  }
}
