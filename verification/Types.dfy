/** The rows, records and commands of the metadata store.

    Object ids are opaque and totally ordered, so they are naturals with the
    fixed root folder at zero. Text is its UTF-8 byte sequence. A file's blob
    pointer and its content state are written together, so one optional blob
    stands for both: `Some` is content state `ready`. */
module Types {
  type Id = nat
  type UploadId = nat
  type Byte = b: int | 0 <= b < 256
  type Text = seq<Byte>
  type Value = Text

  const ROOT: Id := 0

  datatype Option<+T> = None | Some(value: T)

  datatype Error =
    | ObjectNotFound
    | NotAFolder
    | NotAFile
    | NameConflict
    | InvalidMove
    | InvalidRequest
    | RevisionConflict(current: nat)
    | FolderNotEmpty
    | UploadNotFound
    | ChecksumMismatch
    | Internal

  datatype Result<+T> = Ok(value: T) | Err(error: Error)

  datatype Kind = File | Folder

  /** The blob key a backend derives from an upload id, injectively. */
  datatype Blob = Blob(upload: UploadId)

  datatype Row = Row(
    revision: nat,
    kind: Kind,
    name: Text,
    parent: Option<Id>,
    metadata: map<Text, Value>,
    blob: Option<Blob>,
    deleted: bool)

  type Objects = map<Id, Row>

  predicate Live(o: Objects, i: Id) {
    i in o && !o[i].deleted
  }

  predicate LiveFolder(o: Objects, i: Id) {
    Live(o, i) && o[i].kind == Folder
  }

  const SLASH: Byte := 47
  const NUL: Byte := 0
  const DOT: Byte := 46
  const MAX_NAME_BYTES: nat := 255

  /** `validate_name`: the names every non-root object carries. */
  predicate ValidName(name: Text) {
    && name != []
    && |name| <= MAX_NAME_BYTES
    && SLASH !in name
    && NUL !in name
    && name != [DOT]
    && name != [DOT, DOT]
  }
}
