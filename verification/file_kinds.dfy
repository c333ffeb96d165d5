/**
 * The four file types the services classify files into, stored as the
 * strings "audio", "video", "image" and "other".
 */
module FileKinds {
  datatype FileType = Audio | Video | Image | Other

  function Name(t: FileType): string {
    match t
    case Audio => "audio"
    case Video => "video"
    case Image => "image"
    case Other => "other"
  }
}
