/** The frozen constant tables of the service (src/constants.js). */
module Constants {

  import opened Wrappers

  /** MESSAGE_TYPES: the kind of content a channel message holds. */
  datatype Kind = Text | Image | File {
    /** The string stored in the files table and returned to clients; distinct
        kinds have distinct names, so reading the name back gives the kind. */
    function Name(): (s: string)
      ensures KindNamed(s) == Some(this)
    {
      match this
      case Text => "text"
      case Image => "image"
      case File => "file"
    }
  }

  /** Reads a stored kind name back; the inverse of Kind.Name. */
  function KindNamed(s: string): Option<Kind> {
    if s == "text" then Some(Text)
    else if s == "image" then Some(Image)
    else if s == "file" then Some(File)
    else None
  }

  /** A name that reads back as a kind is that kind's name: no other spelling is accepted. */
  lemma KindNamedOnlyNames(s: string)
    ensures KindNamed(s).Some? ==> KindNamed(s).value.Name() == s
  {
  }

  /** DISCORD_LIMITS */
  const MAX_TEXT_LENGTH: nat := 2000
  const MAX_FILE_SIZE: nat := 25 * 1024 * 1024
  const MAX_IMAGE_SIZE: nat := 25 * 1024 * 1024

  /** HTTP_CODES */
  const TEMPORARY_REDIRECT: nat := 307

  /** ACCESS_LEVELS */
  const USER: string := "user"
  const ROOT: string := "root"

  /** JWT_ERRORS */
  const INVALID_TOKEN: string := "Invalid token"
  const MISSING_TOKEN: string := "Missing token"
  const INSUFFICIENT_PERMISSIONS: string := "Insufficient permissions"

  /** Both size limits are 25 MiB, and the access levels and token errors are distinct. */
  lemma ConstantFacts()
    ensures MAX_FILE_SIZE == MAX_IMAGE_SIZE == 26214400
    ensures USER != ROOT
    ensures INVALID_TOKEN != MISSING_TOKEN && MISSING_TOKEN != INSUFFICIENT_PERMISSIONS
      && INVALID_TOKEN != INSUFFICIENT_PERMISSIONS
  {
  }
}
