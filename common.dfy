/** Outcome types shared by the whole model: the exceptions the model covers
    are values of `Fault`, and an operation that may throw returns a `Result`. */
module Common {

  datatype Option<+T> = None | Some(value: T)

  /** The exceptions the model covers, among those the tool raises or lets
      escape. */
  datatype Fault =
    | IndexOutOfRange               // `result[0]` on a name that collapsed to ""
    | SubstringOutOfRange           // `Substring(2, -1)` on `--key` without `=`
    | DirectoryNotFound(dir: string) // `Directory.GetFiles` on a missing bin directory
    | ManifestNotJson               // the manifest deserialised to null
    | DependenciesMissing           // the manifest has no `dependencies`
    | InputPathNotSet
    | InputPathNotDirectory
    | OutputPathNotSet
    | NamespaceInvalid

  /** The value of an operation that either returns or throws. */
  datatype Result<+T> = Ok(value: T) | Throws(fault: Fault)
}
