/** Optional values, results, and the exceptions the downloader raises,
    named by what raised them. */
module Common {

  datatype Option<T> = None | Some(value: T)

  /** What a failed operation raised. */
  datatype Failure =
    | HttpStatus(code: int)   // `httpx.HTTPStatusError` with this status code
    | Transport               // `httpx.RequestError`: connection, timeout
    | RequestFailed           // any other exception while requesting or writing
    | NoParticipants          // `ValueError`: the filtered participant list is empty
    | UnknownDataType         // `ValueError`: the registry has no case for the type
    | AlteredFile             // `RuntimeError`: a listed file has no date token
    | BadDate                 // `ValueError` from `strptime`
    | FileExists              // `FileExistsError`: a directory is needed where a file is
    | NotFound                // `FileNotFoundError`
    | PermissionDenied        // `PermissionError`: the file is open elsewhere
    | IsDirectory             // `IsADirectoryError`: a file is needed where a directory is
    | SameFile                // `shutil.SameFileError`: a file copied onto itself
    | BadPattern              // `re.error`: the pattern does not compile

  datatype Result<T> = Ok(value: T) | Err(failure: Failure)
}
