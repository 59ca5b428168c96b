/** The exceptions the mirroring core raises, and the Result type that carries them. */
module MirrorErrors {

  /** One constructor per exception the Python code can raise on the modelled paths. */
  datatype Error =
    | NotInSubpath        // ValueError from PurePath.relative_to: the path is not under the root
    | SameFile            // ValueError: playlist file and song file are the same path
    | NoPathParts         // TypeError: os.path.join() called with no argument at all
    | MusicRootMissing    // FileNotFoundError: music root is not an existing directory
    | PlaylistRootMissing // FileNotFoundError: playlist root is not an existing directory
    | DestinationMissing  // FileNotFoundError: destination is not an existing directory
    | NoWriteAccess       // PermissionError: destination is not writable

  datatype Result<+T> = Success(value: T) | Failure(error: Error)
}
