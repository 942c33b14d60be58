/** Errors and results of the generate command. Every error ends the process
    with exit status 1: the guards call `process.exit(1)` and the file-system
    exceptions that are not caught end Node.js with status 1 as well. */
module Outcomes {

  datatype Option<+T> = None | Some(value: T)

  datatype Error =
    | NotInProject              // no `.artaxrc` in the working directory
    | MarkerUnreadable          // `.artaxrc` exists but is not readable JSON
    | MissingKind               // no (or an empty) generator kind argument
    | MissingName               // no (or an empty) name argument
    | InvalidKind(kind: string) // kind not offered for the project type
    | AlreadyExists(path: string) // a guarded target already exists
    | WriteFailed(path: string)   // `fs.writeFileSync` found no parent directory

  datatype Result<+T> = Ok(value: T) | Err(error: Error)

  /** The exit status the process ends with. */
  function ExitCode<T>(r: Result<T>): (code: nat)
    ensures code == 0 <==> r.Ok?
    ensures code <= 1
  {
    if r.Ok? then 0 else 1
  }
}
