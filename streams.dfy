/** Where the child's standard streams go, and the check that every declared
    redirect file can be opened before the first run. */
module Streams {
  import opened Common
  import opened Arguments

  /** A child stream either inherits the profiler's own stream or is bound to a file. */
  datatype Sink = Inherited | File(path: string)

  datatype Redirection = Redirection(stdin: Sink, stdout: Sink, stderr: Sink)

  /** The sink an option would ask for on its own: a file when a path was given. */
  function Requested(path: string): (s: Sink)
    ensures s == Inherited <==> path == ""
    ensures s.File? ==> s.path == path
  {
    if path == "" then Inherited else File(path)
  }

  /** The stream bindings main builds once and reuses for every launch.
      The stderr binding is decided by whether an OUTPUT path was given. */
  function Redirect(c: Config): (r: Redirection)
    ensures r.stdin == Inherited <==> c.inPath == ""
    ensures r.stdout == Inherited <==> c.outPath == ""
    ensures r.stderr == Inherited <==> c.outPath == ""
    ensures r.stdin.File? ==> r.stdin.path == c.inPath
    ensures r.stdout.File? ==> r.stdout.path == c.outPath
    ensures r.stderr.File? ==> r.stderr.path == c.errPath
  {
    Redirection(
      Requested(c.inPath),
      Requested(c.outPath),
      if c.outPath == "" then Inherited else File(c.errPath))
  }

  /** stdin and stdout always follow their own options. */
  lemma InputAndOutputAsRequested(c: Config)
    ensures Redirect(c).stdin == Requested(c.inPath)
    ensures Redirect(c).stdout == Requested(c.outPath)
  {
  }

  /** stderr follows --err exactly when --out and --err are both given or
      both omitted; --err alone leaves stderr inherited, and --out alone binds
      stderr to the empty path. */
  lemma ErrorStreamFollowsOutput(c: Config)
    ensures Redirect(c).stderr == Requested(c.errPath) <==> ((c.outPath == "") == (c.errPath == ""))
    ensures c.outPath == "" && c.errPath != "" ==> Redirect(c).stderr == Inherited
    ensures c.outPath != "" && c.errPath == "" ==> Redirect(c).stderr == File("")
  {
  }

  /** The file system as far as main can observe it: which paths open for
      writing (std::ofstream) and which for reading (std::ifstream). */
  datatype FileSystem = FileSystem(writable: set<string>, readable: set<string>)

  /** The three open checks, in the order out, err, in; the first failure wins
      and an empty path is not checked. */
  function ValidateStreams(c: Config, fs: FileSystem): (r: Option<Error>)
    ensures r == None <==>
      (c.outPath != "" ==> c.outPath in fs.writable) &&
      (c.errPath != "" ==> c.errPath in fs.writable) &&
      (c.inPath != "" ==> c.inPath in fs.readable)
    ensures r == Some(OutFileUnwritable) <==> c.outPath != "" && c.outPath !in fs.writable
    ensures r == Some(ErrFileUnwritable) <==>
      (c.outPath != "" ==> c.outPath in fs.writable) &&
      c.errPath != "" && c.errPath !in fs.writable
    ensures r == Some(InFileUnreadable) <==>
      (c.outPath != "" ==> c.outPath in fs.writable) &&
      (c.errPath != "" ==> c.errPath in fs.writable) &&
      c.inPath != "" && c.inPath !in fs.readable
  {
    if c.outPath != "" && c.outPath !in fs.writable then Some(OutFileUnwritable)
    else if c.errPath != "" && c.errPath !in fs.writable then Some(ErrFileUnwritable)
    else if c.inPath != "" && c.inPath !in fs.readable then Some(InFileUnreadable)
    else None
  }
}
