/** The single-instance guard run at start-up, before connecting: if the PID
    file exists and names a live process the program exits; otherwise it
    overwrites the file with its own process id. Whether a process is live
    is a parameter; the file is an optional text. */
module PidGuard {
  import opened Wrappers
  import opened Numbers

  datatype Startup =
    | AlreadyRunning   // the saved id names a live process: exit at once
    | BadPidFile       // `int()` of the saved text raises: the program stops
    | Started          // the file now holds this process's id

  /** The decision the guard takes on the file's contents. */
  function Decide(file: Option<string>, live: int -> bool): Startup {
    match file
    case None => Started
    case Some(saved) =>
      match ParseInt(saved)
      case None => BadPidFile
      case Some(pid) => if live(pid) then AlreadyRunning else Started
  }

  /** The PID file on disk; `None` when no such file exists. */
  class PidFile {
    var contents: Option<string>

    constructor (initial: Option<string>)
      ensures contents == initial
    {
      contents := initial;
    }

    /** Check the saved id, then claim the file for process `ownPid`. */
    method Guard(ownPid: int, live: int -> bool) returns (startup: Startup)
      modifies this
      ensures startup == Decide(old(contents), live)
      ensures contents == if startup == Started then Some(IntToString(ownPid)) else old(contents)
    {
      if contents.Some? {
        var saved := contents.value;
        var pid := ParseInt(saved);
        if pid.None? {
          return BadPidFile;
        }
        if live(pid.value) {
          return AlreadyRunning;
        }
      }
      contents := Some(IntToString(ownPid));
      startup := Started;
    }
  }

  /** A file holding the id of a live process stops start-up; one holding
      the id of a process that is gone is taken over. */
  lemma SavedIdDecides(pid: int, live: int -> bool)
    requires Printable(pid)
    ensures Decide(Some(IntToString(pid)), live) == (if live(pid) then AlreadyRunning else Started)
  {
    ParseIntRoundTrip(pid);
  }

  /** The same holds when the saved id is surrounded by whitespace that
      `int()` strips, such as a trailing newline. */
  lemma PaddedIdDecides(lead: string, pid: int, trail: string, live: int -> bool)
    requires Printable(pid) && AllIntSpace(lead) && AllIntSpace(trail)
    ensures Decide(Some(lead + IntToString(pid) + trail), live) ==
      (if live(pid) then AlreadyRunning else Started)
  {
    var s := IntToString(pid);
    assert !IntSpace(s[0]) && !IntSpace(s[|s| - 1]);
    ParseIntIgnoresPadding(lead, s, trail);
    ParseIntRoundTrip(pid);
  }

  /** A saved id preceded by one of the ASCII separators U+001C..U+001F is
      not an integer to `int()`: start-up stops with the file untouched. */
  lemma SeparatorStops(sep: char, saved: string, live: int -> bool)
    requires '\U{1C}' <= sep <= '\U{1F}'
    ensures Decide(Some([sep] + saved), live) == BadPidFile
  {
    ParseIntRejectsSeparator([sep] + saved);
  }

  /** Start-up proceeds exactly when there is no file, or the file holds an
      integer that names no live process. */
  lemma StartsExactly(file: Option<string>, live: int -> bool)
    ensures Decide(file, live) == Started <==>
      file.None? || (ParseInt(file.value).Some? && !live(ParseInt(file.value).value))
  {
  }

  /** Two instances in turn: once the first has claimed the file, a second
      one started while the first is live exits and leaves the file as the
      first wrote it. */
  method SecondInstanceExits(f: PidFile, first: int, second: int, live: int -> bool)
    returns (a: Startup, b: Startup)
    modifies f
    requires live(first) && Printable(first)
    ensures a == Started ==> b == AlreadyRunning && f.contents == Some(IntToString(first))
  {
    a := f.Guard(first, live);
    if a == Started {
      SavedIdDecides(first, live);
    }
    b := f.Guard(second, live);
  }
}
