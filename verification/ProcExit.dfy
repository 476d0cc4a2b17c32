/** background/process.go, isProcExited: what the name of a process in /proc says
    about whether it has exited. The steps of Process leave the answer open. */
module ProcExit {
  import opened GoText

  /** /proc/<pid>/cmdline. */
  datatype CmdlineFile = Absent | Unreadable | Content(text: string)

  /** The code cuts at the character '0', although the arguments in the file end in
      NUL. A split always has a first piece. */
  function IsProcExited(file: CmdlineFile, cmd: string): Result<bool, ()> {
    match file
    case Absent => Ok(true)
    case Unreadable => Err(())
    case Content(text) => Ok(cmd != Split(text, '0')[0])
  }

  /** A file that exists means "not exited" exactly if it is the command, or goes on
      with a '0' after it, and the command itself has no '0'. */
  lemma NotExitedIff(text: string, cmd: string)
    ensures IsProcExited(Content(text), cmd) == Ok(false) <==>
      '0' !in cmd && (text == cmd || HasPrefix(text, cmd + "0"))
  {
    FirstPieceIff(text, cmd, '0');
  }

  /** All the answers: "exited" if there is no file, or its first piece is another
      name; an error exactly if the file is there and cannot be read. */
  lemma ExitAnswers(file: CmdlineFile, cmd: string)
    ensures IsProcExited(file, cmd).Err? <==> file.Unreadable?
    ensures IsProcExited(file, cmd) == Ok(true) <==>
      file.Absent? || (file.Content? && ('0' in cmd || !(file.text == cmd || HasPrefix(file.text, cmd + "0"))))
  {
    if file.Content? {
      NotExitedIff(file.text, cmd);
    }
  }

  /** The contents of the file as proc(5) describes them: every argument of the
      running process, each followed by a NUL. */
  function Cmdline(argv: seq<string>): string {
    if argv == [] then "" else argv[0] + "\0" + Cmdline(argv[1..])
  }

  /** A running process counts as running exactly if its name goes on with a '0'
      where the given one ends. */
  lemma RunningIsSeenIff(argv: seq<string>, cmd: string)
    requires argv != [] && '\0' !in argv[0] && '\0' !in cmd
    ensures IsProcExited(Content(Cmdline(argv)), cmd) == Ok(false) <==>
      '0' !in cmd && HasPrefix(argv[0], cmd + "0")
  {
    var text := Cmdline(argv);
    NotExitedIff(text, cmd);
    assert text[|argv[0]|] == '\0';
    assert text[..|argv[0]|] == argv[0];
    assert '\0' in text;
    if HasPrefix(text, cmd + "0") {
      PrefixBeforeNul(argv[0], text, cmd + "0");
    }
    if HasPrefix(argv[0], cmd + "0") {
      assert text[..|cmd + "0"|] == argv[0][..|cmd + "0"|];
    }
  }

  lemma PrefixBeforeNul(name: string, text: string, prefix: string)
    requires |name| < |text| && text[..|name|] == name && text[|name|] == '\0'
    requires HasPrefix(text, prefix) && '\0' !in prefix
    ensures HasPrefix(name, prefix)
  {
    assert forall i :: 0 <= i < |prefix| ==> prefix[i] == text[i] && prefix[i] != '\0';
    assert forall i :: 0 <= i < |name| ==> name[i] == text[i];
  }

  /** So under the very name it was started with, a running process is always
      reported to have exited: the first poll of kill ends the waiting. */
  lemma RunningLooksExited(argv: seq<string>, cmd: string)
    requires argv != [] && argv[0] == cmd && '\0' !in cmd
    ensures IsProcExited(Content(Cmdline(argv)), cmd) == Ok(true)
  {
    RunningIsSeenIff(argv, cmd);
  }
}
