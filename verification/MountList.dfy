/** The mount list of CODER_MOUNTS: parseMounts (cli/docker.go) reads what
    generateBindMounts (dockerutil/container.go) prints. */
module MountList {
  import opened GoText

  datatype Mount = Mount(source: string, mountpoint: string, readOnly: bool)

  datatype ParseError = Malformed(value: string)

  // ----- What one mount looks like

  function Print(m: Mount): string {
    m.source + ":" + m.mountpoint + if m.readOnly then ":ro" else ""
  }

  predicate Fields(entry: string) {
    2 <= |Split(entry, ':')| <= 3
  }

  function Read(entry: string): Mount
    requires Fields(entry)
  {
    var tokens := Split(entry, ':');
    Mount(tokens[0], tokens[1], |tokens| == 3 && tokens[2] == "ro")
  }

  predicate AllFields(entries: seq<string>) {
    forall i :: 0 <= i < |entries| ==> Fields(entries[i])
  }

  function ReadAll(entries: seq<string>): (mounts: seq<Mount>)
    requires AllFields(entries)
    ensures |mounts| == |entries|
    ensures forall i :: 0 <= i < |entries| ==> mounts[i] == Read(entries[i])
  {
    seq(|entries|, i requires 0 <= i < |entries| => Read(entries[i]))
  }

  function PrintAll(mounts: seq<Mount>): (binds: seq<string>)
    ensures |binds| == |mounts|
    ensures forall i :: 0 <= i < |mounts| ==> binds[i] == Print(mounts[i])
  {
    seq(|mounts|, i requires 0 <= i < |mounts| => Print(mounts[i]))
  }

  function Entries(value: string): seq<string> {
    if value == "" then [] else Split(value, ',')
  }

  /** The meaning of a CODER_MOUNTS value. */
  function Parsed(value: string): Result<seq<Mount>, ParseError> {
    if AllFields(Entries(value)) then Ok(ReadAll(Entries(value))) else Err(Malformed(value))
  }

  // ----- The code

  method ParseMounts(containerMounts: string) returns (r: Result<seq<Mount>, ParseError>)
    ensures r == Parsed(containerMounts)
    ensures r.Err? <==> containerMounts != "" && !AllFields(Split(containerMounts, ','))
  {
    if containerMounts == "" {
      return Ok([]);
    }
    var mountsStr := Split(containerMounts, ',');
    var mounts: seq<Mount> := [];
    for i := 0 to |mountsStr|
      invariant |mounts| == i
      invariant forall j :: 0 <= j < i ==> Fields(mountsStr[j]) && mounts[j] == Read(mountsStr[j])
    {
      var tokens := Split(mountsStr[i], ':');
      if |tokens| < 2 || |tokens| > 3 {
        assert !Fields(mountsStr[i]);
        return Err(Malformed(containerMounts));
      }
      var m := Mount(tokens[0], tokens[1], false);
      if |tokens| == 3 {
        m := m.(readOnly := tokens[2] == "ro");
      }
      assert m == Read(mountsStr[i]);
      mounts := mounts + [m];
    }
    assert mounts == ReadAll(mountsStr);
    return Ok(mounts);
  }

  method GenerateBindMounts(mounts: seq<Mount>) returns (binds: seq<string>)
    ensures binds == PrintAll(mounts)
  {
    binds := [];
    for i := 0 to |mounts|
      invariant |binds| == i
      invariant forall j :: 0 <= j < i ==> binds[j] == Print(mounts[j])
    {
      var bind := mounts[i].source + ":" + mounts[i].mountpoint;
      if mounts[i].readOnly {
        bind := bind + ":ro";
      }
      assert bind == Print(mounts[i]);
      binds := binds + [bind];
    }
  }

  // ----- The round trips

  /** Mounts that survive the textual form: the separators do not occur in them. */
  predicate Printable(m: Mount) {
    ',' !in m.source && ':' !in m.source && ',' !in m.mountpoint && ':' !in m.mountpoint
  }

  lemma ReadPrint(m: Mount)
    requires Printable(m)
    ensures Fields(Print(m)) && Read(Print(m)) == m
    ensures ',' !in Print(m)
  {
    SplitNoSep(m.source, ':');
    SplitNoSep(m.mountpoint, ':');
    SplitNoSep("ro", ':');
    SplitConcat(m.source, m.mountpoint, ':');
    if m.readOnly {
      assert Print(m) == (m.source + ":" + m.mountpoint) + ":" + "ro";
      SplitConcat(m.source + ":" + m.mountpoint, "ro", ':');
    } else {
      assert Print(m) == m.source + ":" + m.mountpoint;
    }
  }

  /** Printing mounts, joining them with ',' and parsing gives the mounts back. */
  lemma ParsePrint(mounts: seq<Mount>)
    requires forall m :: m in mounts ==> Printable(m)
    ensures Parsed(Join(PrintAll(mounts), ',')) == Ok(mounts)
  {
    var binds := PrintAll(mounts);
    forall i | 0 <= i < |mounts|
      ensures Fields(binds[i]) && Read(binds[i]) == mounts[i] && ',' !in binds[i]
    {
      ReadPrint(mounts[i]);
    }
    if mounts != [] {
      SplitJoin(binds, ',');
      JoinedIsNotEmpty(binds);
      assert ReadAll(binds) == mounts;
    }
  }

  /** What the fields mean: source, mountpoint, and read-only exactly if there is a
      third one that says "ro"; "a:b:rw" is writable. */
  lemma FieldsMean(source: string, mountpoint: string, mode: string)
    requires ',' !in source && ':' !in source && ',' !in mountpoint && ':' !in mountpoint
    requires ',' !in mode && ':' !in mode
    ensures Parsed(source + ":" + mountpoint) == Ok([Mount(source, mountpoint, false)])
    ensures Parsed(source + ":" + mountpoint + ":" + mode) == Ok([Mount(source, mountpoint, mode == "ro")])
  {
    SplitNoSep(source, ':');
    SplitNoSep(mountpoint, ':');
    SplitNoSep(mode, ':');
    SplitConcat(source, mountpoint, ':');
    SplitConcat(source + ":" + mountpoint, mode, ':');
    SingleEntry(source + ":" + mountpoint);
    SingleEntry(source + ":" + mountpoint + ":" + mode);
  }

  lemma SingleEntry(entry: string)
    requires entry != "" && ',' !in entry && Fields(entry)
    ensures Parsed(entry) == Ok([Read(entry)])
  {
    SplitNoSep(entry, ',');
    assert Entries(entry) == [entry];
    assert ReadAll([entry]) == [Read(entry)];
  }

  lemma JoinedIsNotEmpty(entries: seq<string>)
    requires entries != [] && Fields(entries[0])
    ensures Join(entries, ',') != ""
  {
    if entries[0] == "" {
      SplitNoSep("", ':');
    }
  }

  /** What is parsed contains no separators ... */
  lemma ParsedIsPrintable(value: string)
    requires Parsed(value).Ok?
    ensures forall m :: m in Parsed(value).value ==> Printable(m)
  {
    var entries := Entries(value);
    forall m | m in Parsed(value).value ensures Printable(m) {
      var i :| 0 <= i < |entries| && m == Read(entries[i]);
      assert Fields(entries[i]);
      SplitPieces(value, ',');
      SplitPieces(entries[i], ':');
      PiecesAreParts(entries[i], ':');
    }
  }

  lemma {:induction false} JoinContains(parts: seq<string>, sep: char, i: nat, c: char)
    requires i < |parts| && c in parts[i]
    ensures c in Join(parts, sep)
  {
    if i > 0 {
      JoinContains(parts[1..], sep, i - 1, c);
    }
  }

  lemma PiecesAreParts(s: string, sep: char)
    ensures forall i, c :: 0 <= i < |Split(s, sep)| && c in Split(s, sep)[i] ==> c in s
  {
    forall i, c | 0 <= i < |Split(s, sep)| && c in Split(s, sep)[i] ensures c in s {
      JoinContains(Split(s, sep), sep, i, c);
    }
  }

  /** ... so exactly the mounts without separators survive printing and parsing ... */
  lemma ParsePrintIff(mounts: seq<Mount>)
    ensures Parsed(Join(PrintAll(mounts), ',')) == Ok(mounts) <==> forall m :: m in mounts ==> Printable(m)
  {
    if forall m :: m in mounts ==> Printable(m) {
      ParsePrint(mounts);
    }
    if Parsed(Join(PrintAll(mounts), ',')) == Ok(mounts) {
      ParsedIsPrintable(Join(PrintAll(mounts), ','));
    }
  }

  /** ... and printing and parsing again changes nothing, for every accepted value. */
  lemma ParsePrintParse(value: string)
    requires Parsed(value).Ok?
    ensures Parsed(Join(PrintAll(Parsed(value).value), ',')) == Parsed(value)
  {
    ParsedIsPrintable(value);
    ParsePrint(Parsed(value).value);
  }
}
