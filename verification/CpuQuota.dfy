/** xunix/sys.go and dockerutil/container.go: reading the CPU quota of the outer
    container and writing it for the inner one. */
module CpuQuota {
  import opened GoText
  import opened GoPath

  /** cgroup is an int in Go as well; only 0 (v1) and 1 (v2) have a name. */
  datatype CPUQuota = CPUQuota(quota: int, period: int, cgroup: int)

  const CGROUP_V1 := 0
  const CGROUP_V2 := 1

  const SELF_CGROUP := "/proc/self/cgroup"
  const ROOT_MAX := "/sys/fs/cgroup/cpu.max"
  const PERIOD_V1 := "/sys/fs/cgroup/cpu,cpuacct/cpu.cfs_period_us"
  const QUOTA_V1 := "/sys/fs/cgroup/cpu,cpuacct/cpu.cfs_quota_us"

  datatype QuotaError =
    | Missing(path: string)
    | BadSelf(text: string)
    | NotTwoEntries(text: string)
    | NotAnInt(text: string)
    | NotWritten(path: string)
    | UnknownCGroup(cgroup: int)

  type Files = map<string, string>

  // ----- Reading

  function ReadFile(files: Files, path: string): Result<string, QuotaError> {
    if path in files then Ok(files[path]) else Err(Missing(path))
  }

  function Number(text: string): Result<int, QuotaError> {
    var n := Atoi(text);
    if n.Some? then Ok(n.value) else Err(NotAnInt(text))
  }

  /** The third field of the first line. */
  function ReadCGroupSelf(files: Files): Result<string, QuotaError> {
    var raw := ReadFile(files, SELF_CGROUP);
    if raw.Err? then Err(raw.error)
    else
      var fields := Split(Split(raw.value, '\n')[0], ':');
      if |fields| != 3 then Err(BadSelf(raw.value)) else Ok(fields[2])
  }

  /** The text of a cpu.max file. */
  function ParseV2(text: string): Result<CPUQuota, QuotaError> {
    var list := Split(TrimSpace(text), ' ');
    if |list| != 2 then Err(NotTwoEntries(text))
    else
      var quota := if list[0] == "max" then Ok(-1) else Number(list[0]);
      if quota.Err? then Err(quota.error)
      else
        var period := Number(list[1]);
        if period.Err? then Err(period.error) else Ok(CPUQuota(quota.value, period.value, CGROUP_V2))
  }

  function ParseV1(periodText: string, quotaText: string): Result<CPUQuota, QuotaError> {
    var period := Number(TrimSpace(periodText));
    if period.Err? then Err(period.error)
    else
      var quota := Number(TrimSpace(quotaText));
      if quota.Err? then Err(quota.error) else Ok(CPUQuota(quota.value, period.value, CGROUP_V1))
  }

  function SelfMax(self: string): string {
    JoinPath(["/sys/fs/cgroup/", self, "cpu.max"])
  }

  function ReadMax(files: Files, self: string): Result<string, QuotaError> {
    var own := ReadFile(files, SelfMax(self));
    if own.Ok? then own else ReadFile(files, ROOT_MAX)
  }

  function ReadV2(files: Files): Result<CPUQuota, QuotaError> {
    var self := ReadCGroupSelf(files);
    if self.Err? then Err(self.error)
    else
      var text := ReadMax(files, self.value);
      if text.Err? then Err(text.error) else ParseV2(text.value)
  }

  function ReadV1From(files: Files, periodPath: string, quotaPath: string): Result<CPUQuota, QuotaError> {
    var period := ReadFile(files, periodPath);
    if period.Err? then Err(period.error)
    else
      var quota := ReadFile(files, quotaPath);
      if quota.Err? then Err(quota.error) else ParseV1(period.value, quota.value)
  }

  function ReadCPUQuota(files: Files): Result<CPUQuota, QuotaError> {
    var v2 := ReadV2(files);
    if v2.Ok? then v2 else ReadV1From(files, PERIOD_V1, QUOTA_V1)
  }

  // ----- Writing

  function MaxPath(id: string): string {
    JoinPath(["/sys/fs/cgroup/docker/" + id + "/init.scope/", "cpu.max"])
  }

  function BaseV1(id: string): string {
    "/sys/fs/cgroup/cpu,cpuacct/docker/" + id + "/syscont-cgroup-root/"
  }

  function PeriodPath(id: string): string {
    JoinPath([BaseV1(id), "cpu.cfs_period_us"])
  }

  function QuotaPath(id: string): string {
    JoinPath([BaseV1(id), "cpu.cfs_quota_us"])
  }

  /** The first entry of cpu.max for a quota. */
  function FirstEntry(q: CPUQuota): string {
    if q.quota < 0 then "max" else Itoa(q.quota)
  }

  function MaxText(q: CPUQuota): string {
    FirstEntry(q) + " " + Itoa(q.period) + "\n"
  }

  function Written(files: Files, unwritable: set<string>, path: string, text: string): Files {
    if path in unwritable then files else files[path := text]
  }

  /** The files after writing two files: nothing is written after a failed write. */
  function BothWritten(files: Files, unwritable: set<string>, path: string, text: string,
                       otherPath: string, otherText: string): Files
  {
    if path in unwritable then files
    else Written(files[path := text], unwritable, otherPath, otherText)
  }

  function WithQuota(files: Files, unwritable: set<string>, id: string, q: CPUQuota): Files {
    if q.cgroup == CGROUP_V2 then Written(files, unwritable, MaxPath(id), MaxText(q))
    else if q.cgroup == CGROUP_V1 then
      BothWritten(files, unwritable, PeriodPath(id), Itoa(q.period), QuotaPath(id), Itoa(q.quota))
    else files
  }

  /** Where the quota of an inner container is found again. */
  function ReadBack(files: Files, id: string, cgroup: int): Result<CPUQuota, QuotaError> {
    if cgroup == CGROUP_V2 then
      var text := ReadFile(files, MaxPath(id));
      if text.Err? then Err(text.error) else ParseV2(text.value)
    else ReadV1From(files, PeriodPath(id), QuotaPath(id))
  }

  /** Every negative v2 quota is written as "max", which reads as -1. */
  function Normalised(q: CPUQuota): CPUQuota {
    if q.cgroup == CGROUP_V2 && q.quota < 0 then q.(quota := -1) else q
  }

  predicate Fits(q: CPUQuota) {
    IsInt64(q.quota) && IsInt64(q.period)
  }

  /** A file system some of whose files cannot be written. */
  class HostFS {
    var files: Files
    const unwritable: set<string>

    constructor (files: Files, unwritable: set<string>)
      ensures this.files == files && this.unwritable == unwritable
    {
      this.files := files;
      this.unwritable := unwritable;
    }

    method WriteFile(path: string, text: string) returns (r: Result<(), QuotaError>)
      modifies this
      ensures files == Written(old(files), unwritable, path, text)
      ensures r == if path in unwritable then Err(NotWritten(path)) else Ok(())
    {
      if path in unwritable {
        return Err(NotWritten(path));
      }
      files := files[path := text];
      return Ok(());
    }

    method SetContainerQuota(id: string, q: CPUQuota) returns (r: Result<(), QuotaError>)
      modifies this
      ensures files == WithQuota(old(files), unwritable, id, q)
      ensures q.cgroup != CGROUP_V1 && q.cgroup != CGROUP_V2 ==>
        files == old(files) && r == Err(UnknownCGroup(q.cgroup))
      ensures r.Ok? && Fits(q) ==> ReadBack(files, id, q.cgroup) == Ok(Normalised(q))
      ensures r.Ok? <==> (q.cgroup == CGROUP_V2 && MaxPath(id) !in unwritable)
                         || (q.cgroup == CGROUP_V1 && PeriodPath(id) !in unwritable && QuotaPath(id) !in unwritable)
    {
      if Fits(q) {
        QuotaIsReadBack(files, unwritable, id, q);
      }
      if q.cgroup == CGROUP_V2 {
        r := SetContainerQuotaCGroupV2(id, q);
      } else if q.cgroup == CGROUP_V1 {
        r := SetContainerQuotaCGroupV1(id, q);
      } else {
        r := Err(UnknownCGroup(q.cgroup));
      }
    }

    method SetContainerQuotaCGroupV2(id: string, q: CPUQuota) returns (r: Result<(), QuotaError>)
      modifies this
      ensures files == Written(old(files), unwritable, MaxPath(id), MaxText(q))
      ensures r.Ok? <==> MaxPath(id) !in unwritable
    {
      r := WriteFile(MaxPath(id), MaxText(q));
    }

    method SetContainerQuotaCGroupV1(id: string, q: CPUQuota) returns (r: Result<(), QuotaError>)
      modifies this
      ensures files ==
        BothWritten(old(files), unwritable, PeriodPath(id), Itoa(q.period), QuotaPath(id), Itoa(q.quota))
      ensures r.Ok? <==> PeriodPath(id) !in unwritable && QuotaPath(id) !in unwritable
    {
      r := WriteFile(PeriodPath(id), Itoa(q.period));
      if r.Err? {
        return;
      }
      r := WriteFile(QuotaPath(id), Itoa(q.quota));
    }

    /** cli/docker.go: give the inner container the limits of the outer one. Both
        errors are logged and otherwise ignored. */
    method CopyQuota(id: string)
      modifies this
      ensures files == Copied(old(files), unwritable, id)
      ensures ReadCPUQuota(old(files)).Err? ==> files == old(files)
    {
      var q := ReadCPUQuota(files);
      if q.Ok? {
        var r := SetContainerQuota(id, q.value);
      }
    }
  }

  function Copied(files: Files, unwritable: set<string>, id: string): Files {
    var q := ReadCPUQuota(files);
    if q.Ok? then WithQuota(files, unwritable, id, q.value) else files
  }

  /** A copy changes nothing but the inner container's files, and of those only
      what can be written. */
  lemma CopyChangesOnly(files: Files, unwritable: set<string>, id: string, path: string)
    requires path in unwritable || path !in {MaxPath(id), PeriodPath(id), QuotaPath(id)}
    ensures ReadFile(Copied(files, unwritable, id), path) == ReadFile(files, path)
  {
    var q := ReadCPUQuota(files);
    if q.Ok? {
      WriteChangesOnly(files, unwritable, id, q.value, path);
    }
  }

  lemma WriteChangesOnly(files: Files, unwritable: set<string>, id: string, q: CPUQuota, path: string)
    requires path in unwritable || path !in {MaxPath(id), PeriodPath(id), QuotaPath(id)}
    ensures ReadFile(WithQuota(files, unwritable, id, q), path) == ReadFile(files, path)
  {
  }

  /** If only the v1 quota file cannot be written, the copy fails after it has
      changed the period. */
  lemma HalfACopy(files: Files, unwritable: set<string>, id: string, q: CPUQuota)
    requires ReadCPUQuota(files) == Ok(q) && q.cgroup == CGROUP_V1
    requires PeriodPath(id) !in unwritable && QuotaPath(id) in unwritable
    ensures Copied(files, unwritable, id) == files[PeriodPath(id) := Itoa(q.period)]
  {
  }

  // ----- Round trips of the texts

  lemma TrimLine(line: string)
    requires line != "" && Trimmed(line)
    ensures TrimSpace(line + "\n") == line
  {
    var s := line + "\n";
    assert s[0] == line[0] && s[|s| - 1] == '\n';
    assert TrimLeft(s) == s;
    assert s[..|s| - 1] == line;
    assert TrimRight(s) == TrimRight(line) == line;
  }

  lemma ItoaHasNo(n: int, c: char)
    requires !IsDigit(c) && c != '-'
    ensures c !in Itoa(n)
  {
    ItoaAlphabet(n);
  }

  lemma FirstEntryFacts(q: CPUQuota)
    requires IsInt64(q.quota)
    ensures FirstEntry(q) != "" && Trimmed(FirstEntry(q)) && ' ' !in FirstEntry(q)
    ensures MeansQuota(FirstEntry(q), if q.quota < 0 then -1 else q.quota)
  {
    ItoaHasNo(q.quota, ' ');
    ItoaHasNo(q.quota, 'm');
    ItoaAlphabet(q.quota);
    AtoiItoa(q.quota);
    assert "max"[0] == 'm';
  }

  lemma TwoTrimmed(a: string, b: string)
    requires a != "" && b != "" && Trimmed(a) && Trimmed(b)
    ensures TrimSpace(a + " " + b + "\n") == a + " " + b
  {
    var line := a + " " + b;
    assert line[0] == a[0] && line[|line| - 1] == b[|b| - 1];
    TrimLine(line);
  }

  /** Reading what was written for cgroup v2. */
  lemma MaxRoundTrip(q: CPUQuota)
    requires Fits(q) && q.cgroup == CGROUP_V2
    ensures ParseV2(MaxText(q)) == Ok(Normalised(q))
  {
    var first, second := FirstEntry(q), Itoa(q.period);
    FirstEntryFacts(q);
    ItoaHasNo(q.period, ' ');
    ItoaAlphabet(q.period);
    AtoiItoa(q.period);
    TwoTrimmed(first, second);
    TwoEntries(first, second);
  }

  lemma TwoEntries(a: string, b: string)
    requires ' ' !in a && ' ' !in b
    ensures Split(a + " " + b, ' ') == [a, b]
  {
    SplitConcat(a, b, ' ');
    SplitNoSep(a, ' ');
    SplitNoSep(b, ' ');
  }

  /** Reading what was written for cgroup v1, for all 64-bit numbers. */
  lemma V1RoundTrip(q: CPUQuota)
    requires Fits(q) && q.cgroup == CGROUP_V1
    ensures ParseV1(Itoa(q.period), Itoa(q.quota)) == Ok(q)
  {
    ItoaAlphabet(q.period);
    ItoaAlphabet(q.quota);
    TrimmedIsFixed(Itoa(q.period));
    TrimmedIsFixed(Itoa(q.quota));
    AtoiItoa(q.period);
    AtoiItoa(q.quota);
  }

  /** The kernel prints a newline; any white space around the numbers is ignored. */
  lemma V1WithSpaces(q: CPUQuota, a: string, b: string, c: string, d: string)
    requires Fits(q) && q.cgroup == CGROUP_V1
    requires AllSpaces(a) && AllSpaces(b) && AllSpaces(c) && AllSpaces(d)
    ensures ParseV1(a + Itoa(q.period) + b, c + Itoa(q.quota) + d) == Ok(q)
  {
    ItoaAlphabet(q.period);
    ItoaAlphabet(q.quota);
    TrimAround(a, Itoa(q.period), b);
    TrimAround(c, Itoa(q.quota), d);
    AtoiItoa(q.period);
    AtoiItoa(q.quota);
  }

  /** Without a v2 quota, the v1 files decide. */
  lemma KernelV1IsRead(files: Files, q: CPUQuota)
    requires Fits(q) && q.cgroup == CGROUP_V1 && ReadV2(files).Err?
    requires ReadFile(files, "/sys/fs/cgroup/cpu,cpuacct/cpu.cfs_period_us") == Ok(Itoa(q.period) + "\n")
    requires ReadFile(files, "/sys/fs/cgroup/cpu,cpuacct/cpu.cfs_quota_us") == Ok(Itoa(q.quota) + "\n")
    ensures ReadCPUQuota(files) == Ok(q)
  {
    V1Lines(q, Itoa(q.period) + "\n", Itoa(q.quota) + "\n");
  }

  lemma V1Lines(q: CPUQuota, period: string, quota: string)
    requires Fits(q) && q.cgroup == CGROUP_V1
    requires period == Itoa(q.period) + "\n" && quota == Itoa(q.quota) + "\n"
    ensures ParseV1(period, quota) == Ok(q)
  {
    V1WithSpaces(q, "", "\n", "", "\n");
    assert "" + Itoa(q.period) + "\n" == period && "" + Itoa(q.quota) + "\n" == quota;
  }

  /** Whatever is read fits, so it can be written and read again. */
  lemma ParsedFits(files: Files, q: CPUQuota)
    requires ReadCPUQuota(files) == Ok(q)
    ensures Fits(q) && (q.cgroup == CGROUP_V1 || q.cgroup == CGROUP_V2)
  {
  }

  /** Writing keeps a quota exactly if it is a v1 quota or at least -1; the others
      become -1 and then stay. */
  lemma QuotaSurvivesIff(q: CPUQuota)
    requires Fits(q) && q.cgroup == CGROUP_V2
    ensures ParseV2(MaxText(q)) == Ok(q) <==> q.quota >= -1
    ensures MaxText(Normalised(q)) == MaxText(q)
  {
    MaxRoundTrip(q);
  }

  // ----- What the readers accept

  /** The first line of the file has three fields, and self is the third. */
  ghost predicate NamesCGroup(raw: string, self: string) {
    exists line :: IsLineFor(line, self) && (raw == line || HasPrefix(raw, line + "\n"))
  }

  ghost predicate IsLineFor(line: string, self: string) {
    && '\n' !in line
    && exists id, controllers ::
         IsField(id) && IsField(controllers) && IsField(self) && line == id + ":" + controllers + ":" + self
  }

  predicate IsField(s: string) {
    ':' !in s
  }

  lemma ThreeFields(id: string, controllers: string, self: string)
    requires IsField(id) && IsField(controllers) && IsField(self)
    ensures Split(id + ":" + controllers + ":" + self, ':') == [id, controllers, self]
  {
    SplitNoSep(id, ':');
    SplitNoSep(controllers, ':');
    SplitNoSep(self, ':');
    SplitConcat(id, controllers, ':');
    SplitConcat(id + ":" + controllers, self, ':');
  }

  lemma ThirdFieldIff(line: string, self: string)
    requires '\n' !in line
    ensures IsLineFor(line, self) <==> |Split(line, ':')| == 3 && Split(line, ':')[2] == self
  {
    var fields := Split(line, ':');
    SplitPieces(line, ':');
    if |fields| == 3 && fields[2] == self {
      var id, controllers := fields[0], fields[1];
      assert fields == [id, controllers, self];
      ThreeFields(id, controllers, self);
      SplitInjective(line, id + ":" + controllers + ":" + self, ':');
    }
    if IsLineFor(line, self) {
      var id, controllers :| IsField(id) && IsField(controllers) && IsField(self)
        && line == id + ":" + controllers + ":" + self;
      ThreeFields(id, controllers, self);
    }
  }

  /** The own cgroup is read exactly from files whose first line names it. */
  lemma CGroupSelfIff(files: Files, self: string)
    ensures ReadCGroupSelf(files) == Ok(self) <==> SELF_CGROUP in files && NamesCGroup(files[SELF_CGROUP], self)
  {
    if SELF_CGROUP in files {
      var raw := files[SELF_CGROUP];
      var first := Split(raw, '\n')[0];
      FirstPieceIff(raw, first, '\n');
      ThirdFieldIff(first, self);
      forall line | IsLineFor(line, self) && (raw == line || HasPrefix(raw, line + "\n")) ensures line == first {
        FirstPieceIff(raw, line, '\n');
      }
    }
  }

  /** The number that a field of cpu.max stands for. */
  predicate MeansQuota(field: string, n: int) {
    if field == "max" then n == -1 else Atoi(field) == Some(n)
  }

  /** The text is two space-free fields, up to outer white space. */
  ghost predicate IsMaxText(text: string, quota: int, period: int) {
    exists a, b ::
      ' ' !in a && ' ' !in b && TrimSpace(text) == a + " " + b && MeansQuota(a, quota) && Atoi(b) == Some(period)
  }

  /** cpu.max is accepted exactly if it consists of two such fields. */
  lemma ParseV2Iff(text: string, quota: int, period: int)
    ensures ParseV2(text) == Ok(CPUQuota(quota, period, CGROUP_V2)) <==> IsMaxText(text, quota, period)
  {
    var line := TrimSpace(text);
    var list := Split(line, ' ');
    SplitPieces(line, ' ');
    if |list| == 2 {
      assert list == [list[0], list[1]];
      JoinTwo(list[0], list[1], ' ');
      assert line == list[0] + " " + list[1];
    }
    forall a, b | ' ' !in a && ' ' !in b && line == a + " " + b ensures list == [a, b] {
      TwoEntries(a, b);
    }
  }

  // ----- The files

  /** The last four characters, which tell the files apart. */
  function Tail(path: string): string {
    if |path| < 4 then path else path[|path| - 4..]
  }

  lemma TailOfConcat(front: string, name: string)
    requires |name| >= 4
    ensures Tail(front + name) == Tail(name)
  {
  }

  lemma {:induction false} JoinTail(front: seq<string>, name: string)
    requires |name| >= 4
    ensures |Join(front + [name], '/')| >= 4 && Tail(Join(front + [name], '/')) == Tail(name)
  {
    if front != [] {
      JoinConcat(front, [name], '/');
      TailOfConcat(Join(front, '/') + "/", name);
    }
  }

  /** A path made by joining ends in the last name. */
  lemma JoinedTail(dir: string, name: string)
    requires IsAbs(dir) && PlainName(name) && |name| >= 4
    ensures Tail(JoinPath([dir, name])) == Tail(name)
  {
    var stack := JoinAnyName(dir, name);
    JoinTail(stack, name);
    TailOfConcat("/", Join(stack + [name], '/'));
  }

  lemma SelfMaxTail(self: string)
    ensures Tail(SelfMax(self)) == ".max"
  {
    var root, name := "/sys/fs/cgroup/", "cpu.max";
    var dir := root + "/" + self;
    ThreeElements(root, self, name);
    JoinedTail(dir, name);
  }

  lemma MaxTail(id: string)
    ensures Tail(MaxPath(id)) == ".max"
  {
    JoinedTail("/sys/fs/cgroup/docker/" + id + "/init.scope/", "cpu.max");
  }

  lemma V1Tails(id: string)
    ensures Tail(PeriodPath(id)) == "d_us" && Tail(QuotaPath(id)) == "a_us"
  {
    JoinedTail(BaseV1(id), "cpu.cfs_period_us");
    JoinedTail(BaseV1(id), "cpu.cfs_quota_us");
  }

  lemma FixedTails()
    ensures Tail(SELF_CGROUP) == "roup" && Tail(ROOT_MAX) == ".max"
    ensures Tail(PERIOD_V1) == "d_us" && Tail(QUOTA_V1) == "a_us"
  {
  }

  lemma TailsDiffer()
    ensures "d_us" != "a_us" && "roup" != ".max"
    ensures "d_us" !in ["roup", ".max"] && "a_us" !in ["roup", ".max"]
  {
    assert "d_us"[0] == 'd' && "a_us"[0] == 'a' && "roup"[0] == 'r' && ".max"[0] == '.';
  }

  /** After a complete write the inner container's quota reads as it was written. */
  lemma QuotaIsReadBack(files: Files, unwritable: set<string>, id: string, q: CPUQuota)
    requires Fits(q)
    ensures q.cgroup == CGROUP_V2 && MaxPath(id) !in unwritable ==>
      ReadBack(WithQuota(files, unwritable, id, q), id, q.cgroup) == Ok(Normalised(q))
    ensures q.cgroup == CGROUP_V1 && PeriodPath(id) !in unwritable && QuotaPath(id) !in unwritable ==>
      ReadBack(WithQuota(files, unwritable, id, q), id, q.cgroup) == Ok(Normalised(q))
  {
    if q.cgroup == CGROUP_V2 {
      MaxRoundTrip(q);
    } else if q.cgroup == CGROUP_V1 {
      V1Tails(id);
      TailsDiffer();
      V1RoundTrip(q);
    }
  }

  /** Nothing prevents the files of the quota from being written. */
  predicate CanWrite(unwritable: set<string>, id: string, cgroup: int) {
    if cgroup == CGROUP_V2 then MaxPath(id) !in unwritable
    else PeriodPath(id) !in unwritable && QuotaPath(id) !in unwritable
  }

  /** The inner container reads exactly the quota of the outer one, unless that is
      a v2 quota below -1. */
  lemma CopyAgreesIff(files: Files, unwritable: set<string>, id: string, q: CPUQuota)
    requires ReadCPUQuota(files) == Ok(q) && CanWrite(unwritable, id, q.cgroup)
    ensures ReadBack(Copied(files, unwritable, id), id, q.cgroup) == Ok(q) <==>
      q.cgroup == CGROUP_V1 || q.quota >= -1
  {
    ParsedFits(files, q);
    QuotaIsReadBack(files, unwritable, id, q);
    assert Copied(files, unwritable, id) == WithQuota(files, unwritable, id, q);
    assert Normalised(q) == q <==> q.cgroup == CGROUP_V1 || q.quota >= -1;
  }

  /** The case that the fallback is for: a reader whose own cgroup is mounted at the
      root does not find the path of its cgroup there, reads the root file instead,
      and sees the quota that was written for it. */
  lemma RemountedReaderSeesQuota(files: Files, self: string, q: CPUQuota)
    requires Fits(q) && q.cgroup == CGROUP_V2
    requires SELF_CGROUP in files && NamesCGroup(files[SELF_CGROUP], self)
    requires ROOT_MAX in files && files[ROOT_MAX] == MaxText(q)
    ensures SelfMax(self) !in files ==> ReadCPUQuota(files) == Ok(Normalised(q))
    ensures SelfMax(self) in files && ParseV2(files[SelfMax(self)]).Ok? ==>
      ReadCPUQuota(files) == ParseV2(files[SelfMax(self)])
  {
    CGroupSelfIff(files, self);
    MaxRoundTrip(q);
  }

  /** Copying is idempotent, for every content of the files, every container id and
      every set of unwritable files; even where the file written is one of those
      read. */
  lemma CopyIsIdempotent(files: Files, unwritable: set<string>, id: string)
    ensures Copied(Copied(files, unwritable, id), unwritable, id) == Copied(files, unwritable, id)
  {
    var q := ReadCPUQuota(files);
    if q.Ok? {
      ParsedFits(files, q.value);
      if q.value.cgroup == CGROUP_V2 {
        CopyV2Twice(files, unwritable, id, q.value);
      } else {
        CopyV1Twice(files, unwritable, id, q.value);
      }
    }
  }

  /** Writing a file other than /proc/self/cgroup either goes unnoticed by the v2
      reader or is what it reads. */
  lemma ReadV2After(files: Files, path: string, text: string)
    requires path != SELF_CGROUP && ReadV2(files).Ok?
    ensures ReadV2(files[path := text]) in [ReadV2(files), ParseV2(text)]
  {
    var after := files[path := text];
    assert ReadCGroupSelf(after) == ReadCGroupSelf(files);
    var self := ReadCGroupSelf(files).value;
    assert ReadMax(after, self) == ReadMax(files, self) || ReadMax(after, self) == Ok(text);
  }

  lemma ReadAfterV2(files: Files, path: string, q: CPUQuota)
    requires Tail(path) == ".max"
    requires ReadCPUQuota(files) == Ok(q) && q.cgroup == CGROUP_V2
    ensures ReadCPUQuota(files[path := MaxText(q)]) in [Ok(q), Ok(Normalised(q))]
  {
    FixedTails();
    TailsDiffer();
    ParsedFits(files, q);
    ReadV2After(files, path, MaxText(q));
    MaxRoundTrip(q);
  }

  lemma CopyV2Twice(files: Files, unwritable: set<string>, id: string, q: CPUQuota)
    requires ReadCPUQuota(files) == Ok(q) && q.cgroup == CGROUP_V2
    ensures var after := WithQuota(files, unwritable, id, q);
            Copied(after, unwritable, id) == after
  {
    var path, text := MaxPath(id), MaxText(q);
    if path !in unwritable {
      MaxTail(id);
      ReadAfterV2(files, path, q);
      assert MaxText(Normalised(q)) == text;
      assert files[path := text][path := text] == files[path := text];
    }
  }

  lemma ReadAfterPeriod(files: Files, path: string, q: CPUQuota)
    requires Tail(path) == "d_us"
    requires ReadCPUQuota(files) == Ok(q) && q.cgroup == CGROUP_V1
    ensures ReadCPUQuota(files[path := Itoa(q.period)]) == Ok(q)
  {
    V1WriteIsUnseen(files, path, Itoa(q.period));
    ParsedFits(files, q);
    FixedTails();
    TailsDiffer();
    ParseV1Printed(files[PERIOD_V1], files[QUOTA_V1], q);
  }

  lemma ReadAfterQuota(files: Files, path: string, q: CPUQuota)
    requires Tail(path) == "a_us"
    requires ReadCPUQuota(files) == Ok(q) && q.cgroup == CGROUP_V1
    ensures ReadCPUQuota(files[path := Itoa(q.quota)]) == Ok(q)
  {
    V1WriteIsUnseen(files, path, Itoa(q.quota));
    ParsedFits(files, q);
    FixedTails();
    TailsDiffer();
    ParseV1Printed(files[PERIOD_V1], files[QUOTA_V1], q);
  }

  /** Each of the two texts may be replaced by the number it stands for. */
  lemma ParseV1Printed(period: string, quota: string, q: CPUQuota)
    requires ParseV1(period, quota) == Ok(q) && Fits(q)
    ensures ParseV1(Itoa(q.period), quota) == Ok(q) && ParseV1(period, Itoa(q.quota)) == Ok(q)
  {
    V1RoundTrip(q);
  }

  lemma BothWrittenTwice(files: Files, unwritable: set<string>, path: string, text: string,
                         otherPath: string, otherText: string)
    requires path != otherPath
    ensures var after := BothWritten(files, unwritable, path, text, otherPath, otherText);
            BothWritten(after, unwritable, path, text, otherPath, otherText) == after
  {
    var after := BothWritten(files, unwritable, path, text, otherPath, otherText);
    if path !in unwritable {
      assert after[path := text] == after;
    }
  }

  lemma CopyV1Twice(files: Files, unwritable: set<string>, id: string, q: CPUQuota)
    requires ReadCPUQuota(files) == Ok(q) && q.cgroup == CGROUP_V1
    ensures var after := WithQuota(files, unwritable, id, q);
            Copied(after, unwritable, id) == after
  {
    V1Tails(id);
    TailsDiffer();
    ReadAfterPeriod(files, PeriodPath(id), q);
    ReadAfterQuota(files[PeriodPath(id) := Itoa(q.period)], QuotaPath(id), q);
    BothWrittenTwice(files, unwritable, PeriodPath(id), Itoa(q.period), QuotaPath(id), Itoa(q.quota));
  }

  /** The v2 reader does not look at the files of a v1 quota. */
  lemma V1WriteIsUnseen(files: Files, path: string, text: string)
    requires Tail(path) == "d_us" || Tail(path) == "a_us"
    ensures ReadV2(files[path := text]) == ReadV2(files)
  {
    FixedTails();
    TailsDiffer();
    assert ReadCGroupSelf(files[path := text]) == ReadCGroupSelf(files);
    if ReadCGroupSelf(files).Ok? {
      SelfMaxTail(ReadCGroupSelf(files).value);
    }
  }

  // ----- Which files these are

  lemma JoinThree(a: string, b: string, c: string)
    ensures Join([a, b, c], '/') == a + "/" + b + "/" + c
  {
    assert [a, b, c] == [a] + [b, c];
    JoinConcat([a], [b, c], '/');
    JoinTwo(b, c, '/');
  }

  lemma PlainConstants()
    ensures AllPlain(["sys", "fs", "cgroup"]) && PlainName("cpu,cpuacct") && PlainName("docker")
    ensures PlainName("init.scope") && PlainName("syscont-cgroup-root")
    ensures PlainName("cpu.max") && PlainName("cpu.cfs_period_us") && PlainName("cpu.cfs_quota_us")
  {
  }

  lemma RootText()
    ensures "/" + ("sys" + "/" + "fs" + "/" + "cgroup") + "/" == "/sys/fs/cgroup/"
  {
  }

  /** The components of the cgroup root ... */
  lemma RootNames() returns (names: seq<string>)
    ensures names != [] && AllPlain(names)
    ensures "/" + Join(names, '/') + "/" == "/sys/fs/cgroup/"
  {
    PlainConstants();
    RootText();
    names := ["sys", "fs", "cgroup"];
    JoinThree("sys", "fs", "cgroup");
  }

  /** ... and of the directories of a container beneath it. */
  lemma ScopeNames(id: string) returns (names: seq<string>)
    requires PlainName(id)
    ensures names != [] && AllPlain(names)
    ensures Join(names, '/') == "docker/" + id + "/init.scope"
  {
    PlainConstants();
    names := ["docker", id, "init.scope"];
    JoinThree("docker", id, "init.scope");
    assert "docker" + "/" == "docker/" && "/" + "init.scope" == "/init.scope";
    Regroup("docker/", id, "/", "init.scope");
  }

  lemma SyscontNames(id: string) returns (names: seq<string>)
    requires PlainName(id)
    ensures names != [] && AllPlain(names)
    ensures Join(names, '/') == "cpu,cpuacct/docker/" + id + "/syscont-cgroup-root"
  {
    PlainConstants();
    names := ["cpu,cpuacct"] + ["docker", id, "syscont-cgroup-root"];
    JoinThree("docker", id, "syscont-cgroup-root");
    JoinConcat(["cpu,cpuacct"], ["docker", id, "syscont-cgroup-root"], '/');
    SyscontText(id);
  }

  lemma SyscontText(id: string)
    ensures "cpu,cpuacct" + "/" + ("docker" + "/" + id + "/" + "syscont-cgroup-root") ==
      "cpu,cpuacct/docker/" + id + "/syscont-cgroup-root"
  {
    assert "cpu,cpuacct" + "/" + "docker" + "/" == "cpu,cpuacct/docker/";
    assert "/" + "syscont-cgroup-root" == "/syscont-cgroup-root";
    Regroup("cpu,cpuacct" + "/" + ("docker" + "/"), id, "/", "syscont-cgroup-root");
  }

  lemma Regroup(a: string, b: string, c: string, d: string)
    ensures a + b + c + d == a + b + (c + d)
  {
  }

  /** A file in a directory beneath the cgroup root. */
  lemma JoinBeneathCgroup(names: seq<string>, dir: string, name: string)
    requires names != [] && AllPlain(names) && PlainName(name)
    requires dir == "/sys/fs/cgroup/" + Join(names, '/') + "/"
    ensures JoinPath([dir, name]) == dir + name
  {
    var root := RootNames();
    JoinConcat(root, names, '/');
    AllPlainConcat(root, names);
    JoinBeneathRoot(root + names, name);
    RegroupDir(Join(root, '/'), Join(names, '/'));
  }

  lemma RegroupDir(a: string, b: string)
    ensures "/" + (a + "/" + b) + "/" == ("/" + a + "/") + b + "/"
  {
  }

  lemma AllPlainConcat(a: seq<string>, b: seq<string>)
    requires AllPlain(a) && AllPlain(b)
    ensures AllPlain(a + b)
  {
  }

  /** The files that are written for a container. */
  lemma WrittenMax(id: string)
    requires PlainName(id)
    ensures MaxPath(id) == "/sys/fs/cgroup/docker/" + id + "/init.scope/" + "cpu.max"
  {
    var names := ScopeNames(id);
    var dir := "/sys/fs/cgroup/docker/" + id + "/init.scope/";
    assert "/sys/fs/cgroup/" + ("docker/" + id + "/init.scope") + "/" == dir;
    PlainConstants();
    JoinBeneathCgroup(names, dir, "cpu.max");
  }

  lemma WrittenV1(id: string)
    requires PlainName(id)
    ensures PeriodPath(id) ==
      "/sys/fs/cgroup/cpu,cpuacct/docker/" + id + "/syscont-cgroup-root/" + "cpu.cfs_period_us"
    ensures QuotaPath(id) ==
      "/sys/fs/cgroup/cpu,cpuacct/docker/" + id + "/syscont-cgroup-root/" + "cpu.cfs_quota_us"
  {
    var names := SyscontNames(id);
    assert "/sys/fs/cgroup/" + ("cpu,cpuacct/docker/" + id + "/syscont-cgroup-root") + "/" == BaseV1(id);
    PlainConstants();
    JoinBeneathCgroup(names, BaseV1(id), "cpu.cfs_period_us");
    JoinBeneathCgroup(names, BaseV1(id), "cpu.cfs_quota_us");
  }

  lemma Between(front: string, a: string, b: string, back: string)
    requires front + a + back == front + b + back
    ensures a == b
  {
    assert |a| == |b|;
    assert (front + a + back)[|front|..|front| + |a|] == a;
    assert (front + b + back)[|front|..|front| + |b|] == b;
  }

  /** Different containers have different files. */
  lemma ContainersAreApart(a: string, b: string)
    requires PlainName(a) && PlainName(b) && a != b
    ensures MaxPath(a) != MaxPath(b) && PeriodPath(a) != PeriodPath(b) && QuotaPath(a) != QuotaPath(b)
  {
    WrittenMax(a);
    WrittenMax(b);
    WrittenV1(a);
    WrittenV1(b);
    Apart("/sys/fs/cgroup/docker/", a, b, "/init.scope/" , "cpu.max");
    Apart("/sys/fs/cgroup/cpu,cpuacct/docker/", a, b, "/syscont-cgroup-root/", "cpu.cfs_period_us");
    Apart("/sys/fs/cgroup/cpu,cpuacct/docker/", a, b, "/syscont-cgroup-root/", "cpu.cfs_quota_us");
  }

  lemma Apart(front: string, a: string, b: string, back: string, name: string)
    requires a != b
    ensures front + a + back + name != front + b + back + name
  {
    assert front + a + back + name == front + a + (back + name);
    assert front + b + back + name == front + b + (back + name);
    if front + a + (back + name) == front + b + (back + name) {
      Between(front, a, b, back + name);
    }
  }

  /** A process in the container's own scope reads the very file that is written. */
  lemma ScopeReadsWritten(id: string)
    requires PlainName(id)
    ensures SelfMax("/docker/" + id + "/init.scope") == MaxPath(id)
  {
    var root := RootNames();
    var names := ScopeNames(id);
    var self, dir := "/docker/" + id + "/init.scope", "/sys/fs/cgroup/docker/" + id + "/init.scope/";
    assert self == "/" + Join(names, '/');
    PlainConstants();
    JoinTwoBeneathRoot(root, names, "/sys/fs/cgroup/", self, "cpu.max");
    JoinConcat(root, names, '/');
    assert dir == "/" + Join(root + names, '/') + "/";
    WrittenMax(id);
  }

  /** So it sees the quota that was set. */
  lemma ScopeSeesQuota(files: Files, unwritable: set<string>, id: string, q: CPUQuota)
    requires PlainName(id) && Fits(q) && q.cgroup == CGROUP_V2 && MaxPath(id) !in unwritable
    requires SELF_CGROUP in files && NamesCGroup(files[SELF_CGROUP], "/docker/" + id + "/init.scope")
    ensures ReadCPUQuota(WithQuota(files, unwritable, id, q)) == Ok(Normalised(q))
  {
    var path, after := MaxPath(id), WithQuota(files, unwritable, id, q);
    MaxTail(id);
    FixedTails();
    TailsDiffer();
    ScopeReadsWritten(id);
    MaxRoundTrip(q);
    CGroupSelfIff(after, "/docker/" + id + "/init.scope");
    assert ReadMax(after, "/docker/" + id + "/init.scope") == Ok(MaxText(q));
  }
}
