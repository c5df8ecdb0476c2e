/** `WindowsTelemetryCollector`: twenty-three command runs of twenty-two
    distinct `wmic` commands (the BIOS serial number is read twice), each
    run through `cmd.exe /c`. The runner returns standard output unchanged, untrimmed,
    whatever the exit code. */
module WindowsCollector {
  import opened Wrappers
  import opened Model
  import opened Collection
  import Numbers

  const Shell: string := "cmd.exe"

  /** Arguments handed to `cmd.exe`: the command after `/c `, unquoted. */
  function CmdArguments(command: string): (args: string)
    ensures |args| == |command| + 3
    ensures args[..3] == "/c " && args[3..] == command
  {
    "/c " + command
  }

  /** `ExecuteCommand` of the Windows collector: no exit-code check, no
      trimming. */
  function ExecuteCommand(run: Oracle, command: string): (r: Result<string, Error>)
    ensures r.Success? <==> run(Shell, CmdArguments(command)).Exited?
    ensures r.Success? ==> r.value == run(Shell, CmdArguments(command)).stdout
  {
    ReadToEnd(run(Shell, CmdArguments(command)))
  }

  /** The collector's `ExecuteCommand` for a given operating system. */
  function Runner(run: Oracle): Collection.Runner<Command> {
    c => ExecuteCommand(run, Script(c))
  }

  /** A command that fails still yields its standard output, possibly empty:
      the exit code never turns into an error. */
  lemma FailedCommandYieldsOutput(run: Oracle, command: string)
    requires run(Shell, CmdArguments(command)).Exited?
    requires run(Shell, CmdArguments(command)).exitCode != 0
    ensures ExecuteCommand(run, command) == Success(run(Shell, CmdArguments(command)).stdout)
  {
  }

  /** The result depends on the process's standard output only. */
  lemma ExitStatusIgnored(run: Oracle, run': Oracle, command: string)
    requires run(Shell, CmdArguments(command)).Exited? && run'(Shell, CmdArguments(command)).Exited?
    requires run(Shell, CmdArguments(command)).stdout == run'(Shell, CmdArguments(command)).stdout
    ensures ExecuteCommand(run, command) == ExecuteCommand(run', command)
  {
    ReadToEndIgnoresStatus(run(Shell, CmdArguments(command)), run'(Shell, CmdArguments(command)));
  }

  /** The commands the collector runs; `BiosSerial` serves both the BIOS
      serial number and the service tag. */
  datatype Command =
    | BiosVersion | BiosManufacturer | BiosSerial
    | CpuName | CpuProcessorId | LogicalProcessors | CoreCount | CpuSerial
    | DiskSize | DiskModel | DiskSerial
    | VideoName | VideoDriver
    | MemorySpeed | MemoryCapacity | MemoryPartNumber | MemorySerial
    | BoardProduct | BoardManufacturer | BoardSerial
    | SystemModel | SystemManufacturer

  /** The shell text of each command, as the collector passes it to the
      runner. */
  function Script(c: Command): string {
    match c
    case BiosVersion => "wmic bios get version"
    case BiosManufacturer => "wmic bios get manufacturer"
    case BiosSerial => "wmic bios get serialnumber"
    case CpuName => "wmic cpu get name"
    case CpuProcessorId => "wmic cpu get processorid"
    case LogicalProcessors => "wmic cpu get numberoflogicalprocessors"
    case CoreCount => "wmic cpu get numberofcores"
    case CpuSerial => "wmic cpu get serialnumber"
    case DiskSize => "wmic diskdrive get size"
    case DiskModel => "wmic diskdrive get model"
    case DiskSerial => "wmic diskdrive get serialnumber"
    case VideoName => "wmic path win32_videocontroller get name"
    case VideoDriver => "wmic path win32_videocontroller get driverversion"
    case MemorySpeed => "wmic memorychip get speed"
    case MemoryCapacity => "wmic memorychip get capacity"
    case MemoryPartNumber => "wmic memorychip get partnumber"
    case MemorySerial => "wmic memorychip get serialnumber"
    case BoardProduct => "wmic baseboard get product"
    case BoardManufacturer => "wmic baseboard get manufacturer"
    case BoardSerial => "wmic baseboard get serialnumber"
    case SystemModel => "wmic computersystem get model"
    case SystemManufacturer => "wmic computersystem get manufacturer"
  }

  const SystemType := "Windows"

  const BiosPlan := [Field(BiosVersion, TextField), Field(BiosManufacturer, TextField), Field(BiosSerial, TextField)]
  const CpuPlan := [Field(CpuName, TextField), Field(CpuProcessorId, TextField), Field(LogicalProcessors, IntField),
                    Field(CoreCount, IntField), Field(CpuSerial, TextField)]
  const DiskPlan := [Field(DiskSize, TextField), Field(DiskModel, TextField), Field(DiskSerial, TextField)]
  const GpuPlan := [Field(VideoName, TextField), Field(VideoDriver, TextField)]
  const MemoryPlan := [Field(MemorySpeed, TextField), Field(MemoryCapacity, TextField),
                       Field(MemoryPartNumber, TextField), Field(MemorySerial, TextField)]
  const MotherboardPlan := [Field(BoardProduct, TextField), Field(BoardManufacturer, TextField), Field(BoardSerial, TextField)]
  const SystemPlan := [Field(SystemModel, TextField), Field(BiosSerial, TextField), Field(SystemManufacturer, TextField)]

  /** Categories in the order `CollectTelemetryDataAsync` awaits them. */
  const Plan := BiosPlan + CpuPlan + DiskPlan + GpuPlan + MemoryPlan + MotherboardPlan + SystemPlan

  /** Places the values of a complete run into the record. The memory
      category yields one record, stored as a one-element array. */
  function Record(v: seq<Value>): TelemetryData
    requires Conforms(v, Plan)
  {
    TelemetryData(
      BiosInfo(v[0].text, v[1].text, v[2].text),
      CpuInfo(v[3].text, v[4].text, v[5].number, v[6].number, v[7].text),
      DiskInfo(v[8].text, v[9].text, v[10].text),
      GpuInfo(v[11].text, v[12].text),
      [MemoryInfo(v[13].text, v[14].text, v[15].text, v[16].text)],
      MotherboardInfo(v[17].text, v[18].text, v[19].text),
      SystemInfo(SystemType, v[20].text, v[21].text, v[22].text))
  }

  /** The record `d` is what the commands report, field by field. */
  predicate Reports(exec: Collection.Runner<Command>, parse: Parser, d: TelemetryData) {
    && ReportsBios(exec, parse, d.Bios)
    && ReportsCpu(exec, parse, d.Cpu)
    && ReportsDisk(exec, parse, d.Disk)
    && ReportsGpu(exec, parse, d.Gpu)
    && |d.Memory| == 1 && ReportsMemory(exec, parse, d.Memory[0])
    && ReportsMotherboard(exec, parse, d.Motherboard)
    && ReportsSystem(exec, parse, d.System)
  }

  predicate ReportsBios(exec: Collection.Runner<Command>, parse: Parser, b: BiosInfo) {
    && Yields(exec, BiosVersion, b.Version)
    && Yields(exec, BiosManufacturer, b.Manufacturer)
    && Yields(exec, BiosSerial, b.SerialNumber)
  }

  predicate ReportsCpu(exec: Collection.Runner<Command>, parse: Parser, c: CpuInfo) {
    && Yields(exec, CpuName, c.Name)
    && Yields(exec, CpuProcessorId, c.ProcessorId)
    && YieldsInt(exec, parse, LogicalProcessors, c.ThreadCount)
    && YieldsInt(exec, parse, CoreCount, c.NumberOfCores)
    && Yields(exec, CpuSerial, c.SerialNumber)
  }

  predicate ReportsDisk(exec: Collection.Runner<Command>, parse: Parser, k: DiskInfo) {
    && Yields(exec, DiskSize, k.Size)
    && Yields(exec, DiskModel, k.Model)
    && Yields(exec, DiskSerial, k.SerialNumber)
  }

  predicate ReportsGpu(exec: Collection.Runner<Command>, parse: Parser, g: GpuInfo) {
    && Yields(exec, VideoName, g.Name)
    && Yields(exec, VideoDriver, g.DriverVersion)
  }

  predicate ReportsMemory(exec: Collection.Runner<Command>, parse: Parser, m: MemoryInfo) {
    && Yields(exec, MemorySpeed, m.Speed)
    && Yields(exec, MemoryCapacity, m.Capacity)
    && Yields(exec, MemoryPartNumber, m.PartNumber)
    && Yields(exec, MemorySerial, m.SerialNumber)
  }

  predicate ReportsMotherboard(exec: Collection.Runner<Command>, parse: Parser, b: MotherboardInfo) {
    && Yields(exec, BoardProduct, b.Product)
    && Yields(exec, BoardManufacturer, b.Manufacturer)
    && Yields(exec, BoardSerial, b.SerialNumber)
  }

  predicate ReportsSystem(exec: Collection.Runner<Command>, parse: Parser, y: SystemInfo) {
    && y.Type == SystemType
    && Yields(exec, SystemModel, y.Model)
    && Yields(exec, BiosSerial, y.ServiceTag)
    && Yields(exec, SystemManufacturer, y.Manufacturer)
  }

  /** `CollectTelemetryDataAsync` with `exec` as the command runner. */
  function Collect(exec: Collection.Runner<Command>, parse: Parser): (r: Result<TelemetryData, Error>)
    ensures r.Success? ==> Reports(exec, parse, r.value)
    ensures r.Success? <==> forall i :: 0 <= i < |Plan| ==> Step(exec, parse, Plan[i]).Success?
    ensures r.Failure? ==> exists k :: 0 <= k < |Plan| && Step(exec, parse, Plan[k]) == Failure(r.error)
                                       && forall i :: 0 <= i < k ==> Step(exec, parse, Plan[i]).Success?
  {
    var run := Execute(exec, parse, Plan);
    ExecuteOutcome(exec, parse, Plan);
    match run.outcome
    case Failure(e) =>
      var k := |run.issued| - 1;
      assert Step(exec, parse, Plan[k]) == Failure(e);
      Failure(e)
    case Success(v) =>
      ExecuteConforms(exec, parse, Plan);
      ReportsRecord(exec, parse, v);
      Success(Record(v))
  }

  lemma ReportsRecord(exec: Collection.Runner<Command>, parse: Parser, v: seq<Value>)
    requires |v| == |Plan|
    requires forall i :: 0 <= i < |Plan| ==> Step(exec, parse, Plan[i]) == Success(v[i])
    requires Conforms(v, Plan)
    ensures Reports(exec, parse, Record(v))
  {
  }

  /** The collection succeeds with `d` exactly when `d` is what the commands
      report: each text field is its command's output, each integer field
      the parse of its command's output. */
  lemma CollectReportsCommands(exec: Collection.Runner<Command>, parse: Parser, d: TelemetryData)
    ensures Collect(exec, parse) == Success(d) <==> Reports(exec, parse, d)
  {
    if Reports(exec, parse, d) {
      ReportedStepsSucceed(exec, parse, d);
      var r := Collect(exec, parse);
      ReportsIsFunctional(exec, parse, r.value, d);
    }
  }

  lemma ReportedStepsSucceed(exec: Collection.Runner<Command>, parse: Parser, d: TelemetryData)
    requires Reports(exec, parse, d)
    ensures forall i :: 0 <= i < |Plan| ==> Step(exec, parse, Plan[i]).Success?
  {
    BiosStepsSucceed(exec, parse, d.Bios);
    CpuStepsSucceed(exec, parse, d.Cpu);
    DiskStepsSucceed(exec, parse, d.Disk);
    GpuStepsSucceed(exec, parse, d.Gpu);
    MemoryStepsSucceed(exec, parse, d.Memory[0]);
    MotherboardStepsSucceed(exec, parse, d.Motherboard);
    SystemStepsSucceed(exec, parse, d.System);
    assert forall i :: 0 <= i < |Plan| ==> Plan[i] in Plan;
  }

  lemma BiosStepsSucceed(exec: Collection.Runner<Command>, parse: Parser, b: BiosInfo)
    requires ReportsBios(exec, parse, b)
    ensures forall f | f in BiosPlan :: Step(exec, parse, f).Success?
  {
  }

  lemma CpuStepsSucceed(exec: Collection.Runner<Command>, parse: Parser, c: CpuInfo)
    requires ReportsCpu(exec, parse, c)
    ensures forall f | f in CpuPlan :: Step(exec, parse, f).Success?
  {
  }

  lemma DiskStepsSucceed(exec: Collection.Runner<Command>, parse: Parser, k: DiskInfo)
    requires ReportsDisk(exec, parse, k)
    ensures forall f | f in DiskPlan :: Step(exec, parse, f).Success?
  {
  }

  lemma GpuStepsSucceed(exec: Collection.Runner<Command>, parse: Parser, g: GpuInfo)
    requires ReportsGpu(exec, parse, g)
    ensures forall f | f in GpuPlan :: Step(exec, parse, f).Success?
  {
  }

  lemma MemoryStepsSucceed(exec: Collection.Runner<Command>, parse: Parser, m: MemoryInfo)
    requires ReportsMemory(exec, parse, m)
    ensures forall f | f in MemoryPlan :: Step(exec, parse, f).Success?
  {
  }

  lemma MotherboardStepsSucceed(exec: Collection.Runner<Command>, parse: Parser, b: MotherboardInfo)
    requires ReportsMotherboard(exec, parse, b)
    ensures forall f | f in MotherboardPlan :: Step(exec, parse, f).Success?
  {
  }

  lemma SystemStepsSucceed(exec: Collection.Runner<Command>, parse: Parser, y: SystemInfo)
    requires ReportsSystem(exec, parse, y)
    ensures forall f | f in SystemPlan :: Step(exec, parse, f).Success?
  {
  }

  /** At most one record is reported for a given runner. */
  lemma ReportsIsFunctional(exec: Collection.Runner<Command>, parse: Parser, d: TelemetryData, e: TelemetryData)
    requires Reports(exec, parse, d) && Reports(exec, parse, e)
    ensures d == e
  {
    assert d.Bios == e.Bios;
    CpuIsFunctional(exec, parse, d.Cpu, e.Cpu);
    assert d.Disk == e.Disk;
    assert d.Gpu == e.Gpu;
    assert d.Memory[0] == e.Memory[0];
    assert d.Memory == [d.Memory[0]] && e.Memory == [e.Memory[0]];
    assert d.Motherboard == e.Motherboard;
    assert d.System == e.System;
  }

  lemma CpuIsFunctional(exec: Collection.Runner<Command>, parse: Parser, c: CpuInfo, c': CpuInfo)
    requires ReportsCpu(exec, parse, c) && ReportsCpu(exec, parse, c')
    ensures c == c'
  {
  }

  /** The service tag and the BIOS serial number come from the same
      command, so a successful collection reports them equal. */
  lemma ServiceTagIsBiosSerial(exec: Collection.Runner<Command>, parse: Parser)
    requires Collect(exec, parse).Success?
    ensures Collect(exec, parse).value.System.ServiceTag == Collect(exec, parse).value.Bios.SerialNumber
  {
  }

  /** `wmic` prints a column header above the value, so the output of an
      integer query never parses and a collection that reaches the processor
      count ends with a format error. */
  lemma HeaderDefeatsParse(run: Oracle, header: string, value: string)
    requires |header| > 0 && ('A' <= header[0] <= 'Z' || 'a' <= header[0] <= 'z')
    requires run(Shell, CmdArguments(Script(LogicalProcessors))) == Exited(0, header + "\r\n" + value, "")
    ensures Step(Runner(run), Numbers.ParseInt32, Field(LogicalProcessors, IntField)) == Failure(FormatError(header + "\r\n" + value))
  {
    var out := header + "\r\n" + value;
    assert out[0] == header[0];
    Numbers.ParseRejectsForeignCharacter(out, 0);
  }

  /** The first failing field aborts the collection with its error; the
      commands issued are those of the fields up to and including it, so no
      later command runs. */
  lemma FailureStopsCollection(exec: Collection.Runner<Command>, parse: Parser, k: nat)
    requires k < |Plan| && Step(exec, parse, Plan[k]).Failure?
    requires forall i :: 0 <= i < k ==> Step(exec, parse, Plan[i]).Success?
    ensures Collect(exec, parse) == Failure(Step(exec, parse, Plan[k]).error)
    ensures Execute(exec, parse, Plan).issued == Commands(Plan[..k + 1])
  {
    FirstFailureEndsRun(exec, parse, Plan, k);
  }
}
