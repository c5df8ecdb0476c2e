/** `MacOSTelemetryCollector`: twenty-two command runs of twenty-one distinct
    `system_profiler`, `sysctl` and `diskutil` commands (the hardware serial
    number is read twice), each run through `/bin/bash -c` exactly as
    written.
    The runner returns standard output unchanged, untrimmed, whatever the
    exit code; two system fields are constants. */
module MacOSCollector {
  import opened Wrappers
  import opened Model
  import opened Collection
  import Numbers

  const Shell: string := "/bin/bash"

  /** `ExecuteCommand` of the macOS collector: no rewriting, no password, no
      exit-code check, no trimming. */
  function ExecuteCommand(run: Oracle, command: string): (r: Result<string, Error>)
    ensures r.Success? <==> run(Shell, BashArguments(command)).Exited?
    ensures r.Success? ==> r.value == run(Shell, BashArguments(command)).stdout
  {
    ReadToEnd(run(Shell, BashArguments(command)))
  }

  /** The collector's `ExecuteCommand` for a given operating system. */
  function Runner(run: Oracle): Collection.Runner<Command> {
    c => ExecuteCommand(run, Script(c))
  }

  /** A command that fails still yields its standard output, possibly empty:
      the exit code never turns into an error. */
  lemma FailedCommandYieldsOutput(run: Oracle, command: string)
    requires run(Shell, BashArguments(command)).Exited?
    requires run(Shell, BashArguments(command)).exitCode != 0
    ensures ExecuteCommand(run, command) == Success(run(Shell, BashArguments(command)).stdout)
  {
  }

  /** The result depends on the process's standard output only. */
  lemma ExitStatusIgnored(run: Oracle, run': Oracle, command: string)
    requires run(Shell, BashArguments(command)).Exited? && run'(Shell, BashArguments(command)).Exited?
    requires run(Shell, BashArguments(command)).stdout == run'(Shell, BashArguments(command)).stdout
    ensures ExecuteCommand(run, command) == ExecuteCommand(run', command)
  {
    ReadToEndIgnoresStatus(run(Shell, BashArguments(command)), run'(Shell, BashArguments(command)));
  }

  /** The commands the collector runs; `HardwareSerial` serves both the
      motherboard serial number and the service tag. */
  datatype Command =
    | FirmwareVersion | FirmwareVendor | FirmwareSerial
    | BrandString | CpuVendor | LogicalCpu | PhysicalCpu | CpuSerial
    | DiskTotalSize | DiskDeviceModel | DiskIdentifier
    | ChipsetModel | DisplayDriver
    | MemorySpeed | MemorySize | MemoryPartNumber | MemorySerial
    | ModelIdentifier | HardwareManufacturer | HardwareSerial
    | HardwareModel

  /** The shell text of each command, as the collector passes it to the
      runner. */
  function Script(c: Command): string {
    match c
    case FirmwareVersion => "system_profiler SPFirmwareDataType | grep 'Version'"
    case FirmwareVendor => "system_profiler SPFirmwareDataType | grep 'Vendor'"
    case FirmwareSerial => "system_profiler SPFirmwareDataType | grep 'Serial Number'"
    case BrandString => "sysctl -n machdep.cpu.brand_string"
    case CpuVendor => "sysctl -n machdep.cpu.vendor"
    case LogicalCpu => "sysctl -n hw.logicalcpu"
    case PhysicalCpu => "sysctl -n hw.physicalcpu"
    case CpuSerial => "sysctl -n machdep.cpu.serial_number"
    case DiskTotalSize => "diskutil info / | grep 'Total Size'"
    case DiskDeviceModel => "diskutil info / | grep 'Device Model'"
    case DiskIdentifier => "diskutil info / | grep 'Device Identifier'"
    case ChipsetModel => "system_profiler SPDisplaysDataType | grep 'Chipset Model'"
    case DisplayDriver => "system_profiler SPDisplaysDataType | grep 'Driver Version'"
    case MemorySpeed => "system_profiler SPMemoryDataType | grep 'Speed'"
    case MemorySize => "system_profiler SPMemoryDataType | grep 'Size'"
    case MemoryPartNumber => "system_profiler SPMemoryDataType | grep 'Part Number'"
    case MemorySerial => "system_profiler SPMemoryDataType | grep 'Serial Number'"
    case ModelIdentifier => "system_profiler SPHardwareDataType | grep 'Model Identifier'"
    case HardwareManufacturer => "system_profiler SPHardwareDataType | grep 'Manufacturer'"
    case HardwareSerial => "system_profiler SPHardwareDataType | grep 'Serial Number'"
    case HardwareModel => "sysctl -n hw.model"
  }

  const SystemType := "MacOS"
  const SystemManufacturer := "Apple"

  const BiosPlan := [Field(FirmwareVersion, TextField), Field(FirmwareVendor, TextField), Field(FirmwareSerial, TextField)]
  const CpuPlan := [Field(BrandString, TextField), Field(CpuVendor, TextField), Field(LogicalCpu, IntField),
                    Field(PhysicalCpu, IntField), Field(CpuSerial, TextField)]
  const DiskPlan := [Field(DiskTotalSize, TextField), Field(DiskDeviceModel, TextField), Field(DiskIdentifier, TextField)]
  const GpuPlan := [Field(ChipsetModel, TextField), Field(DisplayDriver, TextField)]
  const MemoryPlan := [Field(MemorySpeed, TextField), Field(MemorySize, TextField),
                       Field(MemoryPartNumber, TextField), Field(MemorySerial, TextField)]
  const MotherboardPlan := [Field(ModelIdentifier, TextField), Field(HardwareManufacturer, TextField),
                            Field(HardwareSerial, TextField)]
  const SystemPlan := [Field(HardwareModel, TextField), Field(HardwareSerial, TextField)]

  /** Categories in the order `CollectTelemetryDataAsync` awaits them. */
  const Plan := BiosPlan + CpuPlan + DiskPlan + GpuPlan + MemoryPlan + MotherboardPlan + SystemPlan

  /** Places the values of a complete run into the record; the memory
      category builds a one-element array. */
  function Record(v: seq<Value>): TelemetryData
    requires Conforms(v, Plan)
  {
    TelemetryData(
      BiosInfo(v[0].text, v[1].text, v[2].text),
      CpuInfo(v[3].text, v[4].text, v[5].number, v[6].number, v[7].text),
      DiskInfo(v[8].text, v[9].text, v[10].text),
      GpuInfo(v[11].text, v[12].text),
      [MemoryInfo(v[13].text, v[14].text, v[15].text, v[16].text)],
      MotherboardInfo(v[17].text, v[18].text, v[19].text),
      SystemInfo(SystemType, v[20].text, v[21].text, SystemManufacturer))
  }

  /** The record `d` is what the commands report, field by field. */
  predicate Reports(exec: Collection.Runner<Command>, parse: Parser, d: TelemetryData) {
    && ReportsBios(exec, parse, d.Bios)
    && ReportsCpu(exec, parse, d.Cpu)
    && ReportsDisk(exec, parse, d.Disk)
    && ReportsGpu(exec, parse, d.Gpu)
    && |d.Memory| == 1 && ReportsMemory(exec, parse, d.Memory[0])
    && ReportsMotherboard(exec, parse, d.Motherboard)
    && ReportsSystem(exec, parse, d.System)
  }

  predicate ReportsBios(exec: Collection.Runner<Command>, parse: Parser, b: BiosInfo) {
    && Yields(exec, FirmwareVersion, b.Version)
    && Yields(exec, FirmwareVendor, b.Manufacturer)
    && Yields(exec, FirmwareSerial, b.SerialNumber)
  }

  predicate ReportsCpu(exec: Collection.Runner<Command>, parse: Parser, c: CpuInfo) {
    && Yields(exec, BrandString, c.Name)
    && Yields(exec, CpuVendor, c.ProcessorId)
    && YieldsInt(exec, parse, LogicalCpu, c.ThreadCount)
    && YieldsInt(exec, parse, PhysicalCpu, c.NumberOfCores)
    && Yields(exec, CpuSerial, c.SerialNumber)
  }

  predicate ReportsDisk(exec: Collection.Runner<Command>, parse: Parser, k: DiskInfo) {
    && Yields(exec, DiskTotalSize, k.Size)
    && Yields(exec, DiskDeviceModel, k.Model)
    && Yields(exec, DiskIdentifier, k.SerialNumber)
  }

  predicate ReportsGpu(exec: Collection.Runner<Command>, parse: Parser, g: GpuInfo) {
    && Yields(exec, ChipsetModel, g.Name)
    && Yields(exec, DisplayDriver, g.DriverVersion)
  }

  predicate ReportsMemory(exec: Collection.Runner<Command>, parse: Parser, m: MemoryInfo) {
    && Yields(exec, MemorySpeed, m.Speed)
    && Yields(exec, MemorySize, m.Capacity)
    && Yields(exec, MemoryPartNumber, m.PartNumber)
    && Yields(exec, MemorySerial, m.SerialNumber)
  }

  predicate ReportsMotherboard(exec: Collection.Runner<Command>, parse: Parser, b: MotherboardInfo) {
    && Yields(exec, ModelIdentifier, b.Product)
    && Yields(exec, HardwareManufacturer, b.Manufacturer)
    && Yields(exec, HardwareSerial, b.SerialNumber)
  }

  /** Type and manufacturer are constants; no command is run for them. */
  predicate ReportsSystem(exec: Collection.Runner<Command>, parse: Parser, y: SystemInfo) {
    && y.Type == SystemType
    && Yields(exec, HardwareModel, y.Model)
    && Yields(exec, HardwareSerial, y.ServiceTag)
    && y.Manufacturer == SystemManufacturer
  }

  /** `CollectTelemetryDataAsync` with `exec` as the command runner. */
  function Collect(exec: Collection.Runner<Command>, parse: Parser): (r: Result<TelemetryData, Error>)
    ensures r.Success? ==> Reports(exec, parse, r.value)
    ensures r.Success? <==> forall i :: 0 <= i < |Plan| ==> Step(exec, parse, Plan[i]).Success?
    ensures r.Failure? ==> exists k :: 0 <= k < |Plan| && Step(exec, parse, Plan[k]) == Failure(r.error)
                                       && forall i :: 0 <= i < k ==> Step(exec, parse, Plan[i]).Success?
  {
    var run := Execute(exec, parse, Plan);
    ExecuteOutcome(exec, parse, Plan);
    match run.outcome
    case Failure(e) =>
      var k := |run.issued| - 1;
      assert Step(exec, parse, Plan[k]) == Failure(e);
      Failure(e)
    case Success(v) =>
      ExecuteConforms(exec, parse, Plan);
      ReportsRecord(exec, parse, v);
      Success(Record(v))
  }

  lemma ReportsRecord(exec: Collection.Runner<Command>, parse: Parser, v: seq<Value>)
    requires |v| == |Plan|
    requires forall i :: 0 <= i < |Plan| ==> Step(exec, parse, Plan[i]) == Success(v[i])
    requires Conforms(v, Plan)
    ensures Reports(exec, parse, Record(v))
  {
  }

  /** The collection succeeds with `d` exactly when `d` is what the commands
      report: each text field is its command's output, each integer field
      the parse of its command's output, and the two constants. */
  lemma CollectReportsCommands(exec: Collection.Runner<Command>, parse: Parser, d: TelemetryData)
    ensures Collect(exec, parse) == Success(d) <==> Reports(exec, parse, d)
  {
    if Reports(exec, parse, d) {
      ReportedStepsSucceed(exec, parse, d);
      var r := Collect(exec, parse);
      ReportsIsFunctional(exec, parse, r.value, d);
    }
  }

  lemma ReportedStepsSucceed(exec: Collection.Runner<Command>, parse: Parser, d: TelemetryData)
    requires Reports(exec, parse, d)
    ensures forall i :: 0 <= i < |Plan| ==> Step(exec, parse, Plan[i]).Success?
  {
    BiosStepsSucceed(exec, parse, d.Bios);
    CpuStepsSucceed(exec, parse, d.Cpu);
    DiskStepsSucceed(exec, parse, d.Disk);
    GpuStepsSucceed(exec, parse, d.Gpu);
    MemoryStepsSucceed(exec, parse, d.Memory[0]);
    MotherboardStepsSucceed(exec, parse, d.Motherboard);
    SystemStepsSucceed(exec, parse, d.System);
    assert forall i :: 0 <= i < |Plan| ==> Plan[i] in Plan;
  }

  lemma BiosStepsSucceed(exec: Collection.Runner<Command>, parse: Parser, b: BiosInfo)
    requires ReportsBios(exec, parse, b)
    ensures forall f | f in BiosPlan :: Step(exec, parse, f).Success?
  {
  }

  lemma CpuStepsSucceed(exec: Collection.Runner<Command>, parse: Parser, c: CpuInfo)
    requires ReportsCpu(exec, parse, c)
    ensures forall f | f in CpuPlan :: Step(exec, parse, f).Success?
  {
  }

  lemma DiskStepsSucceed(exec: Collection.Runner<Command>, parse: Parser, k: DiskInfo)
    requires ReportsDisk(exec, parse, k)
    ensures forall f | f in DiskPlan :: Step(exec, parse, f).Success?
  {
  }

  lemma GpuStepsSucceed(exec: Collection.Runner<Command>, parse: Parser, g: GpuInfo)
    requires ReportsGpu(exec, parse, g)
    ensures forall f | f in GpuPlan :: Step(exec, parse, f).Success?
  {
  }

  lemma MemoryStepsSucceed(exec: Collection.Runner<Command>, parse: Parser, m: MemoryInfo)
    requires ReportsMemory(exec, parse, m)
    ensures forall f | f in MemoryPlan :: Step(exec, parse, f).Success?
  {
  }

  lemma MotherboardStepsSucceed(exec: Collection.Runner<Command>, parse: Parser, b: MotherboardInfo)
    requires ReportsMotherboard(exec, parse, b)
    ensures forall f | f in MotherboardPlan :: Step(exec, parse, f).Success?
  {
  }

  lemma SystemStepsSucceed(exec: Collection.Runner<Command>, parse: Parser, y: SystemInfo)
    requires ReportsSystem(exec, parse, y)
    ensures forall f | f in SystemPlan :: Step(exec, parse, f).Success?
  {
  }

  /** At most one record is reported for a given runner. */
  lemma ReportsIsFunctional(exec: Collection.Runner<Command>, parse: Parser, d: TelemetryData, e: TelemetryData)
    requires Reports(exec, parse, d) && Reports(exec, parse, e)
    ensures d == e
  {
    assert d.Bios == e.Bios;
    CpuIsFunctional(exec, parse, d.Cpu, e.Cpu);
    assert d.Disk == e.Disk;
    assert d.Gpu == e.Gpu;
    assert d.Memory[0] == e.Memory[0];
    assert d.Memory == [d.Memory[0]] && e.Memory == [e.Memory[0]];
    assert d.Motherboard == e.Motherboard;
    assert d.System == e.System;
  }

  lemma CpuIsFunctional(exec: Collection.Runner<Command>, parse: Parser, c: CpuInfo, c': CpuInfo)
    requires ReportsCpu(exec, parse, c) && ReportsCpu(exec, parse, c')
    ensures c == c'
  {
  }

  /** The service tag and the motherboard serial number come from the same
      command, so a successful collection reports them equal. */
  lemma ServiceTagIsBoardSerial(exec: Collection.Runner<Command>, parse: Parser)
    requires Collect(exec, parse).Success?
    ensures Collect(exec, parse).value.System.ServiceTag == Collect(exec, parse).value.Motherboard.SerialNumber
  {
  }

  /** `sysctl -n` prints the number followed by a line feed; the untrimmed
      output still parses, because `int.Parse` skips surrounding white space. */
  lemma LogicalCpuCount(run: Oracle, n: int)
    requires Numbers.Int32Min <= n <= Numbers.Int32Max
    requires run(Shell, BashArguments(Script(LogicalCpu))).Exited?
    requires run(Shell, BashArguments(Script(LogicalCpu))).stdout == Numbers.FormatInt(n) + "\n"
    ensures YieldsInt(Runner(run), Numbers.ParseInt32, LogicalCpu, n)
  {
    var out := Numbers.FormatInt(n) + "\n";
    assert Runner(run)(LogicalCpu) == ExecuteCommand(run, Script(LogicalCpu));
    assert Runner(run)(LogicalCpu) == Success(out);
    Numbers.ParseLine(n);
  }

  /** The first failing field aborts the collection with its error; the
      commands issued are those of the fields up to and including it, so no
      later command runs. */
  lemma FailureStopsCollection(exec: Collection.Runner<Command>, parse: Parser, k: nat)
    requires k < |Plan| && Step(exec, parse, Plan[k]).Failure?
    requires forall i :: 0 <= i < k ==> Step(exec, parse, Plan[i]).Success?
    ensures Collect(exec, parse) == Failure(Step(exec, parse, Plan[k]).error)
    ensures Execute(exec, parse, Plan).issued == Commands(Plan[..k + 1])
  {
    FirstFailureEndsRun(exec, parse, Plan, k);
  }
}
