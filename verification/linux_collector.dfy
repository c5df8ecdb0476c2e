/** `LinuxTelemetryCollector.CollectTelemetryDataAsync`: twenty-three command
    runs of twenty-two distinct commands (the system serial number is read
    twice), most of them privileged `dmidecode` pipelines, run through the
    Linux command runner in the order of the category methods. */
module LinuxCollector {
  import opened Wrappers
  import opened Model
  import opened Collection
  import Numbers
  import LinuxShell

  /** The commands the collector runs; `SystemSerial` serves both the BIOS
      serial number and the service tag. */
  datatype Command =
    | BiosVersion | BiosVendor | SystemSerial
    | CpuModelName | CpuVendorId | Nproc | CoreCount | ProcessorIds
    | DiskSize | DiskModel | DiskSerial
    | GpuName | GpuDriver
    | MemorySpeed | MemorySize | MemoryPartNumber | MemorySerial
    | BoardProduct | BoardManufacturer | BoardSerial
    | Machine | SystemManufacturer

  /** The shell text of each command, as the collector passes it to the
      runner. */
  function Script(c: Command): string {
    match c
    case BiosVersion => "sudo dmidecode -t bios | grep 'Version' | cut -d ':' -f2 | xargs"
    case BiosVendor => "sudo dmidecode -t bios | grep 'Vendor' | cut -d ':' -f2 | xargs"
    case SystemSerial => "sudo dmidecode -t system | grep 'Serial Number' | cut -d ':' -f2 | xargs"
    case CpuModelName => "cat /proc/cpuinfo | grep 'model name' | head -1 | cut -d ':' -f2 | xargs"
    case CpuVendorId => "cat /proc/cpuinfo | grep 'vendor_id' | head -1 | cut -d ':' -f2 | xargs"
    case Nproc => "nproc"
    case CoreCount => "sudo dmidecode -t processor | grep -i 'Core Count' | cut -d':' -f2 | xargs"
    case ProcessorIds => "sudo dmidecode -t processor | grep 'ID' | cut -d ':' -f2 | xargs"
    case DiskSize => "lsblk -b -o SIZE | grep -v 'SIZE' | awk '{sum += $1} END {print sum}'"
    case DiskModel => "lsblk -o MODEL | grep -v 'MODEL' | head -1"
    case DiskSerial => "lsblk -o SERIAL | grep -v 'SERIAL' | head -1"
    case GpuName => "lspci | grep -i 'vga' | cut -d ':' -f3 | xargs"
    case GpuDriver => "lspci -v -s $(lspci | grep -i 'vga' | cut -d ' ' -f 1) | grep 'Kernel driver'"
    case MemorySpeed => "sudo dmidecode -t memory | grep 'Speed' | cut -d ':' -f2 | xargs"
    case MemorySize => "sudo dmidecode -t memory | grep 'Size' | grep -v 'No Module' | cut -d ':' -f2 | xargs"
    case MemoryPartNumber => "sudo dmidecode -t memory | grep 'Part Number' | cut -d ':' -f2 | xargs"
    case MemorySerial => "sudo dmidecode -t memory | grep 'Serial Number' | cut -d ':' -f2 | xargs"
    case BoardProduct => "sudo dmidecode -t baseboard | grep 'Product Name' | cut -d ':' -f2 | xargs"
    case BoardManufacturer => "sudo dmidecode -t baseboard | grep 'Manufacturer' | cut -d ':' -f2 | xargs"
    case BoardSerial => "sudo dmidecode -t baseboard | grep 'Serial Number' | cut -d ':' -f2 | xargs"
    case Machine => "uname -m"
    case SystemManufacturer => "sudo dmidecode -t system | grep 'Manufacturer' | cut -d ':' -f2 | xargs"
  }

  /** The collector's `ExecuteCommand` for a given operating system and
      password. */
  function Runner(run: Oracle, password: string): Collection.Runner<Command> {
    c => LinuxShell.ExecuteCommand(run, password, Script(c))
  }

  const SystemType := "Linux"

  const BiosPlan := [Field(BiosVersion, TextField), Field(BiosVendor, TextField), Field(SystemSerial, TextField)]
  const CpuPlan := [Field(CpuModelName, TextField), Field(CpuVendorId, TextField), Field(Nproc, IntField),
                    Field(CoreCount, IntField), Field(ProcessorIds, TextField)]
  const DiskPlan := [Field(DiskSize, TextField), Field(DiskModel, TextField), Field(DiskSerial, TextField)]
  const GpuPlan := [Field(GpuName, TextField), Field(GpuDriver, TextField)]
  const MemoryPlan := [Field(MemorySpeed, TextField), Field(MemorySize, TextField),
                       Field(MemoryPartNumber, TextField), Field(MemorySerial, TextField)]
  const MotherboardPlan := [Field(BoardProduct, TextField), Field(BoardManufacturer, TextField), Field(BoardSerial, TextField)]
  const SystemPlan := [Field(Machine, TextField), Field(SystemSerial, TextField), Field(SystemManufacturer, TextField)]

  /** Categories in the order `CollectTelemetryDataAsync` awaits them. */
  const Plan := BiosPlan + CpuPlan + DiskPlan + GpuPlan + MemoryPlan + MotherboardPlan + SystemPlan

  /** Places the values of a complete run into the record. The memory
      category yields one record, stored as a one-element array. */
  function Record(v: seq<Value>): TelemetryData
    requires Conforms(v, Plan)
  {
    TelemetryData(
      BiosInfo(v[0].text, v[1].text, v[2].text),
      CpuInfo(v[3].text, v[4].text, v[5].number, v[6].number, v[7].text),
      DiskInfo(v[8].text, v[9].text, v[10].text),
      GpuInfo(v[11].text, v[12].text),
      [MemoryInfo(v[13].text, v[14].text, v[15].text, v[16].text)],
      MotherboardInfo(v[17].text, v[18].text, v[19].text),
      SystemInfo(SystemType, v[20].text, v[21].text, v[22].text))
  }

  /** The record `d` is what the commands report, field by field. */
  predicate Reports(exec: Collection.Runner<Command>, parse: Parser, d: TelemetryData) {
    && ReportsBios(exec, parse, d.Bios)
    && ReportsCpu(exec, parse, d.Cpu)
    && ReportsDisk(exec, parse, d.Disk)
    && ReportsGpu(exec, parse, d.Gpu)
    && |d.Memory| == 1 && ReportsMemory(exec, parse, d.Memory[0])
    && ReportsMotherboard(exec, parse, d.Motherboard)
    && ReportsSystem(exec, parse, d.System)
  }

  predicate ReportsBios(exec: Collection.Runner<Command>, parse: Parser, b: BiosInfo) {
    && Yields(exec, BiosVersion, b.Version)
    && Yields(exec, BiosVendor, b.Manufacturer)
    && Yields(exec, SystemSerial, b.SerialNumber)
  }

  predicate ReportsCpu(exec: Collection.Runner<Command>, parse: Parser, c: CpuInfo) {
    && Yields(exec, CpuModelName, c.Name)
    && Yields(exec, CpuVendorId, c.ProcessorId)
    && YieldsInt(exec, parse, Nproc, c.ThreadCount)
    && YieldsInt(exec, parse, CoreCount, c.NumberOfCores)
    && Yields(exec, ProcessorIds, c.SerialNumber)
  }

  predicate ReportsDisk(exec: Collection.Runner<Command>, parse: Parser, k: DiskInfo) {
    && Yields(exec, DiskSize, k.Size)
    && Yields(exec, DiskModel, k.Model)
    && Yields(exec, DiskSerial, k.SerialNumber)
  }

  predicate ReportsGpu(exec: Collection.Runner<Command>, parse: Parser, g: GpuInfo) {
    && Yields(exec, GpuName, g.Name)
    && Yields(exec, GpuDriver, g.DriverVersion)
  }

  predicate ReportsMemory(exec: Collection.Runner<Command>, parse: Parser, m: MemoryInfo) {
    && Yields(exec, MemorySpeed, m.Speed)
    && Yields(exec, MemorySize, m.Capacity)
    && Yields(exec, MemoryPartNumber, m.PartNumber)
    && Yields(exec, MemorySerial, m.SerialNumber)
  }

  predicate ReportsMotherboard(exec: Collection.Runner<Command>, parse: Parser, b: MotherboardInfo) {
    && Yields(exec, BoardProduct, b.Product)
    && Yields(exec, BoardManufacturer, b.Manufacturer)
    && Yields(exec, BoardSerial, b.SerialNumber)
  }

  predicate ReportsSystem(exec: Collection.Runner<Command>, parse: Parser, y: SystemInfo) {
    && y.Type == SystemType
    && Yields(exec, Machine, y.Model)
    && Yields(exec, SystemSerial, y.ServiceTag)
    && Yields(exec, SystemManufacturer, y.Manufacturer)
  }

  /** `CollectTelemetryDataAsync` with `exec` as the command runner. */
  function Collect(exec: Collection.Runner<Command>, parse: Parser): (r: Result<TelemetryData, Error>)
    ensures r.Success? ==> Reports(exec, parse, r.value)
    ensures r.Success? <==> forall i :: 0 <= i < |Plan| ==> Step(exec, parse, Plan[i]).Success?
    ensures r.Failure? ==> exists k :: 0 <= k < |Plan| && Step(exec, parse, Plan[k]) == Failure(r.error)
                                       && forall i :: 0 <= i < k ==> Step(exec, parse, Plan[i]).Success?
  {
    var run := Execute(exec, parse, Plan);
    ExecuteOutcome(exec, parse, Plan);
    match run.outcome
    case Failure(e) =>
      var k := |run.issued| - 1;
      assert Step(exec, parse, Plan[k]) == Failure(e);
      Failure(e)
    case Success(v) =>
      ExecuteConforms(exec, parse, Plan);
      ReportsRecord(exec, parse, v);
      Success(Record(v))
  }

  lemma ReportsRecord(exec: Collection.Runner<Command>, parse: Parser, v: seq<Value>)
    requires |v| == |Plan|
    requires forall i :: 0 <= i < |Plan| ==> Step(exec, parse, Plan[i]) == Success(v[i])
    requires Conforms(v, Plan)
    ensures Reports(exec, parse, Record(v))
  {
  }

  /** The collection succeeds with `d` exactly when `d` is what the commands
      report: each text field is its command's output, each integer field
      the parse of its command's output. */
  lemma CollectReportsCommands(exec: Collection.Runner<Command>, parse: Parser, d: TelemetryData)
    ensures Collect(exec, parse) == Success(d) <==> Reports(exec, parse, d)
  {
    if Reports(exec, parse, d) {
      ReportedStepsSucceed(exec, parse, d);
      var r := Collect(exec, parse);
      ReportsIsFunctional(exec, parse, r.value, d);
    }
  }

  lemma ReportedStepsSucceed(exec: Collection.Runner<Command>, parse: Parser, d: TelemetryData)
    requires Reports(exec, parse, d)
    ensures forall i :: 0 <= i < |Plan| ==> Step(exec, parse, Plan[i]).Success?
  {
    BiosStepsSucceed(exec, parse, d.Bios);
    CpuStepsSucceed(exec, parse, d.Cpu);
    DiskStepsSucceed(exec, parse, d.Disk);
    GpuStepsSucceed(exec, parse, d.Gpu);
    MemoryStepsSucceed(exec, parse, d.Memory[0]);
    MotherboardStepsSucceed(exec, parse, d.Motherboard);
    SystemStepsSucceed(exec, parse, d.System);
    assert forall i :: 0 <= i < |Plan| ==> Plan[i] in Plan;
  }

  lemma BiosStepsSucceed(exec: Collection.Runner<Command>, parse: Parser, b: BiosInfo)
    requires ReportsBios(exec, parse, b)
    ensures forall f | f in BiosPlan :: Step(exec, parse, f).Success?
  {
  }

  lemma CpuStepsSucceed(exec: Collection.Runner<Command>, parse: Parser, c: CpuInfo)
    requires ReportsCpu(exec, parse, c)
    ensures forall f | f in CpuPlan :: Step(exec, parse, f).Success?
  {
  }

  lemma DiskStepsSucceed(exec: Collection.Runner<Command>, parse: Parser, k: DiskInfo)
    requires ReportsDisk(exec, parse, k)
    ensures forall f | f in DiskPlan :: Step(exec, parse, f).Success?
  {
  }

  lemma GpuStepsSucceed(exec: Collection.Runner<Command>, parse: Parser, g: GpuInfo)
    requires ReportsGpu(exec, parse, g)
    ensures forall f | f in GpuPlan :: Step(exec, parse, f).Success?
  {
  }

  lemma MemoryStepsSucceed(exec: Collection.Runner<Command>, parse: Parser, m: MemoryInfo)
    requires ReportsMemory(exec, parse, m)
    ensures forall f | f in MemoryPlan :: Step(exec, parse, f).Success?
  {
  }

  lemma MotherboardStepsSucceed(exec: Collection.Runner<Command>, parse: Parser, b: MotherboardInfo)
    requires ReportsMotherboard(exec, parse, b)
    ensures forall f | f in MotherboardPlan :: Step(exec, parse, f).Success?
  {
  }

  lemma SystemStepsSucceed(exec: Collection.Runner<Command>, parse: Parser, y: SystemInfo)
    requires ReportsSystem(exec, parse, y)
    ensures forall f | f in SystemPlan :: Step(exec, parse, f).Success?
  {
  }

  /** At most one record is reported for a given runner. */
  lemma ReportsIsFunctional(exec: Collection.Runner<Command>, parse: Parser, d: TelemetryData, e: TelemetryData)
    requires Reports(exec, parse, d) && Reports(exec, parse, e)
    ensures d == e
  {
    assert d.Bios == e.Bios;
    CpuIsFunctional(exec, parse, d.Cpu, e.Cpu);
    assert d.Disk == e.Disk;
    assert d.Gpu == e.Gpu;
    assert d.Memory[0] == e.Memory[0];
    assert d.Memory == [d.Memory[0]] && e.Memory == [e.Memory[0]];
    assert d.Motherboard == e.Motherboard;
    assert d.System == e.System;
  }

  lemma CpuIsFunctional(exec: Collection.Runner<Command>, parse: Parser, c: CpuInfo, c': CpuInfo)
    requires ReportsCpu(exec, parse, c) && ReportsCpu(exec, parse, c')
    ensures c == c'
  {
  }

  /** The first failing field aborts the collection with its error; the
      commands issued are those of the fields up to and including it, so no
      later command runs. */
  lemma FailureStopsCollection(exec: Collection.Runner<Command>, parse: Parser, k: nat)
    requires k < |Plan| && Step(exec, parse, Plan[k]).Failure?
    requires forall i :: 0 <= i < k ==> Step(exec, parse, Plan[i]).Success?
    ensures Collect(exec, parse) == Failure(Step(exec, parse, Plan[k]).error)
    ensures Execute(exec, parse, Plan).issued == Commands(Plan[..k + 1])
  {
    FirstFailureEndsRun(exec, parse, Plan, k);
  }

  /** The BIOS serial number and the service tag come from the same command,
      so a successful collection reports them equal. */
  lemma ServiceTagIsBiosSerial(exec: Collection.Runner<Command>, parse: Parser)
    requires Collect(exec, parse).Success?
    ensures Collect(exec, parse).value.System.ServiceTag == Collect(exec, parse).value.Bios.SerialNumber
  {
  }

  /** When `nproc` prints something `int.Parse` rejects after the BIOS
      commands and the first two processor commands succeeded, the collection
      ends with the parse error after six commands, before any disk, GPU,
      memory, motherboard or system command. */
  lemma UnparsableThreadCountAborts(exec: Collection.Runner<Command>, parse: Parser)
    requires forall i :: 0 <= i < 5 ==> exec(Plan[i].command).Success?
    requires exec(Nproc).Success? && parse(exec(Nproc).value).Failure?
    ensures Collect(exec, parse).Failure?
    ensures Collect(exec, parse).error == FormatError(exec(Nproc).value) || Collect(exec, parse).error == OverflowError(exec(Nproc).value)
    ensures |Execute(exec, parse, Plan).issued| == 6 < |BiosPlan + CpuPlan|
  {
    TextStepsSucceed(exec, parse);
    NprocStepFails(exec, parse);
    FailureStopsCollection(exec, parse, 5);
  }

  lemma TextStepsSucceed(exec: Collection.Runner<Command>, parse: Parser)
    requires forall i :: 0 <= i < 5 ==> exec(Plan[i].command).Success?
    ensures forall i :: 0 <= i < 5 ==> Step(exec, parse, Plan[i]).Success?
  {
    forall i | 0 <= i < 5
      ensures Step(exec, parse, Plan[i]).Success?
    {
      assert Plan[i].kind == TextField;
    }
  }

  lemma NprocStepFails(exec: Collection.Runner<Command>, parse: Parser)
    requires exec(Nproc).Success? && parse(exec(Nproc).value).Failure?
    ensures Step(exec, parse, Plan[5]).Failure?
    ensures Step(exec, parse, Plan[5]).error == FormatError(exec(Nproc).value)
         || Step(exec, parse, Plan[5]).error == OverflowError(exec(Nproc).value)
  {
    assert Plan[5] == Field(Nproc, IntField);
  }
}
