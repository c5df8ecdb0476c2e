/** The telemetry record every collector produces, the process oracle the
    collectors run their commands through, and the failures a collection can
    end with. */
module Model {
  import opened Wrappers

  datatype BiosInfo = BiosInfo(Version: string, Manufacturer: string, SerialNumber: string)

  datatype CpuInfo = CpuInfo(
    Name: string,
    ProcessorId: string,
    ThreadCount: int,
    NumberOfCores: int,
    SerialNumber: string)

  datatype DiskInfo = DiskInfo(Size: string, Model: string, SerialNumber: string)

  datatype GpuInfo = GpuInfo(Name: string, DriverVersion: string)

  datatype MemoryInfo = MemoryInfo(
    Speed: string,
    Capacity: string,
    PartNumber: string,
    SerialNumber: string)

  datatype MotherboardInfo = MotherboardInfo(Product: string, Manufacturer: string, SerialNumber: string)

  datatype SystemInfo = SystemInfo(Type: string, Model: string, ServiceTag: string, Manufacturer: string)

  /** The aggregate record; `Memory` is the array of memory modules. */
  datatype TelemetryData = TelemetryData(
    Bios: BiosInfo,
    Cpu: CpuInfo,
    Disk: DiskInfo,
    Gpu: GpuInfo,
    Memory: seq<MemoryInfo>,
    Motherboard: MotherboardInfo,
    System: SystemInfo)

  /** What happens when a process is started: either starting it throws, or
      it runs to completion with an exit code and the full text of its
      standard output and standard error streams. */
  datatype ProcessOutcome =
    | SpawnFailed(reason: string)
    | Exited(exitCode: int, stdout: string, stderr: string)

  /** The operating system, seen as a function from the program file name and
      its argument string to the outcome of running it. */
  type Oracle = (string, string) -> ProcessOutcome

  /** The failures a collection can end with. Each stands for the exception
      the source lets escape. */
  datatype Error =
    | CommandFailed(message: string)   // the exception wrapped by the Linux command runner
    | StartFailed(reason: string)      // `Process.Start` threw and nothing caught it
    | FormatError(input: string)       // `int.Parse` threw `FormatException`
    | OverflowError(input: string)     // `int.Parse` threw `OverflowException`
    | NotSupported(message: string)    // the factory met an unknown platform

  /** Arguments handed to `/bin/bash`: the command as one double-quoted `-c`
      script. */
  function BashArguments(command: string): (args: string)
    ensures |args| == |command| + 5
    ensures args[..4] == "-c \"" && args[4..|args| - 1] == command && args[|args| - 1] == '"'
  {
    "-c \"" + command + "\""
  }

  /** What the macOS and Windows runners make of an outcome: the text of
      standard output, read to the end, whatever the exit code; only a failure
      to start the process escapes. */
  function ReadToEnd(outcome: ProcessOutcome): (r: Result<string, Error>)
    ensures r.Success? <==> outcome.Exited?
    ensures r.Failure? ==> r.error.StartFailed?
    ensures outcome.Exited? ==> r == Success(outcome.stdout)
  {
    match outcome
    case SpawnFailed(reason) => Failure(StartFailed(reason))
    case Exited(_, stdout, _) => Success(stdout)
  }

  /** The exit code and the error stream never influence `ReadToEnd`: two
      completed runs with the same standard output read the same. */
  lemma ReadToEndIgnoresStatus(a: ProcessOutcome, b: ProcessOutcome)
    requires a.Exited? && b.Exited? && a.stdout == b.stdout
    ensures ReadToEnd(a) == ReadToEnd(b) == Success(a.stdout)
  {
  }
}
