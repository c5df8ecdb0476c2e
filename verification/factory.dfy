/** `TelemetryCollectorFactory.CreateTelemetryCollector`: picks a collector
    from the name of the platform the runtime reports, and the collection that
    each choice then performs. */
module Factory {
  import opened Wrappers
  import opened Model
  import Text
  import Numbers
  import LinuxCollector
  import MacOSCollector
  import WindowsCollector

  datatype Collector = Linux | MacOS | Windows

  /** The members of .NET's `PlatformID` enumeration. */
  datatype PlatformId = Win32S | Win32Windows | Win32NT | WinCE | Unix | Xbox | MacOSX | Other

  /** `PlatformID.ToString()`: the member's name. */
  function PlatformName(p: PlatformId): string {
    match p
    case Win32S => "Win32S"
    case Win32Windows => "Win32Windows"
    case Win32NT => "Win32NT"
    case WinCE => "WinCE"
    case Unix => "Unix"
    case Xbox => "Xbox"
    case MacOSX => "MacOSX"
    case Other => "Other"
  }

  const UnsupportedPrefix: string := "Operating system '"
  const UnsupportedSuffix: string := "' is not supported."

  /** Selects the collector for the platform name `os`; every other name is
      refused with a message that quotes it. */
  function CreateTelemetryCollector(os: string): (r: Result<Collector, Error>)
    ensures r == Success(Linux) <==> os == "Unix"
    ensures r == Success(MacOS) <==> os == "MacOSX"
    ensures r == Success(Windows) <==> os == "Win32NT"
    ensures r.Failure? ==> r.error.NotSupported? && Text.OccursAt(r.error.message, os, |UnsupportedPrefix|)
  {
    match os
    case "Unix" => Success(Linux)
    case "MacOSX" => Success(MacOS)
    case "Win32NT" => Success(Windows)
    case _ => Failure(NotSupported(UnsupportedPrefix + os + UnsupportedSuffix))
  }

  /** Exactly three platform names are accepted. */
  lemma AcceptsExactlyThree(os: string)
    ensures CreateTelemetryCollector(os).Success? <==> os in {"Unix", "MacOSX", "Win32NT"}
  {
  }

  /** Of the eight `PlatformID` members, only `Unix`, `MacOSX` and `Win32NT`
      get a collector; the others end in `NotSupported`. */
  lemma SupportedPlatforms(p: PlatformId)
    ensures CreateTelemetryCollector(PlatformName(p)).Success? <==> p in {Unix, MacOSX, Win32NT}
  {
  }

  /** The refusal message names the platform between the fixed prefix and
      suffix, so distinct unsupported platforms get distinct messages. */
  lemma RefusalNamesPlatform(os: string, os': string)
    requires CreateTelemetryCollector(os).Failure? && CreateTelemetryCollector(os').Failure?
    requires CreateTelemetryCollector(os).error == CreateTelemetryCollector(os').error
    ensures os == os'
  {
    var m := CreateTelemetryCollector(os).error.message;
    assert m[|UnsupportedPrefix|..|m| - |UnsupportedSuffix|] == os;
    var m' := CreateTelemetryCollector(os').error.message;
    assert m'[|UnsupportedPrefix|..|m'| - |UnsupportedSuffix|] == os';
  }

  /** `CollectTelemetryDataAsync` of the chosen collector, with the operating
      system as `run`; only the Linux collector uses the password. */
  function Collect(c: Collector, run: Oracle, password: string): (r: Result<TelemetryData, Error>)
    ensures r.Success? ==> r.value.System.Type == SystemType(c)
    ensures r.Success? ==> |r.value.Memory| == 1
  {
    match c
    case Linux => LinuxCollector.Collect(LinuxCollector.Runner(run, password), Numbers.ParseInt32)
    case MacOS => MacOSCollector.Collect(MacOSCollector.Runner(run), Numbers.ParseInt32)
    case Windows => WindowsCollector.Collect(WindowsCollector.Runner(run), Numbers.ParseInt32)
  }

  /** The `Type` tag each collector writes. */
  function SystemType(c: Collector): string {
    match c
    case Linux => LinuxCollector.SystemType
    case MacOS => MacOSCollector.SystemType
    case Windows => WindowsCollector.SystemType
  }

  /** The three tags differ, so the record's `Type` identifies the collector
      that produced it. */
  lemma TypeIdentifiesCollector(c: Collector, c': Collector)
    ensures SystemType(c) == SystemType(c') <==> c == c'
  {
    assert SystemType(Linux)[0] != SystemType(MacOS)[0];
    assert SystemType(Linux)[0] != SystemType(Windows)[0];
    assert SystemType(MacOS)[0] != SystemType(Windows)[0];
  }

  /** The macOS and Windows collections do not depend on the password. */
  lemma PasswordOnlyForLinux(c: Collector, run: Oracle, password: string, password': string)
    requires c != Linux
    ensures Collect(c, run, password) == Collect(c, run, password')
  {
  }
}
