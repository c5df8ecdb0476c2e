/** The Linux collector's command runner: privileged commands are rewritten to
    read the password from a pipe, the command runs as a `/bin/bash -c`
    script, non-empty output lines are accumulated, and a nonzero exit code
    or a failure to start becomes one wrapped error message. */
module LinuxShell {
  import opened Wrappers
  import opened Text
  import opened Model

  const Sudo: string := "sudo "
  const SudoStdin: string := "sudo -S "
  const Shell: string := "/bin/bash"
  const FailurePrefix: string := "Failed to execute command: "
  const ExitFailurePrefix: string := "Command failed with error: "

  /** The pipe that feeds the password to `sudo -S`. */
  function PasswordPipe(password: string): string {
    "echo '" + password + "' | "
  }

  /** `command.Replace("sudo ", "sudo -S ")`. */
  function AddStdinFlag(command: string): string {
    ReplaceAll(command, Sudo, SudoStdin)
  }

  /** The script actually run: a command starting with `sudo ` gets `-S`
      after every `sudo ` and the password pipe in front; any other command is
      run unchanged. */
  function Rewrite(command: string, password: string): (script: string)
    ensures !StartsWith(command, Sudo) ==> script == command
    ensures StartsWith(command, Sudo) ==> StartsWith(script, PasswordPipe(password) + SudoStdin)
  {
    if StartsWith(command, Sudo) then
      assert command == Sudo + command[5..];
      PasswordPipe(password) + AddStdinFlag(command)
    else command
  }

  /** The text of the exception thrown out of the runner. */
  function FailureMessage(script: string, inner: string): string {
    FailurePrefix + script + ". Error: " + inner
  }

  /** The lines with the empty ones left out. */
  function NonEmpty(lines: seq<string>): seq<string> {
    if |lines| == 0 then []
    else (if lines[0] == "" then [] else [lines[0]]) + NonEmpty(lines[1..])
  }

  /** The `StringBuilder` after `AppendLine` was called for every non-empty
      line received from a stream. */
  function Capture(lines: seq<string>): string {
    if |lines| == 0 then ""
    else (if lines[0] == "" then "" else lines[0] + "\n") + Capture(lines[1..])
  }

  /** Runs `command` as the Linux collector does. The value returned on
      success is the captured standard output, trimmed. */
  function ExecuteCommand(run: Oracle, password: string, command: string): (r: Result<string, Error>)
    ensures var outcome := run(Shell, BashArguments(Rewrite(command, password)));
      r.Success? <==> outcome.Exited? && outcome.exitCode == 0
    ensures r.Failure? ==>
      r.error.CommandFailed? && StartsWith(r.error.message, FailurePrefix + Rewrite(command, password))
    ensures r.Success? && |r.value| > 0 ==> !IsWhiteSpace(r.value[0]) && !IsWhiteSpace(r.value[|r.value| - 1])
  {
    var script := Rewrite(command, password);
    match run(Shell, BashArguments(script))
    case SpawnFailed(reason) =>
      Failure(CommandFailed(FailureMessage(script, reason)))
    case Exited(code, out, err) =>
      if code != 0 then
        Failure(CommandFailed(FailureMessage(script, ExitFailurePrefix + Capture(SplitLines(err)))))
      else
        Success(Trim(Capture(SplitLines(out))))
  }

  // ---- The privileged-command rewrite --------------------------------------

  /** A rewritten text can only start with `sudo ` where the original did. */
  lemma {:induction false} NoSpuriousSudo(s: string)
    requires !StartsWith(s, Sudo)
    ensures !StartsWith(AddStdinFlag(s), Sudo)
  {
    var t := AddStdinFlag(s);
    if StartsWith(t, Sudo) {
      assert |s| > 0;
      assert t == [s[0]] + AddStdinFlag(s[1..]);
      assert t[0] == Sudo[0] == 's';
      var t1 := AddStdinFlag(s[1..]);
      assert t1 == t[1..] && t1[0] == 'u';
      HeadOfRewrite(s[1..], 'u');
      assert s[1..][1..] == s[2..];
      var t2 := AddStdinFlag(s[2..]);
      assert t2 == t[2..] && t2[0] == 'd';
      HeadOfRewrite(s[2..], 'd');
      assert s[2..][1..] == s[3..];
      var t3 := AddStdinFlag(s[3..]);
      assert t3 == t[3..] && t3[0] == 'o';
      HeadOfRewrite(s[3..], 'o');
      assert false;
    }
  }

  /** If a rewritten text starts with a character other than `s`, the
      original started with that same character, copied unchanged. */
  lemma HeadOfRewrite(s: string, c: char)
    requires |AddStdinFlag(s)| > 0 && AddStdinFlag(s)[0] == c && c != 's'
    ensures |s| > 0 && s[0] == c && !StartsWith(s, Sudo)
    ensures AddStdinFlag(s) == [c] + AddStdinFlag(s[1..])
  {
  }

  lemma StdinFlagStartsWithSudo(t: string)
    ensures StartsWith(t, SudoStdin) ==> StartsWith(t, Sudo)
  {
    if StartsWith(t, SudoStdin) {
      assert t[..5] == t[..8][..5];
    }
  }

  /** Undoing the rewrite recovers the original text: adding `-S` loses
      nothing and invents no occurrence of `sudo -S `. */
  lemma {:induction false} RewriteIsReversible(s: string)
    ensures ReplaceAll(AddStdinFlag(s), SudoStdin, Sudo) == s
    decreases |s|
  {
    var t := AddStdinFlag(s);
    if StartsWith(s, Sudo) {
      var rest := AddStdinFlag(s[5..]);
      assert t == SudoStdin + rest;
      assert StartsWith(t, SudoStdin);
      assert t[8..] == rest;
      RewriteIsReversible(s[5..]);
      assert s == Sudo + s[5..];
    } else if |s| > 0 {
      var rest := AddStdinFlag(s[1..]);
      assert t == [s[0]] + rest;
      NoSpuriousSudo(s);
      StdinFlagStartsWithSudo(t);
      assert t[1..] == rest;
      RewriteIsReversible(s[1..]);
      assert s == [s[0]] + s[1..];
    }
  }

  /** Every `sudo ` in a text is followed by `-S `. */
  ghost predicate EverySudoReadsStdin(t: string) {
    forall i :: OccursAt(t, Sudo, i) ==> OccursAt(t, SudoStdin, i)
  }

  /** After the rewrite no `sudo ` is left without `-S`: every occurrence is
      rewritten, not only the leading one. */
  lemma {:induction false} RewriteReachesEverySudo(s: string)
    ensures EverySudoReadsStdin(AddStdinFlag(s))
    decreases |s|
  {
    if StartsWith(s, Sudo) {
      RewriteReachesEverySudo(s[5..]);
      assert AddStdinFlag(s) == SudoStdin + AddStdinFlag(s[5..]);
      StdinPrefixKeepsEvery(AddStdinFlag(s[5..]));
    } else if |s| > 0 {
      NoSpuriousSudo(s);
      RewriteReachesEverySudo(s[1..]);
      assert AddStdinFlag(s) == [s[0]] + AddStdinFlag(s[1..]);
      CharKeepsEvery(s[0], AddStdinFlag(s[1..]));
    }
  }

  /** Putting `sudo -S ` in front keeps every `sudo ` followed by `-S `. */
  lemma StdinPrefixKeepsEvery(rest: string)
    requires EverySudoReadsStdin(rest)
    ensures EverySudoReadsStdin(SudoStdin + rest)
  {
    var t := SudoStdin + rest;
    assert forall i :: 0 < i < 8 ==> t[i] == SudoStdin[i] != 's';
    assert t[..8] == SudoStdin;
    forall i | OccursAt(t, Sudo, i)
      ensures OccursAt(t, SudoStdin, i)
    {
      assert t[i] == t[i..i + 5][0] == 's';
      if i >= 8 {
        assert t[i..i + 5] == rest[i - 8..i - 3];
        assert OccursAt(rest, Sudo, i - 8);
        assert t[i..i + 8] == rest[i - 8..i];
      }
    }
  }

  /** Putting one character in front keeps every `sudo ` followed by `-S `,
      as long as the result does not start with a bare `sudo `. */
  lemma CharKeepsEvery(c: char, rest: string)
    requires EverySudoReadsStdin(rest)
    requires !StartsWith([c] + rest, Sudo)
    ensures EverySudoReadsStdin([c] + rest)
  {
    var t := [c] + rest;
    forall i | OccursAt(t, Sudo, i)
      ensures OccursAt(t, SudoStdin, i)
    {
      ShiftedOccurrence(c, rest, i);
    }
  }

  /** An occurrence of `sudo ` after the first character is one in `rest`,
      and so is the `sudo -S ` that follows from it there. */
  lemma ShiftedOccurrence(c: char, rest: string, i: int)
    requires !StartsWith([c] + rest, Sudo) && OccursAt([c] + rest, Sudo, i)
    requires OccursAt(rest, Sudo, i - 1) ==> OccursAt(rest, SudoStdin, i - 1)
    ensures OccursAt([c] + rest, SudoStdin, i)
  {
    var t := [c] + rest;
    assert i != 0 by {
      assert t[..5] == t[0..5];
    }
    assert t[i..i + 5] == rest[i - 1..i + 4];
    assert t[i..i + 8] == rest[i - 1..i + 7];
  }

  /** The whole rewritten script of a privileged command pipes the password
      to every `sudo` it contains. */
  lemma PrivilegedScriptReadsStdin(command: string, password: string)
    requires StartsWith(command, Sudo)
    ensures StartsWith(Rewrite(command, password), PasswordPipe(password))
    ensures ReplaceAll(Rewrite(command, password)[|PasswordPipe(password)|..], SudoStdin, Sudo) == command
    ensures EverySudoReadsStdin(Rewrite(command, password)[|PasswordPipe(password)|..])
  {
    var pipe := PasswordPipe(password);
    assert Rewrite(command, password)[|pipe|..] == AddStdinFlag(command);
    RewriteIsReversible(command);
    RewriteReachesEverySudo(command);
  }

  /** The password is part of the argument string handed to `/bin/bash`
      whenever the command is privileged, and so is visible in the process
      list. */
  lemma PasswordInArguments(command: string, password: string)
    requires StartsWith(command, Sudo)
    ensures OccursAt(BashArguments(Rewrite(command, password)), "'" + password + "'", 9)
  {
    var args := BashArguments(Rewrite(command, password));
    assert args == "-c \"echo " + ("'" + password + "'") + " | " + AddStdinFlag(command) + "\"";
  }

  // ---- Output capture -------------------------------------------------------

  /** The captured buffer holds exactly the non-empty lines, each ended by a
      line feed: splitting it gives them back, followed by the empty text
      after the last line feed. */
  lemma {:induction false} CaptureRoundTrip(lines: seq<string>)
    requires forall i :: 0 <= i < |lines| ==> NoLineBreak(lines[i])
    ensures SplitLines(Capture(lines)) == NonEmpty(lines) + [""]
  {
    if |lines| == 0 {
      SplitNothing();
    } else {
      var rest := lines[1..];
      assert forall i :: 0 <= i < |rest| ==> rest[i] == lines[i + 1];
      CaptureRoundTrip(rest);
      assert lines == [lines[0]] + rest;
      CaptureOneMore(lines[0], rest);
    }
  }

  /** The round trip survives putting one more line in front. */
  lemma CaptureOneMore(line: string, rest: seq<string>)
    requires NoLineBreak(line)
    requires SplitLines(Capture(rest)) == NonEmpty(rest) + [""]
    ensures SplitLines(Capture([line] + rest)) == NonEmpty([line] + rest) + [""]
  {
    if line != "" {
      var kept := NonEmpty(rest);
      var tail := Capture(rest);
      assert Capture([line] + rest) == line + "\n" + tail by {
        CaptureCons(line, rest);
      }
      assert SplitLines(line + "\n" + tail) == [line] + (kept + [""]) by {
        SplitLinesCons(line, tail);
      }
      assert NonEmpty([line] + rest) == [line] + kept by {
        CaptureCons(line, rest);
      }
      AppendAssociates([line], kept, [""]);
    } else {
      CaptureCons(line, rest);
    }
  }

  lemma AppendAssociates(a: seq<string>, b: seq<string>, c: seq<string>)
    ensures a + (b + c) == (a + b) + c
  {
  }

  /** Capturing, and keeping the non-empty lines, of one more line in front. */
  lemma CaptureCons(line: string, rest: seq<string>)
    ensures line == "" ==> Capture([line] + rest) == Capture(rest) && NonEmpty([line] + rest) == NonEmpty(rest)
    ensures line != "" ==> Capture([line] + rest) == line + "\n" + Capture(rest)
    ensures line != "" ==> NonEmpty([line] + rest) == [line] + NonEmpty(rest)
  {
    assert ([line] + rest)[1..] == rest;
  }

  /** The empty text is one empty line. */
  lemma SplitNothing()
    ensures SplitLines("") == [""]
  {
    assert LeadingCount("", InLine) == 0;
  }

  /** Capture keeps the non-empty lines of a stream's text and nothing else. */
  lemma CapturedStreamLines(text: string)
    ensures SplitLines(Capture(SplitLines(text))) == NonEmpty(SplitLines(text)) + [""]
  {
    CaptureRoundTrip(SplitLines(text));
  }

  /** The buffer stays empty exactly when every line received was empty, and
      otherwise ends with the line feed `AppendLine` wrote last. */
  lemma {:induction false} CaptureShape(lines: seq<string>)
    ensures Capture(lines) == "" <==> forall i :: 0 <= i < |lines| ==> lines[i] == ""
    ensures |Capture(lines)| > 0 ==> Capture(lines)[|Capture(lines)| - 1] == '\n'
  {
    if |lines| > 0 {
      var rest := lines[1..];
      CaptureShape(rest);
      assert forall i :: 0 < i < |lines| ==> lines[i] == rest[i - 1];
      CaptureCons(lines[0], rest);
      assert lines == [lines[0]] + rest;
    }
  }

  /** Output consisting only of empty lines is returned as the empty text. */
  lemma {:induction false} EmptyLinesCaptureNothing(lines: seq<string>)
    requires forall i :: 0 <= i < |lines| ==> lines[i] == ""
    ensures Capture(lines) == "" && Trim(Capture(lines)) == ""
  {
    if |lines| > 0 {
      EmptyLinesCaptureNothing(lines[1..]);
    }
  }

  // ---- Results and failures -------------------------------------------------

  /** A nonzero exit code fails with a message naming the rewritten script
      and carrying the captured standard error. */
  lemma ExitFailureMessage(run: Oracle, password: string, command: string)
    requires run(Shell, BashArguments(Rewrite(command, password))).Exited?
    requires run(Shell, BashArguments(Rewrite(command, password))).exitCode != 0
    ensures var err := run(Shell, BashArguments(Rewrite(command, password))).stderr;
      ExecuteCommand(run, password, command) ==
        Failure(CommandFailed(FailureMessage(Rewrite(command, password), ExitFailurePrefix + Capture(SplitLines(err)))))
  {
  }

  /** The failure message of a privileged command contains the password. */
  lemma FailureRevealsPassword(run: Oracle, password: string, command: string)
    requires StartsWith(command, Sudo)
    requires ExecuteCommand(run, password, command).Failure?
    ensures OccursAt(ExecuteCommand(run, password, command).error.message, "'" + password + "'", |FailurePrefix| + 5)
  {
    var r := ExecuteCommand(run, password, command);
    assert StartsWith(r.error.message, FailurePrefix + Rewrite(command, password));
    MessageQuotesPassword(Rewrite(command, password), r.error.message, password);
  }

  /** A message that starts with the failure prefix and a script starting
      with the password pipe holds the quoted password just after `echo `. */
  lemma MessageQuotesPassword(script: string, msg: string, password: string)
    requires StartsWith(script, PasswordPipe(password) + SudoStdin)
    requires StartsWith(msg, FailurePrefix + script)
    ensures OccursAt(msg, "'" + password + "'", |FailurePrefix| + 5)
  {
    var quoted := "'" + password + "'";
    var pipe := PasswordPipe(password);
    var head := FailurePrefix + script;
    assert pipe == "echo " + quoted + " | ";
    forall j | 0 <= j < |quoted|
      ensures msg[|FailurePrefix| + 5 + j] == quoted[j]
    {
      assert msg[|FailurePrefix| + 5 + j] == msg[..|head|][|FailurePrefix| + 5 + j];
      assert head[|FailurePrefix| + 5 + j] == script[5 + j];
      assert script[5 + j] == (pipe + SudoStdin)[5 + j] == pipe[5 + j];
    }
    assert msg[|FailurePrefix| + 5..|FailurePrefix| + 5 + |quoted|] == quoted;
  }

  lemma SingleLineCapture(line: string)
    requires line != "" && NoLineBreak(line)
    ensures Capture(SplitLines(line + "\n")) == line + "\n"
  {
    SplitLinesCons(line, "");
    assert line + "\n" + "" == line + "\n";
    assert SplitLines("") == [""] by {
      assert LeadingCount("", InLine) == 0;
    }
    assert Capture([line, ""]) == line + "\n" by {
      assert Capture([line, ""][1..]) == "";
    }
  }

  /** A zero exit code returns the trimmed capture of standard output. */
  lemma ExitSuccessResult(run: Oracle, password: string, command: string)
    requires run(Shell, BashArguments(Rewrite(command, password))).Exited?
    requires run(Shell, BashArguments(Rewrite(command, password))).exitCode == 0
    ensures var out := run(Shell, BashArguments(Rewrite(command, password))).stdout;
      ExecuteCommand(run, password, command) == Success(Trim(Capture(SplitLines(out))))
  {
  }

  /** `nproc`'s output `8` and a line feed is captured and trimmed to `8`. */
  lemma NprocCapture()
    ensures Trim(Capture(SplitLines("8\n"))) == "8"
  {
    SingleLineCapture("8");
    assert "8" + "\n" == "8\n";
    assert Capture(SplitLines("8\n")) == "8\n";
    TrimLineFeed();
  }

  lemma TrimLineFeed()
    ensures Trim("8\n") == "8"
  {
    assert All("\n", IsWhiteSpace);
    StripPadded("", "8", "\n", IsWhiteSpace);
    assert "" + "8" + "\n" == "8\n";
  }

  /** `nproc` printing `8` and a line feed is read as `8`. */
  lemma NprocExample(run: Oracle, password: string)
    requires run(Shell, "-c \"nproc\"") == Exited(0, "8\n", "")
    ensures ExecuteCommand(run, password, "nproc") == Success("8")
  {
    var script := Rewrite("nproc", password);
    assert script == "nproc" by {
      assert "nproc"[..5][0] != Sudo[0];
    }
    assert BashArguments(script) == "-c \"nproc\"";
    ExitSuccessResult(run, password, "nproc");
    NprocCapture();
  }

  /** A command exiting with code 1 and `permission denied` on standard error
      fails with a message holding both the script and that text. */
  lemma PermissionDeniedExample(run: Oracle, password: string, command: string)
    requires run(Shell, BashArguments(Rewrite(command, password))) == Exited(1, "", "permission denied\n")
    ensures ExecuteCommand(run, password, command) ==
      Failure(CommandFailed(FailureMessage(Rewrite(command, password), ExitFailurePrefix + "permission denied\n")))
  {
    ExitFailureMessage(run, password, command);
    PermissionDeniedCapture();
  }

  lemma PermissionDeniedCapture()
    ensures Capture(SplitLines("permission denied\n")) == "permission denied\n"
  {
    SingleLineCapture("permission denied");
    assert "permission denied" + "\n" == "permission denied\n";
  }
}
