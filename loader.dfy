/** The agent loader injected into the game's JVM: one slot holding the
    loaded client library, the unload / load / reload operations on it, the
    shutdown hook, the signal-handler guard, the JVM health monitor and the
    one-line command protocol of its socket server.

    A dynamic library is abstracted to an identity and whether it exports
    the `initialize_client` and `cleanup_client` symbols; calling one of
    them is recorded in a trace of calls. The file system, the clock and
    the dynamic linker are a `Host` of query functions. */
module Loader {

  import opened Results
  import opened Strings

  /** A loaded dynamic library. */
  datatype Library = Library(id: nat, hasInit: bool, hasCleanup: bool)

  /** A call the loader makes into a library's exported symbols. */
  datatype Call = Initialize(lib: nat) | Cleanup(lib: nat)

  /** What the loader asks of the operating system.
      `present`: does a path exist; `open`: the dynamic linker's answer;
      `fileName`: the last component of a path as UTF-8 text;
      `copy`: whether copying a file succeeds; `absolute`: the absolute
      form of a relative path. */
  datatype Host = Host(
    present: string -> bool,
    open: string -> Option<Library>,
    fileName: string -> Option<string>,
    copy: (string, string) -> bool,
    absolute: string -> Option<string>)

  datatype LoadError =
    | Missing(path: string)
    | OpenFailed(path: string)
    | InvalidFileName
    | CopyFailed(temp: string)
    | NoAbsolutePath(temp: string)

  /** The library slot and the calls made into libraries so far. */
  datatype Slot = Slot(held: Option<Library>, calls: seq<Call>)

  /** The calls made when a library leaves the slot through unloading. */
  function CleanupCalls(held: Option<Library>): (r: seq<Call>)
    ensures |r| <= 1
    ensures r != [] <==> held.Some? && held.value.hasCleanup
    ensures r != [] ==> r == [Cleanup(held.value.id)]
  {
    match held
    case None => []
    case Some(lib) => if lib.hasCleanup then [Cleanup(lib.id)] else []
  }

  /** The calls made when a library enters the slot. */
  function InitCalls(lib: Library): (r: seq<Call>)
    ensures r != [] <==> lib.hasInit
    ensures r != [] ==> r == [Initialize(lib.id)]
  {
    if lib.hasInit then [Initialize(lib.id)] else []
  }

  // Pure specification of the slot operations

  /** `unload_client_library`: the held library's cleanup runs, then the
      slot is emptied. */
  function Unloaded(s: Slot): Slot
  {
    Slot(None, s.calls + CleanupCalls(s.held))
  }

  /** `load_client_library`: unload first, and only then check the path,
      open the library and run its initializer. */
  function Loaded(s: Slot, path: string, host: Host): (Slot, Result<(), LoadError>)
  {
    var u := Unloaded(s);
    if !host.present(path) then (u, Err(Missing(path)))
    else match host.open(path)
      case None => (u, Err(OpenFailed(path)))
      case Some(lib) => (Slot(Some(lib), u.calls + InitCalls(lib)), Ok(()))
  }

  /** The name of the temporary copy made for a reload. */
  function TempName(now: nat, fileName: string): string
  {
    "temp_" + Decimal(now) + "_" + fileName
  }

  predicate IsQuote(c: char) { c == '"' || c == '\'' }

  /** The text handed to the loader for a temporary copy: the absolute
      path rendered between double quotes, then stripped of quote
      characters at both ends. */
  function Unquoted(abs: string): string
  {
    Trim("\"" + abs + "\"", IsQuote)
  }

  /** What a reload does to the slot and to the list of temporary files
      scheduled for deletion, and its result. */
  function Reloaded(s: Slot, deletions: seq<string>, libPath: string, now: nat, host: Host)
    : (Slot, seq<string>, Result<(), LoadError>)
  {
    match host.fileName(libPath)
    case None => (s, deletions, Err(InvalidFileName))
    case Some(f) =>
      var temp := TempName(now, f);
      if !host.copy(libPath, temp) then (s, deletions, Err(CopyFailed(temp)))
      else match host.absolute(temp)
        case None => (s, deletions, Err(NoAbsolutePath(temp)))
        case Some(abs) =>
          var (s', r) := Loaded(s, Unquoted(abs), host);
          (s', deletions + [temp], r)
  }

  // Slot lemmas

  /** Unloading twice is unloading once, and unloading an empty slot
      changes nothing. */
  lemma UnloadIdempotent(s: Slot)
    ensures Unloaded(Unloaded(s)) == Unloaded(s)
    ensures s.held.None? ==> Unloaded(s) == s
  {
    assert s.calls + [] == s.calls;
    assert Unloaded(s).calls + [] == Unloaded(s).calls;
  }

  /** A load succeeds exactly when the path exists and opens; it leaves the
      opened library in the slot, after the old library's cleanup and
      before nothing but the new one's initializer. Every failed load still
      leaves the slot empty, the old library cleaned up. */
  lemma LoadOutcome(s: Slot, path: string, host: Host)
    ensures Loaded(s, path, host).1.Ok? <==> host.present(path) && host.open(path).Some?
    ensures Loaded(s, path, host).1.Ok? ==>
      Loaded(s, path, host).0.held == host.open(path)
      && Loaded(s, path, host).0.calls
         == s.calls + CleanupCalls(s.held) + InitCalls(host.open(path).value)
    ensures Loaded(s, path, host).1.Err? ==> Loaded(s, path, host).0 == Unloaded(s)
    ensures !host.present(path) ==> Loaded(s, path, host).1 == Err(Missing(path))
  {
  }

  /** Loading the same path twice gives the same slot as loading it once,
      apart from the extra cleanup and initializer of the reloaded library. */
  lemma LoadTwice(s: Slot, path: string, host: Host)
    requires host.present(path) && host.open(path).Some?
    ensures var lib := host.open(path).value;
      var once := Loaded(s, path, host).0;
      Loaded(once, path, host).0
      == Slot(Some(lib), once.calls + CleanupCalls(Some(lib)) + InitCalls(lib))
  {
  }

  /** The temporary copy's name starts with `temp_` and the decimal
      timestamp, and ends with `_` and the original file name. */
  lemma TempNameShape(now: nat, f: string)
    ensures var t := TempName(now, f);
      var k := 5 + |Decimal(now)|;
      |t| == k + 1 + |f| && t[..5] == "temp_" && t[5..k] == Decimal(now)
      && t[k] == '_' && t[k + 1..] == f
  {
  }

  /** Two reloads at different seconds, or of files with different names,
      make different temporary copies. */
  lemma {:induction false} TempNameInjective(n1: nat, f1: string, n2: nat, f2: string)
    requires TempName(n1, f1) == TempName(n2, f2)
    ensures n1 == n2 && f1 == f2
  {
    var t := TempName(n1, f1);
    var d1, d2 := Decimal(n1), Decimal(n2);
    TempNameShape(n1, f1);
    TempNameShape(n2, f2);
    // The first '_' after the prefix ends the timestamp in both readings.
    assert |d1| == |d2|;
    assert d1 == d2;
    DecimalValue(n1);
    DecimalValue(n2);
  }

  /** A path whose ends are not quote characters reaches the loader as it
      is. */
  lemma UnquotedPlain(abs: string)
    requires abs != [] && !IsQuote(abs[0]) && !IsQuote(abs[|abs| - 1])
    ensures Unquoted(abs) == abs
  {
    var q := "\"" + abs + "\"";
    assert q[1..] == abs + "\"";
    assert TrimStart(q, IsQuote) == abs + "\"" by {
      assert TrimStart(q, IsQuote) == TrimStart(q[1..], IsQuote);
    }
    assert (abs + "\"")[..|abs|] == abs;
  }

  /** A reload that cannot name, copy or locate the temporary file fails
      before anything changes; once the copy is located, it is always
      scheduled for deletion, and the load of the copy decides the rest. */
  lemma ReloadOutcome(s: Slot, d: seq<string>, libPath: string, now: nat, host: Host)
    ensures var (s', d', r) := Reloaded(s, d, libPath, now, host);
      (host.fileName(libPath).None? ==> (s', d', r) == (s, d, Err(InvalidFileName)))
      && (host.fileName(libPath).Some? ==>
           var temp := TempName(now, host.fileName(libPath).value);
           (!host.copy(libPath, temp) ==> (s', d', r) == (s, d, Err(CopyFailed(temp))))
           && (host.copy(libPath, temp) && host.absolute(temp).None? ==>
                 (s', d', r) == (s, d, Err(NoAbsolutePath(temp))))
           && (host.copy(libPath, temp) && host.absolute(temp).Some? ==>
                 d' == d + [temp]
                 && (s', r) == Loaded(s, Unquoted(host.absolute(temp).value), host)))
    ensures Reloaded(s, d, libPath, now, host).2.Ok? ==>
      Reloaded(s, d, libPath, now, host).0.held.Some?
  {
  }

  // The one-line command protocol

  datatype Command =
    | Reload(path: string)
    | ReloadWithoutPath
    | Unknown(word: string)
    | Empty

  /** `BufRead::read_line` on a connection: the received text up to and
      including the first newline, or all of it when it holds none. */
  function ReadLine(received: string): (r: string)
    ensures r <= received
    ensures '\n' !in received ==> r == received
    ensures '\n' in received ==> r != [] && r[|r| - 1] == '\n' && '\n' !in r[..|r| - 1]
  {
    match IndexOf(received, '\n')
    case None => received
    case Some(k) => received[..k + 1]
  }

  /** The socket server's reading of one received line: trim it, split it
      once at the first space, and look at the first piece. */
  function ParseCommand(line: string): Command
  {
    var parts := SplitOnce(Trim(line, IsRustSpace), ' ');
    if |parts| == 0 then Empty
    else if parts[0] == "reload" then
      if |parts| >= 2 then Reload(parts[1]) else ReloadWithoutPath
    else Unknown(parts[0])
  }

  /** `splitn` always yields a first piece, so no line is read as empty; a
      blank line is an unknown command with the empty word. */
  lemma NoEmptyCommand(line: string)
    ensures ParseCommand(line) != Empty
    ensures Trim(line, IsRustSpace) == [] ==> ParseCommand(line) == Unknown("")
  {
  }

  /** A `reload` command with a path is exactly a trimmed line made of
      the word, one space and the path. */
  lemma ReloadCommandMeaning(line: string, p: string)
    ensures ParseCommand(line) == Reload(p) <==> Trim(line, IsRustSpace) == "reload" + [' '] + p
  {
    var t := Trim(line, IsRustSpace);
    if t == "reload" + [' '] + p {
      SplitOnceAt("reload", ' ', p);
    }
  }

  /** A bare `reload` is exactly a trimmed line holding only the word. */
  lemma ReloadWithoutPathMeaning(line: string)
    ensures ParseCommand(line) == ReloadWithoutPath <==> Trim(line, IsRustSpace) == "reload"
  {
    var t := Trim(line, IsRustSpace);
    var parts := SplitOnce(t, ' ');
    if t == "reload" {
      assert ' ' !in "reload";
      assert |parts| == 1;
    }
    if ParseCommand(line) == ReloadWithoutPath {
      assert |parts| == 1 && parts[0] == t;
    }
  }

  /** Any other first word is reported as unknown: it is the trimmed line's
      text up to its first space. */
  lemma UnknownCommandWord(line: string, w: string)
    requires ParseCommand(line) == Unknown(w)
    ensures w != "reload" && ' ' !in w
    ensures var t := Trim(line, IsRustSpace);
      t == w || (|w| < |t| && t[..|w| + 1] == w + [' '])
  {
    var t := Trim(line, IsRustSpace);
    var parts := SplitOnce(t, ' ');
    if |parts| == 2 {
      assert t[..|parts[0]| + 1] == parts[0] + [' '];
    }
  }

  /** Conversely, a line whose first word is not `reload` is reported as
      unknown with that word. */
  lemma UnknownCommandOf(line: string, w: string, rest: string)
    requires w != "reload" && ' ' !in w
    requires Trim(line, IsRustSpace) == w || Trim(line, IsRustSpace) == w + [' '] + rest
    ensures ParseCommand(line) == Unknown(w)
  {
    if Trim(line, IsRustSpace) != w {
      SplitOnceAt(w, ' ', rest);
    }
  }

  /** The injector sends `reload <path>` and the server reads one line of
      it: the same path comes back when it holds no newline and does not
      end in whitespace; a path with a newline is cut at it and never
      comes back whole. */
  lemma InjectorCommand(p: string)
    requires p != [] && !IsRustSpace(p[|p| - 1])
    ensures '\n' !in p ==> ParseCommand(ReadLine("reload " + p)) == Reload(p)
    ensures '\n' in p ==> ParseCommand(ReadLine("reload " + p)) != Reload(p)
  {
    var line := "reload " + p;
    var read := ReadLine(line);
    if '\n' !in p {
      assert '\n' !in line by {
        forall i | 0 <= i < |line| ensures line[i] != '\n' {
          if i >= 7 { assert line[i] == p[i - 7]; }
        }
      }
      assert line[|line| - 1] == p[|p| - 1];
      TrimNoop(line, IsRustSpace);
      ReloadCommandMeaning(line, p);
    } else {
      assert '\n' in line by {
        var k :| 0 <= k < |p| && p[k] == '\n';
        assert line[k + 7] == '\n';
      }
      // the line read ends in its newline, which the trim drops, so the
      // trimmed line is shorter than `reload ` and the whole path
      assert read[|read| - 1] == '\n' && IsRustSpace('\n');
      TrimDropsLast(read, IsRustSpace);
      ReloadCommandMeaning(read, p);
    }
  }

  // The JVM health monitor

  /** The answers of one health-check cycle: attaching the thread, finding
      `java/lang/System` through a second attach, and the VM pointer. */
  datatype Check = Check(attach: bool, reattachFinds: bool, pointerValid: bool)

  /** The class lookup is attempted only after a successful attach. */
  function ClassesOk(c: Check): bool
  {
    if c.attach then c.reattachFinds else false
  }

  predicate Fails(c: Check)
  {
    !c.attach || !ClassesOk(c) || !c.pointerValid
  }

  const MaxFailures: nat := 3

  /** The monitor's verdict over a run of cycles: whether it declared the
      VM dead, the failure count it ended with, and how many cycles ran. */
  datatype Verdict = Verdict(died: bool, failures: nat, cycles: nat)

  /** The monitor loop from a given count of consecutive failures. */
  function Watch(checks: seq<Check>, failures: nat): (v: Verdict)
    requires failures < MaxFailures
    ensures v.died <==> v.failures == MaxFailures
    ensures v.failures <= MaxFailures && v.cycles <= |checks|
    ensures !v.died ==> v.cycles == |checks|
  {
    if checks == [] then Verdict(false, failures, 0)
    else
      var n := if Fails(checks[0]) then failures + 1 else 0;
      if n >= MaxFailures then Verdict(true, n, 1)
      else
        Shift(Watch(checks[1..], n), 1)
  }

  /** A verdict reached after `k` earlier cycles. */
  function Shift(v: Verdict, k: nat): Verdict
  {
    v.(cycles := v.cycles + k)
  }

  /** `k` failing cycles in a row starting at position `i`. */
  predicate FailRun(checks: seq<Check>, i: nat, k: nat)
  {
    i + k <= |checks| && forall j :: i <= j < i + k ==> Fails(checks[j])
  }

  /** Starting from `f` failures, the monitor declares the VM dead exactly
      when the first `3 - f` cycles fail, or three consecutive cycles fail
      somewhere. */
  lemma {:induction false} WatchDies(checks: seq<Check>, f: nat)
    requires f < MaxFailures
    ensures Watch(checks, f).died <==>
      FailRun(checks, 0, MaxFailures - f)
      || exists i :: 0 <= i && FailRun(checks, i, MaxFailures)
  {
    if checks != [] {
      var n := if Fails(checks[0]) then f + 1 else 0;
      var tail := checks[1..];
      if n < MaxFailures {
        WatchDies(tail, n);
        // Shift runs between `checks` and its tail.
        if exists i :: 0 <= i && FailRun(tail, i, MaxFailures) {
          var i :| 0 <= i && FailRun(tail, i, MaxFailures);
          assert FailRun(checks, i + 1, MaxFailures);
        }
        if FailRun(tail, 0, MaxFailures - n) {
          if n == 0 {
            assert FailRun(checks, 1, MaxFailures);
          } else {
            assert FailRun(checks, 0, MaxFailures - f);
          }
        }
        if exists i :: 0 <= i && FailRun(checks, i, MaxFailures) {
          var i :| 0 <= i && FailRun(checks, i, MaxFailures);
          if i == 0 {
            assert FailRun(tail, 0, MaxFailures - n);
          } else {
            assert FailRun(tail, i - 1, MaxFailures);
          }
        }
        if FailRun(checks, 0, MaxFailures - f) {
          assert FailRun(tail, 0, MaxFailures - n);
        }
      } else {
        assert FailRun(checks, 0, MaxFailures - f);
      }
    }
  }

  /** Healthy cycles keep the monitor going: a run with no failing cycle
      never declares the VM dead. */
  lemma HealthyNeverDies(checks: seq<Check>, f: nat)
    requires f < MaxFailures
    requires forall j :: 0 <= j < |checks| ==> !Fails(checks[j])
    ensures !Watch(checks, f).died
  {
    WatchDies(checks, f);
    if f < MaxFailures && checks != [] {
      assert !FailRun(checks, 0, MaxFailures - f) by {
        assert !Fails(checks[0]);
      }
    }
  }

  // The loader's global state

  /** The agent's statics: the library slot, the running flag, the
      signal-handler guard, and the temporary files whose deletion has
      been scheduled. */
  class AgentLoader {
    var held: Option<Library>
    var calls: seq<Call>
    var running: bool
    var handlersInstalled: bool
    var installs: nat
    var deletions: seq<string>

    function SlotState(): Slot
      reads this
    {
      Slot(held, calls)
    }

    /** Signal handlers are installed once, and only when the guard is set. */
    predicate Valid()
      reads this
    {
      installs == if handlersInstalled then 1 else 0
    }

    /** The statics as the process starts. */
    constructor()
      ensures held == None && calls == [] && running
      ensures !handlersInstalled && installs == 0 && deletions == []
      ensures Valid()
    {
      held := None;
      calls := [];
      running := true;
      handlersInstalled := false;
      installs := 0;
      deletions := [];
    }

    method UnloadClientLibrary() returns (r: Result<(), LoadError>)
      modifies this
      ensures r == Ok(())
      ensures SlotState() == Unloaded(old(SlotState()))
      ensures running == old(running) && deletions == old(deletions)
      ensures handlersInstalled == old(handlersInstalled) && installs == old(installs)
    {
      if held.Some? {
        var lib := held.value;
        if lib.hasCleanup {
          calls := calls + [Cleanup(lib.id)];
        }
        held := None;
      } else {
        assert calls + [] == calls;
      }
      return Ok(());
    }

    method LoadClientLibrary(path: string, host: Host) returns (r: Result<(), LoadError>)
      modifies this
      ensures (SlotState(), r) == Loaded(old(SlotState()), path, host)
      ensures running == old(running) && deletions == old(deletions)
      ensures handlersInstalled == old(handlersInstalled) && installs == old(installs)
    {
      // Unloading never fails, so its `?` never returns early.
      var _ := UnloadClientLibrary();
      if !host.present(path) {
        return Err(Missing(path));
      }
      match host.open(path) {
        case None =>
          return Err(OpenFailed(path));
        case Some(lib) =>
          if lib.hasInit {
            calls := calls + [Initialize(lib.id)];
          } else {
            assert calls + [] == calls;
          }
          held := Some(lib);
          return Ok(());
      }
    }

    method ReloadClientLibrary(libPath: string, now: nat, host: Host)
      returns (r: Result<(), LoadError>)
      modifies this
      ensures (SlotState(), deletions, r)
        == Reloaded(old(SlotState()), old(deletions), libPath, now, host)
      ensures running == old(running)
      ensures handlersInstalled == old(handlersInstalled) && installs == old(installs)
    {
      var f := host.fileName(libPath);
      if f.None? {
        return Err(InvalidFileName);
      }
      var temp := TempName(now, f.value);
      if !host.copy(libPath, temp) {
        return Err(CopyFailed(temp));
      }
      var abs := host.absolute(temp);
      if abs.None? {
        return Err(NoAbsolutePath(temp));
      }
      var target := Unquoted(abs.value);
      deletions := deletions + [temp];
      r := LoadClientLibrary(target, host);
    }

    /** The command server's handling of one connection: it reads one line
      of what was received; a `reload` with a path reloads, every other
      line only produces a log message. */
    method ServeLine(received: string, now: nat, host: Host) returns (r: Option<Result<(), LoadError>>)
      modifies this
      ensures ParseCommand(ReadLine(received)).Reload? ==>
        r.Some? && (SlotState(), deletions, r.value)
          == Reloaded(old(SlotState()), old(deletions), ParseCommand(ReadLine(received)).path, now, host)
      ensures !ParseCommand(ReadLine(received)).Reload? ==>
        r == None && SlotState() == old(SlotState()) && deletions == old(deletions)
      ensures running == old(running)
      ensures handlersInstalled == old(handlersInstalled) && installs == old(installs)
    {
      match ParseCommand(ReadLine(received)) {
        case Reload(path) =>
          var res := ReloadClientLibrary(path, now, host);
          r := Some(res);
        case _ =>
          r := None;
      }
    }

    /** `agent_onunload`: the first call clears the running flag and drops
      the held library without calling its cleanup; later calls do
      nothing. */
    method OnUnload()
      modifies this
      ensures !running
      ensures old(running) ==> held == None
      ensures !old(running) ==> held == old(held)
      ensures calls == old(calls) && deletions == old(deletions)
      ensures handlersInstalled == old(handlersInstalled) && installs == old(installs)
    {
      if !running {
        return;
      }
      running := false;
      held := None;
    }

    /** `setup_signal_handlers`: installs the handlers unless the guard was
      already set. */
    method SetupSignalHandlers()
      modifies this
      requires Valid()
      ensures Valid() && handlersInstalled && installs == 1
      ensures installs == old(installs) + (if old(handlersInstalled) then 0 else 1)
      ensures held == old(held) && calls == old(calls) && running == old(running)
      ensures deletions == old(deletions)
    {
      var wasInstalled := handlersInstalled;
      handlersInstalled := true;
      if wasInstalled {
        return;
      }
      installs := installs + 1;
    }

    /** The monitor loop, fed the answers of successive health checks; it
      also stops when the checks run out, which stands for the running
      flag being cleared elsewhere. Three failing cycles in a row call the
      shutdown hook. */
    method MonitorHealth(checks: seq<Check>) returns (v: Verdict)
      modifies this
      ensures old(running) ==> v == Watch(checks, 0)
      ensures !old(running) ==> v == Verdict(false, 0, 0)
      ensures v.died ==> !running && held == None
      ensures !v.died ==> running == old(running) && held == old(held)
      ensures calls == old(calls) && deletions == old(deletions)
      ensures handlersInstalled == old(handlersInstalled) && installs == old(installs)
    {
      var failures: nat := 0;
      var i := 0;
      v := Verdict(false, 0, 0);
      while running && i < |checks|
        invariant 0 <= i <= |checks| && failures < MaxFailures
        invariant running == old(running) && held == old(held)
        invariant calls == old(calls) && deletions == old(deletions)
        invariant handlersInstalled == old(handlersInstalled) && installs == old(installs)
        invariant old(running) ==>
          Watch(checks, 0) == Shift(Watch(checks[i..], failures), i)
        invariant v == Verdict(false, failures, i)
        invariant !old(running) ==> i == 0 && failures == 0
        decreases |checks| - i
      {
        var c := checks[i];
        var attachOk := c.attach;
        var classesOk := if attachOk then c.reattachFinds else false;
        var valid := c.pointerValid;
        if !attachOk || !classesOk || !valid {
          failures := failures + 1;
          if failures >= MaxFailures {
            StepDies(checks, i, failures - 1);
            v := Verdict(true, failures, i + 1);
            OnUnload();
            return;
          }
        } else {
          failures := 0;
        }
        StepOn(checks, i, v.failures);
        i := i + 1;
        v := Verdict(false, failures, i);
      }
      if old(running) {
        assert checks[i..] == [];
      }
    }
  }

  /** One more failing cycle that reaches the limit ends the watch. */
  lemma StepDies(checks: seq<Check>, i: nat, f: nat)
    requires i < |checks| && f < MaxFailures && Fails(checks[i]) && f + 1 >= MaxFailures
    ensures Watch(checks[i..], f) == Verdict(true, f + 1, 1)
  {
  }

  /** One cycle that stays below the limit moves the watch one position on. */
  lemma StepOn(checks: seq<Check>, i: nat, f: nat)
    requires i < |checks| && f < MaxFailures
    requires (if Fails(checks[i]) then f + 1 else 0) < MaxFailures
    ensures Watch(checks[i..], f)
      == Shift(Watch(checks[i + 1..], if Fails(checks[i]) then f + 1 else 0), 1)
  {
    assert checks[i..][1..] == checks[i + 1..];
  }
}
