/** The thread that watches one tunnel process, and the events it sends. */
module TunnelMonitor {
  import opened CText

  const MAX_CHECKS := 24

  /** How a process ended; `waitpid` itself may fail. */
  datatype Exit = Exited(code: nat) | Signalled(signal: nat) | Unknown

  datatype Probe = Alive | Gone(exit: Exit)

  datatype Status = Starting | Active | Error | Inactive

  /** `code` is the exit code, but the process identifier in the report that a tunnel is starting. */
  datatype Report = Report(status: Status, code: int, message: Maybe<string>)

  function ExitCode(e: Exit): int {
    match e
    case Exited(c) => c
    case Signalled(n) => 0 - n
    case Unknown => -1
  }

  /** The method `tunnel_monitor_thread`: `probes` answers the polls, `last` is how the process
      ends if it outlives them, `errors` what it wrote. */
  method Watch(probes: nat -> Probe, last: Exit, errors: Maybe<string>) returns (sent: seq<Report>, checks: nat)
    ensures checks <= MAX_CHECKS
    ensures forall i :: 0 <= i < checks - 1 ==> probes(i).Alive?
    ensures if Survives(probes) then checks == MAX_CHECKS else checks > 0 && probes(checks - 1).Gone?
    ensures sent == (var code := ExitCode(if Survives(probes) then last else probes(checks - 1).exit);
                     Ending(Survives(probes), code, errors))
  {
    sent, checks := [], 0;
    var declared := false;
    var exit := last;
    while checks < MAX_CHECKS
      invariant checks <= MAX_CHECKS && exit == last && forall i :: 0 <= i < checks ==> probes(i).Alive?
    {
      var p := probes(checks);
      checks := checks + 1;
      if p.Gone? {
        exit := p.exit;
        break;
      }
    }
    if probes(checks - 1).Alive? {
      declared := true;
      sent := sent + [Report(Active, 0, None)];
    }
    var code := -1;
    match exit {
      case Exited(c) => code := c;
      case Signalled(n) => code := 0 - n;
      case Unknown =>
    }
    if code != 0 && !declared { sent := sent + [Report(Error, code, errors)]; }
    sent := sent + [Report(Inactive, code, if code != 0 then errors else None)];
  }

  /** The process outlives all 24 polls. */
  predicate Survives(probes: nat -> Probe) {
    forall i :: 0 <= i < MAX_CHECKS ==> probes(i).Alive?
  }

  function Ending(survived: bool, code: int, errors: Maybe<string>): seq<Report> {
    if survived then [Report(Active, 0, None), Report(Inactive, code, if code != 0 then errors else None)]
    else if code != 0 then [Report(Error, code, errors), Report(Inactive, code, errors)]
    else [Report(Inactive, 0, None)]
  }

  function Statuses(rs: seq<Report>): seq<Status> {
    seq(|rs|, i requires 0 <= i < |rs| => rs[i].status)
  }

  /** The three words a tunnel's events can form. */
  predicate Word(w: seq<Status>) {
    w == [Starting, Active, Inactive] || w == [Starting, Error, Inactive] || w == [Starting, Inactive]
  }

  /** Everything sent about one tunnel: `process_manager_start_tunnel` announces it, the monitor it
      launches does the rest. The statuses form one of three words; `Active` is sent exactly if all 24
      polls found the process alive, `Error` exactly if the exit code is not zero and `Active` was not
      sent; and the last report carries the exit code. */
  method Serve(pid: int, probes: nat -> Probe, last: Exit, errors: Maybe<string>)
    returns (sent: seq<Report>, checks: nat)
    ensures Word(Statuses(sent)) && sent[0] == Report(Starting, pid, None)
    ensures Active in Statuses(sent) <==> forall i :: 0 <= i < 24 ==> probes(i).Alive?
    ensures 0 < checks <= 24 && forall i :: 0 <= i < checks - 1 ==> probes(i).Alive?
    ensures Active !in Statuses(sent) ==> probes(checks - 1).Gone?
    ensures var code := sent[|sent| - 1].code;
            && (Error in Statuses(sent) <==> code != 0 && Active !in Statuses(sent))
            && (match if Active in Statuses(sent) then last else probes(checks - 1).exit
                case Exited(c) => code == c
                case Signalled(n) => code == -(n as int)
                case Unknown => code == -1)
            && sent[|sent| - 1].message == (if code != 0 then errors else None)
            && (Error in Statuses(sent) ==> sent[1] == Report(Error, code, errors))
    ensures Active in Statuses(sent) ==> sent[1] == Report(Active, 0, None)
  {
    sent := [Report(Starting, pid, None)];
    var rest;
    rest, checks := Watch(probes, last, errors);
    sent := sent + rest;
    assert Statuses(sent) == if |rest| == 2 then [Starting, rest[0].status, Inactive] else [Starting, Inactive];
  }
}
