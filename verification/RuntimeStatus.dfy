/**
  From container states on a node to the orchestrator's phase: refreshSandboxRuntimeState and toSandboxSyncStatus on the
  node, then the merge of module StatusSync. Answers of the container runtime are parameters.
 */
module RuntimeStatus {
  import opened Strings
  import Types
  import StatusSync

  /** What the runtime says of one container; Missing when the status call fails. */
  datatype Cri = Missing | Created | Running | Exited | Unknown | Other

  datatype ContainerPhase = CCreating | CRunning | CStopped | CError

  datatype Container = Container(id: string, name: string, phase: ContainerPhase, error: string, taskStatus: string)

  datatype Phase = SCreating | SRunning | SDeleting | SError

  datatype Sandbox = Sandbox(id: string, ip: string, pauseId: string, phase: Phase, error: string,
    containers: map<string, Container>)

  function WirePhase(p: Phase): string {
    match p
    case SCreating => "creating"
    case SRunning => "running"
    case SDeleting => "deleting"
    case SError => "error"
  }

  function WireContainerPhase(p: ContainerPhase): string {
    match p
    case CCreating => "creating"
    case CRunning => "running"
    case CStopped => "stopped"
    case CError => "error"
  }

  predicate IsPlaceholderContainerID(sandboxId: string, name: string, id: string) {
    sandboxId != "" && name != "" && id != "" && id == sandboxId + "-" + name
  }

  function FillContainerRuntimeState(c: Container, cri: Cri): Container {
    match cri
    case Missing => c.(taskStatus := "not_found", phase := CError, error := "container not found")
    case Running => c.(taskStatus := "running", phase := CRunning, error := "")
    case Created => c.(taskStatus := "created", phase := CCreating, error := "")
    case Exited => c.(taskStatus := "container_exited", phase := CStopped, error := "")
    case Unknown => c.(taskStatus := "container_unknown", phase := CStopped, error := "")
    case Other => c.(taskStatus := "unknown", phase := CError, error := "failed to read container state")
  }

  /** A container's next state: while the sandbox is creating, a placeholder that is not found yet is no error. */
  function NextContainer(sandboxId: string, creating: bool, c: Container, cri: Cri): Container {
    var next := FillContainerRuntimeState(c, cri);
    if creating && next.taskStatus == "not_found" && IsPlaceholderContainerID(sandboxId, next.name, next.id) then
      next.(phase := CCreating, error := "", taskStatus := "creating")
    else next
  }

  function NextContainers(s: Sandbox, cri: string -> Cri): map<string, Container> {
    map n | n in s.containers :: NextContainer(s.id, s.phase.SCreating?, s.containers[n], cri(s.containers[n].id))
  }

  predicate Settled(s: Sandbox) {
    (s.phase.SError? && s.error != "") || s.containers == map[]
  }

  predicate PodAnswers(s: Sandbox, podOk: bool) {
    s.pauseId == "" || podOk
  }

  /** The outcome of a refresh, up to the choice of the error message, which depends on the iteration order. */
  ghost predicate IsRefreshed(s: Sandbox, podOk: bool, cri: string -> Cri, r: Sandbox) {
    if Settled(s) then r == s
    else
      var next := NextContainers(s, cri);
      var hasError := !PodAnswers(s, podOk) || exists n :: n in next && next[n].phase.CError?;
      var allRunning := PodAnswers(s, podOk) && forall n :: n in next ==> next[n].phase.CRunning?;
      && r == s.(containers := next, phase := r.phase, error := r.error)
      && r.phase == (if s.phase.SDeleting? then SDeleting else if hasError then SError else if allRunning
        then SRunning else SCreating)
      && (r.phase.SRunning? ==> r.error == "")
      && (r.phase.SDeleting? || r.phase.SCreating? ==> r.error == s.error)
      && (r.phase.SError? ==>
          if !PodAnswers(s, podOk) then r.error == "pause container is not running"
          else exists n :: n in next && next[n].phase.CError? && r.error == next[n].error)
  }

  /** A sandbox whose error is known, or that has no containers, is left alone; one being deleted stays so. */
  lemma RefreshKeeps(s: Sandbox, podOk: bool, cri: string -> Cri, r: Sandbox)
    requires IsRefreshed(s, podOk, cri, r)
    ensures (s.phase == SError && s.error != "") || s.containers == map[] ==> r == s
    ensures s.phase == SDeleting ==> r.phase == SDeleting && r.error == s.error
    ensures r.id == s.id && r.ip == s.ip && r.pauseId == s.pauseId && r.containers.Keys == s.containers.Keys
  {
  }

  /** The containers outside `rest` are refreshed and the three accumulators say what they should of them. */
  ghost predicate Progress(s: Sandbox, podOk: bool, cri: string -> Cri, rest: set<string>, containers: map<string,
      Container>,
      hasError: bool, err: string, allRunning: bool) {
    var next := NextContainers(s, cri);
    && rest <= s.containers.Keys
    && containers == Partly(s, cri, rest)
    && (hasError <==> !PodAnswers(s, podOk) || exists n :: n in next && n !in rest && next[n].phase.CError?)
    && (allRunning <==> PodAnswers(s, podOk) && forall n :: n in next && n !in rest ==> next[n].phase.CRunning?)
    && (!PodAnswers(s, podOk) ==> err == "pause container is not running")
    && (PodAnswers(s, podOk) && hasError ==>
        err != "" && exists n :: n in next && next[n].phase.CError? && err == next[n].error)
    && (!hasError ==> err == "")
  }

  function Partly(s: Sandbox, cri: string -> Cri, rest: set<string>): map<string, Container> {
    map n | n in s.containers :: if n in rest then s.containers[n] else NextContainers(s, cri)[n]
  }

  lemma ProgressStep(s: Sandbox, podOk: bool, cri: string -> Cri, rest: set<string>, name: string, hasError: bool,
      err: string, allRunning: bool)
    requires name in rest && Progress(s, podOk, cri, rest, Partly(s, cri, rest), hasError, err, allRunning)
    ensures var c := NextContainers(s, cri)[name];
      Progress(s, podOk, cri, rest - {name}, Partly(s, cri, rest)[name := c], hasError || c.phase.CError?,
        if c.phase.CError? && err == "" && c.error != "" then c.error else err, allRunning && c.phase.CRunning?)
  {
    var next := NextContainers(s, cri);
    assert next[name].phase.CError? ==> next[name].error != "";
    assert Partly(s, cri, rest - {name}) == Partly(s, cri, rest)[name := next[name]];
  }

  /** The node's copy of a sandbox, refreshed in place before it is reported. */
  class SandboxCopy {
    const id: string
    const ip: string
    const pauseId: string
    var phase: Phase
    var error: string
    var containers: map<string, Container>

    ghost function Value(): Sandbox
      reads this
    {
      Sandbox(id, ip, pauseId, phase, error, containers)
    }

    constructor (s: Sandbox)
      ensures Value() == s
    {
      id, ip, pauseId, phase, error, containers := s.id, s.ip, s.pauseId, s.phase, s.error, s.containers;
    }

    /** The loop of refreshSandboxRuntimeState. */
    method RefreshContainers(podOk: bool, cri: string -> Cri)
      returns (hasError: bool, sandboxErr: string, allRunning: bool)
      modifies this`containers
      ensures Progress(old(Value()), podOk, cri, {}, containers, hasError, sandboxErr, allRunning)
    {
      ghost var s := Value();
      hasError, sandboxErr, allRunning := false, "", true;
      if pauseId != "" && !podOk {
        hasError, sandboxErr, allRunning := true, "pause container is not running", false;
      }
      var rest := containers.Keys;
      assert Partly(s, cri, rest) == containers;
      while rest != {}
        invariant Progress(s, podOk, cri, rest, containers, hasError, sandboxErr, allRunning)
      {
        var name :| name in rest;
        ProgressStep(s, podOk, cri, rest, name, hasError, sandboxErr, allRunning);
        var c := NextContainer(id, phase.SCreating?, containers[name], cri(containers[name].id));
        containers := containers[name := c];
        if c.phase.CError? {
          hasError := true;
          if sandboxErr == "" && c.error != "" {
            sandboxErr := c.error;
          }
        }
        if !c.phase.CRunning? {
          allRunning := false;
        }
        rest := rest - {name};
      }
    }

    method RefreshRuntimeState(podOk: bool, cri: string -> Cri)
      modifies this
      ensures IsRefreshed(old(Value()), podOk, cri, Value())
    {
      if (phase.SError? && error != "") || containers == map[] {
        return;
      }
      var hasError, sandboxErr, allRunning := RefreshContainers(podOk, cri);
      assert containers == NextContainers(old(Value()), cri);
      if phase.SDeleting? {
      } else if hasError {
        phase, error := SError, sandboxErr;
      } else if allRunning {
        phase, error := SRunning, "";
      } else {
        phase := SCreating;
      }
    }

    /** toSandboxSyncStatus, listing the containers in some order. */
    method ToSandboxSyncStatus() returns (r: StatusSync.Report)
      ensures IsReport(Value(), r)
    {
      var unhealthy: seq<StatusSync.ContainerReport> := [];
      ghost var order: seq<string> := [];
      var rest := containers.Keys;
      while rest != {}
        invariant rest <= containers.Keys
        invariant InOrder(containers, containers.Keys - rest, order, unhealthy)
      {
        var name :| name in rest;
        InOrderNext(containers, containers.Keys - rest, order, unhealthy, name);
        assert containers.Keys - (rest - {name}) == containers.Keys - rest + {name};
        rest := rest - {name};
        var c := containers[name];
        var p := ToLower(TrimSpace(WireContainerPhase(c.phase)));
        ContainerWords(c.phase);
        if !((p == "running" || p == "creating") && TrimSpace(c.error) == "") {
          unhealthy := unhealthy + [StatusSync.ContainerReport(c.name, WireContainerPhase(c.phase), c.error,
            c.taskStatus)];
          order := order + [name];
        }
      }
      assert containers.Keys - rest == containers.Keys;
      r := StatusSync.Report(ip, WirePhase(phase), error, unhealthy);
    }
  }

  predicate Unhealthy(c: Container) {
    !(c.phase.CRunning? || c.phase.CCreating?) || TrimSpace(c.error) != ""
  }

  function Listed(c: Container): StatusSync.ContainerReport {
    StatusSync.ContainerReport(c.name, WireContainerPhase(c.phase), c.error, c.taskStatus)
  }

  /** The unhealthy containers among these names, each once, in some order. */
  ghost predicate InOrder(cs: map<string, Container>, names: set<string>, order: seq<string>,
      out: seq<StatusSync.ContainerReport>) {
    && names <= cs.Keys && |out| == |order|
    && (forall i, j :: 0 <= i < j < |order| ==> order[i] != order[j])
    && (forall n :: n in order <==> n in names && Unhealthy(cs[n]))
    && (forall i :: 0 <= i < |order| ==> out[i] == Listed(cs[order[i]]))
  }

  lemma InOrderNext(cs: map<string, Container>, names: set<string>, order: seq<string>,
      out: seq<StatusSync.ContainerReport>, name: string)
    requires InOrder(cs, names, order, out) && name in cs && name !in names
    ensures if Unhealthy(cs[name]) then InOrder(cs, names + {name}, order + [name], out + [Listed(cs[name])])
      else InOrder(cs, names + {name}, order, out)
  {
    assert forall i :: 0 <= i < |order| ==> order[i] in order;
  }

  ghost predicate IsReport(s: Sandbox, r: StatusSync.Report) {
    && r.ip == s.ip && r.phase == WirePhase(s.phase) && r.error == s.error
    && exists order :: InOrder(s.containers, s.containers.Keys, order, r.unhealthy)
  }

  lemma ContainerWords(p: ContainerPhase)
    ensures var w := ToLower(TrimSpace(WireContainerPhase(p)));
      (w == "running" <==> p.CRunning?) && (w == "creating" <==> p.CCreating?)
  {
    var w := WireContainerPhase(p);
    assert TrimSpace(w) == w && ToLower(w) == w;
  }

  lemma PhaseWords(p: Phase)
    ensures var w := TrimSpace(WirePhase(p));
      && (EqualFold(w, "error") <==> p.SError?)
      && (EqualFold(w, "running") <==> p.SRunning?)
      && (EqualFold(w, "creating") <==> p.SCreating?)
  {
    var w := WirePhase(p);
    assert TrimSpace(w) == w && ToLower(w) == w;
    assert ToLower("error") == "error" && ToLower("running") == "running" && ToLower("creating") == "creating";
  }

  /** A container that cannot be part of a working sandbox. */
  predicate Broken(s: Sandbox, c: Container, cri: Cri) {
    || cri in {Exited, Unknown, Other}
    || (cri == Missing && !(s.phase == SCreating && s.id != "" && c.name != "" && c.id == s.id + "-" + c.name))
  }

  /** The phase the orchestrator ends up with, in terms of the runtime's answers alone. */
  ghost function Verdict(s: Sandbox, podOk: bool, cri: string -> Cri, cur: Types.Phase): Types.Phase {
    if !PodAnswers(s, podOk) || SomeBroken(s, cri) then Types.Failed
    else if AllRunning(s, cri) then Types.Running
    else if cur.Running? then Types.Scheduled
    else cur
  }

  /** One container of the sandbox, and whether it is broken. */
  ghost predicate BrokenAt(s: Sandbox, cri: string -> Cri, n: string) {
    n in s.containers && Broken(s, s.containers[n], cri(s.containers[n].id))
  }

  ghost predicate SomeBroken(s: Sandbox, cri: string -> Cri) {
    exists n :: BrokenAt(s, cri, n)
  }

  ghost predicate AllRunning(s: Sandbox, cri: string -> Cri) {
    forall n :: n in s.containers ==> cri(s.containers[n].id) == Running
  }

  lemma ReportLists(r: Sandbox, report: StatusSync.Report)
    requires IsReport(r, report)
    ensures report.unhealthy == [] <==> forall n :: n in r.containers ==> !Unhealthy(r.containers[n])
  {
    var order :| InOrder(r.containers, r.containers.Keys, order, report.unhealthy);
    if order != [] {
      assert order[0] in order;
    }
  }

  lemma NextVerdicts(s: Sandbox, cri: string -> Cri)
    ensures var next := NextContainers(s, cri);
      && ((exists n :: n in next && Unhealthy(next[n])) <==> SomeBroken(s, cri))
      && ((exists n :: n in next && next[n].phase.CError?) ==> SomeBroken(s, cri))
      && ((forall n :: n in next ==> next[n].phase.CRunning?) <==> AllRunning(s, cri))
  {
    var next := NextContainers(s, cri);
    forall n | n in s.containers
      ensures Unhealthy(next[n]) <==> BrokenAt(s, cri, n)
      ensures next[n].phase.CError? ==> Unhealthy(next[n])
      ensures next[n].phase.CRunning? <==> cri(s.containers[n].id) == Running
    {
      ContainerVerdict(s, s.containers[n], cri(s.containers[n].id));
    }
  }

  /** What the refreshed copy and the report say, in terms of the runtime's answers. */
  lemma RefreshVerdict(s: Sandbox, podOk: bool, cri: string -> Cri, r: Sandbox, report: StatusSync.Report)
    requires s.phase.SCreating? || s.phase.SRunning?
    requires s.containers != map[] && IsRefreshed(s, podOk, cri, r) && IsReport(r, report)
    ensures r.phase.SError? || report.unhealthy != [] <==> !PodAnswers(s, podOk) || SomeBroken(s, cri)
    ensures r.phase.SRunning? ==> PodAnswers(s, podOk) && AllRunning(s, cri)
    ensures PodAnswers(s, podOk) && AllRunning(s, cri) && !SomeBroken(s, cri) ==> r.phase.SRunning?
    ensures !r.phase.SDeleting?
  {
    NextVerdicts(s, cri);
    ReportLists(r, report);
  }

  lemma ContainerVerdict(s: Sandbox, c: Container, cri: Cri)
    ensures var next := NextContainer(s.id, s.phase.SCreating?, c, cri);
      && (Unhealthy(next) <==> Broken(s, c, cri))
      && (next.phase.CError? ==> Unhealthy(next))
      && (next.phase.CRunning? <==> cri == Running)
  {
    assert TrimSpace("container not found") != "" && TrimSpace("failed to read container state") != "";
  }

  lemma MergedPhase(cur: Types.Status, report: StatusSync.Report, p: Phase)
    requires report.phase == WirePhase(p) && !p.SDeleting?
    ensures StatusSync.Merged(cur, report).phase ==
      if p.SError? || report.unhealthy != [] then Types.Failed
      else if p.SRunning? then Types.Running
      else if cur.phase.Running? then Types.Scheduled
      else cur.phase
  {
    PhaseWords(p);
  }

  /**
    End to end, for every iteration order of both loops: Running exactly when the pause pod answers and every container
    runs, Failed when the pod is gone or a container is broken, otherwise the old phase (Running falls back to
    Scheduled).
   */
  lemma EndToEnd(s: Sandbox, podOk: bool, cri: string -> Cri, r: Sandbox, report: StatusSync.Report, cur: Types.Status)
    requires s.phase.SCreating? || s.phase.SRunning?
    requires s.containers != map[] && IsRefreshed(s, podOk, cri, r) && IsReport(r, report)
    requires cur.phase in {Types.Scheduled, Types.Running, Types.Failed}
    ensures StatusSync.Merged(cur, report).phase == Verdict(s, podOk, cri, cur.phase)
    ensures StatusSync.Merged(cur, report).phase.Running? <==> PodAnswers(s, podOk) && AllRunning(s, cri)
  {
    RefreshVerdict(s, podOk, cri, r, report);
    MergedPhase(cur, report, r.phase);
    assert AllRunning(s, cri) ==> !SomeBroken(s, cri);
  }

  // ---------- The reasons ----------

  /** What the runtime's answer about a broken container reads like in the report. */
  predicate ReadsAs(r: StatusSync.ContainerReport, name: string, cri: Cri) {
    r == match cri
      case Missing => StatusSync.ContainerReport(name, "error", "container not found", "not_found")
      case Other => StatusSync.ContainerReport(name, "error", "failed to read container state", "unknown")
      case Exited => StatusSync.ContainerReport(name, "stopped", "", "container_exited")
      case Unknown => StatusSync.ContainerReport(name, "stopped", "", "container_unknown")
      case Running => StatusSync.ContainerReport(name, "running", "", "running")
      case Created => StatusSync.ContainerReport(name, "creating", "", "created")
  }

  lemma BrokenReadsAs(s: Sandbox, c: Container, cri: Cri)
    requires Broken(s, c, cri)
    ensures ReadsAs(Listed(NextContainer(s.id, s.phase.SCreating?, c, cri)), c.name, cri)
  {
  }

  ghost predicate EntryFor(report: StatusSync.Report, i: int, s: Sandbox, cri: string -> Cri, n: string)
    requires 0 <= i < |report.unhealthy| && n in s.containers
  {
    ReadsAs(report.unhealthy[i], s.containers[n].name, cri(s.containers[n].id))
  }

  /** What is listed of one container: it is broken, and reads as the runtime has it. */
  lemma ListedMeans(s: Sandbox, podOk: bool, cri: string -> Cri, r: Sandbox, n: string)
    requires (s.phase.SCreating? || s.phase.SRunning?) && s.containers != map[]
    requires IsRefreshed(s, podOk, cri, r) && n in s.containers
    ensures n in r.containers && (Unhealthy(r.containers[n]) <==> BrokenAt(s, cri, n))
    ensures BrokenAt(s, cri, n) ==> ReadsAs(Listed(r.containers[n]), s.containers[n].name, cri(s.containers[n].id))
  {
    ContainerVerdict(s, s.containers[n], cri(s.containers[n].id));
    if BrokenAt(s, cri, n) {
      BrokenReadsAs(s, s.containers[n], cri(s.containers[n].id));
    }
  }

  /** Every broken container is in the report, in the runtime's words, */
  lemma BrokenIsListed(s: Sandbox, podOk: bool, cri: string -> Cri, r: Sandbox, report: StatusSync.Report, n: string)
    returns (i: nat)
    requires (s.phase.SCreating? || s.phase.SRunning?) && s.containers != map[]
    requires IsRefreshed(s, podOk, cri, r) && IsReport(r, report) && BrokenAt(s, cri, n)
    ensures i < |report.unhealthy| && EntryFor(report, i, s, cri, n)
  {
    var order :| InOrder(r.containers, r.containers.Keys, order, report.unhealthy);
    ListedMeans(s, podOk, cri, r, n);
    i :| 0 <= i < |order| && order[i] == n;
  }

  /** and nothing else is. */
  lemma ListedIsBroken(s: Sandbox, podOk: bool, cri: string -> Cri, r: Sandbox, report: StatusSync.Report, i: nat)
    returns (n: string)
    requires (s.phase.SCreating? || s.phase.SRunning?) && s.containers != map[]
    requires IsRefreshed(s, podOk, cri, r) && IsReport(r, report) && i < |report.unhealthy|
    ensures BrokenAt(s, cri, n) && EntryFor(report, i, s, cri, n)
  {
    var order :| InOrder(r.containers, r.containers.Keys, order, report.unhealthy);
    n := order[i];
    assert n in order && n in r.containers && n in s.containers;
    ListedMeans(s, podOk, cri, r, n);
  }

  /** The error of a container that the runtime does not know, or knows nothing of. */
  ghost predicate Blamed(error: string, s: Sandbox, cri: string -> Cri, n: string)
    requires n in s.containers
  {
    || (cri(s.containers[n].id) == Missing && error == "container not found")
    || (cri(s.containers[n].id) == Other && error == "failed to read container state")
  }

  lemma NextErrors(s: Sandbox, cri: string -> Cri, n: string)
    requires n in s.containers
    ensures var next := NextContainers(s, cri)[n];
      && (next.phase == CError <==> BrokenAt(s, cri, n) && cri(s.containers[n].id) in {Missing, Other})
      && (next.phase == CError ==> Blamed(next.error, s, cri, n))
  {
  }

  /** The refreshed copy's own error: the pod's, or that of a container that cannot be read or found. */
  lemma CopyError(s: Sandbox, podOk: bool, cri: string -> Cri, r: Sandbox)
    requires (s.phase.SCreating? || s.phase.SRunning?) && s.containers != map[] && IsRefreshed(s, podOk, cri, r)
    ensures s.pauseId != "" && !podOk ==> r.phase == SError && r.error == "pause container is not running"
    ensures (s.pauseId == "" || podOk) && r.phase == SError ==>
      exists n :: BrokenAt(s, cri, n) && Blamed(r.error, s, cri, n)
    ensures (s.pauseId == "" || podOk) && r.phase != SError ==>
      forall n :: BrokenAt(s, cri, n) ==> cri(s.containers[n].id) in {Exited, Unknown}
  {
    var next := NextContainers(s, cri);
    forall n | n in s.containers
      ensures next[n].phase == CError <==> BrokenAt(s, cri, n) && cri(s.containers[n].id) in {Missing, Other}
      ensures next[n].phase == CError ==> Blamed(next[n].error, s, cri, n)
    {
      NextErrors(s, cri, n);
    }
  }

  /** A broken container explains a reason: what the runtime said of it leads, or it is named as stopped. */
  ghost predicate ExplainedBy(reason: string, s: Sandbox, cri: string -> Cri, n: string)
    requires n in s.containers
  {
    var says := cri(s.containers[n].id);
    if says == Missing then "container not found" <= reason
    else if says == Other then "failed to read container state" <= reason
    else reason == "container " + s.containers[n].name + " unhealthy (stopped)"
  }

  /** Why the orchestrator calls a sandbox Failed, from the runtime's answers. */
  ghost predicate Explained(reason: string, s: Sandbox, podOk: bool, cri: string -> Cri) {
    if s.pauseId != "" && !podOk then "pause container is not running" <= reason
    else exists n :: BrokenAt(s, cri, n) && ExplainedBy(reason, s, cri, n)
  }

  lemma {:induction false} JoinedStarts(parts: seq<string>)
    requires parts != []
    ensures parts[0] <= StatusSync.Joined(parts)
  {
  }

  predicate KnownError(error: string) {
    || error == "pause container is not running" || error == "container not found"
    || error == "failed to read container state"
  }

  lemma KnownErrorIsTrimmed(error: string)
    requires KnownError(error)
    ensures TrimSpace(error) == error && !Blank(error)
  {
  }

  lemma ErrorReasonStarts(cur: Types.Status, report: StatusSync.Report)
    requires StatusSync.Says(report, "error") && KnownError(report.error)
    ensures report.error <= StatusSync.Merged(cur, report).lastError
  {
    KnownErrorIsTrimmed(report.error);
    StatusSync.FailureMeans(cur, report);
    var parts := StatusSync.Reasons(report);
    assert parts != [] && parts[0] == report.error;
    JoinedStarts(parts);
  }

  lemma StoppedReason(cur: Types.Status, report: StatusSync.Report, name: string)
    requires !StatusSync.Says(report, "error") && report.unhealthy != []
    requires report.unhealthy[0].name == name && report.unhealthy[0].phase == "stopped"
    requires report.unhealthy[0].error == ""
    ensures StatusSync.Merged(cur, report).lastError == "container " + name + " unhealthy (stopped)"
  {
    StatusSync.FailureMeans(cur, report);
    EmptyIsBlank();
    assert TrimSpace("stopped") == "stopped";
    assert "container " + name + " unhealthy (" + "stopped" + ")" == "container " + name + " unhealthy (stopped)";
  }

  /** The copy is in error: its own error leads the reason. */
  lemma CopyExplains(s: Sandbox, podOk: bool, cri: string -> Cri, r: Sandbox, report: StatusSync.Report,
      cur: Types.Status)
    requires (s.phase.SCreating? || s.phase.SRunning?) && s.containers != map[]
    requires IsRefreshed(s, podOk, cri, r) && IsReport(r, report) && r.phase.SError?
    ensures Explained(StatusSync.Merged(cur, report).lastError, s, podOk, cri)
  {
    CopyError(s, podOk, cri, r);
    PhaseSays(report, r.phase);
    var reason := StatusSync.Merged(cur, report).lastError;
    if s.pauseId != "" && !podOk {
      ErrorReasonStarts(cur, report);
    } else {
      var n :| BrokenAt(s, cri, n) && Blamed(r.error, s, cri, n);
      ErrorReasonStarts(cur, report);
      assert ExplainedBy(reason, s, cri, n);
    }
  }

  /** A report in the phase of the copy. */
  lemma PhaseSays(report: StatusSync.Report, p: Phase)
    requires report.phase == WirePhase(p)
    ensures StatusSync.Says(report, "error") <==> p.SError?
  {
    PhaseWords(p);
  }

  lemma StoppedEntry(report: StatusSync.Report, s: Sandbox, cri: string -> Cri, n: string)
    requires report.unhealthy != [] && n in s.containers && EntryFor(report, 0, s, cri, n)
    requires cri(s.containers[n].id) in {Exited, Unknown}
    ensures var c := report.unhealthy[0];
      c.name == s.containers[n].name && c.phase == "stopped" && c.error == ""
  {
  }

  lemma StoppedExplains(reason: string, s: Sandbox, podOk: bool, cri: string -> Cri, n: string)
    requires s.pauseId == "" || podOk
    requires BrokenAt(s, cri, n) && cri(s.containers[n].id) in {Exited, Unknown}
    requires reason == "container " + s.containers[n].name + " unhealthy (stopped)"
    ensures Explained(reason, s, podOk, cri)
  {
    assert ExplainedBy(reason, s, cri, n);
  }

  /** It is not: then every broken container is a stopped one, and the first listed is named. */
  lemma ListExplains(s: Sandbox, podOk: bool, cri: string -> Cri, r: Sandbox, report: StatusSync.Report,
      cur: Types.Status)
    requires (s.phase.SCreating? || s.phase.SRunning?) && s.containers != map[]
    requires IsRefreshed(s, podOk, cri, r) && IsReport(r, report) && !r.phase.SError? && report.unhealthy != []
    ensures Explained(StatusSync.Merged(cur, report).lastError, s, podOk, cri)
  {
    CopyError(s, podOk, cri, r);
    PhaseSays(report, r.phase);
    var n := ListedIsBroken(s, podOk, cri, r, report, 0);
    StoppedEntry(report, s, cri, n);
    StoppedReason(cur, report, s.containers[n].name);
    StoppedExplains(StatusSync.Merged(cur, report).lastError, s, podOk, cri, n);
  }

  /** End to end: a sandbox that ends up Failed says why, in terms of the runtime's answers. */
  lemma EndToEndReason(s: Sandbox, podOk: bool, cri: string -> Cri, r: Sandbox, report: StatusSync.Report,
      cur: Types.Status)
    requires s.phase.SCreating? || s.phase.SRunning?
    requires s.containers != map[] && IsRefreshed(s, podOk, cri, r) && IsReport(r, report)
    requires !PodAnswers(s, podOk) || SomeBroken(s, cri)
    ensures StatusSync.Merged(cur, report).phase == Types.Failed
    ensures Explained(StatusSync.Merged(cur, report).lastError, s, podOk, cri)
  {
    RefreshVerdict(s, podOk, cri, r, report);
    MergedPhase(cur, report, r.phase);
    if r.phase.SError? {
      CopyExplains(s, podOk, cri, r, report, cur);
    } else {
      ListExplains(s, podOk, cri, r, report, cur);
    }
  }
}
