/**
  How a node's report changes the orchestrator's status of one sandbox (mergeSandboxPhaseWithNodeState and its
  caller).
 */
module StatusSync {
  import opened Strings
  import opened Types

  datatype ContainerReport = ContainerReport(name: string, phase: string, error: string, taskStatus: string)

  datatype Report = Report(ip: string, phase: string, error: string, unhealthy: seq<ContainerReport>)

  /** `msg` followed by the error of every container that has one. */
  function ErrorMessage(msg: string, cs: seq<ContainerReport>): string {
    if cs == [] then msg
    else
      var front, c := ErrorMessage(msg, cs[..|cs| - 1]), cs[|cs| - 1];
      var e := TrimSpace(c.error);
      if e == "" then front
      else if front == "" then "container " + c.name + ": " + e
      else front + "; container " + c.name + ": " + e
  }

  function UnhealthyMessage(c: ContainerReport): string {
    var e := TrimSpace(c.error);
    if e == "" then "container " + c.name + " unhealthy (" + TrimSpace(c.phase) + ")"
    else "container " + c.name + ": " + e
  }

  /** The status a report asks for. */
  function Merged(cur: Status, st: Report): Status {
    var phase := TrimSpace(st.phase);
    if EqualFold(phase, "error") then
      var msg := ErrorMessage(TrimSpace(st.error), st.unhealthy);
      cur.(phase := Failed, lastError := if msg == "" then "sandbox error on sbxlet node" else msg)
    else if st.unhealthy != [] then cur.(phase := Failed, lastError := UnhealthyMessage(st.unhealthy[0]))
    else if EqualFold(phase, "running") then cur.(phase := Running, lastError := "")
    else if EqualFold(phase, "creating") && cur.phase.Running? then cur.(phase := Scheduled)
    else cur
  }

  method MergePhase(cur: Status, st: Report) returns (next: Status, changed: bool)
    ensures next == Merged(cur, st)
    ensures changed <==> next != cur
  {
    next, changed := cur, false;
    var phase := TrimSpace(st.phase);
    if EqualFold(phase, "error") {
      var msg := TrimSpace(st.error);
      for i := 0 to |st.unhealthy|
        invariant msg == ErrorMessage(TrimSpace(st.error), st.unhealthy[..i])
      {
        var c := st.unhealthy[i];
        assert st.unhealthy[..i + 1][..i] == st.unhealthy[..i];
        if TrimSpace(c.error) != "" {
          if msg == "" {
            msg := "container " + c.name + ": " + TrimSpace(c.error);
          } else {
            msg := msg + "; container " + c.name + ": " + TrimSpace(c.error);
          }
        }
      }
      assert st.unhealthy[..|st.unhealthy|] == st.unhealthy;
      if msg == "" {
        msg := "sandbox error on sbxlet node";
      }
      if !next.phase.Failed? {
        next, changed := next.(phase := Failed), true;
      }
      if next.lastError != msg {
        next, changed := next.(lastError := msg), true;
      }
      return;
    }
    if st.unhealthy != [] {
      var msg := UnhealthyMessage(st.unhealthy[0]);
      if !next.phase.Failed? {
        next, changed := next.(phase := Failed), true;
      }
      if next.lastError != msg {
        next, changed := next.(lastError := msg), true;
      }
      return;
    }
    if EqualFold(phase, "running") {
      if !next.phase.Running? {
        next, changed := next.(phase := Running), true;
      }
      if next.lastError != "" {
        next, changed := next.(lastError := ""), true;
      }
      return;
    }
    if EqualFold(phase, "creating") && next.phase.Running? {
      next, changed := next.(phase := Scheduled), true;
    }
  }

  function InferExternal(fromNode: string, fallback: string): string {
    if TrimSpace(fromNode) != "" then TrimSpace(fromNode)
    else if TrimSpace(fallback) == "" then "(none)"
    else TrimSpace(fallback)
  }

  /** The status written for a reported sandbox: merged phase, reported address, external name of the node. */
  function Synced(cur: Status, st: Report, nodeExternal: string): Status {
    var next := Merged(cur, st);
    var ip := TrimSpace(st.ip);
    next.(ip := if ip != "" then ip else next.ip, external := InferExternal(nodeExternal, cur.external))
  }

  /** The status written for a sandbox its node no longer knows. */
  function LostOnNode(cur: Status, nodeExternal: string): Status {
    cur.(phase := Failed, lastError := "deleted on sbxlet node", external := InferExternal(nodeExternal, cur.external))
  }

  method SyncStatus(cur: Status, st: Report, nodeExternal: string) returns (next: Status, changed: bool)
    ensures next == Synced(cur, st, nodeExternal)
    ensures changed <==> next != cur
  {
    next, changed := MergePhase(cur, st);
    var ip := TrimSpace(st.ip);
    if ip != "" && next.ip != ip {
      next, changed := next.(ip := ip), true;
    }
    var ext := InferExternal(nodeExternal, cur.external);
    if next.external != ext {
      next, changed := next.(external := ext), true;
    }
  }

  lemma {:induction false} TrimLeftShape(s: string)
    ensures TrimLeft(s) == [] || !IsSpace(TrimLeft(s)[0])
  {
    if s != [] && IsSpace(s[0]) {
      TrimLeftShape(s[1..]);
    }
  }

  lemma {:induction false} TrimRightShape(s: string)
    ensures TrimRight(s) == [] || (!IsSpace(TrimRight(s)[|TrimRight(s)| - 1]) && s != [] && TrimRight(s)[0] == s[0])
  {
    if s != [] && IsSpace(s[|s| - 1]) {
      TrimRightShape(s[..|s| - 1]);
    }
  }

  lemma TrimSpaceIdempotent(s: string)
    ensures TrimSpace(TrimSpace(s)) == TrimSpace(s)
  {
    TrimLeftShape(s);
    TrimRightShape(TrimLeft(s));
  }

  /** A second pass over an unchanged report finds nothing to change, and no report touches the placement. */
  lemma SyncConverges(cur: Status, st: Report, nodeExternal: string)
    ensures Synced(Synced(cur, st, nodeExternal), st, nodeExternal) == Synced(cur, st, nodeExternal)
    ensures LostOnNode(LostOnNode(cur, nodeExternal), nodeExternal) == LostOnNode(cur, nodeExternal)
  {
    TrimSpaceIdempotent(nodeExternal);
    TrimSpaceIdempotent(cur.external);
    assert TrimSpace("(none)") == "(none)";
  }

  lemma SyncKeepsPlacement(cur: Status, st: Report, nodeExternal: string)
    ensures var s := Synced(cur, st, nodeExternal); var l := LostOnNode(cur, nodeExternal);
      && s.nodeName == l.nodeName == cur.nodeName
      && s.assignedPorts == l.assignedPorts == cur.assignedPorts
      && s.expireAt == l.expireAt == cur.expireAt
      && (s.phase == cur.phase || s.phase in {Scheduled, Running, Failed})
      && (!cur.phase.Running? ==> s.phase != Scheduled || cur.phase == Scheduled)
  {
  }

  // ---------- What a report means, without the functions above ----------

  /** Texts with "; " between them. */
  function Joined(parts: seq<string>): string {
    if parts == [] then "" else if |parts| == 1 then parts[0] else parts[0] + "; " + Joined(parts[1..])
  }

  /** "container NAME: ERROR" for every container that has an error. */
  function Complaints(cs: seq<ContainerReport>): seq<string> {
    if cs == [] then []
    else
      (if Blank(cs[0].error) then [] else ["container " + cs[0].name + ": " + TrimSpace(cs[0].error)])
      + Complaints(cs[1..])
  }

  /** Everything a report of an error gives as a reason. */
  function Reasons(st: Report): seq<string> {
    (if Blank(st.error) then [] else [TrimSpace(st.error)]) + Complaints(st.unhealthy)
  }

  lemma {:induction false} JoinedLast(parts: seq<string>, last: string)
    ensures Joined(parts + [last]) == if parts == [] then last else Joined(parts) + "; " + last
  {
    if parts == [] {
      assert parts + [last] == [last];
    } else {
      assert (parts + [last])[1..] == parts[1..] + [last];
      JoinedLast(parts[1..], last);
      if |parts| == 1 {
        assert parts[1..] == [];
      } else {
        assert parts[0] + "; " + (Joined(parts[1..]) + "; " + last) ==
          parts[0] + "; " + Joined(parts[1..]) + "; " + last;
      }
    }
  }

  lemma {:induction false} ComplaintsLast(cs: seq<ContainerReport>, c: ContainerReport)
    ensures Complaints(cs + [c]) ==
      Complaints(cs) + if Blank(c.error) then [] else ["container " + c.name + ": " + TrimSpace(c.error)]
  {
    if cs == [] {
      assert cs + [c] == [c];
    } else {
      assert (cs + [c])[1..] == cs[1..] + [c];
      ComplaintsLast(cs[1..], c);
    }
  }

  ghost predicate NoneEmpty(parts: seq<string>) {
    forall i :: 0 <= i < |parts| ==> parts[i] != ""
  }

  lemma JoinedNotEmpty(parts: seq<string>)
    requires NoneEmpty(parts)
    ensures Joined(parts) == "" <==> parts == []
  {
    if 1 < |parts| {
      assert Joined(parts) == parts[0] + "; " + Joined(parts[1..]);
    }
  }

  lemma {:induction false} MessageIsJoined(msg: string, first: seq<string>, cs: seq<ContainerReport>)
    requires first == if msg == "" then [] else [msg]
    ensures ErrorMessage(msg, cs) == Joined(first + Complaints(cs)) && NoneEmpty(first + Complaints(cs))
  {
    if cs == [] {
      assert first + Complaints(cs) == first;
    } else {
      var front, c := cs[..|cs| - 1], cs[|cs| - 1];
      assert cs == front + [c];
      MessageIsJoined(msg, first, front);
      ComplaintsLast(front, c);
      JoinedNotEmpty(first + Complaints(front));
      if Blank(c.error) {
        assert Complaints(cs) == Complaints(front);
      } else {
        var text := "container " + c.name + ": " + TrimSpace(c.error);
        assert first + Complaints(cs) == first + Complaints(front) + [text];
        JoinedLast(first + Complaints(front), text);
        MessageText(ErrorMessage(msg, front), c);
      }
    }
  }

  lemma MessageText(front: string, c: ContainerReport)
    ensures front + "; container " + c.name + ": " + TrimSpace(c.error)
      == front + "; " + ("container " + c.name + ": " + TrimSpace(c.error))
  {
    assert "; container " == "; " + "container ";
    var e := TrimSpace(c.error);
    assert front + ("; " + "container ") + c.name + ": " + e == front + "; " + ("container " + c.name + ": " + e);
  }

  predicate Says(st: Report, word: string) {
    EqualFold(TrimSpace(st.phase), word)
  }

  /** An error, or an unhealthy container, fails the sandbox and says why. */
  lemma FailureMeans(cur: Status, st: Report)
    requires Says(st, "error") || st.unhealthy != []
    ensures var s := Merged(cur, st);
      && s == cur.(phase := Failed, lastError := s.lastError)
      && Blames(s.lastError, st)
  {
    var msg := TrimSpace(st.error);
    var first := if msg == "" then [] else [msg];
    MessageIsJoined(msg, first, st.unhealthy);
    JoinedNotEmpty(Reasons(st));
  }

  /** A healthy report says running, or creating, which only takes back Running; anything else changes nothing. */
  lemma HealthMeans(cur: Status, st: Report)
    requires !Says(st, "error") && st.unhealthy == []
    ensures Says(st, "running") ==> Merged(cur, st) == cur.(phase := Running, lastError := "")
    ensures Says(st, "creating") ==>
      Merged(cur, st) == cur.(phase := if cur.phase.Running? then Scheduled else cur.phase)
    ensures !Says(st, "running") && !Says(st, "creating") ==> Merged(cur, st) == cur
  {
    assert ToLower("running")[0] == 'r' && ToLower("creating")[0] == 'c';
  }

  /** The external name a node reports, else the one that is known, else a placeholder; blank counts as none. */
  predicate NamesExternal(external: string, reported: string, known: string) {
    && (!Blank(reported) ==> external == TrimSpace(reported))
    && (Blank(reported) && !Blank(known) ==> external == TrimSpace(known))
    && (Blank(reported) && Blank(known) ==> external == "(none)")
  }

  /** Beside phase and error, a report sets the address, if it has one, and the external name; nothing else. */
  lemma SyncedMeans(cur: Status, st: Report, nodeExternal: string)
    ensures var s, m := Synced(cur, st, nodeExternal), Merged(cur, st);
      && s == cur.(phase := m.phase, lastError := m.lastError, ip := s.ip, external := s.external)
      && s.ip == (if Blank(st.ip) then cur.ip else TrimSpace(st.ip))
      && NamesExternal(s.external, nodeExternal, cur.external)
  {
  }

  /** The reason a report gives for a failure: all texts of an error, or the first unhealthy container. */
  predicate Blames(reason: string, st: Report)
    requires Says(st, "error") || st.unhealthy != []
  {
    reason ==
      if Says(st, "error") then (if Reasons(st) == [] then "sandbox error on sbxlet node" else Joined(Reasons(st)))
      else if Blank(st.unhealthy[0].error)
        then "container " + st.unhealthy[0].name + " unhealthy (" + TrimSpace(st.unhealthy[0].phase) + ")"
      else "container " + st.unhealthy[0].name + ": " + TrimSpace(st.unhealthy[0].error)
  }

  /** A status that follows a report. */
  ghost predicate Follows(was: Status, now: Status, st: Report, ext: string) {
    && now == was.(phase := now.phase, lastError := now.lastError, ip := now.ip, external := now.external)
    && now.ip == (if Blank(st.ip) then was.ip else TrimSpace(st.ip))
    && NamesExternal(now.external, ext, was.external)
    && if Says(st, "error") || st.unhealthy != [] then now.phase == Failed && Blames(now.lastError, st)
       else if Says(st, "running") then now.phase == Running && now.lastError == ""
       else
         && now.lastError == was.lastError
         && now.phase == if Says(st, "creating") && was.phase == Running then Scheduled else was.phase
  }

  lemma SyncedFollows(cur: Status, st: Report, ext: string)
    ensures Follows(cur, Synced(cur, st, ext), st, ext)
  {
    SyncedMeans(cur, st, ext);
    if Says(st, "error") || st.unhealthy != [] {
      FailureMeans(cur, st);
    } else {
      HealthMeans(cur, st);
    }
  }

  lemma LostMeans(cur: Status, nodeExternal: string)
    ensures var l := LostOnNode(cur, nodeExternal);
      && l == cur.(phase := Failed, lastError := "deleted on sbxlet node", external := l.external)
      && NamesExternal(l.external, nodeExternal, cur.external)
  {
  }
}
