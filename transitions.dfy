/**
 * What each branch of the handler does to the four dictionaries, stated
 * entry by entry: which key is written, to what, and that nothing else moves.
 */
module ConversationTransitions {
  import opened Wrappers
  import opened Text
  import opened Decision
  import opened Directory
  import opened Conversation
  import opened ConversationProperties

  // ----- Group messages (lines 125-150) -----

  /**
   * Only a quote of a known instruction in the helpdesk group has an effect:
   * it forwards the answer, puts the target user in the follow-up step and
   * keeps the instruction's entry; every other group message changes nothing.
   */
  lemma GroupEffect(cfg: Config, s: State, m: Inbound)
    ensures !IsGroupAnswer(cfg, s, m) ==> OnGroup(cfg, s, m) == s
    ensures IsGroupAnswer(cfg, s, m) ==>
      var t := OnGroup(cfg, s, m);
      var target := s.forwards[m.quoted.value];
      && t.helpdesk == s.helpdesk[target := Followup]
      && t.forwards == s.forwards
      && t.requests == s.requests
      && t.approvals == s.approvals
      && t.outbox == s.outbox + [Outgoing(target, HelpdeskAnswer(m.body)), Outgoing(target, FollowupMenu),
                                 Outgoing(cfg.helpdeskGroup, AnswerForwarded(target))]
  {
  }

  /** Answering the same instruction twice reaches the user twice: the entry is not consumed. */
  lemma GroupAnswerRepeatable(cfg: Config, s: State, m: Inbound)
    requires IsGroupAnswer(cfg, s, m)
    ensures IsGroupAnswer(cfg, OnGroup(cfg, s, m), m)
  {
  }

  // ----- Supervisor decisions (lines 153-184) -----

  /**
   * A recognised decision notifies the requester and the supervisor and
   * removes the pending entry; any other reply only re-prompts the
   * supervisor. The requester's flow and the helpdesk maps never change.
   */
  lemma DecisionEffect(s: State, from: ChatId, d: Decision, q: MsgId)
    requires q in s.approvals
    ensures
      var t := OnDecision(s, from, d, q);
      var p := s.approvals[q];
      && t.requests == s.requests && t.helpdesk == s.helpdesk && t.forwards == s.forwards
      && (d == Approve ==>
            t.approvals == s.approvals - {q}
            && t.outbox == s.outbox + [Outgoing(p.sender, RequestApproved(p.kind)), Outgoing(from, ApprovalAck(p.employee.name))])
      && (d == Reject ==>
            t.approvals == s.approvals - {q}
            && t.outbox == s.outbox + [Outgoing(p.sender, RequestRejected(p.kind)), Outgoing(from, RejectionAck(p.employee.name))])
      && (d == Undecided ==> t == Emit(s, from, DecisionPrompt))
  {
  }

  /** The pending entry a decision quotes is gone afterwards exactly when the reply was recognised. */
  lemma DecisionConsumesIff(cfg: Config, s: State, m: Inbound)
    requires forall c :: c in s.requests ==> WellFormed(s.requests[c])
    requires IsDecision(s, m)
    ensures m.quoted.value !in Step(cfg, s, m).approvals <==> Classify(m.body) != Undecided
  {
    DecisionEffect(s, m.from, Classify(m.body), m.quoted.value);
  }

  /**
   * Replaying a decided quote is no longer a decision: it falls through to
   * the ordinary routing of a direct message.
   */
  lemma ReplayFallsThrough(cfg: Config, s: State, m: Inbound)
    requires Valid(cfg, s)
    requires IsDecision(s, m) && Classify(m.body) != Undecided
    ensures Valid(cfg, Step(cfg, s, m))
    ensures !IsDecision(Step(cfg, s, m), m)
    ensures Step(cfg, Step(cfg, s, m), m) == OnDirect(cfg, Step(cfg, s, m), m.from, m.body)
  {
    StepPreservesValid(cfg, s, m);
    DecisionConsumesIff(cfg, s, m);
  }

  // ----- Helpdesk flow (lines 190-255) -----

  /**
   * The helpdesk steps: no entry -> identity; identity -> question;
   * waiting ignores input; scheduling ends the flow. The question and
   * follow-up steps have lemmas of their own below.
   */
  lemma HelpdeskEffect(cfg: Config, s: State, from: ChatId, body: string, command: string)
    ensures
      var t := OnHelpdesk(cfg, s, from, body, command);
      && (from !in s.helpdesk ==> t.helpdesk[from] == Identity && t.forwards == s.forwards)
      && (from in s.helpdesk && s.helpdesk[from] == Identity ==> t.helpdesk[from] == Question && t.forwards == s.forwards)
      && (from in s.helpdesk && s.helpdesk[from] == AwaitingAnswer ==> t == s)
      && (from in s.helpdesk && s.helpdesk[from] == Schedule ==> from !in t.helpdesk && t.forwards == s.forwards)
  {
  }

  /**
   * The helpdesk flow only ever changes the sender's own helpdesk entry:
   * request flows and pending approvals are untouched, and every existing
   * instruction entry keeps its chat.
   */
  lemma HelpdeskFrame(cfg: Config, s: State, from: ChatId, body: string, command: string)
    requires forall id :: id in s.forwards ==> id < |s.outbox|
    ensures
      var t := OnHelpdesk(cfg, s, from, body, command);
      && t.requests == s.requests && t.approvals == s.approvals
      && t.helpdesk - {from} == s.helpdesk - {from}
      && (forall id :: id in s.forwards ==> id in t.forwards && t.forwards[id] == s.forwards[id])
  {
    HelpdeskForwardsGrow(cfg, s, from, body, command);
    if from !in s.helpdesk {
      UpdateOutside(s.helpdesk, from, Identity);
    } else {
      match s.helpdesk[from]
      case Identity =>
        UpdateOutside(s.helpdesk, from, Question);
      case Question =>
        UpdateOutside(s.helpdesk, from, AwaitingAnswer);
      case AwaitingAnswer =>
      case Followup =>
        FollowupFrame(cfg, s, from, body, command);
      case Schedule =>
        RemoveOutside(s.helpdesk, from);
    }
  }

  lemma FollowupFrame(cfg: Config, s: State, from: ChatId, body: string, command: string)
    requires from in s.helpdesk && s.helpdesk[from] == Followup
    ensures
      var t := OnHelpdesk(cfg, s, from, body, command);
      t.requests == s.requests && t.approvals == s.approvals && t.forwards == s.forwards
      && t.helpdesk - {from} == s.helpdesk - {from}
  {
    if Contains(command, "selesai") {
      RemoveOutside(s.helpdesk, from);
    } else if command == "1" {
      UpdateOutside(s.helpdesk, from, Question);
    } else if command == "2" {
      UpdateOutside(s.helpdesk, from, Schedule);
    }
  }

  /** The question step posts the question and an instruction, and registers the instruction's fresh id. */
  lemma QuestionForwardsOnce(cfg: Config, s: State, from: ChatId, body: string, command: string)
    requires forall id :: id in s.forwards ==> id < |s.outbox|
    requires from in s.helpdesk && s.helpdesk[from] == Question
    ensures
      var t := OnHelpdesk(cfg, s, from, body, command);
      var id := |s.outbox| + 1;
      && t.helpdesk[from] == AwaitingAnswer
      && id !in s.forwards
      && t.forwards == s.forwards[id := from]
      && |t.forwards| == |s.forwards| + 1
      && t.outbox == s.outbox + [Outgoing(cfg.helpdeskGroup, GroupQuestion(from, body)),
           Outgoing(cfg.helpdeskGroup, GroupInstruction(from)), Outgoing(from, QuestionForwarded)]
      && t.outbox[id] == Outgoing(cfg.helpdeskGroup, GroupInstruction(from))
  {
    var id := |s.outbox| + 1;
    assert id !in s.forwards;
    var t := OnHelpdesk(cfg, s, from, body, command);
    assert t.forwards == s.forwards[id := from];
    assert t.outbox == s.outbox + [Outgoing(cfg.helpdeskGroup, GroupQuestion(from, body)),
      Outgoing(cfg.helpdeskGroup, GroupInstruction(from)), Outgoing(from, QuestionForwarded)];
  }

  /** The follow-up step, by the normalised reply. */
  lemma FollowupEffect(cfg: Config, s: State, from: ChatId, body: string, command: string)
    requires from in s.helpdesk && s.helpdesk[from] == Followup
    ensures
      var t := OnHelpdesk(cfg, s, from, body, command);
      && t.forwards == s.forwards
      && (Contains(command, "selesai") ==> from !in t.helpdesk)
      && (!Contains(command, "selesai") && command == "1" ==> t.helpdesk[from] == Question)
      && (!Contains(command, "selesai") && command == "2" ==> t.helpdesk[from] == Schedule)
      && (!Contains(command, "selesai") && command != "1" && command != "2" ==> t == Emit(s, from, FollowupInvalid))
  {
  }

  /** `selesai` anywhere in the reply ends the helpdesk session, whatever surrounds it. */
  lemma FinishedAnywhere(cfg: Config, s: State, from: ChatId, before: string, w: string, after: string)
    requires from in s.helpdesk && s.helpdesk[from] == Followup
    requires Lower(w) == "selesai"
    ensures from !in OnHelpdesk(cfg, s, from, before + w + after, Normalize(before + w + after)).helpdesk
  {
    KeywordEnds(w, "selesai");
    KeywordSurvivesNormalize(before, w, after, "selesai");
  }

  // ----- Internal flow (lines 257-335) -----

  /**
   * Without a flow, or on `menu`, the flow restarts at the menu carrying only
   * the looked-up employee: any earlier kind, reason and supervisor are dropped.
   */
  lemma MenuReset(cfg: Config, s: State, from: ChatId, body: string, command: string, employee: Employee)
    requires from !in s.helpdesk && (from in s.requests ==> WellFormed(s.requests[from]))
    requires from !in s.requests || command == "menu"
    ensures
      var t := OnInternal(cfg, s, from, body, command, employee);
      && t.requests == s.requests[from := RequestFlow(Menu, None, None, employee, None)]
      && t.approvals == s.approvals && t.helpdesk == s.helpdesk && t.forwards == s.forwards
      && t.outbox == s.outbox + [Outgoing(from, MainMenu(employee.name))]
  {
  }

  /** At the menu: `1`/`2` choose overtime/leave, `3` moves the sender to the helpdesk, anything else changes nothing. */
  lemma MenuChoice(cfg: Config, s: State, from: ChatId, body: string, command: string, employee: Employee)
    requires from !in s.helpdesk && from in s.requests && WellFormed(s.requests[from])
    requires s.requests[from].step == Menu && command != "menu"
    ensures
      var t := OnInternal(cfg, s, from, body, command, employee);
      var flow := s.requests[from];
      && t.approvals == s.approvals && t.forwards == s.forwards
      && (command == "1" ==>
            t.requests == s.requests[from := flow.(step := OvertimeReason, kind := Some(Overtime))] && t.helpdesk == s.helpdesk)
      && (command == "2" ==>
            t.requests == s.requests[from := flow.(step := LeaveReason, kind := Some(Leave))] && t.helpdesk == s.helpdesk)
      && (command == "3" ==>
            t.requests == s.requests - {from} && t.helpdesk == s.helpdesk[from := Question])
      && (command != "1" && command != "2" && command != "3" ==> t == Emit(s, from, MenuInvalid))
  {
  }

  /** The reason step without a supervisor: the flow is dropped and nothing is pending. */
  lemma ReasonWithoutSupervisor(s: State, from: ChatId, reason: string, employee: Employee, flow: RequestFlow)
    requires flow.kind.Some?
    ensures
      var t := OnReason(s, from, reason, employee, flow, None);
      && t.requests == s.requests - {from} && t.approvals == s.approvals
      && t.helpdesk == s.helpdesk && t.forwards == s.forwards
  {
  }

  /**
   * The reason step with a supervisor: the flow waits for approval with the
   * trimmed reason and the supervisor, and exactly one pending approval is
   * added, under the fresh id of the request just sent to the supervisor.
   */
  lemma ReasonSendsRequest(s: State, from: ChatId, reason: string, employee: Employee, flow: RequestFlow, supervisor: Employee)
    requires flow.kind.Some?
    requires forall id :: id in s.approvals ==> id < |s.outbox|
    ensures
      var t := OnReason(s, from, reason, employee, flow, Some(supervisor));
      var id := |s.outbox|;
      && t.helpdesk == s.helpdesk && t.forwards == s.forwards
      && t.requests == s.requests[from := flow.(step := AwaitingApproval, reason := Some(reason), supervisor := Some(supervisor))]
      && id !in s.approvals
      && t.approvals == s.approvals[id := PendingApproval(from, flow.kind.value, employee, supervisor)]
      && |t.approvals| == |s.approvals| + 1
      && t.outbox[id] == Outgoing(SupervisorChat(supervisor), ApprovalRequest(flow.kind.value, employee.name, reason))
  {
    var id := |s.outbox|;
    assert id !in s.approvals;
  }

  // ----- Routing (lines 187-190) -----

  /** A sender in helpdesk mode is routed to the helpdesk flow even when listed in the directory. */
  lemma HelpdeskModeKeepsRequests(cfg: Config, s: State, m: Inbound)
    requires Valid(cfg, s)
    requires !IsGroupChat(m.from) && !IsDecision(s, m) && m.from in s.helpdesk
    ensures Step(cfg, s, m).requests == s.requests
  {
    HelpdeskFrame(cfg, s, m.from, m.body, Normalize(m.body));
  }

  /**
   * The internal flow only changes the sender's own request flow, and the
   * sender's helpdesk entry only when it leaves the request flow for the
   * helpdesk (menu choice `3`). Instruction entries never change and pending
   * approvals are only ever added.
   */
  lemma InternalFrame(cfg: Config, s: State, from: ChatId, body: string, command: string, employee: Employee)
    requires Valid(cfg, s) && from !in s.helpdesk
    ensures
      var t := OnInternal(cfg, s, from, body, command, employee);
      && t.requests - {from} == s.requests - {from}
      && t.forwards == s.forwards
      && (forall id :: id in s.approvals ==> id in t.approvals && t.approvals[id] == s.approvals[id])
      && (t.helpdesk == s.helpdesk || (t.helpdesk == s.helpdesk[from := Question] && from !in t.requests))
  {
    var t := OnInternal(cfg, s, from, body, command, employee);
    if from !in s.requests || command == "menu" {
      MenuReset(cfg, s, from, body, command, employee);
      UpdateOutside(s.requests, from, RequestFlow(Menu, None, None, employee, None));
    } else {
      var flow := s.requests[from];
      match flow.step
      case Menu =>
        MenuChoice(cfg, s, from, body, command, employee);
        if command == "1" {
          UpdateOutside(s.requests, from, flow.(step := OvertimeReason, kind := Some(Overtime)));
        } else if command == "2" {
          UpdateOutside(s.requests, from, flow.(step := LeaveReason, kind := Some(Leave)));
        } else if command == "3" {
          RemoveOutside(s.requests, from);
        }
      case OvertimeReason =>
        ReasonFrame(s, from, Trim(body), employee, flow, FindSupervisor(cfg.directory, Some(employee)));
      case LeaveReason =>
        ReasonFrame(s, from, Trim(body), employee, flow, FindSupervisor(cfg.directory, Some(employee)));
      case AwaitingApproval =>
    }
  }

  lemma ReasonFrame(s: State, from: ChatId, reason: string, employee: Employee, flow: RequestFlow, supervisor: Option<Employee>)
    requires flow.kind.Some?
    requires forall id :: id in s.approvals ==> id < |s.outbox|
    ensures
      var t := OnReason(s, from, reason, employee, flow, supervisor);
      && t.requests - {from} == s.requests - {from}
      && t.helpdesk == s.helpdesk && t.forwards == s.forwards
      && (forall id :: id in s.approvals ==> id in t.approvals && t.approvals[id] == s.approvals[id])
      && (forall id :: id in t.approvals ==> id in s.approvals || id >= |s.outbox|)
  {
    if supervisor.None? {
      ReasonWithoutSupervisor(s, from, reason, employee, flow);
      RemoveOutside(s.requests, from);
    } else {
      ReasonSendsRequest(s, from, reason, employee, flow, supervisor.value);
      UpdateOutside(s.requests, from, flow.(step := AwaitingApproval, reason := Some(reason), supervisor := supervisor));
    }
  }

  lemma UpdateOutside<K, V>(m: map<K, V>, k: K, v: V)
    ensures m[k := v] - {k} == m - {k}
  {
  }

  lemma RemoveOutside<K, V>(m: map<K, V>, k: K)
    ensures (m - {k}) - {k} == m - {k}
  {
  }

  // ----- Whole steps -----

  /** Every request flow belongs to a sender the directory lists. */
  ghost predicate Registered(cfg: Config, s: State) {
    forall c :: c in s.requests ==> FindByPhone(cfg.directory, Digits(c)).Some?
  }

  /** No sender is in the request flow and the helpdesk flow at once. */
  ghost predicate Apart(s: State) {
    s.requests.Keys !! s.helpdesk.Keys
  }

  /** A request flow is only ever created for a sender the directory lists. */
  lemma StepKeepsRegistered(cfg: Config, s: State, m: Inbound)
    requires Valid(cfg, s) && Registered(cfg, s)
    ensures Registered(cfg, Step(cfg, s, m))
  {
    var t := Step(cfg, s, m);
    if IsGroupChat(m.from) {
      GroupEffect(cfg, s, m);
    } else if IsDecision(s, m) {
      DecisionEffect(s, m.from, Classify(m.body), m.quoted.value);
    } else {
      var employee := FindByPhone(cfg.directory, Digits(m.from));
      var command := Normalize(m.body);
      if employee.None? || m.from in s.helpdesk {
        HelpdeskFrame(cfg, s, m.from, m.body, command);
      } else {
        InternalFrame(cfg, s, m.from, m.body, command, employee.value);
        forall c | c in t.requests
          ensures FindByPhone(cfg.directory, Digits(c)).Some?
        {
          if c != m.from {
            assert c in t.requests - {m.from};
          }
        }
      }
    }
  }

  /**
   * A direct message never leaves its sender, or anyone else, in both flows
   * at once: the helpdesk branch is taken by every sender already in it, and
   * menu choice `3` drops the request flow as it enters the helpdesk.
   */
  lemma DirectKeepsApart(cfg: Config, s: State, m: Inbound)
    requires Valid(cfg, s) && Registered(cfg, s) && Apart(s)
    requires !IsGroupChat(m.from)
    ensures Apart(Step(cfg, s, m))
  {
    if IsDecision(s, m) {
      DecisionEffect(s, m.from, Classify(m.body), m.quoted.value);
    } else {
      var employee := FindByPhone(cfg.directory, Digits(m.from));
      var command := Normalize(m.body);
      if employee.None? || m.from in s.helpdesk {
        HelpdeskKeepsApart(cfg, s, m.from, m.body, command);
      } else {
        InternalKeepsApart(cfg, s, m.from, m.body, command, employee.value);
      }
    }
  }

  lemma HelpdeskKeepsApart(cfg: Config, s: State, from: ChatId, body: string, command: string)
    requires forall id :: id in s.forwards ==> id < |s.outbox|
    requires Apart(s) && (from in s.helpdesk || from !in s.requests)
    ensures Apart(OnHelpdesk(cfg, s, from, body, command))
  {
    var t := OnHelpdesk(cfg, s, from, body, command);
    HelpdeskFrame(cfg, s, from, body, command);
    forall c | c in t.helpdesk && c != from
      ensures c !in t.requests
    {
      assert c in t.helpdesk - {from};
    }
  }

  lemma InternalKeepsApart(cfg: Config, s: State, from: ChatId, body: string, command: string, employee: Employee)
    requires Valid(cfg, s) && Apart(s) && from !in s.helpdesk
    ensures Apart(OnInternal(cfg, s, from, body, command, employee))
  {
    var t := OnInternal(cfg, s, from, body, command, employee);
    InternalFrame(cfg, s, from, body, command, employee);
    forall c | c in t.requests && c != from
      ensures c !in t.helpdesk
    {
      assert c in t.requests - {from};
    }
  }

  /**
   * Being in both flows is still reachable: the helpdesk group can answer an
   * old instruction of a user who has since gone back to the request menu.
   */
  lemma BothFlowsPossible(cfg: Config, s: State, m: Inbound, user: ChatId)
    requires Valid(cfg, s) && IsGroupChat(m.from) && IsGroupAnswer(cfg, s, m)
    requires user == s.forwards[m.quoted.value] && user in s.requests
    ensures user in Step(cfg, s, m).requests && user in Step(cfg, s, m).helpdesk
    ensures !Apart(Step(cfg, s, m))
  {
    GroupEffect(cfg, s, m);
    assert user in Step(cfg, s, m).requests.Keys * Step(cfg, s, m).helpdesk.Keys;
  }

  /** Instruction entries are never deleted or rewritten. */
  lemma ForwardsOnlyGrow(cfg: Config, s: State, m: Inbound)
    requires Valid(cfg, s)
    ensures forall id :: id in s.forwards ==> id in Step(cfg, s, m).forwards && Step(cfg, s, m).forwards[id] == s.forwards[id]
  {
    var t := Step(cfg, s, m);
    if IsGroupChat(m.from) {
      GroupEffect(cfg, s, m);
    } else if IsDecision(s, m) {
      DecisionEffect(s, m.from, Classify(m.body), m.quoted.value);
    } else {
      var employee := FindByPhone(cfg.directory, Digits(m.from));
      var command := Normalize(m.body);
      if employee.None? || m.from in s.helpdesk {
        HelpdeskForwardsGrow(cfg, s, m.from, m.body, command);
      } else {
        InternalFrame(cfg, s, m.from, m.body, command, employee.value);
      }
    }
  }

  lemma HelpdeskForwardsGrow(cfg: Config, s: State, from: ChatId, body: string, command: string)
    requires forall id :: id in s.forwards ==> id < |s.outbox|
    ensures forall id :: id in s.forwards ==>
      id in OnHelpdesk(cfg, s, from, body, command).forwards && OnHelpdesk(cfg, s, from, body, command).forwards[id] == s.forwards[id]
  {
    if from in s.helpdesk && s.helpdesk[from] == Question {
      QuestionForwardsOnce(cfg, s, from, body, command);
    } else if from in s.helpdesk && s.helpdesk[from] == Followup {
      FollowupFrame(cfg, s, from, body, command);
    } else {
      HelpdeskEffect(cfg, s, from, body, command);
    }
  }

  /** A step adds pending approvals only under ids of messages it sends itself. */
  lemma NewApprovalsAreFresh(cfg: Config, s: State, m: Inbound)
    requires Valid(cfg, s)
    ensures forall id :: id in Step(cfg, s, m).approvals ==> id in s.approvals || id >= |s.outbox|
  {
    var t := Step(cfg, s, m);
    if IsGroupChat(m.from) {
      GroupEffect(cfg, s, m);
    } else if IsDecision(s, m) {
      DecisionEffect(s, m.from, Classify(m.body), m.quoted.value);
    } else {
      var employee := FindByPhone(cfg.directory, Digits(m.from));
      var command := Normalize(m.body);
      if employee.None? || m.from in s.helpdesk {
        HelpdeskFrame(cfg, s, m.from, m.body, command);
      } else {
        InternalApprovalsFresh(cfg, s, m.from, m.body, command, employee.value);
      }
    }
  }

  lemma InternalApprovalsFresh(cfg: Config, s: State, from: ChatId, body: string, command: string, employee: Employee)
    requires Valid(cfg, s) && from !in s.helpdesk
    ensures forall id :: id in OnInternal(cfg, s, from, body, command, employee).approvals ==> id in s.approvals || id >= |s.outbox|
  {
    if from !in s.requests || command == "menu" {
      MenuReset(cfg, s, from, body, command, employee);
    } else {
      var flow := s.requests[from];
      match flow.step
      case Menu =>
        MenuChoice(cfg, s, from, body, command, employee);
      case OvertimeReason =>
        ReasonFrame(s, from, Trim(body), employee, flow, FindSupervisor(cfg.directory, Some(employee)));
      case LeaveReason =>
        ReasonFrame(s, from, Trim(body), employee, flow, FindSupervisor(cfg.directory, Some(employee)));
      case AwaitingApproval =>
    }
  }

  /** The states a sequence of inbound messages passes through, processed one at a time. */
  ghost function Run(cfg: Config, s: State, ms: seq<Inbound>): (t: State)
    requires Valid(cfg, s)
    ensures Valid(cfg, t) && Extends(s, t)
    decreases |ms|
  {
    if ms == [] then s
    else
      StepPreservesValid(cfg, s, ms[0]);
      var t := Run(cfg, Step(cfg, s, ms[0]), ms[1..]);
      ExtendsTransitive(s, Step(cfg, s, ms[0]), t);
      t
  }

  /**
   * A pending approval is decided at most once: once its id has been
   * consumed, no later sequence of messages brings it back, so a replayed
   * decision can never notify the requester a second time.
   */
  lemma {:induction false} ConsumedKeyNeverReturns(cfg: Config, s: State, ms: seq<Inbound>, q: MsgId)
    requires Valid(cfg, s) && q < |s.outbox| && q !in s.approvals
    ensures q !in Run(cfg, s, ms).approvals
    decreases |ms|
  {
    if ms != [] {
      var s1 := Step(cfg, s, ms[0]);
      StepPreservesValid(cfg, s, ms[0]);
      NewApprovalsAreFresh(cfg, s, ms[0]);
      ConsumedKeyNeverReturns(cfg, s1, ms[1..], q);
    }
  }
}
