/** What the handler guarantees, stated about `Conversation.Step`. */
module ConversationProperties {
  import opened Wrappers
  import opened Text
  import opened Decision
  import opened Directory
  import opened Conversation

  lemma InitialValid(cfg: Config)
    ensures Valid(cfg, Initial())
  {
  }

  /** The outbox only grows: messages already sent keep their ids. */
  ghost predicate Extends(s: State, t: State) {
    |s.outbox| <= |t.outbox| && t.outbox[..|s.outbox|] == s.outbox
  }

  lemma ExtendsTransitive(s: State, t: State, u: State)
    requires Extends(s, t) && Extends(t, u)
    ensures Extends(s, u)
  {
    assert u.outbox[..|s.outbox|] == u.outbox[..|t.outbox|][..|s.outbox|];
  }

  /** Sending a message keeps the invariant: earlier messages keep their ids. */
  lemma EmitValid(cfg: Config, s: State, to: ChatId, r: Reply)
    requires Valid(cfg, s)
    ensures Valid(cfg, Emit(s, to, r)) && Extends(s, Emit(s, to, r))
  {
    var t := Emit(s, to, r);
    assert forall id :: 0 <= id < |s.outbox| ==> t.outbox[id] == s.outbox[id];
  }

  lemma SetHelpdeskValid(cfg: Config, s: State, c: ChatId, h: HelpdeskStep)
    requires Valid(cfg, s)
    requires h == AwaitingAnswer ==> c in s.forwards.Values
    ensures Valid(cfg, s.(helpdesk := s.helpdesk[c := h]))
  {
  }

  lemma RemoveHelpdeskValid(cfg: Config, s: State, c: ChatId)
    requires Valid(cfg, s)
    ensures Valid(cfg, s.(helpdesk := s.helpdesk - {c}))
  {
  }

  lemma SetRequestValid(cfg: Config, s: State, c: ChatId, f: RequestFlow)
    requires Valid(cfg, s) && WellFormed(f)
    ensures Valid(cfg, s.(requests := s.requests[c := f]))
  {
  }

  lemma RemoveRequestValid(cfg: Config, s: State, c: ChatId)
    requires Valid(cfg, s)
    ensures Valid(cfg, s.(requests := s.requests - {c}))
  {
  }

  lemma RemoveApprovalValid(cfg: Config, s: State, q: MsgId)
    requires Valid(cfg, s)
    ensures Valid(cfg, s.(approvals := s.approvals - {q}))
  {
  }

  /** Registering the instruction just posted in the group keeps the invariant, and routes to its user. */
  lemma AddForwardValid(cfg: Config, s: State, id: MsgId, c: ChatId)
    requires Valid(cfg, s)
    requires id < |s.outbox| && s.outbox[id] == Outgoing(cfg.helpdeskGroup, GroupInstruction(c))
    ensures Valid(cfg, s.(forwards := s.forwards[id := c]))
    ensures c in s.forwards[id := c].Values
  {
    var t := s.(forwards := s.forwards[id := c]);
    forall u | u in s.forwards.Values
      ensures u in t.forwards.Values
    {
      var k :| k in s.forwards && s.forwards[k] == u;
      if k == id {
        assert s.outbox[k] == Outgoing(cfg.helpdeskGroup, GroupInstruction(u));
        assert u == c;
      }
      assert t.forwards[k] == u;
    }
    assert t.forwards[id] == c;
  }

  /** Registering the approval request just sent keeps the invariant. */
  lemma AddApprovalValid(cfg: Config, s: State, id: MsgId, p: PendingApproval)
    requires Valid(cfg, s)
    requires id < |s.outbox| && AsksFor(s.outbox[id], p)
    ensures Valid(cfg, s.(approvals := s.approvals[id := p]))
  {
  }

  lemma GroupPreservesValid(cfg: Config, s: State, m: Inbound)
    requires Valid(cfg, s)
    ensures Valid(cfg, OnGroup(cfg, s, m)) && Extends(s, OnGroup(cfg, s, m))
  {
    if IsGroupAnswer(cfg, s, m) {
      var target := s.forwards[m.quoted.value];
      var s0 := Emit(s, target, HelpdeskAnswer(m.body));
      EmitValid(cfg, s, target, HelpdeskAnswer(m.body));
      var s1 := Emit(s0, target, FollowupMenu);
      EmitValid(cfg, s0, target, FollowupMenu);
      var s2 := s1.(helpdesk := s1.helpdesk[target := Followup]);
      SetHelpdeskValid(cfg, s1, target, Followup);
      EmitValid(cfg, s2, cfg.helpdeskGroup, AnswerForwarded(target));
      ExtendsTransitive(s, s0, s1);
      ExtendsTransitive(s, s1, Emit(s2, cfg.helpdeskGroup, AnswerForwarded(target)));
    }
  }

  lemma DecisionPreservesValid(cfg: Config, s: State, from: ChatId, d: Decision, q: MsgId)
    requires Valid(cfg, s) && q in s.approvals
    ensures Valid(cfg, OnDecision(s, from, d, q)) && Extends(s, OnDecision(s, from, d, q))
  {
    var p := s.approvals[q];
    var first := match d
      case Approve => RequestApproved(p.kind)
      case Reject => RequestRejected(p.kind)
      case Undecided => DecisionPrompt;
    if d == Undecided {
      EmitValid(cfg, s, from, DecisionPrompt);
    } else {
      var second := if d == Approve then ApprovalAck(p.employee.name) else RejectionAck(p.employee.name);
      var s0 := Emit(s, p.sender, first);
      EmitValid(cfg, s, p.sender, first);
      var s1 := Emit(s0, from, second);
      EmitValid(cfg, s0, from, second);
      ExtendsTransitive(s, s0, s1);
      RemoveApprovalValid(cfg, s1, q);
    }
  }

  lemma HelpdeskPreservesValid(cfg: Config, s: State, from: ChatId, body: string, command: string)
    requires Valid(cfg, s)
    ensures Valid(cfg, OnHelpdesk(cfg, s, from, body, command))
    ensures Extends(s, OnHelpdesk(cfg, s, from, body, command))
  {
    if from !in s.helpdesk {
      var s1 := Emit(s, from, HelpdeskWelcome);
      EmitValid(cfg, s, from, HelpdeskWelcome);
      SetHelpdeskValid(cfg, s1, from, Identity);
    } else {
      match s.helpdesk[from]
      case Identity =>
        var s1 := Emit(s, from, AskQuestion);
        EmitValid(cfg, s, from, AskQuestion);
        SetHelpdeskValid(cfg, s1, from, Question);
      case Question =>
        QuestionPreservesValid(cfg, s, from, body, command);
      case AwaitingAnswer =>
      case Followup =>
        FollowupPreservesValid(cfg, s, from, body, command);
      case Schedule =>
        var s0 := Emit(s, from, ScheduleReceived);
        EmitValid(cfg, s, from, ScheduleReceived);
        var s1 := Emit(s0, cfg.helpdeskGroup, ScheduleRequest(from, body));
        EmitValid(cfg, s0, cfg.helpdeskGroup, ScheduleRequest(from, body));
        ExtendsTransitive(s, s0, s1);
        RemoveHelpdeskValid(cfg, s1, from);
    }
  }

  lemma QuestionPreservesValid(cfg: Config, s: State, from: ChatId, body: string, command: string)
    requires Valid(cfg, s) && from in s.helpdesk && s.helpdesk[from] == Question
    ensures Valid(cfg, OnHelpdesk(cfg, s, from, body, command))
    ensures Extends(s, OnHelpdesk(cfg, s, from, body, command))
  {
    var s1 := Emit(s, cfg.helpdeskGroup, GroupQuestion(from, body));
    EmitValid(cfg, s, cfg.helpdeskGroup, GroupQuestion(from, body));
    var instruction := |s1.outbox|;
    var s2 := Emit(s1, cfg.helpdeskGroup, GroupInstruction(from));
    EmitValid(cfg, s1, cfg.helpdeskGroup, GroupInstruction(from));
    var s2' := s2.(forwards := s2.forwards[instruction := from]);
    AddForwardValid(cfg, s2, instruction, from);
    var s3 := Emit(s2', from, QuestionForwarded);
    EmitValid(cfg, s2', from, QuestionForwarded);
    SetHelpdeskValid(cfg, s3, from, AwaitingAnswer);
    ExtendsTransitive(s, s1, s2);
    ExtendsTransitive(s, s2', s3);
  }

  lemma FollowupPreservesValid(cfg: Config, s: State, from: ChatId, body: string, command: string)
    requires Valid(cfg, s) && from in s.helpdesk && s.helpdesk[from] == Followup
    ensures Valid(cfg, OnHelpdesk(cfg, s, from, body, command))
    ensures Extends(s, OnHelpdesk(cfg, s, from, body, command))
  {
    if Contains(command, "selesai") {
      EmitValid(cfg, s, from, HelpdeskThanks);
      RemoveHelpdeskValid(cfg, Emit(s, from, HelpdeskThanks), from);
    } else if command == "1" {
      EmitValid(cfg, s, from, AskFollowupQuestion);
      SetHelpdeskValid(cfg, Emit(s, from, AskFollowupQuestion), from, Question);
    } else if command == "2" {
      EmitValid(cfg, s, from, AskSchedule);
      SetHelpdeskValid(cfg, Emit(s, from, AskSchedule), from, Schedule);
    } else {
      EmitValid(cfg, s, from, FollowupInvalid);
    }
  }

  lemma ReasonPreservesValid(cfg: Config, s: State, from: ChatId, reason: string, employee: Employee, flow: RequestFlow, supervisor: Option<Employee>)
    requires Valid(cfg, s)
    requires from in s.requests && flow == s.requests[from]
    requires flow.step == OvertimeReason || flow.step == LeaveReason
    ensures Valid(cfg, OnReason(s, from, reason, employee, flow, supervisor))
    ensures Extends(s, OnReason(s, from, reason, employee, flow, supervisor))
  {
    if supervisor.None? {
      EmitValid(cfg, s, from, SupervisorNotFound);
      RemoveRequestValid(cfg, Emit(s, from, SupervisorNotFound), from);
    } else {
      var kind := flow.kind.value;
      var flow' := flow.(step := AwaitingApproval, reason := Some(reason), supervisor := supervisor);
      var s1 := s.(requests := s.requests[from := flow']);
      SetRequestValid(cfg, s, from, flow');
      var approvalId := |s1.outbox|;
      var request := ApprovalRequest(kind, employee.name, reason);
      var s2 := Emit(s1, SupervisorChat(supervisor.value), request);
      EmitValid(cfg, s1, SupervisorChat(supervisor.value), request);
      var p := PendingApproval(from, kind, employee, supervisor.value);
      var s3 := s2.(approvals := s2.approvals[approvalId := p]);
      AddApprovalValid(cfg, s2, approvalId, p);
      EmitValid(cfg, s3, from, RequestForwarded(kind));
      ExtendsTransitive(s, s2, Emit(s3, from, RequestForwarded(kind)));
    }
  }

  lemma InternalPreservesValid(cfg: Config, s: State, from: ChatId, body: string, command: string, employee: Employee)
    requires Valid(cfg, s) && from !in s.helpdesk
    ensures Valid(cfg, OnInternal(cfg, s, from, body, command, employee))
    ensures Extends(s, OnInternal(cfg, s, from, body, command, employee))
  {
    if from !in s.requests || command == "menu" {
      EmitValid(cfg, s, from, MainMenu(employee.name));
      SetRequestValid(cfg, Emit(s, from, MainMenu(employee.name)), from, RequestFlow(Menu, None, None, employee, None));
    } else {
      var flow := s.requests[from];
      match flow.step
      case Menu =>
        if command == "1" {
          EmitValid(cfg, s, from, AskReason(Overtime));
          SetRequestValid(cfg, Emit(s, from, AskReason(Overtime)), from, flow.(step := OvertimeReason, kind := Some(Overtime)));
        } else if command == "2" {
          EmitValid(cfg, s, from, AskReason(Leave));
          SetRequestValid(cfg, Emit(s, from, AskReason(Leave)), from, flow.(step := LeaveReason, kind := Some(Leave)));
        } else if command == "3" {
          var s1 := Emit(s, from, AskHelpdeskQuestion);
          EmitValid(cfg, s, from, AskHelpdeskQuestion);
          SetHelpdeskValid(cfg, s1, from, Question);
          RemoveRequestValid(cfg, s1.(helpdesk := s1.helpdesk[from := Question]), from);
        } else {
          EmitValid(cfg, s, from, MenuInvalid);
        }
      case OvertimeReason =>
        ReasonPreservesValid(cfg, s, from, Trim(body), employee, flow, FindSupervisor(cfg.directory, Some(employee)));
      case LeaveReason =>
        ReasonPreservesValid(cfg, s, from, Trim(body), employee, flow, FindSupervisor(cfg.directory, Some(employee)));
      case AwaitingApproval =>
        EmitValid(cfg, s, from, UnknownCommand);
    }
  }

  /** Every reachable state satisfies the invariant: the handler preserves it. */
  lemma StepPreservesValid(cfg: Config, s: State, m: Inbound)
    requires Valid(cfg, s)
    ensures Valid(cfg, Step(cfg, s, m)) && Extends(s, Step(cfg, s, m))
  {
    if IsGroupChat(m.from) {
      GroupPreservesValid(cfg, s, m);
    } else if IsDecision(s, m) {
      DecisionPreservesValid(cfg, s, m.from, Classify(m.body), m.quoted.value);
    } else {
      var employee := FindByPhone(cfg.directory, Digits(m.from));
      if employee.None? || m.from in s.helpdesk {
        HelpdeskPreservesValid(cfg, s, m.from, m.body, Normalize(m.body));
      } else {
        InternalPreservesValid(cfg, s, m.from, m.body, Normalize(m.body), employee.value);
      }
    }
  }
}
