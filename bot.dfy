/**
 * The bot as the program runs it: the four dictionaries are fields that the
 * `'message'` handler updates in place, and every send appends to the
 * outbox and returns the new message's id. Each method is proved to leave
 * exactly the state `Conversation.Step` describes.
 */
module MessageHandler {
  import opened Wrappers
  import opened Text
  import opened Decision
  import opened Directory
  import opened Conversation
  import ConversationProperties

  class Bot {
    const config: Config
    var requests: map<ChatId, RequestFlow>      // pengajuanBySender
    var approvals: map<MsgId, PendingApproval>  // pengajuanByAtasanMsgId
    var helpdesk: map<ChatId, HelpdeskStep>     // helpdeskQueue
    var forwards: map<MsgId, ChatId>            // helpdeskInstruksiMap
    var outbox: seq<Outgoing>                   // what the client has sent, in order

    function Snapshot(): State
      reads this
    {
      State(requests, approvals, helpdesk, forwards, outbox)
    }

    ghost predicate Valid()
      reads this
    {
      Conversation.Valid(config, Snapshot())
    }

    /** Lines 24-33: all four dictionaries start empty. */
    constructor(directory: seq<Employee>, helpdeskGroup: ChatId)
      ensures config == Config(directory, helpdeskGroup)
      ensures Snapshot() == Initial() && Valid()
    {
      config := Config(directory, helpdeskGroup);
      requests := map[];
      approvals := map[];
      helpdesk := map[];
      forwards := map[];
      outbox := [];
    }

    /** `client.sendMessage` / `kirimDenganTyping`: the returned id is the message's serialized id. */
    method Send(to: ChatId, reply: Reply) returns (id: MsgId)
      modifies this
      ensures id == |old(outbox)|
      ensures Snapshot() == Emit(old(Snapshot()), to, reply)
    {
      id := |outbox|;
      outbox := outbox + [Outgoing(to, reply)];
    }

    /** The `'message'` handler (lines 116-342). */
    method HandleMessage(m: Inbound)
      requires Valid()
      modifies this
      ensures Snapshot() == Step(config, old(Snapshot()), m)
      ensures Valid()
    {
      ConversationProperties.StepPreservesValid(config, Snapshot(), m);
      var isGroup := IsGroupChat(m.from);
      if isGroup {
        HandleGroup(m);
        return;
      }
      if m.quoted.Some? && m.quoted.value in approvals {
        HandleDecision(m.from, m.body, m.quoted.value);
        return;
      }
      var digits := Digits(m.from);
      var employee := FindByPhone(config.directory, digits);
      if employee.None? || m.from in helpdesk {
        HandleHelpdesk(m.from, m.body);
        return;
      }
      HandleInternal(m.from, m.body, employee.value);
    }

    /** Lines 125-150. */
    method HandleGroup(m: Inbound)
      modifies this
      ensures Snapshot() == OnGroup(config, old(Snapshot()), m)
    {
      if m.from == config.helpdeskGroup && m.quoted.Some? {
        if m.quoted.value in forwards && forwards[m.quoted.value] != "" {
          var target := forwards[m.quoted.value];
          var _ := Send(target, HelpdeskAnswer(m.body));
          var _ := Send(target, FollowupMenu);
          helpdesk := helpdesk[target := Followup];
          var _ := Send(config.helpdeskGroup, AnswerForwarded(target));
          return;
        }
      }
    }

    /** Lines 158-181: yes is tested before no; only a recognised answer deletes the entry. */
    method HandleDecision(from: ChatId, body: string, q: MsgId)
      requires q in approvals
      modifies this
      ensures Snapshot() == OnDecision(old(Snapshot()), from, Classify(body), q)
    {
      var p := approvals[q];
      if IsApprovalYes(body) {
        var _ := Send(p.sender, RequestApproved(p.kind));
        var _ := Send(from, ApprovalAck(p.employee.name));
      } else if IsApprovalNo(body) {
        var _ := Send(p.sender, RequestRejected(p.kind));
        var _ := Send(from, RejectionAck(p.employee.name));
      } else {
        var _ := Send(from, DecisionPrompt);
        return;
      }
      approvals := approvals - {q};
    }

    /** Lines 190-255. */
    method HandleHelpdesk(from: ChatId, body: string)
      modifies this
      ensures Snapshot() == OnHelpdesk(config, old(Snapshot()), from, body, Normalize(body))
    {
      if from !in helpdesk {
        var _ := Send(from, HelpdeskWelcome);
        helpdesk := helpdesk[from := Identity];
        return;
      }
      var step := helpdesk[from];
      if step == Identity {
        var _ := Send(from, AskQuestion);
        helpdesk := helpdesk[from := Question];
        return;
      }
      if step == Question {
        var _ := Send(config.helpdeskGroup, GroupQuestion(from, body));
        var instruction := Send(config.helpdeskGroup, GroupInstruction(from));
        forwards := forwards[instruction := from];
        var _ := Send(from, QuestionForwarded);
        helpdesk := helpdesk[from := AwaitingAnswer];
        return;
      }
      if step == Followup {
        HandleFollowup(from, body, Normalize(body));
        return;
      }
      if step == Schedule {
        var _ := Send(from, ScheduleReceived);
        var _ := Send(config.helpdeskGroup, ScheduleRequest(from, body));
        helpdesk := helpdesk - {from};
        return;
      }
    }

    /** Lines 224-245. */
    method HandleFollowup(from: ChatId, body: string, command: string)
      requires from in helpdesk && helpdesk[from] == Followup
      modifies this
      ensures Snapshot() == OnHelpdesk(config, old(Snapshot()), from, body, command)
    {
      if Contains(command, "selesai") {
        var _ := Send(from, HelpdeskThanks);
        helpdesk := helpdesk - {from};
        return;
      }
      if command == "1" {
        var _ := Send(from, AskFollowupQuestion);
        helpdesk := helpdesk[from := Question];
        return;
      }
      if command == "2" {
        var _ := Send(from, AskSchedule);
        helpdesk := helpdesk[from := Schedule];
        return;
      }
      var _ := Send(from, FollowupInvalid);
    }

    /** Lines 257-335, entered only by a sender found in the directory and not in helpdesk mode. */
    method HandleInternal(from: ChatId, body: string, employee: Employee)
      requires from !in helpdesk
      requires from in requests ==> WellFormed(requests[from])
      modifies this
      ensures Snapshot() == OnInternal(config, old(Snapshot()), from, body, Normalize(body), employee)
    {
      var command := Normalize(body);
      HandleCommand(from, body, command, employee);
    }

    /** Lines 260-335, once the body is trimmed and lower-cased into `command`. */
    method HandleCommand(from: ChatId, body: string, command: string, employee: Employee)
      requires from !in helpdesk
      requires from in requests ==> WellFormed(requests[from])
      modifies this
      ensures Snapshot() == OnInternal(config, old(Snapshot()), from, body, command, employee)
    {
      if from !in requests || command == "menu" {
        // The helpdesk check of line 261 never holds here.
        assert from !in helpdesk;
        var _ := Send(from, MainMenu(employee.name));
        requests := requests[from := RequestFlow(Menu, None, None, employee, None)];
        return;
      }
      var flow := requests[from];
      if flow.step == Menu {
        if command == "1" {
          var _ := Send(from, AskReason(Overtime));
          requests := requests[from := flow.(step := OvertimeReason, kind := Some(Overtime))];
          return;
        }
        if command == "2" {
          var _ := Send(from, AskReason(Leave));
          requests := requests[from := flow.(step := LeaveReason, kind := Some(Leave))];
          return;
        }
        if command == "3" {
          var _ := Send(from, AskHelpdeskQuestion);
          helpdesk := helpdesk[from := Question];
          requests := requests - {from};
          return;
        }
        var _ := Send(from, MenuInvalid);
        return;
      }
      if flow.step == OvertimeReason || flow.step == LeaveReason {
        var supervisor := FindSupervisor(config.directory, Some(employee));
        HandleReason(from, Trim(body), employee, flow, supervisor);
        return;
      }
      // The helpdesk check of line 334 never holds here either.
      assert from !in helpdesk;
      var _ := Send(from, UnknownCommand);
    }

    /** Lines 299-329: the flow is updated before the request is sent to the supervisor. */
    method HandleReason(from: ChatId, reason: string, employee: Employee, flow: RequestFlow, supervisor: Option<Employee>)
      requires flow.kind.Some?
      modifies this
      ensures Snapshot() == OnReason(old(Snapshot()), from, reason, employee, flow, supervisor)
    {
      if supervisor.None? {
        var _ := Send(from, SupervisorNotFound);
        requests := requests - {from};
        return;
      }
      var kind := flow.kind.value;
      requests := requests[from := flow.(step := AwaitingApproval, reason := Some(reason), supervisor := supervisor)];
      var sent := Send(SupervisorChat(supervisor.value), ApprovalRequest(kind, employee.name, reason));
      approvals := approvals[sent := PendingApproval(from, kind, employee, supervisor.value)];
      var _ := Send(from, RequestForwarded(kind));
    }
  }
}
