/**
 * The bot's conversation state and what one inbound message does to it.
 *
 * The four module-level dictionaries of the bot become the four maps of
 * `State`; every outbound message is appended to `outbox`, and the id the
 * transport gives a sent message is its index there. `Step` is the
 * specification of the `'message'` handler: one inbound event, processed
 * atomically, in the handler's fixed order (group replies, supervisor
 * decisions, helpdesk senders, the internal menu flow).
 */
module Conversation {
  import opened Wrappers
  import opened Text
  import opened Decision
  import opened Directory

  /** A chat id such as `628123@c.us` or `123-456@g.us` (`message.from`). */
  type ChatId = string

  /** The serialized id of a message the bot sent: its index in the outbox. */
  type MsgId = nat

  /** `jenis`: `Lembur` (overtime) or `Cuti` (leave). */
  datatype Kind = Overtime | Leave

  /** The internal flow's `step`: `menu`, `alasan-lembur`, `alasan-cuti`, `menunggu-persetujuan`. */
  datatype RequestStep = Menu | OvertimeReason | LeaveReason | AwaitingApproval

  /** An entry of `pengajuanBySender`: `{ step, jenis, alasan, pegawai, atasan }`. */
  datatype RequestFlow = RequestFlow(
    step: RequestStep,
    kind: Option<Kind>,
    reason: Option<string>,
    employee: Employee,
    supervisor: Option<Employee>)

  /** An entry of `pengajuanByAtasanMsgId`: `{ sender, jenis, pegawai, atasan }`. */
  datatype PendingApproval = PendingApproval(sender: ChatId, kind: Kind, employee: Employee, supervisor: Employee)

  /** The helpdesk flow's `step`: `identitas`, `pertanyaan`, `menunggu-jawaban`, `followup`, `jadwal`. */
  datatype HelpdeskStep = Identity | Question | AwaitingAnswer | Followup | Schedule

  /** The texts the bot sends, by kind; the fields are what each text interpolates. */
  datatype Reply =
    | HelpdeskAnswer(answer: string)            // the group's answer, forwarded to the user
    | FollowupMenu                              // "done? 1. another question 2. schedule"
    | AnswerForwarded(target: ChatId)           // acknowledgement posted in the group
    | RequestApproved(kind: Kind)               // approval notice with the form link of its kind
    | ApprovalAck(name: string)                 // to the supervisor
    | RequestRejected(kind: Kind)
    | RejectionAck(name: string)
    | DecisionPrompt                            // "reply 1 (approve) or 2 (reject)"
    | HelpdeskWelcome                           // asks for name, position and unit
    | AskQuestion
    | GroupQuestion(from: ChatId, question: string)
    | GroupInstruction(from: ChatId)            // "quote-reply this message to answer"
    | QuestionForwarded
    | HelpdeskThanks
    | AskFollowupQuestion
    | AskSchedule
    | FollowupInvalid
    | ScheduleReceived
    | ScheduleRequest(from: ChatId, schedule: string)
    | MainMenu(name: string)                    // 1 overtime, 2 leave, 3 helpdesk
    | AskReason(kind: Kind)
    | AskHelpdeskQuestion
    | MenuInvalid
    | SupervisorNotFound
    | ApprovalRequest(kind: Kind, name: string, reason: string)
    | RequestForwarded(kind: Kind)
    | UnknownCommand

  datatype Outgoing = Outgoing(to: ChatId, reply: Reply)

  /** An inbound event: sender, body and, for a quote reply, the id of the quoted message. */
  datatype Inbound = Inbound(from: ChatId, body: string, quoted: Option<MsgId>)

  /** The directory and the `HELPDESK_GROUP_ID` setting. */
  datatype Config = Config(directory: seq<Employee>, helpdeskGroup: ChatId)

  datatype State = State(
    requests: map<ChatId, RequestFlow>,        // pengajuanBySender
    approvals: map<MsgId, PendingApproval>,    // pengajuanByAtasanMsgId
    helpdesk: map<ChatId, HelpdeskStep>,       // helpdeskQueue
    forwards: map<MsgId, ChatId>,              // helpdeskInstruksiMap
    outbox: seq<Outgoing>)

  function Initial(): State {
    State(map[], map[], map[], map[], [])
  }

  /** `chatId.endsWith('@g.us')`. */
  predicate IsGroupChat(id: ChatId) {
    EndsWith(id, "@g.us")
  }

  /**
   * The chat a supervisor is messaged at: their phone field (empty if
   * missing) plus `@c.us`. It is a personal chat, never a group, so the
   * supervisor's quote reply reaches the decision branch.
   */
  function SupervisorChat(supervisor: Employee): (c: ChatId)
    ensures EndsWith(c, "@c.us") && c[..|c| - 5] == supervisor.phone.GetOr("")
    ensures !IsGroupChat(c)
  {
    var c := supervisor.phone.GetOr("") + "@c.us";
    assert c[|c| - 5..] == "@c.us";
    assert c[|c| - 5..][1] == 'c' != "@g.us"[1];
    c
  }

  /** Sending one message; its id is `|s.outbox|`. */
  function Emit(s: State, to: ChatId, r: Reply): State {
    s.(outbox := s.outbox + [Outgoing(to, r)])
  }

  /** The fields a flow carries at each step. */
  predicate WellFormed(f: RequestFlow) {
    match f.step
    case Menu => f.kind.None? && f.reason.None? && f.supervisor.None?
    case OvertimeReason => f.kind == Some(Overtime) && f.reason.None? && f.supervisor.None?
    case LeaveReason => f.kind == Some(Leave) && f.reason.None? && f.supervisor.None?
    case AwaitingApproval => f.kind.Some? && f.reason.Some? && f.supervisor.Some?
  }

  /** The message sent to the supervisor for a pending approval. */
  predicate AsksFor(o: Outgoing, p: PendingApproval) {
    o.to == SupervisorChat(p.supervisor) && o.reply.ApprovalRequest?
    && o.reply.kind == p.kind && o.reply.name == p.employee.name
  }

  /**
   * The invariant of every reachable state:
   * every correlation key is the id of the message sent for it;
   * each flow carries the fields of its step;
   * a user waiting for a helpdesk answer has an instruction in the group that routes to them.
   */
  ghost predicate Valid(cfg: Config, s: State) {
    && (forall id :: id in s.approvals ==> id < |s.outbox| && AsksFor(s.outbox[id], s.approvals[id]))
    && (forall id :: id in s.forwards ==>
          id < |s.outbox| && s.outbox[id] == Outgoing(cfg.helpdeskGroup, GroupInstruction(s.forwards[id])))
    && (forall c :: c in s.requests ==> WellFormed(s.requests[c]))
    && (forall c :: c in s.helpdesk && s.helpdesk[c] == AwaitingAnswer ==> c in s.forwards.Values)
  }

  /** A quote reply in the helpdesk group to an instruction that routes to a (non-empty, so truthy) chat id. */
  predicate IsGroupAnswer(cfg: Config, s: State, m: Inbound) {
    m.from == cfg.helpdeskGroup && m.quoted.Some? && m.quoted.value in s.forwards
    && s.forwards[m.quoted.value] != ""
  }

  /** Lines 125-149: only a quote of a known instruction in the helpdesk group does anything. */
  function OnGroup(cfg: Config, s: State, m: Inbound): State {
    if IsGroupAnswer(cfg, s, m) then
      var target := s.forwards[m.quoted.value];
      var s1 := Emit(Emit(s, target, HelpdeskAnswer(m.body)), target, FollowupMenu);
      var s2 := s1.(helpdesk := s1.helpdesk[target := Followup]);
      Emit(s2, cfg.helpdeskGroup, AnswerForwarded(target))
    else
      s
  }

  /** Lines 158-181: a supervisor's quote reply to a pending approval request. */
  function OnDecision(s: State, from: ChatId, decision: Decision, q: MsgId): State
    requires q in s.approvals
  {
    var p := s.approvals[q];
    match decision
    case Approve =>
      var s1 := Emit(Emit(s, p.sender, RequestApproved(p.kind)), from, ApprovalAck(p.employee.name));
      s1.(approvals := s1.approvals - {q})
    case Reject =>
      var s1 := Emit(Emit(s, p.sender, RequestRejected(p.kind)), from, RejectionAck(p.employee.name));
      s1.(approvals := s1.approvals - {q})
    case Undecided =>
      Emit(s, from, DecisionPrompt)
  }

  /** Lines 190-254: the helpdesk flow of an external sender or one in helpdesk mode. */
  function OnHelpdesk(cfg: Config, s: State, from: ChatId, body: string, command: string): State {
    if from !in s.helpdesk then
      var s1 := Emit(s, from, HelpdeskWelcome);
      s1.(helpdesk := s1.helpdesk[from := Identity])
    else
      match s.helpdesk[from]
      case Identity =>
        var s1 := Emit(s, from, AskQuestion);
        s1.(helpdesk := s1.helpdesk[from := Question])
      case Question =>
        var s1 := Emit(s, cfg.helpdeskGroup, GroupQuestion(from, body));
        var instruction := |s1.outbox|;
        var s2 := Emit(s1, cfg.helpdeskGroup, GroupInstruction(from));
        var s3 := Emit(s2.(forwards := s2.forwards[instruction := from]), from, QuestionForwarded);
        s3.(helpdesk := s3.helpdesk[from := AwaitingAnswer])
      case AwaitingAnswer =>
        s
      case Followup =>
        if Contains(command, "selesai") then
          var s1 := Emit(s, from, HelpdeskThanks);
          s1.(helpdesk := s1.helpdesk - {from})
        else if command == "1" then
          var s1 := Emit(s, from, AskFollowupQuestion);
          s1.(helpdesk := s1.helpdesk[from := Question])
        else if command == "2" then
          var s1 := Emit(s, from, AskSchedule);
          s1.(helpdesk := s1.helpdesk[from := Schedule])
        else
          Emit(s, from, FollowupInvalid)
      case Schedule =>
        var s1 := Emit(Emit(s, from, ScheduleReceived), cfg.helpdeskGroup, ScheduleRequest(from, body));
        s1.(helpdesk := s1.helpdesk - {from})
  }

  /**
   * Lines 299-329: the reason step, given the trimmed reason and the
   * supervisor `cariAtasanPegawai` found (line 301). It sends the approval
   * request to the supervisor.
   */
  function OnReason(s: State, from: ChatId, reason: string, employee: Employee, flow: RequestFlow, supervisor: Option<Employee>): State
    requires flow.kind.Some?
  {
    if supervisor.None? then
      var s1 := Emit(s, from, SupervisorNotFound);
      s1.(requests := s1.requests - {from})
    else
      var kind := flow.kind.value;
      var s1 := s.(requests := s.requests[from := flow.(step := AwaitingApproval, reason := Some(reason), supervisor := supervisor)]);
      var approvalId := |s1.outbox|;
      var s2 := Emit(s1, SupervisorChat(supervisor.value), ApprovalRequest(kind, employee.name, reason));
      var s3 := s2.(approvals := s2.approvals[approvalId := PendingApproval(from, kind, employee, supervisor.value)]);
      Emit(s3, from, RequestForwarded(kind))
  }

  /**
   * Lines 257-335: the internal flow of a sender found in the directory. It
   * is reached only when the sender has no helpdesk flow, so the helpdesk
   * checks at lines 261 and 334 never hold and are not modelled.
   */
  function OnInternal(cfg: Config, s: State, from: ChatId, body: string, command: string, employee: Employee): State
    requires from !in s.helpdesk
    requires from in s.requests ==> WellFormed(s.requests[from])
  {
    if from !in s.requests || command == "menu" then
      var s1 := Emit(s, from, MainMenu(employee.name));
      s1.(requests := s1.requests[from := RequestFlow(Menu, None, None, employee, None)])
    else
      var flow := s.requests[from];
      match flow.step
      case Menu =>
        if command == "1" then
          var s1 := Emit(s, from, AskReason(Overtime));
          s1.(requests := s1.requests[from := flow.(step := OvertimeReason, kind := Some(Overtime))])
        else if command == "2" then
          var s1 := Emit(s, from, AskReason(Leave));
          s1.(requests := s1.requests[from := flow.(step := LeaveReason, kind := Some(Leave))])
        else if command == "3" then
          var s1 := Emit(s, from, AskHelpdeskQuestion);
          s1.(helpdesk := s1.helpdesk[from := Question], requests := s1.requests - {from})
        else
          Emit(s, from, MenuInvalid)
      case OvertimeReason =>
        OnReason(s, from, Trim(body), employee, flow, FindSupervisor(cfg.directory, Some(employee)))
      case LeaveReason =>
        OnReason(s, from, Trim(body), employee, flow, FindSupervisor(cfg.directory, Some(employee)))
      case AwaitingApproval =>
        Emit(s, from, UnknownCommand)
  }

  /** Lines 187-335: ordinary routing of a direct message that is not a supervisor decision. */
  function OnDirect(cfg: Config, s: State, from: ChatId, body: string): State
    requires forall c :: c in s.requests ==> WellFormed(s.requests[c])
  {
    var employee := FindByPhone(cfg.directory, Digits(from));
    var command := Normalize(body);
    if employee.None? || from in s.helpdesk then
      OnHelpdesk(cfg, s, from, body, command)
    else
      OnInternal(cfg, s, from, body, command, employee.value)
  }

  /** A direct message quoting a pending approval request is a supervisor decision (line 153-158). */
  predicate IsDecision(s: State, m: Inbound) {
    !IsGroupChat(m.from) && m.quoted.Some? && m.quoted.value in s.approvals
  }

  /** The whole `'message'` handler (lines 116-342), one inbound event at a time. */
  function Step(cfg: Config, s: State, m: Inbound): State
    requires forall c :: c in s.requests ==> WellFormed(s.requests[c])
  {
    if IsGroupChat(m.from) then OnGroup(cfg, s, m)
    else if IsDecision(s, m) then OnDecision(s, m.from, Classify(m.body), m.quoted.value)
    else OnDirect(cfg, s, m.from, m.body)
  }
}
