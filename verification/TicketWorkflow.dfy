/** The ticket workflow: a transition table with assignment and permission rules, and an audit log that
    is extended in the commit that changes the ticket. */
module TicketWorkflow {
  import opened Common
  import opened TicketKinds

  /** A transfer names its target; `eligible` says that the target is an active member that may manage
      the workflow. */
  datatype Action = Claim | Transfer(target: int, eligible: bool) | Resolve | Reopen | Close

  datatype EventType = WasCreated | WasClaimed | WasTransferred | WasResolved | WasReopened | WasClosed

  datatype Event = Event(
    kind: EventType,
    actor: int,
    fromStatus: Option<Status>,
    toStatus: Status,
    fromAssignee: Option<int>,
    toAssignee: Option<int>,
    note: Option<string>)

  datatype Ticket = Ticket(
    creator: int,
    status: Status,
    assignee: Option<int>,
    subject: string,
    description: string,
    priority: Priority)

  /** A member acting on a ticket, with the permissions that matter. */
  datatype Caller = Caller(member: int, readAll: bool, updateAll: bool, manageWorkflow: bool, manageRoles: bool)

  datatype Error = NotFound | Forbidden | TransitionConflict | AssigneeNotFound | AssignmentConflict

  datatype Outcome = Done | Refused(error: Error)

  datatype Changes = Changes(subject: Option<string>, description: Option<string>, priority: Option<Priority>)

  /** The transition table, by the type of the event it produces. */
  function Next(kind: EventType, status: Status): Option<Status> {
    match (kind, status)
    case (WasClaimed, Open) => Some(InProgress)
    case (WasTransferred, InProgress) => Some(InProgress)
    case (WasResolved, InProgress) => Some(Resolved)
    case (WasReopened, Resolved) => Some(Open)
    case (WasReopened, Closed) => Some(Open)
    case (WasClosed, Resolved) => Some(Closed)
    case _ => None
  }

  function EventOf(action: Action): EventType {
    match action
    case Claim => WasClaimed
    case Transfer(_, _) => WasTransferred
    case Resolve => WasResolved
    case Reopen => WasReopened
    case Close => WasClosed
  }

  function AssigneeAfter(t: Ticket, caller: Caller, action: Action): Option<int> {
    match action
    case Claim => Some(caller.member)
    case Transfer(target, _) => Some(target)
    case Reopen => None
    case _ => t.assignee
  }

  predicate MayAct(t: Ticket, caller: Caller, action: Action) {
    match action
    case Claim => caller.manageWorkflow
    case Reopen => t.creator == caller.member || caller.manageWorkflow
    case _ => caller.manageWorkflow && (t.assignee == Some(caller.member) || caller.manageRoles)
  }

  /** Why an action is refused, the first reason first. */
  function Refusal(t: Ticket, caller: Caller, action: Action): Option<Error> {
    if t.creator != caller.member && !caller.readAll then Some(NotFound)
    else if !MayAct(t, caller, action) then Some(Forbidden)
    else if Next(EventOf(action), t.status).None? then Some(TransitionConflict)
    else if action.Transfer? && !action.eligible then Some(AssigneeNotFound)
    else if action.Transfer? && t.assignee == Some(action.target) then Some(AssignmentConflict)
    else if action.Claim? && t.assignee.Some? then Some(AssignmentConflict)
    else None
  }

  datatype State = State(ticket: Ticket, log: seq<Event>)

  datatype Command =
    | Act(caller: Caller, action: Action, note: Option<string>)
    | Update(caller: Caller, changes: Changes)

  function Stripped(note: Option<string>): Option<string> {
    if note.None? then None else Some(Strip(note.value))
  }

  function NewTicket(creator: int, subject: string, description: string, priority: Priority): State {
    State(Ticket(creator, Open, None, Strip(subject), Strip(description), priority),
          [Event(WasCreated, creator, None, Open, None, None, None)])
  }

  function Acted(s: State, caller: Caller, action: Action, note: Option<string>): State
    requires Refusal(s.ticket, caller, action).None?
  {
    var status := Next(EventOf(action), s.ticket.status).value;
    var assignee := AssigneeAfter(s.ticket, caller, action);
    State(s.ticket.(status := status, assignee := assignee),
          s.log + [Event(EventOf(action), caller.member, Some(s.ticket.status), status, s.ticket.assignee, assignee,
                         Stripped(note))])
  }

  predicate MayUpdate(t: Ticket, caller: Caller) {
    t.creator == caller.member || caller.updateAll
  }

  function Updated(t: Ticket, c: Changes): Ticket {
    t.(subject := if c.subject.Some? then Strip(c.subject.value) else t.subject,
    description := if c.description.Some? then Strip(c.description.value) else t.description,
    priority := if c.priority.Some? then c.priority.value else t.priority)
  }

  function Perform(s: State, command: Command): State {
    match command
    case Act(caller, action, note) =>
      if Refusal(s.ticket, caller, action).Some? then s else Acted(s, caller, action, note)
    case Update(caller, changes) =>
      if MayUpdate(s.ticket, caller) then s.(ticket := Updated(s.ticket, changes)) else s
  }

  function OutcomeOf(s: State, command: Command): Outcome {
    match command
    case Act(caller, action, _) =>
      var refusal := Refusal(s.ticket, caller, action);
      if refusal.Some? then Refused(refusal.value) else Done
    case Update(caller, _) => if MayUpdate(s.ticket, caller) then Done else Refused(NotFound)
  }

  /** One ticket row and its event rows, as the service's transactions change them. */
  class TicketRecord {
    const creator: int
    var status: Status
    var assignee: Option<int>
    var subject: string
    var description: string
    var priority: Priority
    var log: seq<Event>

    function Now(): State
      reads this
    {
      State(Ticket(creator, status, assignee, subject, description, priority), log)
    }

    constructor (creator: int, subject: string, description: string, priority: Priority)
      ensures Now() == NewTicket(creator, subject, description, priority)
    {
      this.creator := creator;
      this.status, this.assignee := Open, None;
      this.subject, this.description, this.priority := Strip(subject), Strip(description), priority;
      this.log := [Event(WasCreated, creator, None, Open, None, None, None)];
    }

    method SaveAction(caller: Caller, kind: EventType, nextStatus: Status, nextAssignee: Option<int>,
                      note: Option<string>)
      modifies this
      ensures Now() == State(old(Now().ticket).(status := nextStatus, assignee := nextAssignee),
                             old(log) + [Event(kind, caller.member, Some(old(status)), nextStatus, old(assignee),
                                               nextAssignee, Stripped(note))])
    {
      log := log + [Event(kind, caller.member, Some(status), nextStatus, assignee, nextAssignee, Stripped(note))];
      status := nextStatus;
      assignee := nextAssignee;
    }

    predicate Visible(caller: Caller)
      reads this
    {
      creator == caller.member || caller.readAll
    }

    method ClaimIt(caller: Caller, note: Option<string>) returns (r: Outcome)
      modifies this
      ensures Now() == Perform(old(Now()), Act(caller, Claim, note))
      ensures r == OutcomeOf(old(Now()), Act(caller, Claim, note))
    {
      if !Visible(caller) { return Refused(NotFound); }
      if !caller.manageWorkflow { return Refused(Forbidden); }
      var next := Next(WasClaimed, status);
      if next.None? { return Refused(TransitionConflict); }
      if assignee.Some? { return Refused(AssignmentConflict); }
      SaveAction(caller, WasClaimed, next.value, Some(caller.member), note);
      r := Done;
    }

    method TransferTo(caller: Caller, target: int, eligible: bool, note: Option<string>) returns (r: Outcome)
      modifies this
      ensures Now() == Perform(old(Now()), Act(caller, Transfer(target, eligible), note))
      ensures r == OutcomeOf(old(Now()), Act(caller, Transfer(target, eligible), note))
    {
      if !Visible(caller) { return Refused(NotFound); }
      if !caller.manageWorkflow { return Refused(Forbidden); }
      if assignee != Some(caller.member) && !caller.manageRoles { return Refused(Forbidden); }
      var next := Next(WasTransferred, status);
      if next.None? { return Refused(TransitionConflict); }
      if !eligible { return Refused(AssigneeNotFound); }
      if assignee == Some(target) { return Refused(AssignmentConflict); }
      SaveAction(caller, WasTransferred, next.value, Some(target), note);
      r := Done;
    }

    method ResolveIt(caller: Caller, note: Option<string>) returns (r: Outcome)
      modifies this
      ensures Now() == Perform(old(Now()), Act(caller, Resolve, note))
      ensures r == OutcomeOf(old(Now()), Act(caller, Resolve, note))
    {
      if !Visible(caller) { return Refused(NotFound); }
      if !caller.manageWorkflow { return Refused(Forbidden); }
      if assignee != Some(caller.member) && !caller.manageRoles { return Refused(Forbidden); }
      var next := Next(WasResolved, status);
      if next.None? { return Refused(TransitionConflict); }
      SaveAction(caller, WasResolved, next.value, assignee, note);
      r := Done;
    }

    method ReopenIt(caller: Caller, note: Option<string>) returns (r: Outcome)
      modifies this
      ensures Now() == Perform(old(Now()), Act(caller, Reopen, note))
      ensures r == OutcomeOf(old(Now()), Act(caller, Reopen, note))
    {
      if !Visible(caller) { return Refused(NotFound); }
      if creator != caller.member && !caller.manageWorkflow { return Refused(Forbidden); }
      var next := Next(WasReopened, status);
      if next.None? { return Refused(TransitionConflict); }
      SaveAction(caller, WasReopened, next.value, None, note);
      r := Done;
    }

    method CloseIt(caller: Caller, note: Option<string>) returns (r: Outcome)
      modifies this
      ensures Now() == Perform(old(Now()), Act(caller, Close, note))
      ensures r == OutcomeOf(old(Now()), Act(caller, Close, note))
    {
      if !Visible(caller) { return Refused(NotFound); }
      if !caller.manageWorkflow { return Refused(Forbidden); }
      if assignee != Some(caller.member) && !caller.manageRoles { return Refused(Forbidden); }
      var next := Next(WasClosed, status);
      if next.None? { return Refused(TransitionConflict); }
      SaveAction(caller, WasClosed, next.value, assignee, note);
      r := Done;
    }

    method UpdateText(caller: Caller, changes: Changes) returns (r: Outcome)
      modifies this`subject, this`description, this`priority
      ensures Now() == Perform(old(Now()), Update(caller, changes))
      ensures r == OutcomeOf(old(Now()), Update(caller, changes))
    {
      if creator != caller.member && !caller.updateAll { return Refused(NotFound); }
      if changes.subject.Some? { subject := Strip(changes.subject.value); }
      if changes.description.Some? { description := Strip(changes.description.value); }
      if changes.priority.Some? { priority := changes.priority.value; }
      r := Done;
    }
  }

  // ---- over whole lives of a ticket ------------------------------------------------------------

  function Run(s: State, commands: seq<Command>): State
    decreases |commands|
  {
    if commands == [] then s else Run(Perform(s, commands[0]), commands[1..])
  }

  // ---- exactly when each action goes through, by the ticket's columns -------------------------------

  /** An action that is refused changes nothing; one that goes through changes status and assignee alone and
      writes one event of its type that names actor, both statuses, both assignees and the stripped note. */
  lemma ActionIsLogged(s: State, caller: Caller, action: Action, note: Option<string>)
    ensures var after := Perform(s, Act(caller, action, note));
            if OutcomeOf(s, Act(caller, action, note)) != Done then after == s
            else
              && after.ticket == s.ticket.(status := after.ticket.status, assignee := after.ticket.assignee)
              && |after.log| == |s.log| + 1 && after.log[..|s.log|] == s.log
              && var e := after.log[|s.log|];
              && e.actor == caller.member
              && e.fromStatus == Some(s.ticket.status) && e.toStatus == after.ticket.status
              && e.fromAssignee == s.ticket.assignee && e.toAssignee == after.ticket.assignee
              && (note.None? ==> e.note == None) && (note.Some? ==> e.note == Some(Strip(note.value)))
              && (e.kind == WasClaimed <==> action == Claim) && (e.kind == WasTransferred <==> action.Transfer?)
              && (e.kind == WasResolved <==> action == Resolve) && (e.kind == WasReopened <==> action == Reopen)
              && (e.kind == WasClosed <==> action == Close)
  {
  }

  lemma ClaimedExactlyWhen(s: State, caller: Caller, note: Option<string>)
    ensures var t, after := s.ticket, Perform(s, Act(caller, Claim, note)).ticket;
            && (OutcomeOf(s, Act(caller, Claim, note)) == Done <==>
                && (t.creator == caller.member || caller.readAll) && caller.manageWorkflow
                && t.status == Open && t.assignee == None)
            && (OutcomeOf(s, Act(caller, Claim, note)) == Done ==>
                  after.status == InProgress && after.assignee == Some(caller.member))
  {
  }

  lemma TransferredExactlyWhen(s: State, caller: Caller, target: int, eligible: bool, note: Option<string>)
    ensures var t, after := s.ticket, Perform(s, Act(caller, Transfer(target, eligible), note)).ticket;
            && (OutcomeOf(s, Act(caller, Transfer(target, eligible), note)) == Done <==>
                && (t.creator == caller.member || caller.readAll) && caller.manageWorkflow
                && (t.assignee == Some(caller.member) || caller.manageRoles)
                && t.status == InProgress && eligible && t.assignee != Some(target))
            && (OutcomeOf(s, Act(caller, Transfer(target, eligible), note)) == Done ==>
                  after.status == InProgress && after.assignee == Some(target))
  {
  }

  lemma ResolvedExactlyWhen(s: State, caller: Caller, note: Option<string>)
    ensures var t, after := s.ticket, Perform(s, Act(caller, Resolve, note)).ticket;
            && (OutcomeOf(s, Act(caller, Resolve, note)) == Done <==>
                && (t.creator == caller.member || caller.readAll) && caller.manageWorkflow
                && (t.assignee == Some(caller.member) || caller.manageRoles) && t.status == InProgress)
            && (OutcomeOf(s, Act(caller, Resolve, note)) == Done ==> after == t.(status := Resolved))
  {
  }

  lemma ReopenedExactlyWhen(s: State, caller: Caller, note: Option<string>)
    ensures var t, after := s.ticket, Perform(s, Act(caller, Reopen, note)).ticket;
            && (OutcomeOf(s, Act(caller, Reopen, note)) == Done <==>
                && (t.creator == caller.member || (caller.readAll && caller.manageWorkflow))
                && (t.status == Resolved || t.status == Closed))
            && (OutcomeOf(s, Act(caller, Reopen, note)) == Done ==> after == t.(status := Open, assignee := None))
  {
  }

  lemma ClosedExactlyWhen(s: State, caller: Caller, note: Option<string>)
    ensures var t, after := s.ticket, Perform(s, Act(caller, Close, note)).ticket;
            && (OutcomeOf(s, Act(caller, Close, note)) == Done <==>
                && (t.creator == caller.member || caller.readAll) && caller.manageWorkflow
                && (t.assignee == Some(caller.member) || caller.manageRoles) && t.status == Resolved)
            && (OutcomeOf(s, Act(caller, Close, note)) == Done ==> after == t.(status := Closed))
  {
  }

  /** The reason given: a ticket out of sight is reported missing before anything else, then a lack of
      permission, then the status, then the target. */
  lemma RefusedExactlyWhen(s: State, caller: Caller, action: Action, note: Option<string>)
    ensures var t, r := s.ticket, OutcomeOf(s, Act(caller, action, note));
            var seen := t.creator == caller.member || caller.readAll;
            var may := match action
              case Claim => caller.manageWorkflow
              case Reopen => caller.manageWorkflow || t.creator == caller.member
              case _ => caller.manageWorkflow && (caller.manageRoles || t.assignee == Some(caller.member));
            var fits := match action
              case Claim => t.status == Open
              case Reopen => t.status == Resolved || t.status == Closed
              case Close => t.status == Resolved
              case _ => t.status == InProgress;
            && (r == Refused(NotFound) <==> !seen)
            && (r == Refused(Forbidden) <==> seen && !may)
            && (r == Refused(TransitionConflict) <==> seen && may && !fits)
            && (r == Refused(AssigneeNotFound) <==> seen && may && fits && action.Transfer? && !action.eligible)
            && (r == Refused(AssignmentConflict) <==>
                && seen && may && fits
                && ((action == Claim && t.assignee != None)
                    || (action.Transfer? && action.eligible && t.assignee == Some(action.target))))
  {
  }

  lemma UpdatedExactlyWhen(s: State, caller: Caller, changes: Changes)
    ensures var t, r, after := s.ticket, OutcomeOf(s, Update(caller, changes)), Perform(s, Update(caller, changes));
            && (r == Done <==> t.creator == caller.member || caller.updateAll)
            && (r != Done ==> r == Refused(NotFound) && after == s)
            && after.log == s.log && after.ticket.creator == t.creator
            && after.ticket.status == t.status && after.ticket.assignee == t.assignee
            && (r == Done ==>
                  && after.ticket.subject == (if changes.subject.Some? then Strip(changes.subject.value) else t.subject)
                  && after.ticket.description
                     == (if changes.description.Some? then Strip(changes.description.value) else t.description)
                  && after.ticket.priority == (if changes.priority.Some? then changes.priority.value else t.priority))
  {
  }

  lemma OneCommand(s: State, command: Command, more: seq<Command>)
    ensures Run(s, [command] + more) == Run(Perform(s, command), more) && Run(s, []) == s
  {
    assert ([command] + more)[1..] == more;
  }

  /** A member who sees every ticket and may manage the workflow can take a new ticket all the way: claimed,
      resolved, closed, and open to everybody again, with five events on record. */
  lemma AWholeLife(s: State, agent: Caller)
    requires s.ticket.status == Open && s.ticket.assignee == None && agent.readAll && agent.manageWorkflow
    ensures var claim, resolve, close, reopen :=
              Act(agent, Claim, None), Act(agent, Resolve, None), Act(agent, Close, None), Act(agent, Reopen, None);
            var t := Run(s, [claim, resolve, close, reopen]);
            && t.ticket == s.ticket && |t.log| == |s.log| + 4
            && t.log[|s.log|].toStatus == InProgress && t.log[|s.log| + 1].toStatus == Resolved
            && t.log[|s.log| + 2].toStatus == Closed && t.log[|s.log| + 3].toStatus == Open
  {
    var claim, resolve, close, reopen :=
      Act(agent, Claim, None), Act(agent, Resolve, None), Act(agent, Close, None), Act(agent, Reopen, None);
    hide Perform, Run;
    ClaimedAndResolved(s, agent);
    var a := Perform(s, claim);
    var b := Perform(a, resolve);
    ClosedAndReopened(b, agent);
    var c := Perform(b, close);
    assert [claim, resolve, close, reopen] == [claim] + [resolve, close, reopen];
    assert [resolve, close, reopen] == [resolve] + [close, reopen] && [close, reopen] == [close] + [reopen];
    assert [reopen] == [reopen] + [];
    OneCommand(s, claim, [resolve, close, reopen]);
    OneCommand(a, resolve, [close, reopen]);
    OneCommand(b, close, [reopen]);
    OneCommand(c, reopen, []);
    OneCommand(Perform(c, reopen), reopen, []);
    var d := Perform(c, reopen);
    assert d.log[..|b.log|][|s.log|] == b.log[|s.log|] && d.log[..|b.log|][|s.log| + 1] == b.log[|s.log| + 1];
  }

  lemma ClaimedAndResolved(s: State, agent: Caller)
    requires s.ticket.status == Open && s.ticket.assignee == None && agent.readAll && agent.manageWorkflow
    ensures var t := Perform(Perform(s, Act(agent, Claim, None)), Act(agent, Resolve, None));
            && t.ticket == s.ticket.(status := Resolved, assignee := Some(agent.member))
            && |t.log| == |s.log| + 2
            && t.log[|s.log|].toStatus == InProgress && t.log[|s.log| + 1].toStatus == Resolved
  {
  }

  lemma ClosedAndReopened(s: State, agent: Caller)
    requires s.ticket.status == Resolved && s.ticket.assignee == Some(agent.member)
    requires agent.readAll && agent.manageWorkflow
    ensures var t := Perform(Perform(s, Act(agent, Close, None)), Act(agent, Reopen, None));
            && t.ticket == s.ticket.(status := Open, assignee := None)
            && |t.log| == |s.log| + 2 && t.log[..|s.log|] == s.log
            && t.log[|s.log|].toStatus == Closed && t.log[|s.log| + 1].toStatus == Open
  {
  }

  predicate Trimmed(text: string) {
    text != "" ==> !Blank(text[0]) && !Blank(text[|text| - 1])
  }

  predicate TextKept(a: Ticket, b: Ticket, acts: bool) {
    && b.creator == a.creator
    && (Trimmed(a.subject) && Trimmed(a.description) ==> Trimmed(b.subject) && Trimmed(b.description))
    && (acts ==> a.subject == b.subject && a.description == b.description && a.priority == b.priority)
  }

  lemma CommandKeepsText(s: State, command: Command)
    ensures TextKept(s.ticket, Perform(s, command).ticket, command.Act?)
  {
    if command.Update? {
      var c := command.changes;
      StrippedEnds(if c.subject.Some? then c.subject.value else "");
      StrippedEnds(if c.description.Some? then c.description.value else "");
    }
  }

  /** In every run the creator stays, text and priority stay but for updates, and text that neither begins nor
      ends with a blank never comes to. */
  lemma {:induction false} TextIsKept(s: State, commands: seq<Command>)
    ensures TextKept(s.ticket, Run(s, commands).ticket, forall i :: 0 <= i < |commands| ==> commands[i].Act?)
    decreases |commands|
  {
    hide Perform;
    if commands != [] {
      CommandKeepsText(s, commands[0]);
      TextIsKept(Perform(s, commands[0]), commands[1..]);
    }
  }

  lemma NewTicketIsOpen(creator: int, subject: string, description: string, priority: Priority)
    ensures var s := NewTicket(creator, subject, description, priority);
            && s.ticket.creator == creator && s.ticket.priority == priority
            && s.ticket.status == Open && s.ticket.assignee == None
            && s.ticket.subject == Strip(subject) && s.ticket.description == Strip(description)
            && Trimmed(s.ticket.subject) && Trimmed(s.ticket.description)
            && |s.log| == 1 && s.log[0].actor == creator && s.log[0].note == None
  {
    StrippedEnds(subject);
    StrippedEnds(description);
  }

  /** The log chains: one creation, first; each later event starts where the one before ended, and is a
      row of the transition table. */
  predicate Chained(log: seq<Event>) {
    && log != []
    && log[0].kind == WasCreated && log[0].fromStatus == None && log[0].fromAssignee == None
    && log[0].toStatus == Open && log[0].toAssignee == None
    && forall i :: 1 <= i < |log| ==> Follows(log[i - 1], log[i])
  }

  predicate Follows(a: Event, b: Event) {
    && b.kind != WasCreated
    && b.fromStatus == Some(a.toStatus) && b.fromAssignee == a.toAssignee
    && Next(b.kind, a.toStatus) == Some(b.toStatus)
    && match b.kind
       case WasClaimed => a.toAssignee == None && b.toAssignee == Some(b.actor)
       case WasTransferred => b.toAssignee.Some? && b.toAssignee != a.toAssignee
       case WasReopened => b.toAssignee == None
       case _ => b.toAssignee == a.toAssignee
  }

  predicate Describes(log: seq<Event>, t: Ticket) {
    log != [] && log[|log| - 1].toStatus == t.status && log[|log| - 1].toAssignee == t.assignee
  }

  predicate Assigned(status: Status, assignee: Option<int>) {
    status == Open <==> assignee == None
  }

  predicate Sound(s: State) {
    && Chained(s.log)
    && Describes(s.log, s.ticket)
    && Assigned(s.ticket.status, s.ticket.assignee)
  }

  lemma CommandKeepsSound(s: State, command: Command)
    requires Sound(s)
    ensures Sound(Perform(s, command))
    ensures s.log <= Perform(s, command).log
    ensures command.Update? ==> Perform(s, command).log == s.log
                                && Perform(s, command).ticket.status == s.ticket.status
                                && Perform(s, command).ticket.assignee == s.ticket.assignee
  {
  }

  lemma {:induction false} RunKeepsSound(s: State, commands: seq<Command>)
    requires Sound(s)
    ensures Sound(Run(s, commands)) && s.log <= Run(s, commands).log
    decreases |commands|
  {
    if commands != [] {
      CommandKeepsSound(s, commands[0]);
      RunKeepsSound(Perform(s, commands[0]), commands[1..]);
    }
  }

  datatype Projection = Projection(status: Status, assignee: Option<int>)

  /** Replays a log by the types of its events alone, through the transition table; only the target of a
      transfer and the actor of a claim are read besides. */
  function Replay(log: seq<Event>): Projection {
    if log == [] then Projection(Open, None) else
    var p := Replay(log[..|log| - 1]);
    var e := log[|log| - 1];
    var status := Next(e.kind, p.status);
    Projection(if status.Some? then status.value else p.status,
               match e.kind
               case WasClaimed => Some(e.actor)
               case WasTransferred => e.toAssignee
               case WasReopened => None
               case _ => p.assignee)
  }

  lemma PrefixChains(log: seq<Event>)
    requires Chained(log) && |log| > 1
    ensures Chained(log[..|log| - 1])
  {
  }

  lemma {:induction false} ReplayOfChain(log: seq<Event>)
    requires Chained(log)
    ensures Replay(log) == Projection(log[|log| - 1].toStatus, log[|log| - 1].toAssignee)
  {
    if |log| == 1 {
      assert log[..0] == [];
    } else {
      var most := log[..|log| - 1];
      PrefixChains(log);
      ReplayOfChain(most);
      assert Follows(log[|log| - 2], log[|log| - 1]);
    }
  }

  /** After any commands whatever, accepted or refused, the log has one creation, first, every event
      starts where the one before it ended, and replaying the log gives the ticket's status and
      assignee. */
  lemma LogRefinesTicket(creator: int, subject: string, description: string, priority: Priority, commands: seq<Command>)
    ensures var s := Run(NewTicket(creator, subject, description, priority), commands);
            && Chained(s.log)
            && Replay(s.log) == Projection(s.ticket.status, s.ticket.assignee)
  {
    var s0 := NewTicket(creator, subject, description, priority);
    RunKeepsSound(s0, commands);
    ReplayOfChain(Run(s0, commands).log);
  }

  function Count(log: seq<Event>, kind: EventType): nat {
    if log == [] then 0 else Count(log[..|log| - 1], kind) + if log[|log| - 1].kind == kind then 1 else 0
  }

  lemma {:induction false} ClaimsAndReopens(log: seq<Event>)
    requires Chained(log)
    ensures Count(log, WasClaimed) - Count(log, WasReopened) == if log[|log| - 1].toStatus == Open then 0 else 1
    ensures Count(log, WasCreated) == 1
  {
    if |log| == 1 {
      assert log[..0] == [];
    } else {
      var most := log[..|log| - 1];
      PrefixChains(log);
      ClaimsAndReopens(most);
      assert Follows(log[|log| - 2], log[|log| - 1]);
    }
  }

  /** Without a reopening in between, an event at `i` that leaves the ticket not open leaves it so. */
  lemma {:induction false} StaysTaken(log: seq<Event>, i: nat, j: nat)
    requires Chained(log) && i <= j < |log|
    requires log[i].toStatus != Open
    requires forall k :: i < k <= j ==> log[k].kind != WasReopened
    ensures log[j].toStatus != Open
    decreases j
  {
    if i < j {
      StaysTaken(log, i, j - 1);
      assert Follows(log[j - 1], log[j]);
    }
  }

  /** In every reachable state a ticket is open exactly if nobody holds it, claims exceed reopenings by
      none or one, and between any two claims lies a reopening. */
  lemma ClaimsAlternateWithReopens(creator: int, subject: string, description: string, priority: Priority,
                                   commands: seq<Command>)
    ensures var s := Run(NewTicket(creator, subject, description, priority), commands);
            && (s.ticket.status == Open <==> s.ticket.assignee == None)
            && Count(s.log, WasClaimed) - Count(s.log, WasReopened) == (if s.ticket.status == Open then 0 else 1)
            && Count(s.log, WasCreated) == 1
            && forall i, j :: 0 <= i < j < |s.log| && s.log[i].kind == WasClaimed && s.log[j].kind == WasClaimed ==>
                                exists k :: i < k < j && s.log[k].kind == WasReopened
  {
    var s0 := NewTicket(creator, subject, description, priority);
    RunKeepsSound(s0, commands);
    var log := Run(s0, commands).log;
    ClaimsAndReopens(log);
    forall i, j | 0 <= i < j < |log| && log[i].kind == WasClaimed && log[j].kind == WasClaimed
      ensures exists k :: i < k < j && log[k].kind == WasReopened
    {
      assert i > 0 && Follows(log[i - 1], log[i]) && Follows(log[j - 1], log[j]);
      if forall k :: i < k <= j - 1 ==> log[k].kind != WasReopened {
        StaysTaken(log, i, j - 1);
        assert false;
      }
    }
  }

  /** On a reachable ticket a claim is never refused for an existing assignee: it succeeds exactly if the
      caller may see the ticket and manage the workflow, and the ticket is open. */
  lemma ClaimNeverFindsAnAssignee(creator: int, subject: string, description: string, priority: Priority,
                                  commands: seq<Command>, caller: Caller)
    ensures var t := Run(NewTicket(creator, subject, description, priority), commands).ticket;
            && Refusal(t, caller, Claim) != Some(AssignmentConflict)
            && (Refusal(t, caller, Claim).None? <==>
                (t.creator == caller.member || caller.readAll) && caller.manageWorkflow && t.status == Open)
  {
    RunKeepsSound(NewTicket(creator, subject, description, priority), commands);
  }
}
