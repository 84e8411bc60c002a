/**
 * The action executor: applies a matched email's actions, one by one,
 * to the mail service and mirrors read-flag changes into the local store.
 *
 * Execution is best effort: every action is attempted in order, a failure
 * only clears the overall success flag. The service's answers are not
 * known in advance, so the specification below takes them as `replies`,
 * one per action (ignored for an action that sends no request).
 */
module Actions {

  import opened Wrappers
  import opened Text
  import opened Store
  import opened Engine
  import opened Gmail

  /** The two stores the executor changes: the service and the local `emails` table. */
  datatype State = State(remote: Remote, emails: map<string, Email>)

  datatype Outcome = Outcome(state: State, ok: bool)

  /** One call of `execute_actions`: the email and the full action list it received. */
  datatype Invocation = Invocation(email: Email, actions: seq<Action>)

  /** Set the stored record's read flag, if the record exists; never inserts one. */
  function Mirror(emails: map<string, Email>, id: string, read: bool): map<string, Email> {
    if id in emails then emails[id := emails[id].(isRead := read)] else emails
  }

  /** `_mark_as_read` / `_mark_as_unread`: the remote change first, the local mirror only on success. */
  function MarkStep(st: State, req: Option<ModifyRequest>, id: string, read: bool, reply: bool): Outcome {
    match req
    case None => Outcome(st, false)
    case Some(r) =>
      if reply then Outcome(State(Send(st.remote, r, true), Mirror(st.emails, id, read)), true)
      else Outcome(State(Send(st.remote, r, false), st.emails), false)
  }

  /** `_move_message`: the result is the service's; the store is never touched. */
  function MoveStep(st: State, req: Option<ModifyRequest>, reply: bool): Outcome {
    match req
    case None => Outcome(st, false)
    case Some(r) => Outcome(State(Send(st.remote, r, reply), st.emails), reply)
  }

  /** `_execute_single_action`: dispatch on the lower-cased action type. */
  function Step(st: State, cache: map<string, string>, id: string, a: Action, reply: bool): Outcome {
    var kind := Lower(a.kind);
    if kind == "mark_read" then MarkStep(st, ReadRequest(cache, id), id, true, reply)
    else if kind == "mark_unread" then MarkStep(st, UnreadRequest(cache, id), id, false, reply)
    else if kind == "move_message" then MoveStep(st, MoveRequest(cache, id, a.destination), reply)
    else Outcome(st, false)
  }

  /** `execute_actions`: every action in order; the result is true only if each one succeeded. */
  function Run(st: State, cache: map<string, string>, id: string, actions: seq<Action>, replies: seq<bool>): Outcome
    requires |replies| == |actions|
    decreases |actions|
  {
    if actions == [] then Outcome(st, true)
    else
      var n := |actions| - 1;
      var before := Run(st, cache, id, actions[..n], replies[..n]);
      var last := Step(before.state, cache, id, actions[n], replies[n]);
      Outcome(last.state, before.ok && last.ok)
  }

  // ---------------------------------------------------------------------
  // Reference definitions the executor is checked against
  // ---------------------------------------------------------------------

  /** The request an action sends to the service, if it sends one. */
  function RequestFor(cache: map<string, string>, id: string, a: Action): Option<ModifyRequest> {
    var kind := Lower(a.kind);
    if kind == "mark_read" then ReadRequest(cache, id)
    else if kind == "mark_unread" then UnreadRequest(cache, id)
    else if kind == "move_message" then MoveRequest(cache, id, a.destination)
    else None
  }

  /** An action succeeds when it sends a request and the service accepts it. */
  predicate Succeeds(cache: map<string, string>, id: string, a: Action, reply: bool) {
    RequestFor(cache, id, a).Some? && reply
  }

  /** Every request the actions send, in action order. */
  function Requests(cache: map<string, string>, id: string, actions: seq<Action>): seq<ModifyRequest>
    decreases |actions|
  {
    if actions == [] then []
    else
      var n := |actions| - 1;
      Requests(cache, id, actions[..n])
        + match RequestFor(cache, id, actions[n]) case Some(r) => [r] case None => []
  }

  // ---------------------------------------------------------------------
  // Single actions
  // ---------------------------------------------------------------------

  /** One action: it succeeds exactly as `Succeeds` says, and sends exactly its request. */
  lemma StepSpec(st: State, cache: map<string, string>, id: string, a: Action, reply: bool)
    ensures Step(st, cache, id, a, reply).ok == Succeeds(cache, id, a, reply)
    ensures Step(st, cache, id, a, reply).state.remote.sent
         == st.remote.sent + match RequestFor(cache, id, a) case Some(r) => [r] case None => []
    ensures Step(st, cache, id, a, reply).state.emails.Keys == st.emails.Keys
    ensures forall k :: k in st.emails && k != id ==> Step(st, cache, id, a, reply).state.emails[k] == st.emails[k]
  {
  }

  /** An unknown action type fails and touches neither the service nor the store. */
  lemma UnknownActionChangesNothing(st: State, cache: map<string, string>, id: string, a: Action, reply: bool)
    requires Lower(a.kind) !in ["mark_read", "mark_unread", "move_message"]
    ensures Step(st, cache, id, a, reply) == Outcome(st, false)
  {
  }

  /**
   * `mark_read`: without a usable UNREAD id nothing happens and it fails;
   * otherwise the request is sent, and the stored flag becomes true only if
   * the service accepted it (a missing record is not inserted).
   */
  lemma MarkReadSpec(st: State, cache: map<string, string>, id: string, a: Action, reply: bool)
    requires Lower(a.kind) == "mark_read"
    ensures ReadRequest(cache, id).None? ==> Step(st, cache, id, a, reply) == Outcome(st, false)
    ensures ReadRequest(cache, id).Some? ==>
      var o := Step(st, cache, id, a, reply);
      o.ok == reply
      && o.state.remote == Send(st.remote, ReadRequest(cache, id).value, reply)
      && o.state.emails == (if reply then Mirror(st.emails, id, true) else st.emails)
      && (reply && id in st.emails ==> o.state.emails[id].isRead)
      && (id !in st.emails ==> o.state.emails == st.emails)
  {
  }

  /** `mark_unread` mirrors `mark_read`, clearing the flag only on success. */
  lemma MarkUnreadSpec(st: State, cache: map<string, string>, id: string, a: Action, reply: bool)
    requires Lower(a.kind) == "mark_unread"
    ensures UnreadRequest(cache, id).None? ==> Step(st, cache, id, a, reply) == Outcome(st, false)
    ensures UnreadRequest(cache, id).Some? ==>
      var o := Step(st, cache, id, a, reply);
      o.ok == reply
      && o.state.remote == Send(st.remote, UnreadRequest(cache, id).value, reply)
      && o.state.emails == (if reply then Mirror(st.emails, id, false) else st.emails)
      && (reply && id in st.emails ==> !o.state.emails[id].isRead)
      && (id !in st.emails ==> o.state.emails == st.emails)
  {
  }

  /** `move_message` never touches the store, and its result is the service's. */
  lemma MoveSpec(st: State, cache: map<string, string>, id: string, a: Action, reply: bool)
    requires Lower(a.kind) == "move_message"
    ensures Step(st, cache, id, a, reply).state.emails == st.emails
    ensures Step(st, cache, id, a, reply).ok == (MoveRequest(cache, id, a.destination).Some? && reply)
  {
  }

  /**
   * Marking read twice leaves the service's labels and the store as marking
   * once does, whether or not the service accepts the second request.
   */
  lemma MarkReadIdempotent(st: State, cache: map<string, string>, id: string, a: Action, reply: bool)
    requires Lower(a.kind) == "mark_read"
    ensures var once := Step(st, cache, id, a, true).state;
      var twice := Step(once, cache, id, a, reply).state;
      twice.remote.mailbox == once.remote.mailbox && twice.emails == once.emails
  {
    var once := Step(st, cache, id, a, true).state;
    if ReadRequest(cache, id).Some? {
      var r := ReadRequest(cache, id).value;
      assert Relabel(Relabel(LabelsOf(st.remote.mailbox, id), r), r) == Relabel(LabelsOf(st.remote.mailbox, id), r);
    }
  }

  // ---------------------------------------------------------------------
  // Action lists
  // ---------------------------------------------------------------------

  /** The overall result is true exactly when every action succeeded; an empty list succeeds. */
  lemma {:induction false} RunOkIff(st: State, cache: map<string, string>, id: string, actions: seq<Action>, replies: seq<bool>)
    requires |replies| == |actions|
    ensures Run(st, cache, id, actions, replies).ok <==>
      forall k :: 0 <= k < |actions| ==> Succeeds(cache, id, actions[k], replies[k])
    decreases |actions|
  {
    if actions != [] {
      var n := |actions| - 1;
      RunOkIff(st, cache, id, actions[..n], replies[..n]);
      StepSpec(Run(st, cache, id, actions[..n], replies[..n]).state, cache, id, actions[n], replies[n]);
    }
  }

  /** Every action is attempted: a failure never stops the requests of the actions after it. */
  lemma {:induction false} EveryActionAttempted(st: State, cache: map<string, string>, id: string, actions: seq<Action>, replies: seq<bool>)
    requires |replies| == |actions|
    ensures Run(st, cache, id, actions, replies).state.remote.sent == st.remote.sent + Requests(cache, id, actions)
    decreases |actions|
  {
    if actions != [] {
      var n := |actions| - 1;
      EveryActionAttempted(st, cache, id, actions[..n], replies[..n]);
      StepSpec(Run(st, cache, id, actions[..n], replies[..n]).state, cache, id, actions[n], replies[n]);
    }
  }

  /** The executor never inserts or removes stored records, and touches no record but the email's own. */
  lemma {:induction false} RunKeepsOtherRecords(st: State, cache: map<string, string>, id: string, actions: seq<Action>, replies: seq<bool>)
    requires |replies| == |actions|
    ensures Run(st, cache, id, actions, replies).state.emails.Keys == st.emails.Keys
    ensures forall k :: k in st.emails && k != id ==> Run(st, cache, id, actions, replies).state.emails[k] == st.emails[k]
    decreases |actions|
  {
    if actions != [] {
      var n := |actions| - 1;
      RunKeepsOtherRecords(st, cache, id, actions[..n], replies[..n]);
      StepSpec(Run(st, cache, id, actions[..n], replies[..n]).state, cache, id, actions[n], replies[n]);
    }
  }

  // ---------------------------------------------------------------------
  // The executor object
  // ---------------------------------------------------------------------

  class ActionExecutor {
    const client: GmailClient
    const database: Database
    /** every `execute_actions` call, in order */
    ghost var calls: seq<Invocation>

    constructor (client: GmailClient, database: Database)
      ensures this.client == client && this.database == database && calls == []
    {
      this.client := client;
      this.database := database;
      calls := [];
    }

    function StateOf(): State
      reads client, database
    {
      State(client.RemoteState(), database.emails)
    }

    method ExecuteActions(email: Email, actions: seq<Action>) returns (success: bool, ghost replies: seq<bool>)
      modifies this, client, database
      ensures client.labelCache == old(client.labelCache)
      ensures calls == old(calls) + [Invocation(email, actions)]
      ensures |replies| == |actions|
      ensures Outcome(StateOf(), success) == Run(old(StateOf()), client.labelCache, email.id, actions, replies)
    {
      success := true;
      replies := [];
      var i := 0;
      while i < |actions|
        invariant 0 <= i <= |actions|
        invariant |replies| == i
        invariant calls == old(calls)
        invariant client.labelCache == old(client.labelCache)
        invariant Outcome(StateOf(), success) == Run(old(StateOf()), client.labelCache, email.id, actions[..i], replies)
      {
        var ok, reply := ExecuteSingleAction(email, actions[i]);
        if !ok {
          success := false;
        }
        assert actions[..i + 1][..i] == actions[..i];
        assert (replies + [reply])[..i] == replies;
        replies := replies + [reply];
        i := i + 1;
      }
      assert actions[..i] == actions;
      calls := calls + [Invocation(email, actions)];
    }

    method ExecuteSingleAction(email: Email, action: Action) returns (ok: bool, ghost reply: bool)
      modifies client, database
      ensures client.labelCache == old(client.labelCache)
      ensures Outcome(StateOf(), ok) == Step(old(StateOf()), client.labelCache, email.id, action, reply)
    {
      var kind := Lower(action.kind);
      if kind == "mark_read" {
        ok, reply := MarkAsRead(email);
      } else if kind == "mark_unread" {
        ok, reply := MarkAsUnread(email);
      } else if kind == "move_message" {
        ok, reply := MoveMessage(email, action.destination);
      } else {
        ok, reply := false, false;
      }
    }

    method MarkAsRead(email: Email) returns (ok: bool, ghost reply: bool)
      modifies client, database
      ensures client.labelCache == old(client.labelCache)
      ensures Outcome(StateOf(), ok) == MarkStep(old(StateOf()), ReadRequest(client.labelCache, email.id), email.id, true, reply)
    {
      ok := client.MarkAsRead(email.id);
      reply := ok;
      if ok {
        if email.id in database.emails {
          database.emails := database.emails[email.id := database.emails[email.id].(isRead := true)];
        }
        return true, reply;
      }
      return false, reply;
    }

    method MarkAsUnread(email: Email) returns (ok: bool, ghost reply: bool)
      modifies client, database
      ensures client.labelCache == old(client.labelCache)
      ensures Outcome(StateOf(), ok) == MarkStep(old(StateOf()), UnreadRequest(client.labelCache, email.id), email.id, false, reply)
    {
      ok := client.MarkAsUnread(email.id);
      reply := ok;
      if ok {
        if email.id in database.emails {
          database.emails := database.emails[email.id := database.emails[email.id].(isRead := false)];
        }
        return true, reply;
      }
      return false, reply;
    }

    method MoveMessage(email: Email, destination: string) returns (ok: bool, ghost reply: bool)
      modifies client
      ensures client.labelCache == old(client.labelCache)
      ensures Outcome(StateOf(), ok) == MoveStep(old(StateOf()), MoveRequest(client.labelCache, email.id, destination), reply)
    {
      ok := client.MoveToLabel(email.id, destination);
      reply := ok;
    }
  }

  // ---------------------------------------------------------------------
  // Batches of executor calls
  //
  // The rule-processing script calls the executor once per matched email.
  // These definitions describe such a sequence of calls over the executor's
  // own state, so they are stated here, next to the class whose fields they
  // read, and the script's module uses them as given.
  // ---------------------------------------------------------------------

  /** One reply list per job, one reply per action. */
  predicate RepliesFit(jobs: seq<Invocation>, replies: seq<seq<bool>>) {
    |replies| == |jobs| && forall j :: 0 <= j < |jobs| ==> |replies[j]| == |jobs[j].actions|
  }

  /** The stores after executing the jobs one after another. */
  function BatchRun(st: State, cache: map<string, string>, jobs: seq<Invocation>, replies: seq<seq<bool>>): State
    requires RepliesFit(jobs, replies)
    decreases |jobs|
  {
    if jobs == [] then st
    else
      var n := |jobs| - 1;
      assert RepliesFit(jobs[..n], replies[..n]);
      Run(BatchRun(st, cache, jobs[..n], replies[..n]), cache, jobs[n].email.id, jobs[n].actions, replies[n]).state
  }

  /**
   * The executor's progress after the jobs so far: in a dry run nothing was
   * called and nothing changed; otherwise every job was executed, in order.
   */
  ghost predicate Progress(executor: ActionExecutor, dryRun: bool, start: State, cache: map<string, string>,
                     calls: seq<Invocation>, jobs: seq<Invocation>, replies: seq<seq<bool>>)
    reads executor, executor.client, executor.database
  {
    executor.client.labelCache == cache
    && (dryRun ==> executor.calls == calls && executor.StateOf() == start)
    && (!dryRun ==>
          executor.calls == calls + jobs && RepliesFit(jobs, replies)
          && executor.StateOf() == BatchRun(start, cache, jobs, replies))
  }
}
