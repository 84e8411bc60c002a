/**
 * The rule-processing batch: every stored email is evaluated against the
 * rules; an email with at least one matched action counts as processed,
 * and (unless this is a dry run) its actions are handed to the executor.
 */
module ProcessRules {

  import opened Dicts
  import opened Store
  import opened Engine
  import opened Actions

  /**
   * The rule engine's verdict at time `now`, as a function of the email. The
   * batch's specification below is stated for any such matcher `m`.
   */
  function Matcher(rules: seq<Rule>, now: int): Email -> seq<Action> {
    email => MatchedActions(rules, email, now)
  }

  /** `m` gives, for every email, the actions the rules produce at time `now`. */
  ghost predicate Agrees(rules: seq<Rule>, m: Email -> seq<Action>, now: int) {
    forall email {:trigger MatchedActions(rules, email, now)} :: m(email) == MatchedActions(rules, email, now)
  }

  /** The engine's own verdict is such a matcher. */
  lemma MatcherAgrees(rules: seq<Rule>, now: int)
    ensures Agrees(rules, Matcher(rules, now), now)
  {
  }

  /** The job one email contributes: none when no action matched. */
  function JobFor(email: Email, actions: seq<Action>): seq<Invocation> {
    if actions == [] then [] else [Invocation(email, actions)]
  }

  /** The jobs the batch hands to the executor: each email with a non-empty action list under `m`, in order. */
  function Planned(m: Email -> seq<Action>, emails: seq<Email>): seq<Invocation>
    decreases |emails|
  {
    if emails == [] then []
    else
      var n := |emails| - 1;
      Planned(m, emails[..n]) + JobFor(emails[n], m(emails[n]))
  }

  /** The number of actions over a list of jobs. */
  function TotalActions(jobs: seq<Invocation>): nat
    decreases |jobs|
  {
    if jobs == [] then 0 else TotalActions(jobs[..|jobs| - 1]) + |jobs[|jobs| - 1].actions|
  }



  // ---------------------------------------------------------------------
  // Reference definitions for the two counters
  // ---------------------------------------------------------------------

  /** Positions, among the first `n` emails, of those with at least one matched action. */
  function Hits(m: Email -> seq<Action>, emails: seq<Email>, n: nat): set<nat>
    requires n <= |emails|
  {
    set k: nat | k < n && m(emails[k]) != []
  }

  /** The number of matched actions over all emails, counted front to back. */
  function SumMatched(m: Email -> seq<Action>, emails: seq<Email>): nat
    decreases |emails|
  {
    if emails == [] then 0 else |m(emails[0])| + SumMatched(m, emails[1..])
  }

  // ---------------------------------------------------------------------
  // Properties of the batch
  // ---------------------------------------------------------------------

  /** Planning distributes over concatenation of the email list. */
  lemma {:induction false} PlannedAppend(m: Email -> seq<Action>, a: seq<Email>, b: seq<Email>)
    ensures Planned(m, a + b) == Planned(m, a) + Planned(m, b)
    decreases |b|
  {
    if b == [] {
      assert a + b == a;
    } else {
      var n := |b| - 1;
      assert (a + b)[..|a + b| - 1] == a + b[..n];
      assert (a + b)[|a + b| - 1] == b[n];
      PlannedAppend(m, a, b[..n]);
    }
  }

  lemma {:induction false} TotalActionsAppend(x: seq<Invocation>, y: seq<Invocation>)
    ensures TotalActions(x + y) == TotalActions(x) + TotalActions(y)
    decreases |y|
  {
    if y == [] {
      assert x + y == x;
    } else {
      var n := |y| - 1;
      assert (x + y)[..|x + y| - 1] == x + y[..n];
      TotalActionsAppend(x, y[..n]);
    }
  }

  /** The hits among a prefix of the emails are the hits among the whole list below its length. */
  lemma HitsPrefix(m: Email -> seq<Action>, emails: seq<Email>, n: nat)
    requires n <= |emails|
    ensures Hits(m, emails[..n], n) == Hits(m, emails, n)
  {
    assert forall k :: 0 <= k < n ==> emails[..n][k] == emails[k];
  }

  /** One more position joins the hits exactly when its email matched. */
  lemma HitsLast(m: Email -> seq<Action>, emails: seq<Email>, n: nat)
    requires n < |emails|
    ensures Hits(m, emails, n + 1) == Hits(m, emails, n) + (if m(emails[n]) == [] then {} else {n})
  {
  }

  /** `processed_count`: the number of emails that matched at least one action. */
  lemma {:induction false} PlannedCountsMatchedEmails(m: Email -> seq<Action>, emails: seq<Email>)
    ensures |Planned(m, emails)| == |Hits(m, emails, |emails|)|
    decreases |emails|
  {
    if emails != [] {
      var n := |emails| - 1;
      PlannedCountsMatchedEmails(m, emails[..n]);
      HitsPrefix(m, emails, n);
      HitsLast(m, emails, n);
      JobCounts(Planned(m, emails[..n]), emails[n], m(emails[n]));
      if m(emails[n]) != [] {
        CardinalityGrows(Hits(m, emails, n), n);
      }
    }
  }

  /** `action_count`: the number of matched actions summed over every email. */
  lemma {:induction false} PlannedCountsActions(m: Email -> seq<Action>, emails: seq<Email>)
    ensures TotalActions(Planned(m, emails)) == SumMatched(m, emails)
    decreases |emails|
  {
    if emails != [] {
      var head := [emails[0]];
      assert emails == head + emails[1..];
      PlannedAppend(m, head, emails[1..]);
      TotalActionsAppend(Planned(m, head), Planned(m, emails[1..]));
      PlannedCountsActions(m, emails[1..]);
      assert head[..0] == [];
    }
  }

  /** Each job carries one of the emails and exactly its matched actions, which are never empty. */
  lemma {:induction false} PlannedJobs(m: Email -> seq<Action>, emails: seq<Email>)
    ensures forall job :: job in Planned(m, emails) <==>
      job.email in emails && job.actions == m(job.email) && job.actions != []
    decreases |emails|
  {
    if emails != [] {
      var n := |emails| - 1;
      PlannedJobs(m, emails[..n]);
      assert emails == emails[..n] + [emails[n]];
      forall e | e in emails
        ensures e in emails[..n] || e == emails[n]
      {
      }
    }
  }

  /** The batch never inserts or removes stored records, and leaves alone every record no job is about. */
  lemma {:induction false} BatchKeepsOtherRecords(st: State, cache: map<string, string>, jobs: seq<Invocation>, replies: seq<seq<bool>>)
    requires RepliesFit(jobs, replies)
    ensures BatchRun(st, cache, jobs, replies).emails.Keys == st.emails.Keys
    ensures forall k :: k in st.emails && (forall j :: 0 <= j < |jobs| ==> jobs[j].email.id != k) ==>
      BatchRun(st, cache, jobs, replies).emails[k] == st.emails[k]
    decreases |jobs|
  {
    if jobs != [] {
      var n := |jobs| - 1;
      assert RepliesFit(jobs[..n], replies[..n]);
      BatchKeepsOtherRecords(st, cache, jobs[..n], replies[..n]);
      var mid := BatchRun(st, cache, jobs[..n], replies[..n]);
      RunKeepsOtherRecords(mid, cache, jobs[n].email.id, jobs[n].actions, replies[n]);
      forall k | k in st.emails && (forall j :: 0 <= j < |jobs| ==> jobs[j].email.id != k)
        ensures BatchRun(st, cache, jobs, replies).emails[k] == st.emails[k]
      {
        assert forall j :: 0 <= j < n ==> jobs[..n][j].email.id != k;
        assert jobs[n].email.id != k;
      }
    }
  }

  /** One more email: its job, if it has actions, joins the end of the plan. */
  lemma PlannedLast(m: Email -> seq<Action>, emails: seq<Email>, i: nat)
    requires i < |emails|
    ensures Planned(m, emails[..i + 1]) == Planned(m, emails[..i]) + JobFor(emails[i], m(emails[i]))
  {
    assert emails[..i + 1][..i] == emails[..i];
  }

  /** One more email adds one job when actions matched, and its actions to the count. */
  lemma JobCounts(jobs: seq<Invocation>, email: Email, actions: seq<Action>)
    ensures |jobs + JobFor(email, actions)| == |jobs| + (if actions == [] then 0 else 1)
    ensures TotalActions(jobs + JobFor(email, actions)) == TotalActions(jobs) + |actions|
  {
    if actions == [] {
      assert jobs + JobFor(email, actions) == jobs;
    } else {
      assert (jobs + JobFor(email, actions))[..|jobs|] == jobs;
    }
  }

  /** One more job runs after the ones before it. */
  lemma BatchRunLast(st: State, cache: map<string, string>, jobs: seq<Invocation>, replies: seq<seq<bool>>,
                     job: Invocation, rs: seq<bool>)
    requires RepliesFit(jobs, replies) && |rs| == |job.actions|
    ensures RepliesFit(jobs + [job], replies + [rs])
    ensures BatchRun(st, cache, jobs + [job], replies + [rs])
         == Run(BatchRun(st, cache, jobs, replies), cache, job.email.id, job.actions, rs).state
  {
    assert (jobs + [job])[..|jobs|] == jobs;
    assert (replies + [rs])[..|jobs|] == replies;
  }


  /**
   * The body of the batch loop for one email: evaluate it against the rules
   * and, when actions matched and this is not a dry run, execute them.
   */
  method HandleEmail(engine: RuleEngine, executor: ActionExecutor, email: Email, now: int, dryRun: bool,
                     ghost m: Email -> seq<Action>, ghost start: State, ghost cache: map<string, string>, ghost calls: seq<Invocation>,
                     ghost jobs: seq<Invocation>, ghost replies: seq<seq<bool>>)
    returns (actions: seq<Action>, ghost replies': seq<seq<bool>>)
    requires Agrees(engine.rules, m, now)
    requires Progress(executor, dryRun, start, cache, calls, jobs, replies)
    modifies executor, executor.client, executor.database
    ensures actions == m(email)
    ensures Progress(executor, dryRun, start, cache, calls, jobs + JobFor(email, actions), replies')
  {
    actions := engine.EvaluateEmail(email, now);
    replies' := replies;
    if actions == [] {
      assert JobFor(email, actions) == [];
      assert jobs + [] == jobs;
    } else if !dryRun {
      assert JobFor(email, actions) == [Invocation(email, actions)];
      var success, rs := executor.ExecuteActions(email, actions);
      BatchRunLast(start, cache, jobs, replies, Invocation(email, actions), rs);
      replies' := replies + [rs];
    }
  }

  /** The two counters after the first `i` emails. */
  ghost predicate Counted(m: Email -> seq<Action>, emails: seq<Email>, i: nat, processedCount: nat, actionCount: nat) {
    i <= |emails|
    && processedCount == |Planned(m, emails[..i])|
    && actionCount == TotalActions(Planned(m, emails[..i]))
  }

  /** One iteration of the batch loop: handle email `i` and update the counters. */
  method ProcessOne(engine: RuleEngine, executor: ActionExecutor, emails: seq<Email>, i: nat, now: int, dryRun: bool,
                    processedCount: nat, actionCount: nat,
                    ghost m: Email -> seq<Action>, ghost start: State, ghost cache: map<string, string>,
                    ghost calls: seq<Invocation>, ghost replies: seq<seq<bool>>)
    returns (processedCount': nat, actionCount': nat, ghost replies': seq<seq<bool>>)
    requires i < |emails|
    requires Agrees(engine.rules, m, now)
    requires Counted(m, emails, i, processedCount, actionCount)
    requires Progress(executor, dryRun, start, cache, calls, Planned(m, emails[..i]), replies)
    modifies executor, executor.client, executor.database
    ensures Counted(m, emails, i + 1, processedCount', actionCount')
    ensures Progress(executor, dryRun, start, cache, calls, Planned(m, emails[..i + 1]), replies')
  {
    ghost var jobs := Planned(m, emails[..i]);
    var actions;
    actions, replies' := HandleEmail(engine, executor, emails[i], now, dryRun, m, start, cache, calls, jobs, replies);
    PlannedLast(m, emails, i);
    JobCounts(jobs, emails[i], actions);
    processedCount', actionCount' := processedCount, actionCount;
    if actions != [] {
      processedCount' := processedCount + 1;
      actionCount' := actionCount + |actions|;
    }
  }

  /**
   * The batch loop. `emails` is the snapshot read from the store before the
   * loop; `now` is the evaluation time. A dry run only counts; otherwise each
   * job goes to the executor, whose overall result is only logged.
   */
  method ProcessEmails(engine: RuleEngine, executor: ActionExecutor, emails: seq<Email>, now: int, dryRun: bool,
                       ghost m: Email -> seq<Action>)
    returns (processedCount: nat, actionCount: nat, ghost replies: seq<seq<bool>>)
    requires Agrees(engine.rules, m, now)
    modifies executor, executor.client, executor.database
    ensures processedCount == |Planned(m, emails)|
    ensures actionCount == TotalActions(Planned(m, emails))
    ensures Progress(executor, dryRun, old(executor.StateOf()), old(executor.client.labelCache), old(executor.calls),
                     Planned(m, emails), replies)
  {
    processedCount, actionCount := 0, 0;
    replies := [];
    ghost var start := executor.StateOf();
    ghost var calls := executor.calls;
    ghost var cache := executor.client.labelCache;
    assert emails[..0] == [];
    var i := 0;
    while i < |emails|
      invariant Counted(m, emails, i, processedCount, actionCount)
      invariant Progress(executor, dryRun, start, cache, calls, Planned(m, emails[..i]), replies)
    {
      processedCount, actionCount, replies :=
        ProcessOne(engine, executor, emails, i, now, dryRun, processedCount, actionCount, m, start, cache, calls, replies);
      i := i + 1;
    }
    assert emails[..i] == emails;
  }

  /** An email list with no matches leaves the counters at zero and sends nothing. */
  lemma {:induction false} NothingMatches(m: Email -> seq<Action>, emails: seq<Email>)
    requires forall e :: e in emails ==> m(e) == []
    ensures Planned(m, emails) == []
    decreases |emails|
  {
    if emails != [] {
      var n := |emails| - 1;
      NothingMatches(m, emails[..n]);
      assert emails[n] in emails;
    }
  }
}
