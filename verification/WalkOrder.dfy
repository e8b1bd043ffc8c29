/** The order in which a walk that is interleaved with anything decides (api/src/inbound/pipeline.rs):
    by the first candidate of its plan that held at its own read. */
module WalkOrder {
  import opened Prelude
  import opened Tickets
  import opened Resolution
  import opened TicketResolution
  import opened Intake

  /** What one read of a walk saw, and what the index query answered if it was one. */
  datatype Read = Read(rows: Rows, messages: Messages, answer: Unique)

  /** The walk over its reads, each of tables of its own. */
  function WalkOver(seen: seq<Read>, instanceId: Id, w: Walk): Walk {
    if seen == [] || w.Ended? then w
    else WalkOver(seen[1..], instanceId, Await(seen[0].rows, seen[0].messages, instanceId, w, seen[0].answer))
  }

  /** The k-th tag is the first that verified at its own read. */
  predicate FirstVerified(seen: seq<Read>, tags: seq<ReplyTag>, k: nat) {
    && k < |tags| && k < |seen| && Verifies(seen[k].rows, tags[k])
    && forall j :: 0 <= j < k ==> !Verifies(seen[j].rows, tags[j])
  }

  lemma {:induction false} VerifiedTagEnds(seen: seq<Read>, instanceId: Id, plan: Plan, k: nat)
    requires FirstVerified(seen, plan.replyTags, k)
    ensures WalkOver(seen, instanceId, Searching(plan))
            == Ended(Decide(seen[k].rows, plan.replyTags[k].ticketId, instanceId))
  {
    if k > 0 {
      assert !Verifies(seen[0].rows, plan.replyTags[0]);
      var rest := plan.(replyTags := plan.replyTags[1..]);
      assert forall j :: 0 <= j < k ==> seen[1..][j] == seen[j + 1] && rest.replyTags[j] == plan.replyTags[j + 1];
      VerifiedTagEnds(seen[1..], instanceId, rest, k - 1);
    }
  }

  /** When no tag verified at its own read, the message ids come next. */
  lemma {:induction false} TagsPass(seen: seq<Read>, instanceId: Id, plan: Plan)
    requires |plan.replyTags| <= |seen|
    requires forall j :: 0 <= j < |plan.replyTags| ==> !Verifies(seen[j].rows, plan.replyTags[j])
    ensures WalkOver(seen, instanceId, Searching(plan))
            == WalkOver(seen[|plan.replyTags|..], instanceId, Searching(plan.(replyTags := [])))
  {
    if plan.replyTags == [] {
      assert seen[0..] == seen;
    } else {
      assert !Verifies(seen[0].rows, plan.replyTags[0]);
      var rest := plan.(replyTags := plan.replyTags[1..]);
      assert forall j :: 0 <= j < |rest.replyTags| ==> seen[1..][j] == seen[j + 1] && rest.replyTags[j] == plan.replyTags[j + 1];
      TagsPass(seen[1..], instanceId, rest);
      assert seen[1..][|rest.replyTags|..] == seen[|plan.replyTags|..];
    }
  }

  /** Where a message id led at its own reads, and how many it takes: the index, the message row,
      the ticket row. */
  function LedBy(seen: seq<Read>, instanceId: Id): (Option<Lookup>, nat)
    requires seen != []
  {
    match seen[0].answer
    case Integrity => (Some(Failed), 1)
    case AtMost1(None) => (None, 1)
    case AtMost1(Some(id)) =>
      if |seen| < 2 || id !in seen[1].messages then (None, 2)
      else
        var ticketId := seen[1].messages[id].ticketId;
        if |seen| < 3 || ticketId !in seen[2].rows then (None, 3)
        else (Some(Decide(seen[2].rows, ticketId, instanceId)), 3)
  }

  /** One message id with all its reads: it ends the walk, or leaves the rest of the plan to the
      rest of the reads. */
  lemma {:induction false} MessageIdReads(seen: seq<Read>, instanceId: Id, plan: Plan)
    requires seen != [] && LedBy(seen, instanceId).1 <= |seen| && plan.replyTags == [] && plan.messageIds != []
    ensures var (led, n) := LedBy(seen, instanceId);
            WalkOver(seen, instanceId, Searching(plan))
            == if led.Some? then Ended(led.value)
               else WalkOver(seen[n..], instanceId, Searching(plan.(messageIds := plan.messageIds[1..])))
  {
    var rest := plan.(messageIds := plan.messageIds[1..]);
    var r := seen[0];
    var w := Await(r.rows, r.messages, instanceId, Searching(plan), r.answer);
    assert WalkOver(seen, instanceId, Searching(plan)) == WalkOver(seen[1..], instanceId, w);
    if w.Following? {
      FollowReads(seen[1..], instanceId, w.messageId, rest);
      assert seen[1..][1..] == seen[2..];
      if |seen| >= 3 {
        assert seen[1..][2..] == seen[3..];
      }
    }
  }

  lemma {:induction false} FollowReads(seen: seq<Read>, instanceId: Id, id: Id, rest: Plan)
    requires seen != [] && (id in seen[0].messages ==> |seen| >= 2)
    ensures WalkOver(seen, instanceId, Following(id, rest))
            == if id !in seen[0].messages then WalkOver(seen[1..], instanceId, Searching(rest))
               else
                 var ticketId := seen[0].messages[id].ticketId;
                 if ticketId !in seen[1].rows then WalkOver(seen[2..], instanceId, Searching(rest))
                 else Ended(Decide(seen[1].rows, ticketId, instanceId))
  {
    var r := seen[0];
    var w := Await(r.rows, r.messages, instanceId, Following(id, rest), r.answer);
    assert WalkOver(seen, instanceId, Following(id, rest)) == WalkOver(seen[1..], instanceId, w);
    if w.Fetching? {
      var r' := seen[1..][0];
      var w' := Await(r'.rows, r'.messages, instanceId, w, r'.answer);
      assert r' == seen[1] && seen[1..][1..] == seen[2..];
      assert WalkOver(seen[1..], instanceId, w) == WalkOver(seen[2..], instanceId, w');
    }
  }

  /** The first `k` message ids led nowhere at their own reads, and the next one led somewhere at
      its own. */
  predicate FirstLed(seen: seq<Read>, instanceId: Id, k: nat)
    decreases k
  {
    && seen != [] && LedBy(seen, instanceId).1 <= |seen|
    && if k == 0 then LedBy(seen, instanceId).0.Some?
       else LedBy(seen, instanceId).0.None? && FirstLed(seen[LedBy(seen, instanceId).1..], instanceId, k - 1)
  }

  /** And where. */
  function LedTo(seen: seq<Read>, instanceId: Id, k: nat): Lookup
    requires FirstLed(seen, instanceId, k)
    decreases k
  {
    if k == 0 then LedBy(seen, instanceId).0.value else LedTo(seen[LedBy(seen, instanceId).1..], instanceId, k - 1)
  }

  lemma {:induction false} LedIdEnds(seen: seq<Read>, instanceId: Id, plan: Plan, k: nat)
    requires plan.replyTags == [] && k < |plan.messageIds| && FirstLed(seen, instanceId, k)
    ensures WalkOver(seen, instanceId, Searching(plan)) == Ended(LedTo(seen, instanceId, k))
    decreases k
  {
    MessageIdReads(seen, instanceId, plan);
    if k > 0 {
      LedIdEnds(seen[LedBy(seen, instanceId).1..], instanceId, plan.(messageIds := plan.messageIds[1..]), k - 1);
    }
  }

  // ---------------------------------------------------------------- the walk of a worker in a run

  /** The worker is at its walk before every one of the events, and after the last. */
  predicate Walks(s: State, events: seq<Event>, task: nat)
    decreases |events|
  {
    && task in s.tasks && s.tasks[task].stage.Walking?
    && (events == [] || (Enabled(s, events[0]) && Walks(Next(s, events[0]), events[1..], task)))
  }

  /** The reads of a worker among the events of a run. */
  function ReadsOf(s: State, events: seq<Event>, task: nat): seq<Read>
    requires Possible(s, events)
    decreases |events|
  {
    if events == [] then []
    else
      var e := events[0];
      (if e.Look? && e.task == task then [Read(s.rows, s.messages, e.answer)] else [])
      + ReadsOf(Next(s, e), events[1..], task)
  }

  /** Nobody else's step moves a walking worker. */
  lemma {:induction false} OthersLeaveIt(s: State, e: Event, task: nat)
    requires Enabled(s, e) && task in s.tasks && s.tasks[task].stage.Walking?
    requires task in Next(s, e).tasks && Next(s, e).tasks[task].stage.Walking?
    ensures if e.Look? && e.task == task then
              var stage := s.tasks[task].stage;
              Next(s, e).tasks[task].stage
              == Walking(stage.instanceId, Await(s.rows, s.messages, stage.instanceId, stage.walk, e.answer))
            else Next(s, e).tasks[task] == s.tasks[task]
  {}

  /** Where a worker's walk stands depends on its own reads alone. */
  lemma {:induction false} StandsAsRead(s: State, events: seq<Event>, task: nat)
    requires Possible(s, events) && Walks(s, events, task)
    ensures task in Play(s, events).tasks
    ensures var stage := s.tasks[task].stage;
            Play(s, events).tasks[task].stage
            == Walking(stage.instanceId, WalkOver(ReadsOf(s, events, task), stage.instanceId, stage.walk))
    decreases |events|
  {
    if events != [] {
      var e, s' := events[0], Next(s, events[0]);
      assert Walks(s', events[1..], task);
      OthersLeaveIt(s, e, task);
      StandsAsRead(s', events[1..], task);
      var rest := ReadsOf(s', events[1..], task);
      if e.Look? && e.task == task {
        assert ([Read(s.rows, s.messages, e.answer)] + rest)[1..] == rest;
      } else {
        assert [] + rest == rest;
      }
    }
  }

  /** All reads of a walk up to a look that follows the events. */
  function ReadsThrough(s: State, events: seq<Event>, task: nat, answer: Unique): seq<Read>
    requires Possible(s, events)
  {
    ReadsOf(s, events, task) + [Read(Play(s, events).rows, Play(s, events).messages, answer)]
  }

  lemma {:induction false} WalkOverSnoc(seen: seq<Read>, r: Read, instanceId: Id, w: Walk)
    requires !WalkOver(seen, instanceId, w).Ended?
    ensures WalkOver(seen + [r], instanceId, w)
            == Await(r.rows, r.messages, instanceId, WalkOver(seen, instanceId, w), r.answer)
  {
    if seen == [] {
      assert ([] + [r])[1..] == [];
    } else {
      var first := seen[0];
      assert (seen + [r])[0] == first && (seen + [r])[1..] == seen[1..] + [r];
      WalkOverSnoc(seen[1..], r, instanceId, Await(first.rows, first.messages, instanceId, w, first.answer));
    }
  }

  /** A look takes its worker where the whole walk over its own reads stands. */
  lemma {:induction false} EndsAsRead(s: State, events: seq<Event>, task: nat, answer: Unique, to: Option<Stage>)
    requires Possible(s, events) && Walks(s, events, task) && Enabled(Play(s, events), Look(task, answer, to))
    ensures var stage := s.tasks[task].stage;
            to == StageAfter(stage.instanceId, WalkOver(ReadsThrough(s, events, task, answer), stage.instanceId, stage.walk))
  {
    StandsAsRead(s, events, task);
    var stage, now := s.tasks[task].stage, Play(s, events);
    WalkOverSnoc(ReadsOf(s, events, task), Read(now.rows, now.messages, answer), stage.instanceId, stage.walk);
  }

  /** Over every run: the first tag of the plan that verified at its own read decides, whatever
      anybody wrote before, between and after, and whatever the message ids and the subject
      would have led to. */
  lemma {:induction false} FirstTagDecidesInRun(s: State, events: seq<Event>, task: nat, answer: Unique,
                                                to: Option<Stage>, instanceId: Id, plan: Plan, k: nat)
    requires Possible(s, events) && Walks(s, events, task) && Enabled(Play(s, events), Look(task, answer, to))
    requires s.tasks[task].stage == Walking(instanceId, Searching(plan))
    requires FirstVerified(ReadsThrough(s, events, task, answer), plan.replyTags, k)
    ensures var seen := ReadsThrough(s, events, task, answer);
            to == StageAfter(instanceId, Ended(Decide(seen[k].rows, plan.replyTags[k].ticketId, instanceId)))
  {
    EndsAsRead(s, events, task, answer, to);
    VerifiedTagEnds(ReadsThrough(s, events, task, answer), instanceId, plan, k);
  }

  /** And when none did, the first message id that led anywhere at its own reads. */
  lemma {:induction false} FirstMessageIdDecidesInRun(s: State, events: seq<Event>, task: nat, answer: Unique,
                                                      to: Option<Stage>, instanceId: Id, plan: Plan, k: nat)
    requires Possible(s, events) && Walks(s, events, task) && Enabled(Play(s, events), Look(task, answer, to))
    requires s.tasks[task].stage == Walking(instanceId, Searching(plan)) && k < |plan.messageIds|
    requires var seen := ReadsThrough(s, events, task, answer);
             && |plan.replyTags| <= |seen|
             && (forall j :: 0 <= j < |plan.replyTags| ==> !Verifies(seen[j].rows, plan.replyTags[j]))
             && FirstLed(seen[|plan.replyTags|..], instanceId, k)
    ensures var seen := ReadsThrough(s, events, task, answer);
            to == StageAfter(instanceId, Ended(LedTo(seen[|plan.replyTags|..], instanceId, k)))
  {
    var seen := ReadsThrough(s, events, task, answer);
    EndsAsRead(s, events, task, answer, to);
    TagsPass(seen, instanceId, plan);
    LedIdEnds(seen[|plan.replyTags|..], instanceId, plan.(replyTags := []), k);
  }
}
