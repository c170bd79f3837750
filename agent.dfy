/**
 * The Telegram agent: its one piece of state, the time of the last
 * successful post, how a send updates it, and one iteration of the
 * scheduler's poll loop.
 *
 * The Telegram client and the content generator are not modelled; their
 * outcomes are parameters: `delivery` says how `send_message` ended and
 * `generated` is the generator's text, or `None` when it raised.
 */
module Agent {
  import opened Wrappers
  import opened Schedule

  /** How one `send_message` call ends. */
  datatype Delivery =
    | Delivered        // the message was accepted
    | TelegramFailure  // a `TelegramError`, caught inside `send_post`
    | OtherFailure     // any other exception, which `send_post` lets through

  /** What `send_post` does: return a flag, or let an exception through. */
  datatype SendOutcome = Returned(success: bool) | Raised

  /** What one iteration of the poll loop reports. */
  datatype StepReport =
    | Waiting(nextPost: int)    // not due; the next post time is logged
    | Published(nextPost: int)  // sent; the new next post time is logged
    | SendFailed                // `send_post` returned false
    | IterationFailed           // an exception reached the loop's handler

  datatype SendResult = SendResult(last: Option<int>, outcome: SendOutcome)
  datatype StepResult = StepResult(last: Option<int>, report: StepReport)

  /** The effect of `send_post` on the last post time, with `sentAt` the clock reading after the send. */
  function SendEffect(last: Option<int>, sentAt: int, delivery: Delivery): (r: SendResult)
    ensures r.outcome == Returned(true) <==> delivery == Delivered
    ensures r.outcome == Raised <==> delivery == OtherFailure
    ensures r.last == if delivery == Delivered then Some(sentAt) else last
  {
    match delivery
    case Delivered => SendResult(Some(sentAt), Returned(true))
    case TelegramFailure => SendResult(last, Returned(false))
    case OtherFailure => SendResult(last, Raised)
  }

  /**
   * One iteration of `run_scheduler`: check, and when due generate, send and
   * record; every exception is swallowed at the iteration boundary.
   */
  function StepEffect(p: Policy, last: Option<int>, now: int, sentAt: int,
                      generated: Option<string>, delivery: Delivery): (r: StepResult)
    requires ValidPolicy(p)
    ensures r.report.Waiting? <==> !ShouldPostNow(p, last, now)
    ensures r.report.Published? <==> ShouldPostNow(p, last, now) && generated.Some? && delivery == Delivered
    ensures r.last == if r.report.Published? then Some(sentAt) else last
  {
    if !ShouldPostNow(p, last, now) then
      StepResult(last, Waiting(NextPostTime(p, last, now)))
    else if generated.None? then
      StepResult(last, IterationFailed)
    else
      var sent := SendEffect(last, sentAt, delivery);
      match sent.outcome
      case Returned(true) => StepResult(sent.last, Published(NextPostTime(p, sent.last, sentAt)))
      case Returned(false) => StepResult(sent.last, SendFailed)
      case Raised => StepResult(sent.last, IterationFailed)
  }

  /**
   * A failed iteration (not due, generator exception, failed send) leaves the
   * state, hence the next post time at every later poll, unchanged.
   */
  lemma FailedStepKeepsSchedule(p: Policy, last: Option<int>, now: int, sentAt: int,
                                generated: Option<string>, delivery: Delivery, later: int)
    requires ValidPolicy(p)
    requires !StepEffect(p, last, now, sentAt, generated, delivery).report.Published?
    ensures var r := StepEffect(p, last, now, sentAt, generated, delivery);
      NextPostTime(p, r.last, later) == NextPostTime(p, last, later)
  {
  }

  /** A `Waiting` iteration reports the next post time, which is 300 s or more away. */
  lemma WaitingReportsNextPost(p: Policy, last: Option<int>, now: int, sentAt: int,
                               generated: Option<string>, delivery: Delivery)
    requires ValidPolicy(p)
    ensures var r := StepEffect(p, last, now, sentAt, generated, delivery);
      r.report.Waiting? ==>
        r.report.nextPost == NextPostTime(p, last, now) &&
        Abs(now - r.report.nextPost) >= DueWindowMicros
  {
  }

  /**
   * After a publish at `sentAt`, the logged next post time is a slot on the
   * day `intervalDays` after the send, and lies strictly later.
   */
  lemma PublishedSchedule(p: Policy, last: Option<int>, now: int, sentAt: int,
                          generated: Option<string>, delivery: Delivery)
    requires ValidPolicy(p)
    ensures var r := StepEffect(p, last, now, sentAt, generated, delivery);
      r.report.Published? ==>
        var next := r.report.nextPost;
        IsSlot(p, next) && Day(next) == Day(sentAt) + p.intervalDays && next > sentAt
  {
    NextAfterPostIsLater(p, sentAt, sentAt);
  }

  /**
   * After a publish at `sentAt`, neither the send time nor the next poll 60 s
   * later is due, provided posts are at least two days apart or the posting
   * time is at least 360 s after midnight (10:00 every 3 days is both).
   */
  lemma PublishedNotDueAgainSoon(p: Policy, last: Option<int>, now: int, sentAt: int,
                                 generated: Option<string>, delivery: Delivery)
    requires ValidPolicy(p)
    requires p.intervalDays >= 2 || SlotOffset(p) >= DueWindowMicros + PollMicros
    requires StepEffect(p, last, now, sentAt, generated, delivery).report.Published?
    ensures var r := StepEffect(p, last, now, sentAt, generated, delivery);
      !ShouldPostNow(p, r.last, sentAt) && !ShouldPostNow(p, r.last, sentAt + PollMicros)
  {
    NextAfterPostIsLater(p, sentAt, sentAt);
    NextAfterPostIsLater(p, sentAt, sentAt + PollMicros);
  }

  /**
   * The side condition above is needed: posting daily at midnight, a send one
   * microsecond before midnight is followed by a due check.
   */
  lemma DailyMidnightIsDueRightAfterPost()
    ensures var p := Policy(0, 0, 1);
      ValidPolicy(p) &&
      StepEffect(p, None, DayMicros - 2, DayMicros - 1, Some("post"), Delivered).report.Published? &&
      ShouldPostNow(p, Some(DayMicros - 1), DayMicros - 1)
  {
    var p := Policy(0, 0, 1);
    DayOf(0, DayMicros - 2);
    DayOf(0, DayMicros - 1);
    DayOf(1, 0);
    assert NextPostTime(p, None, DayMicros - 2) == DayMicros;
    assert NextPostTime(p, Some(DayMicros - 1), DayMicros - 1) == DayMicros;
  }

  /** The inputs of one poll: the clock readings and the outcomes of the generator and the send. */
  datatype Poll = Poll(now: int, sentAt: int, generated: Option<string>, delivery: Delivery)

  /** The state after a run of polls and the report of each poll. */
  datatype RunResult = RunResult(last: Option<int>, reports: seq<StepReport>)

  /**
   * Successive iterations of the poll loop. Each poll's state is the one the
   * previous poll left; there is one report per poll, and the state changes
   * only at a publish.
   */
  function Run(p: Policy, last: Option<int>, polls: seq<Poll>): (r: RunResult)
    requires ValidPolicy(p)
    ensures |r.reports| == |polls|
    ensures (forall i :: 0 <= i < |polls| ==> !r.reports[i].Published?) ==> r.last == last
    decreases |polls|
  {
    if polls == [] then RunResult(last, [])
    else
      var q := polls[0];
      var s := StepEffect(p, last, q.now, q.sentAt, q.generated, q.delivery);
      var rest := Run(p, s.last, polls[1..]);
      var reports := [s.report] + rest.reports;
      assert reports[0] == s.report;
      assert forall i :: 0 <= i < |rest.reports| ==> rest.reports[i] == reports[i + 1];
      RunResult(rest.last, reports)
  }

  /** Polls happen in real-time order: each send follows its check and precedes the next poll. */
  predicate Chronological(polls: seq<Poll>) {
    forall i :: 0 <= i < |polls| ==>
      polls[i].now <= polls[i].sentAt && (i + 1 < |polls| ==> polls[i].sentAt <= polls[i + 1].now)
  }

  /**
   * No catch-up over a whole run: once a poll finds the next post time 300 s
   * or more in the past, no later poll ever publishes and the last post time
   * stays where it was.
   */
  lemma {:induction false} MissedSlotStaysMissed(p: Policy, t: int, polls: seq<Poll>)
    requires ValidPolicy(p) && Chronological(polls)
    requires polls != [] && polls[0].now >= NextPostTime(p, Some(t), t) + DueWindowMicros
    ensures Run(p, Some(t), polls).last == Some(t)
    ensures forall i :: 0 <= i < |polls| ==> !Run(p, Some(t), polls).reports[i].Published?
    decreases |polls|
  {
    var q := polls[0];
    NextAfterPostIsLater(p, t, q.now);
    NoCatchUp(p, t, q.now, q.now);
    var s := StepEffect(p, Some(t), q.now, q.sentAt, q.generated, q.delivery);
    assert s.last == Some(t) && s.report.Waiting?;
    var r := Run(p, Some(t), polls);
    if |polls| > 1 {
      assert Chronological(polls[1..]) by {
        forall i | 0 <= i < |polls[1..]|
          ensures polls[1..][i].now <= polls[1..][i].sentAt
          ensures i + 1 < |polls[1..]| ==> polls[1..][i].sentAt <= polls[1..][i + 1].now
        {
          assert polls[1..][i] == polls[i + 1];
        }
      }
      assert polls[1].now >= q.now;
      MissedSlotStaysMissed(p, t, polls[1..]);
      var rest := Run(p, Some(t), polls[1..]);
      assert r.reports == [s.report] + rest.reports;
      forall i | 0 <= i < |polls|
        ensures !r.reports[i].Published?
      {
        if i > 0 {
          assert r.reports[i] == rest.reports[i - 1];
        }
      }
    }
  }

  /** A run in which no send goes through leaves the last post time unchanged. */
  lemma {:induction false} UndeliveredRunKeepsState(p: Policy, last: Option<int>, polls: seq<Poll>)
    requires ValidPolicy(p)
    requires forall i :: 0 <= i < |polls| ==> polls[i].delivery != Delivered
    ensures Run(p, last, polls).last == last
    decreases |polls|
  {
    if polls != [] {
      var q := polls[0];
      var s := StepEffect(p, last, q.now, q.sentAt, q.generated, q.delivery);
      assert s.last == last;
      assert forall i :: 0 <= i < |polls[1..]| ==> polls[1..][i] == polls[i + 1];
      UndeliveredRunKeepsState(p, last, polls[1..]);
    }
  }

  /**
   * In a run whose polls are in real-time order, the last post time never
   * moves backwards: once set it stays set, and at or after its old value.
   */
  lemma {:induction false} LastPostTimeMonotone(p: Policy, last: Option<int>, polls: seq<Poll>)
    requires ValidPolicy(p) && Chronological(polls)
    requires last.Some? && polls != [] ==> last.value <= polls[0].now
    ensures var r := Run(p, last, polls);
      last.Some? ==> r.last.Some? && last.value <= r.last.value
    decreases |polls|
  {
    if polls != [] {
      var q := polls[0];
      var s := StepEffect(p, last, q.now, q.sentAt, q.generated, q.delivery);
      if |polls| > 1 {
        assert Chronological(polls[1..]) by {
          forall i | 0 <= i < |polls[1..]|
            ensures polls[1..][i].now <= polls[1..][i].sentAt
            ensures i + 1 < |polls[1..]| ==> polls[1..][i].sentAt <= polls[1..][i + 1].now
          {
            assert polls[1..][i] == polls[i + 1];
          }
        }
        assert s.last.Some? ==> s.last.value <= polls[1].now;
      }
      LastPostTimeMonotone(p, s.last, polls[1..]);
    }
  }

  class TelegramAgent {
    const channelId: string
    var lastPostTime: Option<int>

    /** A new agent has not posted yet. The bot token only configures the client, which is not modelled. */
    constructor (botToken: string, channelId: string)
      ensures this.channelId == channelId && lastPostTime == None
    {
      this.channelId := channelId;
      lastPostTime := None;
    }

    /**
     * `send_post`: on success record `sentAt` and return true; on a
     * `TelegramError` return false; on any other exception let it through.
     * Only success changes the state.
     */
    method SendPost(content: string, sentAt: int, delivery: Delivery) returns (outcome: SendOutcome)
      modifies this
      ensures SendResult(lastPostTime, outcome) == SendEffect(old(lastPostTime), sentAt, delivery)
      ensures outcome == Returned(true) <==> delivery == Delivered
      ensures outcome == Returned(true) ==> lastPostTime == Some(sentAt)
      ensures outcome != Returned(true) ==> lastPostTime == old(lastPostTime)
    {
      match delivery {
        case Delivered =>
          lastPostTime := Some(sentAt);
          outcome := Returned(true);
        case TelegramFailure =>
          outcome := Returned(false);
        case OtherFailure =>
          outcome := Raised;
      }
    }

    /**
     * One iteration of `run_scheduler` with the agent's own posting policy:
     * `now` is the clock at the due check, `sentAt` the clock after the send.
     */
    method Step(now: int, sentAt: int, generated: Option<string>, delivery: Delivery)
      returns (report: StepReport)
      modifies this
      ensures StepResult(lastPostTime, report)
        == StepEffect(SourcePolicy, old(lastPostTime), now, sentAt, generated, delivery)
      ensures report.Published? ==> old(ShouldPostNow(SourcePolicy, lastPostTime, now))
      ensures !report.Published? ==> lastPostTime == old(lastPostTime)
      ensures report.Published? ==>
        !ShouldPostNow(SourcePolicy, lastPostTime, sentAt) &&
        !ShouldPostNow(SourcePolicy, lastPostTime, sentAt + PollMicros)
    {
      ghost var last := lastPostTime;
      if ShouldPostNow(SourcePolicy, lastPostTime, now) {
        if generated.None? {
          report := IterationFailed;
        } else {
          var outcome := SendPost(generated.value, sentAt, delivery);
          match outcome {
            case Returned(success) =>
              if success {
                report := Published(NextPostTime(SourcePolicy, lastPostTime, sentAt));
              } else {
                report := SendFailed;
              }
            case Raised =>
              report := IterationFailed;
          }
        }
      } else {
        report := Waiting(NextPostTime(SourcePolicy, lastPostTime, now));
      }
      if report.Published? {
        PublishedNotDueAgainSoon(SourcePolicy, last, now, sentAt, generated, delivery);
      }
    }

    /**
     * A finite stretch of the `run_scheduler` loop: one `Step` per poll, in
     * order, with the agent's own posting policy.
     */
    method RunPolls(polls: seq<Poll>) returns (reports: seq<StepReport>)
      modifies this
      ensures RunResult(lastPostTime, reports) == Run(SourcePolicy, old(lastPostTime), polls)
    {
      reports := [];
      var i := 0;
      while i < |polls|
        invariant 0 <= i <= |polls|
        invariant var rest := Run(SourcePolicy, lastPostTime, polls[i..]);
          RunResult(rest.last, reports + rest.reports) == Run(SourcePolicy, old(lastPostTime), polls)
      {
        var q := polls[i];
        assert polls[i..][0] == q && polls[i..][1..] == polls[i + 1..];
        ghost var s := StepEffect(SourcePolicy, lastPostTime, q.now, q.sentAt, q.generated, q.delivery);
        ghost var after := Run(SourcePolicy, s.last, polls[i + 1..]);
        assert Run(SourcePolicy, lastPostTime, polls[i..]) == RunResult(after.last, [s.report] + after.reports);
        var report := Step(q.now, q.sentAt, q.generated, q.delivery);
        assert lastPostTime == s.last && report == s.report;
        assert reports + ([report] + after.reports) == (reports + [report]) + after.reports;
        reports := reports + [report];
        i := i + 1;
      }
      assert polls[i..] == [];
    }
  }
}
