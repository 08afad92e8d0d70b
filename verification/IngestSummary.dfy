/** The counters of one ingest run (backend/ingest-svc/src/jobs/summary.rs). */
module IngestSummary {
  import opened IngestPipeline

  /** How many of the outcomes lie in a set. */
  function Tally(outcomes: seq<Outcome>, of: set<Outcome>): nat {
    if outcomes == [] then 0
    else Tally(outcomes[..|outcomes| - 1], of) + if outcomes[|outcomes| - 1] in of then 1 else 0
  }

  const FAILURES := {FailedBeforeDownloaded, FailedAfterDownloaded, FailedAfterValidated}
  const PAST_VALIDATION := {FailedAfterValidated, Enqueued}
  const PAST_DOWNLOAD := {FailedAfterDownloaded, RejectedAfterDownloaded, FailedAfterValidated, Enqueued}

  class Summary {
    var discovered: nat
    var attempted: nat
    var downloaded: nat
    var validated: nat
    var enqueued: nat
    var rejected: nat
    var failed: nat
    var skipped: nat
    ghost var outcomes: seq<Outcome>

    ghost predicate Valid()
      reads this
    {
      && attempted == |outcomes|
      && skipped == Tally(outcomes, {Skipped})
      && failed == Tally(outcomes, FAILURES)
      && rejected == Tally(outcomes, {RejectedAfterDownloaded})
      && enqueued == Tally(outcomes, {Enqueued})
      && validated == Tally(outcomes, PAST_VALIDATION)
      && downloaded == Tally(outcomes, PAST_DOWNLOAD)
    }

    constructor (discovered: nat)
      ensures Valid() && outcomes == [] && this.discovered == discovered
    {
      this.discovered := discovered;
      attempted, downloaded, validated, enqueued, rejected, failed, skipped := 0, 0, 0, 0, 0, 0, 0;
      outcomes := [];
    }

    method RecordAttempt(outcome: Outcome)
      requires Valid()
      modifies this
      ensures Valid() && outcomes == old(outcomes) + [outcome] && discovered == old(discovered)
    {
      attempted := attempted + 1;
      match outcome {
        case Skipped => skipped := skipped + 1;
        case FailedBeforeDownloaded => failed := failed + 1;
        case FailedAfterDownloaded =>
          downloaded := downloaded + 1;
          failed := failed + 1;
        case RejectedAfterDownloaded =>
          downloaded := downloaded + 1;
          rejected := rejected + 1;
        case FailedAfterValidated =>
          downloaded := downloaded + 1;
          validated := validated + 1;
          failed := failed + 1;
        case Enqueued =>
          downloaded := downloaded + 1;
          validated := validated + 1;
          enqueued := enqueued + 1;
      }
      outcomes := outcomes + [outcome];
      assert outcomes[..|outcomes| - 1] == old(outcomes);
    }

    /** Every attempt ends in exactly one of four ways, and the counters of the stages nest. */
    lemma Balances()
      requires Valid()
      ensures attempted == skipped + failed + rejected + enqueued
      ensures enqueued <= validated <= downloaded <= attempted
      ensures downloaded == validated + rejected + Tally(outcomes, {FailedAfterDownloaded})
    {
      TallySplits(outcomes);
    }
  }

  lemma TallyLast(s: seq<Outcome>, of: set<Outcome>)
    requires s != []
    ensures Tally(s, of) == Tally(s[..|s| - 1], of) + if s[|s| - 1] in of then 1 else 0
  {
  }

  lemma {:induction false} TallySplits(s: seq<Outcome>)
    ensures |s| == Tally(s, {Skipped}) + Tally(s, FAILURES) + Tally(s, {RejectedAfterDownloaded}) + Tally(s, {Enqueued})
    ensures Tally(s, {Enqueued}) <= Tally(s, PAST_VALIDATION)
    ensures Tally(s, PAST_DOWNLOAD)
            == Tally(s, PAST_VALIDATION) + Tally(s, {RejectedAfterDownloaded}) + Tally(s, {FailedAfterDownloaded})
    ensures Tally(s, PAST_DOWNLOAD) <= |s|
  {
    if s != [] {
      TallySplits(s[..|s| - 1]);
      TallyLast(s, {Skipped});
      TallyLast(s, FAILURES);
      TallyLast(s, {RejectedAfterDownloaded});
      TallyLast(s, {Enqueued});
      match s[|s| - 1] {
        case Skipped => assert Skipped !in FAILURES;
        case FailedBeforeDownloaded => assert FailedBeforeDownloaded in FAILURES;
        case FailedAfterDownloaded => assert FailedAfterDownloaded in FAILURES;
        case RejectedAfterDownloaded => assert RejectedAfterDownloaded !in FAILURES;
        case FailedAfterValidated => assert FailedAfterValidated in FAILURES;
        case Enqueued => assert Enqueued !in FAILURES;
      }
    }
  }
}
