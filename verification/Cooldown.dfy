/** The notification cooldown (backend/pkg/mail/mail.go). Times are nanoseconds of the monotonic clock. */
module Cooldown {
  datatype Severity = Failure | Success

  type Stamps = map<Severity, int>

  const MINUTE := 60_000_000_000
  const TWO63 := 0x8000_0000_0000_0000
  const TWO64 := 0x1_0000_0000_0000_0000

  // 64-bit two's complement.
  function Wrap64(n: int): (w: int)
    ensures -TWO63 <= w < TWO63 && (n - w) % TWO64 == 0
  {
    var u := n % TWO64;
    if u >= TWO63 then u - TWO64 else u
  }

  // time.Duration(cooldownMinutes) * time.Minute
  function Effective(cooldownMinutes: int): int {
    Wrap64(cooldownMinutes * MINUTE)
  }

  /** The cooldown in force is the configured one exactly up to 153722867 minutes; beyond that the
      product overflows, and nothing in the configuration check stops it. */
  lemma CooldownIsConfiguredIff(cooldownMinutes: nat)
    ensures Effective(cooldownMinutes) == cooldownMinutes * MINUTE <==> cooldownMinutes <= 153_722_867
  {
    var n := cooldownMinutes * MINUTE;
    if cooldownMinutes <= 153_722_867 {
      assert 0 <= n < TWO63;
    } else {
      assert n >= 153_722_868 * MINUTE >= TWO63;
    }
  }

  // One report: its severity and the two clock readings, for the check and for the stamp.
  datatype Report = Report(severity: Severity, check: int, stamp: int)

  // No report of this severity is stamped, or the stamp is a cooldown of c nanoseconds old.
  predicate Elapsed(stamps: Stamps, r: Report, c: int) {
    r.severity !in stamps || r.check - stamps[r.severity] >= c
  }

  // lastSentAt after a report under a cooldown of c nanoseconds; a failure flushes the success stamp.
  function Stamp(stamps: Stamps, r: Report, c: int): Stamps {
    if !Elapsed(stamps, r, c) then stamps
    else if r.severity == Failure then stamps[Failure := r.stamp] - {Success}
    else stamps[Success := r.stamp]
  }

  predicate Allows(stamps: Stamps, r: Report, cooldownMinutes: int) {
    cooldownMinutes <= 0 || Elapsed(stamps, r, Effective(cooldownMinutes))
  }

  /** lastSentAt after a report. Without a cooldown a failure flushes nothing. */
  function Stamped(stamps: Stamps, r: Report, cooldownMinutes: int): Stamps {
    if cooldownMinutes <= 0 then stamps[r.severity := r.stamp] else Stamp(stamps, r, Effective(cooldownMinutes))
  }

  datatype Settings = Settings(enabled: bool, notifyOnSuccess: bool, recipients: nat, cooldownMinutes: int)

  /** The package state: the time of the last report let through, by severity, and the mail manager. */
  class Notifier {
    var lastSentAt: Stamps
    var running: bool

    constructor ()
      ensures lastSentAt == map[] && !running
    {
      lastSentAt, running := map[], false;
    }

    method AllowBySeverity(r: Report, cooldownMinutes: int) returns (allowed: bool)
      modifies this`lastSentAt
      ensures allowed <==> Allows(old(lastSentAt), r, cooldownMinutes)
      ensures lastSentAt == Stamped(old(lastSentAt), r, cooldownMinutes)
    {
      if cooldownMinutes <= 0 {
        lastSentAt := lastSentAt[r.severity := r.stamp];
        return true;
      }
      var cooldown := Wrap64(cooldownMinutes * MINUTE);
      if r.severity in lastSentAt && r.check - lastSentAt[r.severity] < cooldown {
        return false;
      }
      lastSentAt := lastSentAt[r.severity := r.stamp];
      if r.severity == Failure {
        lastSentAt := lastSentAt - {Success};
      }
      allowed := true;
    }

    /** SendReport: a report the gates turn down leaves the cooldown alone, but one that is let through
        uses it up even when the mail manager is not running, or the message cannot be built, and nothing
        is handed to the manager. */
    method SendReport(r: Report, s: Settings, built: bool) returns (sent: bool)
      modifies this`lastSentAt
      ensures var passes := s.enabled && (r.severity == Success ==> s.notifyOnSuccess) && s.recipients > 0;
              && (sent <==> passes && Allows(old(lastSentAt), r, s.cooldownMinutes) && running && built)
              && lastSentAt == if passes then Stamped(old(lastSentAt), r, s.cooldownMinutes) else old(lastSentAt)
    {
      if !s.enabled {
        return false;
      }
      if r.severity == Success && !s.notifyOnSuccess {
        return false;
      }
      if s.recipients == 0 {
        return false;
      }
      var allowed := AllowBySeverity(r, s.cooldownMinutes);
      sent := allowed && running && built;
    }
  }

  // ----- runs under one cooldown of c nanoseconds

  /** A run of reports on a clock that does not go back. */
  ghost predicate IsRun(run: seq<Report>) {
    && (forall i :: 0 <= i < |run| ==> run[i].check <= run[i].stamp)
    && (forall i, j :: 0 <= i < j < |run| ==> run[i].stamp <= run[j].check)
  }

  // lastSentAt after the first n reports.
  function StampsAfter(run: seq<Report>, c: int, n: nat): Stamps
    requires n <= |run|
  {
    if n == 0 then map[] else Stamp(StampsAfter(run, c, n - 1), run[n - 1], c)
  }

  // Report i is let through.
  predicate Passes(run: seq<Report>, c: int, i: nat)
    requires i < |run|
  {
    Elapsed(StampsAfter(run, c, i), run[i], c)
  }

  ghost predicate FailureBetween(run: seq<Report>, c: int, i: nat, n: nat)
    requires n <= |run|
  {
    exists k :: i < k < n && run[k].severity == Failure && Passes(run, c, k)
  }

  /** What the stamps mean: the failure stamp is that of the last failure let through, the success stamp
      that of the last success let through, unless a failure has been let through since. */
  lemma {:induction false} StampsAreKept(run: seq<Report>, c: int, n: nat)
    requires IsRun(run) && n <= |run|
    ensures var stamps := StampsAfter(run, c, n);
            forall i :: 0 <= i < n && Passes(run, c, i) ==>
              if run[i].severity == Failure then Failure in stamps && run[i].stamp <= stamps[Failure]
              else (Success in stamps && run[i].stamp <= stamps[Success]) || FailureBetween(run, c, i, n)
    ensures var stamps := StampsAfter(run, c, n);
            forall sev :: sev in stamps ==> n > 0 && stamps[sev] <= run[n - 1].stamp
  {
    if n > 0 {
      StampsAreKept(run, c, n - 1);
    }
  }

  /** Two failures let through are at least a cooldown apart, and two successes closer than that have a
      failure let through between them. */
  lemma LetThroughApart(run: seq<Report>, c: int, i: nat, j: nat)
    requires IsRun(run) && i < j < |run|
    requires Passes(run, c, i) && Passes(run, c, j) && run[i].severity == run[j].severity
    requires run[j].stamp - run[i].stamp < c
    ensures run[i].severity == Success && FailureBetween(run, c, i, j)
  {
    StampsAreKept(run, c, j);
    assert run[j].check <= run[j].stamp;
  }

  /** A failure let through flushes the success cooldown: the next success passes, however soon. */
  lemma FailureFlushesSuccess(stamps: Stamps, failure: Report, success: Report, minutes: int)
    requires failure.severity == Failure && success.severity == Success
    requires minutes > 0 && Allows(stamps, failure, minutes)
    ensures Allows(Stamped(stamps, failure, minutes), success, minutes)
  {
  }

  function FailuresOf(run: seq<Report>): seq<Report> {
    if run == [] then []
    else FailuresOf(run[..|run| - 1]) + if run[|run| - 1].severity == Failure then [run[|run| - 1]] else []
  }

  /** Whether failures pass does not depend on the successes in between: leaving them out of the run
      leaves the failure stamp, and so every decision on a failure, as it was. */
  lemma {:induction false} FailuresIgnoreSuccesses(run: seq<Report>, c: int, next: Report)
    requires next.severity == Failure
    ensures var all, alone := StampsAfter(run, c, |run|), StampsAfter(FailuresOf(run), c, |FailuresOf(run)|);
            && (Failure in all <==> Failure in alone)
            && (Failure in all ==> all[Failure] == alone[Failure])
            && (Elapsed(all, next, c) <==> Elapsed(alone, next, c))
  {
    if run != [] {
      var front, last := run[..|run| - 1], run[|run| - 1];
      FailuresIgnoreSuccesses(front, c, next);
      StampsOfPrefix(run, c, |run| - 1);
      if last.severity == Failure {
        var failures := FailuresOf(run);
        var n := |failures| - 1;
        assert failures[..n] == FailuresOf(front) && failures[n] == last;
        StampsOfPrefix(failures, c, n);
        assert StampsAfter(failures, c, n) == StampsAfter(FailuresOf(front), c, n);
      } else {
        assert FailuresOf(run) == FailuresOf(front);
      }
    }
  }

  lemma {:induction false} StampsOfPrefix(run: seq<Report>, c: int, n: nat)
    requires n <= |run|
    ensures StampsAfter(run[..n], c, n) == StampsAfter(run, c, n)
    decreases n
  {
    StampsAgree(run[..n], run, c, n);
  }

  lemma {:induction false} StampsAgree(a: seq<Report>, b: seq<Report>, c: int, n: nat)
    requires n <= |a| && n <= |b| && forall i :: 0 <= i < n ==> a[i] == b[i]
    ensures StampsAfter(a, c, n) == StampsAfter(b, c, n)
  {
    if n > 0 {
      StampsAgree(a, b, c, n - 1);
    }
  }

  // ----- how many reports a window lets through

  // Report i counts: it is let through, has the severity, and its stamp lies in [from, to].
  predicate Counts(run: seq<Report>, c: int, sev: Severity, from: int, to: int, i: nat)
    requires i < |run|
  {
    run[i].severity == sev && Passes(run, c, i) && from <= run[i].stamp <= to
  }

  function CountIn(run: seq<Report>, c: int, sev: Severity, from: int, to: int, n: nat): nat
    requires n <= |run|
  {
    if n == 0 then 0
    else CountIn(run, c, sev, from, to, n - 1) + if Counts(run, c, sev, from, to, n - 1) then 1 else 0
  }

  // k cooldowns, and 0 for a negative k.
  function Span(k: int, c: nat): nat {
    if k <= 0 then 0 else Span(k - 1, c) + c
  }

  lemma {:induction false} SpanIsProduct(k: nat, c: nat)
    ensures Span(k, c) == k * c
  {
    if k > 0 {
      SpanIsProduct(k - 1, c);
      assert k * c == (k - 1) * c + c;
    }
  }

  lemma {:induction false} SpanQuotient(k: int, c: nat, w: nat)
    requires c > 0 && Span(k, c) <= w
    ensures k <= w / c
  {
    if k > 0 {
      SpanIsProduct(k, c);
      ProductQuotient(k, c, w);
    }
  }

  lemma ProductQuotient(k: nat, c: nat, w: nat)
    requires c > 0 && k * c <= w
    ensures k <= w / c
  {
    var q := w / c;
    assert w < q * c + c;
    assert q + 1 <= k ==> (q + 1) * c <= k * c;
  }

  // Where the failures of a window stand after n reports, f of them counted: they fill whole cooldowns.
  ghost predicate FailuresFill(run: seq<Report>, c: nat, from: int, to: int, n: nat, f: nat)
    requires n <= |run|
  {
    var stamps := StampsAfter(run, c, n);
    f > 0 ==> Span(f - 1, c) <= to - from && Failure in stamps && Span(f - 1, c) + from <= stamps[Failure]
  }

  lemma FailuresNext(run: seq<Report>, c: nat, from: int, to: int, n: nat, f: nat)
    requires IsRun(run) && c > 0 && 0 < n <= |run| && FailuresFill(run, c, from, to, n - 1, f)
    ensures FailuresFill(run, c, from, to, n, f + if Counts(run, c, Failure, from, to, n - 1) then 1 else 0)
  {
    assert run[n - 1].check <= run[n - 1].stamp;
    SpanGrows(f, c);
  }

  lemma {:induction false} FailuresFit(run: seq<Report>, c: nat, from: int, to: int, n: nat)
    requires IsRun(run) && c > 0 && n <= |run|
    ensures FailuresFill(run, c, from, to, n, CountIn(run, c, Failure, from, to, n))
  {
    if n > 0 {
      FailuresFit(run, c, from, to, n - 1);
      FailuresNext(run, c, from, to, n, CountIn(run, c, Failure, from, to, n - 1));
    }
  }

  /** Where the successes of a window stand after n reports, f failures and s successes counted. While the
      window is open, the successes since the last failure fill whole cooldowns up to the success stamp. */
  ghost predicate SuccessesFill(run: seq<Report>, c: nat, from: int, to: int, n: nat, f: nat, s: nat)
    requires n <= |run|
  {
    var stamps := StampsAfter(run, c, n);
    s > 0 ==>
      && n > 0
      && Span(s - f - 1, c) <= to - from
      && (run[n - 1].stamp <= to ==>
            if Success in stamps then Span(s - f - 1, c) + from <= stamps[Success]
            else Span(s - f, c) + from <= run[n - 1].stamp)
  }

  lemma SpanGrows(k: int, c: nat)
    ensures 0 <= Span(k - 1, c) <= Span(k, c) <= Span(k - 1, c) + c
  {
  }

  lemma SuccessStep(run: seq<Report>, c: nat, from: int, to: int, n: nat, f: nat, s: nat)
    requires IsRun(run) && c > 0 && 0 < n <= |run| && run[n - 1].severity == Success
    requires SuccessesFill(run, c, from, to, n - 1, f, s)
    requires s > 0 ==> n > 1 && run[n - 2].stamp >= from
    ensures SuccessesFill(run, c, from, to, n, f, s + if Counts(run, c, Success, from, to, n - 1) then 1 else 0)
  {
    assert n > 1 ==> run[n - 2].stamp <= run[n - 1].check <= run[n - 1].stamp;
    SpanGrows(s - f, c);
    SpanGrows(s - f + 1, c);
  }

  lemma FailureStep(run: seq<Report>, c: nat, from: int, to: int, n: nat, f: nat, s: nat)
    requires IsRun(run) && c > 0 && 0 < n <= |run| && run[n - 1].severity == Failure
    requires SuccessesFill(run, c, from, to, n - 1, f, s)
    requires s > 0 ==> n > 1 && run[n - 2].stamp >= from
    requires var stamps := StampsAfter(run, c, n - 1);
             Success in stamps ==> n > 1 && stamps[Success] <= run[n - 2].stamp
    ensures SuccessesFill(run, c, from, to, n, f + (if Counts(run, c, Failure, from, to, n - 1) then 1 else 0), s)
  {
    assert n > 1 ==> run[n - 2].stamp <= run[n - 1].check <= run[n - 1].stamp;
    SpanGrows(s - f, c);
    SpanGrows(s - f - 1, c);
  }

  lemma {:induction false} SuccessesFit(run: seq<Report>, c: nat, from: int, to: int, n: nat)
    requires IsRun(run) && c > 0 && n <= |run|
    ensures SuccessesFill(run, c, from, to, n,
                          CountIn(run, c, Failure, from, to, n), CountIn(run, c, Success, from, to, n))
  {
    if n > 0 {
      var f, s := CountIn(run, c, Failure, from, to, n - 1), CountIn(run, c, Success, from, to, n - 1);
      SuccessesFit(run, c, from, to, n - 1);
      StampsAreKept(run, c, n - 1);
      NoneBefore(run, c, Success, from, to, n - 1);
      if run[n - 1].severity == Success {
        SuccessStep(run, c, from, to, n, f, s);
      } else {
        FailureStep(run, c, from, to, n, f, s);
      }
    }
  }

  // Nothing is counted before the window opens.
  lemma {:induction false} NoneBefore(run: seq<Report>, c: nat, sev: Severity, from: int, to: int, n: nat)
    requires IsRun(run) && n <= |run|
    ensures CountIn(run, c, sev, from, to, n) > 0 ==> n > 0 && run[n - 1].stamp >= from
  {
    if n == 1 {
      assert CountIn(run, c, sev, from, to, 0) == 0;
    } else if n > 1 {
      NoneBefore(run, c, sev, from, to, n - 1);
      assert run[n - 2].stamp <= run[n - 1].check <= run[n - 1].stamp;
    }
  }

  /** The bound. In any window of length to - from, under a cooldown of c, at most one failure more than
      whole cooldowns fit is let through, and at most one success more than whole cooldowns and let
      through failures together. */
  lemma WindowBound(run: seq<Report>, c: nat, from: int, to: int)
    requires IsRun(run) && c > 0 && from <= to
    ensures var failures := CountIn(run, c, Failure, from, to, |run|);
            var successes := CountIn(run, c, Success, from, to, |run|);
            failures <= (to - from) / c + 1 && successes <= (to - from) / c + failures + 1
  {
    var f: int := CountIn(run, c, Failure, from, to, |run|);
    var s: int := CountIn(run, c, Success, from, to, |run|);
    FailuresFit(run, c, from, to, |run|);
    SuccessesFit(run, c, from, to, |run|);
    if f > 0 {
      SpanQuotient(f - 1, c, to - from);
    }
    if s > 0 {
      SpanQuotient(s - f - 1, c, to - from);
    }
  }

  /** The same for a configured cooldown, which bounds the reports as configured as long as it does not
      overflow. */
  lemma ConfiguredWindowBound(run: seq<Report>, minutes: nat, from: int, to: int)
    requires IsRun(run) && 0 < minutes <= 153_722_867 && from <= to
    ensures forall i :: 0 <= i < |run| ==>
              (Passes(run, minutes * MINUTE, i) <==> Allows(StampsAfter(run, minutes * MINUTE, i), run[i], minutes))
    ensures var c := minutes * MINUTE;
            var failures := CountIn(run, c, Failure, from, to, |run|);
            var successes := CountIn(run, c, Success, from, to, |run|);
            failures <= (to - from) / c + 1 && successes <= (to - from) / c + failures + 1
  {
    CooldownIsConfiguredIff(minutes);
    WindowBound(run, minutes * MINUTE, from, to);
  }

  /** A cooldown that has overflowed to nothing or less lets every report through. */
  lemma OverflowLetsAllThrough(run: seq<Report>, minutes: int)
    requires IsRun(run) && Effective(minutes) <= 0
    ensures forall i :: 0 <= i < |run| ==> Passes(run, Effective(minutes), i)
  {
    forall i | 0 <= i < |run|
      ensures Passes(run, Effective(minutes), i)
    {
      StampsAreKept(run, Effective(minutes), i);
      assert i > 0 ==> run[i - 1].stamp <= run[i].check;
    }
  }

  /** The first cooldown beyond the limit is such a one. */
  lemma FirstOverflow()
    ensures Effective(153_722_868) < 0
  {
  }

  /** Reports under this configuration keep the bound that the configured cooldown promises. */
  ghost predicate KeepsConfiguredBound(minutes: nat)
    requires minutes > 0
  {
    forall run, from, to :: IsRun(run) && from <= to ==>
      CountIn(run, Effective(minutes), Failure, from, to, |run|) <= (to - from) / (minutes * MINUTE) + 1
  }

  // Two failures as close as the effective cooldown allows.
  lemma TwoFailuresPass(d: nat, c: int)
    requires c <= d
    ensures var run := [Report(Failure, 0, 0), Report(Failure, d, d)];
            IsRun(run) && CountIn(run, c, Failure, 0, d, 2) == 2
  {
    var run := [Report(Failure, 0, 0), Report(Failure, d, d)];
    assert StampsAfter(run, c, 0) == map[];
    assert StampsAfter(run, c, 1) == map[Failure := 0];
    assert Counts(run, c, Failure, 0, d, 0) && Counts(run, c, Failure, 0, d, 1);
    assert CountIn(run, c, Failure, 0, d, 1) == 1;
  }

  lemma BoundIsBroken(minutes: nat, c: int, d: nat, n: nat)
    requires minutes > 0 && c == Effective(minutes) && n == minutes * MINUTE && c <= d < n
    ensures !KeepsConfiguredBound(minutes)
  {
    TwoFailuresPass(d, c);
    assert (d - 0) / n == 0;
    var run := [Report(Failure, 0, 0), Report(Failure, d, d)];
    assert CountIn(run, c, Failure, 0, d, |run|) > (d - 0) / n + 1;
  }

  /** The configured bound is kept exactly up to the limit: beyond it the effective cooldown is always
      shorter than the configured one, and two failures slip into a single configured cooldown. */
  lemma BoundIsConfiguredIff(minutes: nat)
    requires minutes > 0
    ensures KeepsConfiguredBound(minutes) <==> minutes <= 153_722_867
  {
    var c, n := Effective(minutes), minutes * MINUTE;
    CooldownIsConfiguredIff(minutes);
    if minutes <= 153_722_867 {
      forall run, from, to | IsRun(run) && from <= to
        ensures CountIn(run, c, Failure, from, to, |run|) <= (to - from) / n + 1
      {
        WindowBound(run, n, from, to);
      }
    } else {
      assert TWO63 <= 153_722_868 * MINUTE <= n;
      BoundIsBroken(minutes, c, if c > 0 then c else 0, n);
    }
  }

  // ----- exactly which reports pass, whatever is configured from report to report

  // lastSentAt after the first n reports, the i-th of which meets a configured cooldown of minutes[i].
  function StampsUnder(run: seq<Report>, minutes: seq<int>, n: nat): Stamps
    requires n <= |run| == |minutes|
  {
    if n == 0 then map[] else Stamped(StampsUnder(run, minutes, n - 1), run[n - 1], minutes[n - 1])
  }

  // Report i is let through.
  predicate LetThrough(run: seq<Report>, minutes: seq<int>, i: nat)
    requires i < |run| == |minutes|
  {
    Allows(StampsUnder(run, minutes, i), run[i], minutes[i])
  }

  // Report k is let through, and no failure since then has flushed its stamp, as one does that is let
  // through under a cooldown.
  ghost predicate Stands(run: seq<Report>, minutes: seq<int>, k: nat, n: nat)
    requires k < n <= |run| == |minutes|
  {
    && LetThrough(run, minutes, k)
    && (run[k].severity == Success ==>
          forall m :: k < m < n && run[m].severity == Failure && minutes[m] > 0 ==> !LetThrough(run, minutes, m))
  }

  /** The stamp of a severity is that of the last report let through that still stands. */
  lemma {:induction false} StampsStand(run: seq<Report>, minutes: seq<int>, n: nat, sev: Severity)
    requires IsRun(run) && n <= |run| == |minutes|
    ensures var stamps := StampsUnder(run, minutes, n);
            && (forall k :: 0 <= k < n && run[k].severity == sev && Stands(run, minutes, k, n) ==>
                  sev in stamps && run[k].stamp <= stamps[sev])
            && (sev in stamps ==> exists k ::
                  0 <= k < n && run[k].severity == sev && Stands(run, minutes, k, n) && stamps[sev] == run[k].stamp)
  {
    if n > 0 {
      StampsStand(run, minutes, n - 1, sev);
      var before, last := StampsUnder(run, minutes, n - 1), run[n - 1];
      if LetThrough(run, minutes, n - 1) && last.severity == sev {
        StampsFresh(run, minutes, n);
      } else {
        StampsOlder(run, minutes, n, sev);
      }
    }
  }

  // The last report has set the stamp of its own severity.
  lemma StampsFresh(run: seq<Report>, minutes: seq<int>, n: nat)
    requires IsRun(run) && 0 < n <= |run| == |minutes| && LetThrough(run, minutes, n - 1)
    ensures var stamps, sev := StampsUnder(run, minutes, n), run[n - 1].severity;
            && sev in stamps && stamps[sev] == run[n - 1].stamp && Stands(run, minutes, n - 1, n)
            && forall k :: 0 <= k < n ==> run[k].stamp <= run[n - 1].stamp
  {
    forall k | 0 <= k < n
      ensures run[k].stamp <= run[n - 1].stamp
    {
      assert k < n - 1 ==> run[k].stamp <= run[n - 1].check;
    }
  }

  // It has not, so what stands of the severity stood before, unless it has been flushed.
  lemma StampsOlder(run: seq<Report>, minutes: seq<int>, n: nat, sev: Severity)
    requires 0 < n <= |run| == |minutes| && (run[n - 1].severity == sev ==> !LetThrough(run, minutes, n - 1))
    requires var stamps := StampsUnder(run, minutes, n - 1);
             && (forall k :: 0 <= k < n - 1 && run[k].severity == sev && Stands(run, minutes, k, n - 1) ==>
                   sev in stamps && run[k].stamp <= stamps[sev])
             && (sev in stamps ==> exists k ::
                   0 <= k < n - 1 && run[k].severity == sev && Stands(run, minutes, k, n - 1)
                   && stamps[sev] == run[k].stamp)
    ensures var stamps := StampsUnder(run, minutes, n);
            && (forall k :: 0 <= k < n && run[k].severity == sev && Stands(run, minutes, k, n) ==>
                  sev in stamps && run[k].stamp <= stamps[sev])
            && (sev in stamps ==> exists k ::
                  0 <= k < n && run[k].severity == sev && Stands(run, minutes, k, n) && stamps[sev] == run[k].stamp)
  {
    var before, stamps := StampsUnder(run, minutes, n - 1), StampsUnder(run, minutes, n);
    var flushed := run[n - 1].severity == Failure && minutes[n - 1] > 0 && LetThrough(run, minutes, n - 1);
    assert !(flushed && sev == Success) ==>
             (sev in stamps <==> sev in before) && (sev in stamps ==> stamps[sev] == before[sev]);
    assert flushed && sev == Success ==> sev !in stamps;
    forall k | 0 <= k < n - 1 && run[k].severity == sev
      ensures Stands(run, minutes, k, n) <==> Stands(run, minutes, k, n - 1) && !(flushed && sev == Success)
    {
    }
  }

  /** Exactly which reports are let through. Without a cooldown every report is. Otherwise a report is held
      back if and only if an earlier one of its severity was let through whose stamp is less than a cooldown
      old; a success let through stops counting once a failure has been let through under a cooldown. */
  lemma LetThroughIff(run: seq<Report>, minutes: seq<int>, i: nat)
    requires IsRun(run) && i < |run| == |minutes|
    ensures LetThrough(run, minutes, i) <==>
              minutes[i] <= 0
              || !(exists k :: 0 <= k < i && run[k].severity == run[i].severity && Stands(run, minutes, k, i)
                               && run[i].check - run[k].stamp < Wrap64(minutes[i] * MINUTE))
  {
    StampsStand(run, minutes, i, run[i].severity);
  }
}
