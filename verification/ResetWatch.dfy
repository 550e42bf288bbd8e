/**
 The protocol's marker moves exactly as the watched marker of `ResetRuns`, so the
 bounds proved there hold of every run of the protocol.
 */
module ResetWatch {
  import opened Text
  import opened AdminReset
  import opened ResetRuns
  import opened SecretPatch
  import opened ResetProtocol

  /** The writes it takes to move the marker: a restore writes the Secret first, a retry also deletes the Job. */
  function WritesNeeded(d: Backstop, kept: bool, deletable: bool): nat {
    if !d.Restore? || !kept then 1
    else if IsRetry(d.next) && deletable then 3
    else 2
  }

  /** The pass as the marker sees it: it completes when its marker write lands. */
  function PollOf(w: World, p: Pending, a: Action): Poll
    requires a.BackstopPass?
  {
    var kept := HasText(w.secret, PREVIOUS_PASSWORD_KEY);
    var needed := WritesNeeded(Decide(p, a.seen, a.now), kept, a.deletable);
    Poll(a.now, a.seen, a.writes >= needed, kept, a.deletable)
  }

  function TextOf(p: Option<Pending>): Option<string>
    requires p.Some? ==> ValidPending(p.value)
  {
    if p.Some? then Some(MarkerText(p.value)) else None
  }

  lemma PassIsAPoll(w: World, p: Pending, a: Action)
    requires ValidPending(p) && w.marker == Some(MarkerText(p))
    requires a.BackstopPass? && Enabled(w, a)
    ensures var q := MarkerAfter(p, PollOf(w, p, a));
            && (q.Some? ==> ValidPending(q.value))
            && Step(w, a).marker == TextOf(q)
  {
    MarkerRoundTrip(p);
    NextIsValid(p, a.seen, a.now);
  }

  /** The polls a run amounts to, up to the pass that drops the marker. */
  function PollsOf(w: World, acts: seq<Action>): seq<Poll>
    requires IsRun(w, acts)
    decreases |acts|
  {
    if acts == [] || w.marker.None? || ParsePending(w.marker.value).None? then []
    else
      var rest := PollsOf(Step(w, acts[0]), acts[1..]);
      if acts[0].BackstopPass? then [PollOf(w, ParsePending(w.marker.value).value, acts[0])] + rest else rest
  }

  /** A run that keeps its marker ends on the watched marker; one that loses it, the watch forgets. */
  lemma {:induction false} RunIsAWatch(w: World, p: Pending, acts: seq<Action>)
    requires ValidPending(p) && w.marker == Some(MarkerText(p))
    requires IsRun(w, acts)
    ensures var v := Watch(p, PollsOf(w, acts));
            && (v.marker.Some? <==> MarkerStands(w, acts))
            && (v.marker.Some? ==> ValidPending(v.marker.value) && Run(w, acts).marker == TextOf(v.marker))
    decreases |acts|
  {
    if acts != [] {
      var a := acts[0];
      MarkerRoundTrip(p);
      if a.BackstopPass? {
        PassIsAPoll(w, p, a);
        var q := MarkerAfter(p, PollOf(w, p, a));
        if q.Some? {
          RunIsAWatch(Step(w, a), q.value, acts[1..]);
        }
      } else {
        MarkerGuardsTheWayBack(w, a);
        RunIsAWatch(Step(w, a), p, acts[1..]);
      }
    }
  }

  /**
   Every run of the protocol after an applied reset: its marker is gone once the
   completed passes reach the bound, and until then it has entered only the stages
   of the ladder, each charged to a fresh failed Job; it skips the retry exactly when
   the delete the retry needs was refused.
   */
  lemma ResetEndsInTime(w: World, reset: Action, acts: seq<Action>, d: nat)
    requires reset.RequestReset? && Enabled(w, reset)
    requires ResetBegins(w, reset.settled) && reset.fate.started && reset.fate.landed && reset.fate.told
    requires IsRun(Step(w, reset), acts)
    requires Spaced(PollsOf(Step(w, reset), acts), reset.now, d)
    ensures var marked := Step(w, reset);
            var v := Watch(Pending(reset.now, Reset), PollsOf(marked, acts));
            && (LastPoll(PollsOf(marked, acts), reset.now)
                  >= reset.now + 4 * (WINDOW_SECS + d) + MAX_RESTORES * (2 * CLOCK_SKEW_SECS + 1)
                ==> !MarkerStands(marked, acts))
            && (MarkerStands(marked, acts) ==>
                  && Run(marked, acts).marker.Some?
                  && ParsePending(Run(marked, acts).marker.value) == v.marker)
            && (v.stages == [Stage.Restore(1), Stalled]
                <==> RetryRefused(Pending(reset.now, Reset), PollsOf(marked, acts)))
            && (v.stages == [Stage.Restore(1), Stalled] || v.stages <= [Stage.Restore(1), Stage.Restore(2), Stalled])
            && FreshFailures(v.charged) && |v.charged| == |v.stages|
  {
    var p := Pending(reset.now, Reset);
    var polls := PollsOf(Step(w, reset), acts);
    RunIsAWatch(Step(w, reset), p, acts);
    ForgottenInTime(reset.now, polls, d);
    BoundedRetries(reset.now, polls);
    var v := Watch(p, polls);
    if v.marker.Some? {
      BeforeStands(Step(w, reset), acts);
      MarkerRoundTrip(v.marker.value);
    }
  }
}
