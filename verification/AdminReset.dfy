/**
 The rules around an admin-password reset (src/admin_reset.rs): when one may
 start, what a request reports, the pending marker, and what the backstop does
 about a marker it finds.
 */
module AdminReset {
  import opened Text
  import opened Decimal

  const WINDOW_SECS: int := 3600
  const MAX_RESTORES: int := 2
  const CLOCK_SKEW_SECS: int := 30

  // ── the marker ──────────────────────────────────────────────────────

  datatype Stage = Reset | Restore(n: int) | Stalled

  /** A readable marker: when the latest nudge was made, and how far the reset got. */
  datatype Pending = Pending(since: int, stage: Stage)

  /** What `Pending` can hold in Rust and the parser accepts: a positive i64, a restore number from 1 to 255. */
  predicate ValidPending(p: Pending) {
    && 0 < p.since <= I64_MAX
    && (p.stage.Restore? ==> 1 <= p.stage.n <= U8_MAX)
  }

  const RESTORE_WORD: string := "restore"
  const STALLED_WORD: string := "stalled"

  /** `Pending::value`. */
  function MarkerText(p: Pending): string
    requires ValidPending(p)
  {
    match p.stage
    case Reset => Print(p.since)
    case Restore(n) => Print(p.since) + " " + RESTORE_WORD + " " + Print(n)
    case Stalled => Print(p.since) + " " + STALLED_WORD
  }

  /** `parse_pending`. */
  function ParsePending(value: string): Option<Pending> {
    var words := Words(value);
    if words == [] then None
    else
      var since := ParseI64(words[0]);
      if since.None? || since.value <= 0 then None
      else
        var stage := ParseStage(words[1..]);
        // Three words are the longest marker there is.
        if stage.None? || |words| > 3 then None else Some(Pending(since.value, stage.value))
  }

  function ParseStage(words: seq<string>): Option<Stage> {
    if words == [] then Some(Reset)
    else if words[0] == STALLED_WORD && |words| == 1 then Some(Stalled)
    else if words[0] == RESTORE_WORD && |words| >= 2 then
      var n := ParseU8(words[1]);
      if n.Some? && n.value > 0 then Some(Stage.Restore(n.value)) else None
    else None
  }

  // ── the gate and the outcome ────────────────────────────────────────

  datatype Refusal = NotSettled | ResetPending | ResetStalled

  datatype GateAnswer = Open | Refused(why: Refusal)

  /** `gate`. */
  function Gate(settled: bool, pending: Option<string>): (g: GateAnswer)
    ensures g == Open <==> settled && pending.None?
  {
    if pending.Some? then
      match ParsePending(pending.value)
      case Some(Pending(_, Stalled)) => Refused(ResetStalled)
      case _ => Refused(ResetPending)
    else if !settled then Refused(NotSettled)
    else Open
  }

  datatype Outcome = Applied | NotApplied | Partial

  /** `outcome`. */
  function Report(nudged: bool, rolledBack: Option<bool>): Outcome {
    if nudged then Applied
    else if rolledBack == Some(true) then NotApplied
    else Partial
  }

  // ── the backstop ────────────────────────────────────────────────────

  /** The newest pod of the securityconfig update Job, as the API reports it. */
  datatype UpdateRun = UpdateRun(created: int, phase: string)

  datatype Backstop = Wait | Forget | Restore(next: Pending) | Stall(next: Pending)

  /** `restore_since`. */
  function RestoreSince(now: int, failedCreated: int): int {
    var after := failedCreated + CLOCK_SKEW_SECS + 1;
    if now < after then after else now
  }

  /** Does `run` count as a run of the nudge that wrote `p`? */
  predicate CountsFor(p: Pending, run: Option<UpdateRun>) {
    run.Some? && run.value.created + CLOCK_SKEW_SECS >= p.since
  }

  predicate Succeeded(p: Pending, run: Option<UpdateRun>) {
    CountsFor(p, run) && run.value.phase == "Succeeded"
  }

  predicate Failed(p: Pending, run: Option<UpdateRun>) {
    CountsFor(p, run) && run.value.phase == "Failed"
  }

  /** `backstop`. */
  function Decide(p: Pending, run: Option<UpdateRun>, now: int): Backstop {
    if Succeeded(p, run) then Forget
    else if Failed(p, run) && p.stage.Reset? then
      Backstop.Restore(Pending(RestoreSince(now, run.value.created), Stage.Restore(1)))
    else if Failed(p, run) && p.stage.Restore? && p.stage.n < MAX_RESTORES then
      Backstop.Restore(Pending(RestoreSince(now, run.value.created), Stage.Restore(p.stage.n + 1)))
    else if Failed(p, run) && p.stage.Restore? then
      Stall(Pending(now, Stalled))
    else if now - p.since >= WINDOW_SECS then Forget
    else Wait
  }

  // ── the marker codec ────────────────────────────────────────────────

  function StageWords(stage: Stage): seq<string>
    requires stage.Restore? ==> stage.n >= 0
  {
    match stage
    case Reset => []
    case Restore(n) => ["restore", Print(n)]
    case Stalled => ["stalled"]
  }

  lemma MarkerWords(p: Pending)
    requires ValidPending(p)
    ensures Words(MarkerText(p)) == [Print(p.since)] + StageWords(p.stage)
  {
    var since := Print(p.since);
    PrintIsWord(p.since);
    match p.stage
    case Reset =>
      WordsOfWord(since);
    case Stalled =>
      WordsOfTwo(since, STALLED_WORD);
    case Restore(n) =>
      PrintIsWord(n);
      WordsOfThree(since, RESTORE_WORD, Print(n));
  }

  lemma StageRoundTrip(stage: Stage)
    requires stage.Restore? ==> 1 <= stage.n <= U8_MAX
    ensures ParseStage(StageWords(stage)) == Some(stage)
  {
    if stage.Restore? {
      ParsePrint(stage.n, false, 0, U8_MAX);
    }
  }

  /** Every marker the backend can write is read back as it was written. */
  lemma MarkerRoundTrip(p: Pending)
    requires ValidPending(p)
    ensures ParsePending(MarkerText(p)) == Some(p)
  {
    MarkerWords(p);
    StageRoundTrip(p.stage);
    ParsePrint(p.since, true, I64_MIN, I64_MAX);
    var words := Words(MarkerText(p));
    assert words[1..] == StageWords(p.stage);
  }

  /** The words that spell a stage: none, one or two, and a restore's number as Rust reads a u8. */
  predicate SpellsStage(words: seq<string>, stage: Stage) {
    match stage
    case Reset => words == []
    case Restore(n) => |words| == 2 && words[0] == "restore" && ParseU8(words[1]) == Some(n) && n > 0
    case Stalled => words == ["stalled"]
  }

  /** What a text reads as, exactly: a positive time first, then the stage, and no word more. */
  lemma MarkerReads(value: string, p: Pending)
    ensures ParsePending(value) == Some(p) <==>
              var words := Words(value);
              && words != [] && ParseI64(words[0]) == Some(p.since) && p.since > 0
              && SpellsStage(words[1..], p.stage)
  {
    var words := Words(value);
    if 0 < |words| <= 3 {
      StageReads(words[1..], p.stage);
    }
  }

  predicate ReadsStalled(value: string) {
    var words := Words(value);
    |words| == 2 && words[1] == "stalled" && ParseI64(words[0]).Some? && ParseI64(words[0]).value > 0
  }

  /** A refusal says which: not settled, stalled, or still being applied, which any other marker reads as. */
  lemma GateTells(settled: bool, pending: Option<string>)
    ensures var stalled := pending.Some? && ReadsStalled(pending.value);
            && (Gate(settled, pending) == Refused(ResetStalled) <==> stalled)
            && (Gate(settled, pending) == Refused(ResetPending) <==> pending.Some? && !stalled)
            && (Gate(settled, pending) == Refused(NotSettled) <==> pending.None? && !settled)
  {
    if pending.Some? {
      var words := Words(pending.value);
      if 0 < |words| <= 3 {
        StageReads(words[1..], Stalled);
      }
    }
  }

  lemma StageReads(words: seq<string>, stage: Stage)
    requires |words| <= 2
    ensures ParseStage(words) == Some(stage) <==> SpellsStage(words, stage)
  {
    assert RESTORE_WORD != STALLED_WORD by {
      assert RESTORE_WORD[0] != STALLED_WORD[0];
    }
  }

  /** The parser accepts nothing else, and what it accepts has one canonical spelling. */
  lemma MarkerCanonical(value: string)
    requires ParsePending(value).Some?
    ensures var p := ParsePending(value).value;
            ValidPending(p) && ParsePending(MarkerText(p)) == Some(p)
  {
    MarkerRoundTrip(ParsePending(value).value);
  }

  /** Two spellings read as the same marker exactly when they have the same canonical form. */
  lemma MarkerSameReading(a: string, b: string)
    requires ParsePending(a).Some? && ParsePending(b).Some?
    ensures MarkerCanonicalForm(a) == MarkerCanonicalForm(b) <==> ParsePending(a) == ParsePending(b)
  {
    MarkerCanonical(a);
    MarkerCanonical(b);
  }

  function MarkerCanonicalForm(value: string): string
    requires ParsePending(value).Some?
  {
    MarkerText(ParsePending(value).value)
  }
}
