/**
 What a race leaves in the log and in the mail queue: how often the completion is recorded, exactly,
 and when the completion mail can still be sent after a call has died.
 */
module CompletionLog {
  import opened SigningModel
  import opened SigningRace

  // ------------------------------------------- how often completion is logged

  /** The call has marked its signer and will still record the completion, once it sees everybody signed. */
  predicate WillRecord(call: SigningCall) {
    call.stage in {Marked, Logged, SawAllSigned, Closed}
  }

  /** How many calls stand between their mark and their completion entry. */
  function Recording(calls: seq<SigningCall>): nat {
    if calls == [] then 0
    else Recording(calls[..|calls| - 1]) + if WillRecord(calls[|calls| - 1]) then 1 else 0
  }

  lemma {:induction false} RecordingUpdate(calls: seq<SigningCall>, c: nat, call: SigningCall)
    requires c < |calls|
    ensures Recording(calls[c := call]) + (if WillRecord(calls[c]) then 1 else 0)
      == Recording(calls) + if WillRecord(call) then 1 else 0
  {
    var n := |calls| - 1;
    if c == n {
      assert calls[c := call][..n] == calls[..n];
    } else {
      assert calls[c := call][..n] == calls[..n][c := call];
      RecordingUpdate(calls[..n], c, call);
    }
  }

  lemma RecordingPush(calls: seq<SigningCall>, call: SigningCall)
    ensures Recording(calls + [call]) == Recording(calls) + if WillRecord(call) then 1 else 0
  {
    assert (calls + [call])[..|calls|] == calls;
  }

  lemma CompletedPush(log: seq<Entry>, e: Entry)
    ensures CountCompleted(log + [e]) == CountCompleted(log) + if e == RequestCompletedEntry then 1 else 0
  {
    assert (log + [e])[..|log|] == log;
  }

  /** Nobody is unsigned by a step. */
  lemma StaysSigned(s: Race, m: Move)
    requires Shaped(s) && AllRealSigned(s)
    ensures AllRealSigned(Step(s, m))
  {
    var t := Step(s, m);
    forall i | 0 <= i < |t.roles| && Real(t, i) ensures t.statuses[i] == Signed { assert Real(s, i); }
  }

  /** Once all have signed, no call is about to insert a row or to mark a signer. */
  lemma NothingLeftToSign(s: Race, c: nat)
    requires RaceInv(s) && AllRealSigned(s) && c < |s.calls|
    ensures s.calls[c].stage != Inserted && (s.calls[c].stage == Checked ==> s.calls[c].signer in s.rows)
  {
    hide NobodyForgets;
    hide OneHolder;
    assert CallOk(s, c);
    if s.calls[c].stage != Rejected { assert Real(s, s.calls[c].signer); }
  }

  lemma AdvanceConserves(s: Race, c: nat)
    requires Shaped(s) && AllRealSigned(s) && c < |s.calls|
    requires s.calls[c].stage != Inserted && (s.calls[c].stage == Checked ==> s.calls[c].signer in s.rows)
    ensures var t := Advance(s, c);
      CountCompleted(t.log) + Recording(t.calls) == CountCompleted(s.log) + Recording(s.calls)
  {
    hide AllRealSigned;
    var t := Advance(s, c);
    RecordingUpdate(s.calls, c, t.calls[c]);
    CompletedPush(s.log, SignedBy(s.calls[c].signer));
    CompletedPush(s.log, RequestCompletedEntry);
    hide Recording;
    hide CountCompleted;
  }

  lemma BeginConserves(s: Race, i: nat)
    requires Shaped(s) && AllRealSigned(s)
    ensures Recording(Step(s, Begin(i)).calls) == Recording(s.calls)
  {
    if i < |s.roles| {
      assert !PassesCheck(s, i);
      RecordingPush(s.calls, SigningCall(i, Rejected, false));
    }
  }

  /** Once all have signed, a call stops standing before its completion entry only by writing it. */
  lemma StepConserves(s: Race, m: Move)
    requires RaceInv(s) && AllRealSigned(s)
    ensures var t := Step(s, m);
      CountCompleted(t.log) + Recording(t.calls) == CountCompleted(s.log) + Recording(s.calls)
  {
    hide Recording;
    hide CountCompleted;
    hide Advance;
    hide RowsOk;
    match m
    case Begin(i) => BeginConserves(s, i);
    case Crash(c) =>
      if c < |s.calls| { RecordingUpdate(s.calls, c, s.calls[c].(crashed := true)); }
    case Continue(c) =>
      if c < |s.calls| && !s.calls[c].crashed {
        NothingLeftToSign(s, c);
        AdvanceConserves(s, c);
      }
  }

  /** Conservation over every continuation: completion entries and calls that will still write one. */
  lemma {:induction false} RunConserves(s: Race, moves: seq<Move>)
    requires RaceInv(s) && AllRealSigned(s)
    ensures var last := Run(s, moves);
      && RaceInv(last) && AllRealSigned(last)
      && CountCompleted(last.log) + Recording(last.calls) == CountCompleted(s.log) + Recording(s.calls)
    decreases |moves|
  {
    hide CallOk;
    hide RowsOk;
    hide OneHolder;
    hide NobodyForgets;
    hide AllRealSigned;
    if moves != [] {
      StepKeeps(s, moves[0]);
      StaysSigned(s, moves[0]);
      StepConserves(s, moves[0]);
      RunConserves(Step(s, moves[0]), moves[1..]);
    }
  }

  /** The state at the moment the last real signer was marked: the first one in which all have signed. */
  function WhenAllSigned(s: Race, moves: seq<Move>): (moment: Race)
    requires Shaped(s) && AllRealSigned(Run(s, moves))
    ensures Shaped(moment) && AllRealSigned(moment)
    decreases |moves|
  {
    if AllRealSigned(s) then s else WhenAllSigned(Step(s, moves[0]), moves[1..])
  }

  lemma {:induction false} RecordedSinceThen(s: Race, moves: seq<Move>)
    requires RaceInv(s) && !AllRealSigned(s) && CountCompleted(s.log) == 0
    requires AllRealSigned(Run(s, moves))
    ensures var last := Run(s, moves);
      CountCompleted(last.log) + Recording(last.calls) == Recording(WhenAllSigned(s, moves).calls)
    decreases |moves|
  {
    var t := Step(s, moves[0]);
    StepKeeps(s, moves[0]);
    LastMarkRecordsNothing(s, moves[0]);
    if AllRealSigned(t) {
      RunConserves(t, moves[1..]);
    } else {
      RecordedSinceThen(t, moves[1..]);
    }
  }

  /** The step that marks the last signer writes no completion entry, and neither does any before it. */
  lemma LastMarkRecordsNothing(s: Race, m: Move)
    requires RaceInv(s) && !AllRealSigned(s) && CountCompleted(s.log) == 0
    ensures CountCompleted(Step(s, m).log) == 0
  {
    hide AllRealSigned;
    hide RowsOk;
    hide OneHolder;
    hide NobodyForgets;
    if m.Continue? && m.call < |s.calls| {
      assert CallOk(s, m.call);
      CompletedPush(s.log, SignedBy(s.calls[m.call].signer));
    }
    hide CountCompleted;
  }

  /** Nobody stands between its mark and its completion entry any more: those calls got to their end. */
  predicate AllRecorded(s: Race) {
    forall c :: 0 <= c < |s.calls| ==> !WillRecord(s.calls[c])
  }

  lemma {:induction false} NobodyRecording(calls: seq<SigningCall>)
    ensures Recording(calls) == 0 <==> forall c :: 0 <= c < |calls| ==> !WillRecord(calls[c])
  {
    if calls != [] { NobodyRecording(calls[..|calls| - 1]); }
  }

  /**
   For every interleaving, with calls dying or not: the completion is recorded as often as there were
   calls between their mark and their completion entry when the last real signer was marked, less
   those that never got on. So when all of them did, it is recorded at least once, and exactly once if
   and only if there was exactly one.
   */
  lemma CompletionRecordedOnceIff(start: Race, moves: seq<Move>)
    requires AtRest(start) && CountCompleted(start.log) == 0 && AllRealSigned(Run(start, moves))
    ensures var last := Run(start, moves);
      var standing := Recording(WhenAllSigned(start, moves).calls);
      && CountCompleted(last.log) == standing - Recording(last.calls)
      && standing >= 1
      && (AllRecorded(last) ==> (CountCompleted(last.log) == 1 <==> standing == 1))
      && (AllRecorded(last) ==> CountCompleted(last.log) >= 1)
  {
    hide RaceInv;
    RestIsFine(start);
    RecordedSinceThen(start, moves);
    MarkerStands(start, moves);
    NobodyRecording(Run(start, moves).calls);
  }

  /** The call that marks the last signer is itself between its mark and its completion entry. */
  lemma {:induction false} MarkerStands(s: Race, moves: seq<Move>)
    requires RaceInv(s) && !AllRealSigned(s) && AllRealSigned(Run(s, moves))
    ensures Recording(WhenAllSigned(s, moves).calls) >= 1
    decreases |moves|
  {
    var m, t := moves[0], Step(s, moves[0]);
    StepKeeps(s, m);
    if AllRealSigned(t) {
      OnlyAMarkFinishes(s, m);
      NobodyRecording(t.calls);
    } else {
      MarkerStands(t, moves[1..]);
    }
  }

  lemma SameStatuses(s: Race, t: Race)
    requires Shaped(s) && Shaped(t) && t.roles == s.roles && t.statuses == s.statuses
    ensures AllRealSigned(t) == AllRealSigned(s)
  {
    assert forall k :: 0 <= k < |s.roles| ==> Real(t, k) == Real(s, k);
  }

  lemma OnlyAMarkFinishes(s: Race, m: Move)
    requires RaceInv(s) && !AllRealSigned(s) && AllRealSigned(Step(s, m))
    ensures m.Continue? && m.call < |Step(s, m).calls| && Step(s, m).calls[m.call].stage == Marked
  {
    hide AllRealSigned;
    StepKeepsShape(s, m);
    if Step(s, m).statuses == s.statuses { SameStatuses(s, Step(s, m)); }
  }

  // --------------------------------------------------- the mail after a crash

  /** Somebody alive will still queue the completion mail, if it sees everybody signed. */
  ghost predicate AliveToMail(s: Race) {
    exists c :: 0 <= c < |s.calls| && WillMail(s.calls[c]) && !s.calls[c].crashed
  }

  lemma NobodyMailsStep(s: Race, m: Move)
    requires RaceInv(s) && AllRealSigned(s) && CompletionMail !in s.jobs && !AliveToMail(s)
    ensures var t := Step(s, m);
      Shaped(t) && CompletionMail !in t.jobs && !AliveToMail(t)
  {
    hide NobodyForgets;
    hide OneHolder;
    hide RowsOk;
    hide CallOk;
    var t := Step(s, m);
    StepKeepsShape(s, m);
    if m.Continue? && m.call < |s.calls| { NothingLeftToSign(s, m.call); }
    if m.Begin? && m.signer < |s.roles| { assert !PassesCheck(s, m.signer); }
    hide AllRealSigned;
    hide PassesCheck;
    forall c | 0 <= c < |t.calls| && WillMail(t.calls[c]) ensures t.calls[c].crashed {
      if c < |s.calls| { assert WillMail(s.calls[c]) ==> s.calls[c].crashed; }
    }
  }

  lemma {:induction false} NobodyMailsEver(s: Race, moves: seq<Move>)
    requires RaceInv(s) && AllRealSigned(s) && CompletionMail !in s.jobs && !AliveToMail(s)
    ensures CompletionMail !in Run(s, moves).jobs
    decreases |moves|
  {
    hide CallOk;
    hide RowsOk;
    hide OneHolder;
    hide NobodyForgets;
    hide AllRealSigned;
    if moves != [] {
      StepKeeps(s, moves[0]);
      StaysSigned(s, moves[0]);
      StepConserves(s, moves[0]);
      NobodyMailsStep(s, moves[0]);
      NobodyMailsEver(Step(s, moves[0]), moves[1..]);
    }
  }

  /** Steps left until the call has queued the mail. */
  function StepsToMail(stage: Stage): nat {
    match stage
    case Marked => 5
    case Logged => 4
    case SawAllSigned => 3
    case Closed => 2
    case CompletionLogged => 1
    case _ => 0
  }

  /** A call that is left to run queues the mail. */
  lemma {:induction false} DriveToMail(s: Race, c: nat) returns (moves: seq<Move>)
    requires RaceInv(s) && AllRealSigned(s) && c < |s.calls| && WillMail(s.calls[c]) && !s.calls[c].crashed
    ensures CompletionMail in Run(s, moves).jobs
    decreases StepsToMail(s.calls[c].stage)
  {
    hide CallOk;
    hide RowsOk;
    hide OneHolder;
    hide NobodyForgets;
    var go := Continue(c);
    var t := Step(s, go);
    StepKeeps(s, go);
    StaysSigned(s, go);
    hide AllRealSigned;
    RunOne(s, go);
    if s.calls[c].stage == CompletionLogged {
      moves := [go];
    } else {
      var rest := DriveToMail(t, c);
      moves := [go] + rest;
      assert moves[1..] == rest;
    }
  }

  /**
   A completed request whose mail is not queued, because the call that closed it has yet to get there,
   can still get it if and only if a call that has not yet looked, or has not yet mailed, is alive.
   */
  lemma CanStillMailIff(s: Race)
    requires RaceInv(s) && s.status == Completed && CompletionMail !in s.jobs
    ensures (exists moves :: CompletionMail in Run(s, moves).jobs) <==> AliveToMail(s)
  {
    assert AllRealSigned(s);
    if AliveToMail(s) {
      var c :| 0 <= c < |s.calls| && WillMail(s.calls[c]) && !s.calls[c].crashed;
      var moves := DriveToMail(s, c);
    } else {
      forall moves ensures CompletionMail !in Run(s, moves).jobs { NobodyMailsEver(s, moves); }
    }
  }
}
