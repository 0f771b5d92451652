/**
 Signing calls on a parallel request, interleaved at the database round trips that touch what they
 share. Each call reads and checks, inserts its signature row under a unique key, marks its signer,
 writes its log entry, reads all signers back and, if all have signed, completes the request and
 queues the completion mail. A call may also die between any two of its steps. Two round trips are no
 stages of their own: capturing the signer's own fields is folded into the mark, and the write of the
 document's status into the completion.
 */
module SigningRace {
  import opened Prelude
  import opened SigningModel

  datatype Stage =
    | Checked | Inserted | Marked | Logged | SawAllSigned | Closed | CompletionLogged | Finished | Rejected

  datatype SigningCall = SigningCall(signer: nat, stage: Stage, crashed: bool)

  datatype Entry = SignedBy(signer: nat) | RequestCompletedEntry

  datatype Race = Race(
    roles: seq<Role>,
    statuses: seq<SignerStatus>,
    rows: seq<nat>,
    status: RequestStatus,
    log: seq<Entry>,
    jobs: seq<Job>,
    calls: seq<SigningCall>)

  datatype Move = Begin(signer: nat) | Continue(call: nat) | Crash(call: nat)

  predicate Real(s: Race, i: nat) {
    i < |s.roles| && s.roles[i] != CarbonCopy
  }

  predicate AllRealSigned(s: Race)
    requires |s.statuses| == |s.roles|
  {
    forall i :: 0 <= i < |s.roles| && Real(s, i) ==> s.statuses[i] == Signed
  }

  predicate PassesCheck(s: Race, i: nat)
    requires i < |s.statuses|
  {
    && (s.status == AwaitingSignature || s.status == InProgress)
    && Real(s, i)
    && (s.statuses[i] == Invited || s.statuses[i] == Viewed)
  }

  function Goto(s: Race, c: nat, stage: Stage): Race
    requires c < |s.calls|
  {
    s.(calls := s.calls[c := s.calls[c].(stage := stage)])
  }

  /** The next step of call `c`. */
  function Advance(s: Race, c: nat): Race
    requires c < |s.calls| && s.calls[c].signer < |s.roles| == |s.statuses|
  {
    var i := s.calls[c].signer;
    match s.calls[c].stage
    case Checked => if i in s.rows then Goto(s, c, Rejected) else Goto(s.(rows := s.rows + [i]), c, Inserted)
    case Inserted => Goto(s.(statuses := s.statuses[i := Signed]), c, Marked)
    case Marked => Goto(s.(log := s.log + [SignedBy(i)]), c, Logged)
    case Logged => Goto(s, c, if AllRealSigned(s) then SawAllSigned else Finished)
    case SawAllSigned => Goto(s.(status := Completed), c, Closed)
    case Closed => Goto(s.(log := s.log + [RequestCompletedEntry]), c, CompletionLogged)
    case CompletionLogged => Goto(s.(jobs := EnqueueCompletionMail(s.jobs)), c, Finished)
    case Finished => s
    case Rejected => s
  }

  function Step(s: Race, m: Move): Race
    requires Shaped(s)
  {
    match m
    case Begin(i) =>
      if i >= |s.roles| then s
      else s.(calls := s.calls + [SigningCall(i, if PassesCheck(s, i) then Checked else Rejected, false)])
    case Continue(c) => if c < |s.calls| && !s.calls[c].crashed then Advance(s, c) else s
    case Crash(c) => if c < |s.calls| then s.(calls := s.calls[c := s.calls[c].(crashed := true)]) else s
  }

  predicate Shaped(s: Race) {
    |s.statuses| == |s.roles| && forall c :: 0 <= c < |s.calls| ==> s.calls[c].signer < |s.roles|
  }

  lemma StepKeepsShape(s: Race, m: Move)
    requires Shaped(s)
    ensures Shaped(Step(s, m)) && Step(s, m).roles == s.roles
  {
  }

  function Run(s: Race, moves: seq<Move>): (last: Race)
    requires Shaped(s)
    ensures Shaped(last) && last.roles == s.roles
    decreases |moves|
  {
    if moves == [] then s
    else
      assert Shaped(Step(s, moves[0]));
      Run(Step(s, moves[0]), moves[1..])
  }

  // -------------------------------------------------------------- invariant

  /** The call has its signature row in. */
  predicate Holds(call: SigningCall) {
    call.stage !in {Checked, Rejected}
  }

  /** The call has marked its signer but not yet decided that somebody is missing, nor closed the request. */
  predicate WillLook(call: SigningCall) {
    call.stage in {Marked, Logged, SawAllSigned}
  }

  /** The call saw everybody signed, or may still see it, and has not queued the mail. */
  predicate WillMail(call: SigningCall) {
    WillLook(call) || call.stage in {Closed, CompletionLogged}
  }

  ghost predicate CallOk(s: Race, c: nat)
    requires Shaped(s) && c < |s.calls|
  {
    var call := s.calls[c];
    && (call.stage != Rejected ==> Real(s, call.signer))
    && (Holds(call) ==> call.signer in s.rows)
    && (Holds(call) ==> (call.stage == Inserted <==> s.statuses[call.signer] != Signed))
    && (call.stage in {SawAllSigned, Closed, CompletionLogged} ==> AllRealSigned(s))
    && (call.stage in {Closed, CompletionLogged} ==> s.status == Completed)
  }

  /** A call has inserted the row of signer `i` and not yet marked it. */
  ghost predicate BeingMarked(s: Race, i: nat) {
    exists c :: 0 <= c < |s.calls| && s.calls[c].signer == i && s.calls[c].stage == Inserted
  }

  ghost predicate RowsOk(s: Race)
    requires Shaped(s)
  {
    && (forall a, b :: 0 <= a < b < |s.rows| ==> s.rows[a] != s.rows[b])
    && (forall a :: 0 <= a < |s.rows| ==> Real(s, s.rows[a]))
    && (forall i :: 0 <= i < |s.statuses| && s.statuses[i] == Signed ==> i in s.rows)
    && (forall a :: 0 <= a < |s.rows| && s.statuses[s.rows[a]] != Signed ==> BeingMarked(s, s.rows[a]))
  }

  ghost predicate OneHolder(s: Race) {
    forall c, d :: 0 <= c < d < |s.calls| && Holds(s.calls[c]) && Holds(s.calls[d]) ==> s.calls[c].signer != s.calls[d].signer
  }

  /** Somebody who will look is left whenever all have signed and the request is not closed; likewise for the mail. */
  ghost predicate NobodyForgets(s: Race)
    requires Shaped(s)
  {
    && (AllRealSigned(s) && s.status != Completed ==> exists c :: 0 <= c < |s.calls| && WillLook(s.calls[c]))
    && (AllRealSigned(s) && CompletionMail !in s.jobs ==> exists c :: 0 <= c < |s.calls| && WillMail(s.calls[c]))
  }

  ghost predicate RequestOk(s: Race)
    requires Shaped(s)
  {
    && s.status in {AwaitingSignature, InProgress, Completed}
    && (s.status == Completed ==> AllRealSigned(s))
    && (CompletionMail in s.jobs ==> s.status == Completed)
    && multiset(s.jobs)[CompletionMail] <= 1
  }

  ghost predicate RaceInv(s: Race) {
    && Shaped(s)
    && (forall c :: 0 <= c < |s.calls| ==> CallOk(s, c))
    && RowsOk(s) && OneHolder(s) && NobodyForgets(s) && RequestOk(s)
  }

  /** A request at rest: no call under way, and the rows say who has signed. At least one real signer has not. */
  ghost predicate AtRest(s: Race) {
    && Shaped(s) && s.calls == []
    && s.status in {AwaitingSignature, InProgress}
    && !AllRealSigned(s)
    && CompletionMail !in s.jobs
    && (forall a, b :: 0 <= a < b < |s.rows| ==> s.rows[a] != s.rows[b])
    && (forall a :: 0 <= a < |s.rows| ==> Real(s, s.rows[a]) && s.statuses[s.rows[a]] == Signed)
    && (forall i :: 0 <= i < |s.statuses| && s.statuses[i] == Signed ==> i in s.rows)
  }

  lemma RestIsFine(s: Race)
    requires AtRest(s)
    ensures RaceInv(s)
  {
  }

  // ------------------------------------------------------------- each step

  lemma InsertKeepsRows(s: Race, c: nat)
    requires RaceInv(s) && c < |s.calls| && s.calls[c].stage == Checked && s.calls[c].signer !in s.rows
    ensures Shaped(Advance(s, c)) && RowsOk(Advance(s, c)) && OneHolder(Advance(s, c))
  {
    var t := Advance(s, c);
    var i := s.calls[c].signer;
    assert CallOk(s, c);
    assert t.calls[c].stage == Inserted && t.calls[c].signer == i;
    forall a | 0 <= a < |t.rows| && t.statuses[t.rows[a]] != Signed ensures BeingMarked(t, t.rows[a]) {
      if a < |s.rows| {
        assert BeingMarked(s, s.rows[a]);
        var d :| 0 <= d < |s.calls| && s.calls[d].signer == s.rows[a] && s.calls[d].stage == Inserted;
        assert t.calls[d] == s.calls[d];
      }
    }
    forall d | 0 <= d < |s.calls| && Holds(s.calls[d]) ensures s.calls[d].signer != i { assert CallOk(s, d); }
  }

  lemma InsertKeeps(s: Race, c: nat)
    requires RaceInv(s) && c < |s.calls| && s.calls[c].stage == Checked && s.calls[c].signer !in s.rows
    ensures RaceInv(Advance(s, c))
  {
    var t := Advance(s, c);
    InsertKeepsRows(s, c);
    assert CallOk(s, c);
    assert s.calls[c].signer < |s.statuses| && s.statuses[s.calls[c].signer] != Signed;
    hide RowsOk;
    hide OneHolder;
    forall d | 0 <= d < |t.calls| ensures CallOk(t, d) { assert CallOk(s, d); }
    WitnessesStay(s, t, c);
  }

  /** Calls other than `c` are as before, so whoever will look, or mail, among them still will. */
  lemma WitnessesStay(s: Race, t: Race, c: nat)
    requires c < |s.calls| == |t.calls|
    requires forall d :: 0 <= d < |s.calls| && d != c ==> t.calls[d] == s.calls[d]
    ensures (exists d :: 0 <= d < |s.calls| && WillLook(s.calls[d])) && !WillLook(s.calls[c])
      ==> exists d :: 0 <= d < |t.calls| && WillLook(t.calls[d])
    ensures (exists d :: 0 <= d < |s.calls| && WillMail(s.calls[d])) && !WillMail(s.calls[c])
      ==> exists d :: 0 <= d < |t.calls| && WillMail(t.calls[d])
  {
    if (exists d :: 0 <= d < |s.calls| && WillLook(s.calls[d])) && !WillLook(s.calls[c]) {
      var d :| 0 <= d < |s.calls| && WillLook(s.calls[d]);
      assert WillLook(t.calls[d]);
    }
    if (exists d :: 0 <= d < |s.calls| && WillMail(s.calls[d])) && !WillMail(s.calls[c]) {
      var d :| 0 <= d < |s.calls| && WillMail(s.calls[d]);
      assert WillMail(t.calls[d]);
    }
  }

  lemma MarkKeeps(s: Race, c: nat)
    requires RaceInv(s) && c < |s.calls| && s.calls[c].stage == Inserted
    ensures RaceInv(Advance(s, c))
  {
    var t := Advance(s, c);
    var i := s.calls[c].signer;
    assert CallOk(s, c);
    assert forall k :: 0 <= k < |t.roles| ==> Real(t, k) == Real(s, k);
    assert !AllRealSigned(s) by { assert Real(s, i); }
    forall d | 0 <= d < |t.calls| ensures CallOk(t, d) {
      assert CallOk(s, d);
    }
    forall a | 0 <= a < |t.rows| && t.statuses[t.rows[a]] != Signed
      ensures BeingMarked(t, t.rows[a])
    {
      assert BeingMarked(s, s.rows[a]);
      var d :| 0 <= d < |s.calls| && s.calls[d].signer == s.rows[a] && s.calls[d].stage == Inserted;
      assert t.calls[d] == s.calls[d];
    }
    assert WillLook(t.calls[c]) && WillMail(t.calls[c]);
  }

  lemma LaterStepKeepsRows(s: Race, c: nat)
    requires RaceInv(s) && c < |s.calls| && Holds(s.calls[c]) && s.calls[c].stage != Inserted
    ensures Shaped(Advance(s, c)) && RowsOk(Advance(s, c)) && OneHolder(Advance(s, c))
  {
    hide AllRealSigned;
    var t := Advance(s, c);
    forall a | 0 <= a < |t.rows| && t.statuses[t.rows[a]] != Signed
      ensures BeingMarked(t, t.rows[a])
    {
      assert BeingMarked(s, s.rows[a]);
      var d :| 0 <= d < |s.calls| && s.calls[d].signer == s.rows[a] && s.calls[d].stage == Inserted;
      assert t.calls[d] == s.calls[d];
    }
  }

  /** A step that changes no row and no signer: only the call's own stage, the log, the request's status and the mail. */
  lemma LaterStepKeeps(s: Race, c: nat)
    requires RaceInv(s) && c < |s.calls| && Holds(s.calls[c]) && s.calls[c].stage != Inserted
    ensures RaceInv(Advance(s, c))
  {
    LaterStepKeepsRows(s, c);
    var t := Advance(s, c);
    assert CallOk(s, c);
    assert forall k :: 0 <= k < |t.roles| ==> Real(t, k) == Real(s, k);
    assert AllRealSigned(t) == AllRealSigned(s);
    hide RowsOk;
    hide OneHolder;
    forall d | 0 <= d < |t.calls| ensures CallOk(t, d) { assert CallOk(s, d); }
    WitnessesStay(s, t, c);
    if WillLook(t.calls[c]) || WillMail(t.calls[c]) { assert WillMail(t.calls[c]); }
    assert NobodyForgets(t);
  }

  lemma QuietKeeps(s: Race, t: Race, c: nat)
    requires RaceInv(s) && c < |s.calls|
    requires |t.calls| == |s.calls| && t == s.(calls := s.calls[c := t.calls[c]])
    requires t.calls[c].signer == s.calls[c].signer
    requires t.calls[c].stage == s.calls[c].stage || (s.calls[c].stage == Checked && t.calls[c].stage == Rejected)
    ensures RaceInv(t)
  {
    assert forall k :: 0 <= k < |t.roles| ==> Real(t, k) == Real(s, k);
    assert AllRealSigned(t) == AllRealSigned(s);
    forall d | 0 <= d < |t.calls| ensures CallOk(t, d) { assert CallOk(s, d); }
    forall a | 0 <= a < |t.rows| && t.statuses[t.rows[a]] != Signed
      ensures BeingMarked(t, t.rows[a])
    {
      assert BeingMarked(s, s.rows[a]);
      var d :| 0 <= d < |s.calls| && s.calls[d].signer == s.rows[a] && s.calls[d].stage == Inserted;
      assert t.calls[d].signer == s.rows[a] && t.calls[d].stage == Inserted;
    }
    forall d | 0 <= d < |s.calls| && WillLook(s.calls[d]) ensures WillLook(t.calls[d]) {}
    forall d | 0 <= d < |s.calls| && WillMail(s.calls[d]) ensures WillMail(t.calls[d]) {}
  }

  lemma BeginKeeps(s: Race, i: nat)
    requires RaceInv(s)
    ensures RaceInv(Step(s, Begin(i)))
  {
    var t := Step(s, Begin(i));
    assert forall d :: 0 <= d < |s.calls| ==> t.calls[d] == s.calls[d];
    assert forall k :: 0 <= k < |t.roles| ==> Real(t, k) == Real(s, k);
    assert AllRealSigned(t) == AllRealSigned(s);
    forall d | 0 <= d < |t.calls| ensures CallOk(t, d) {
      if d < |s.calls| { assert CallOk(s, d); }
    }
    forall a | 0 <= a < |t.rows| && t.statuses[t.rows[a]] != Signed
      ensures BeingMarked(t, t.rows[a])
    {
      assert BeingMarked(s, s.rows[a]);
      var d :| 0 <= d < |s.calls| && s.calls[d].signer == s.rows[a] && s.calls[d].stage == Inserted;
      assert t.calls[d] == s.calls[d];
    }
    forall d | 0 <= d < |s.calls| && WillLook(s.calls[d]) ensures WillLook(t.calls[d]) {}
    forall d | 0 <= d < |s.calls| && WillMail(s.calls[d]) ensures WillMail(t.calls[d]) {}
  }

  lemma StepKeeps(s: Race, m: Move)
    requires RaceInv(s)
    ensures RaceInv(Step(s, m))
  {
    match m
    case Begin(i) => BeginKeeps(s, i);
    case Crash(c) => if c < |s.calls| { QuietKeeps(s, Step(s, m), c); }
    case Continue(c) =>
      if c < |s.calls| && !s.calls[c].crashed {
        if s.calls[c].stage == Checked {
          if s.calls[c].signer in s.rows { QuietKeeps(s, Step(s, m), c); } else { InsertKeeps(s, c); }
        } else if s.calls[c].stage == Inserted {
          MarkKeeps(s, c);
        } else if s.calls[c].stage != Rejected {
          LaterStepKeeps(s, c);
        }
      }
  }

  lemma {:induction false} RunKeeps(s: Race, moves: seq<Move>)
    requires RaceInv(s)
    ensures RaceInv(Run(s, moves))
    decreases |moves|
  {
    if moves != [] {
      StepKeeps(s, moves[0]);
      RunKeeps(Step(s, moves[0]), moves[1..]);
    }
  }

  // ------------------------------------------------------------ main results

  /** Roles never change, rows are never removed, and a signed signer stays signed. */
  lemma {:induction false} NothingIsUndone(s: Race, moves: seq<Move>)
    requires Shaped(s)
    ensures var last := Run(s, moves);
      && (forall i :: i in s.rows ==> i in last.rows)
      && (forall i :: 0 <= i < |s.statuses| && s.statuses[i] == Signed ==> last.statuses[i] == Signed)
    decreases |moves|
  {
    if moves != [] { NothingIsUndone(Step(s, moves[0]), moves[1..]); }
  }

  /** No call holds one of the rows in `taken`. */
  ghost predicate HoldersAreNew(s: Race, taken: set<nat>) {
    && (forall i :: i in taken ==> i in s.rows)
    && (forall c :: 0 <= c < |s.calls| && Holds(s.calls[c]) ==> s.calls[c].signer !in taken)
  }

  lemma {:induction false} HoldersStayNew(s: Race, moves: seq<Move>, taken: set<nat>)
    requires Shaped(s) && HoldersAreNew(s, taken)
    ensures HoldersAreNew(Run(s, moves), taken)
    decreases |moves|
  {
    if moves != [] {
      var t := Step(s, moves[0]);
      assert HoldersAreNew(t, taken) by {
        forall c | 0 <= c < |t.calls| && Holds(t.calls[c]) ensures t.calls[c].signer !in taken {
          assert c < |s.calls| && t.calls[c].signer == s.calls[c].signer;
        }
      }
      HoldersStayNew(t, moves[1..], taken);
    }
  }

  lemma {:induction false} OnceEach(rows: seq<nat>, i: nat)
    requires forall a, b :: 0 <= a < b < |rows| ==> rows[a] != rows[b]
    ensures multiset(rows)[i] == if i in rows then 1 else 0
  {
    if rows != [] {
      var n := |rows| - 1;
      assert rows == rows[..n] + [rows[n]];
      OnceEach(rows[..n], i);
    }
  }

  /** Every real signer unsigned at the start has a call that finished. */
  ghost predicate AllFinished(start: Race, last: Race)
    requires Shaped(start)
  {
    forall i :: 0 <= i < |start.roles| && Real(start, i) && start.statuses[i] != Signed
      ==> exists c :: 0 <= c < |last.calls| && last.calls[c].signer == i && last.calls[c].stage == Finished
  }

  lemma FinishedSigners(start: Race, last: Race, i: nat)
    requires AtRest(start) && RaceInv(last) && AllFinished(start, last) && last.roles == start.roles && Real(start, i)
    requires start.statuses[i] == Signed ==> last.statuses[i] == Signed
    ensures i in last.rows && last.statuses[i] == Signed && multiset(last.rows)[i] == 1
  {
    if start.statuses[i] != Signed {
      var c :| 0 <= c < |last.calls| && last.calls[c].signer == i && last.calls[c].stage == Finished;
      assert CallOk(last, c);
    }
    OnceEach(last.rows, i);
  }

  lemma NobodyPending(start: Race, last: Race)
    requires AtRest(start) && RaceInv(last) && AllFinished(start, last) && last.roles == start.roles
    requires HoldersAreNew(last, set i | i in start.rows)
    ensures forall c :: 0 <= c < |last.calls| ==> !WillMail(last.calls[c])
  {
    forall c | 0 <= c < |last.calls| ensures !WillMail(last.calls[c]) {
      assert CallOk(last, c);
      if Holds(last.calls[c]) {
        var i := last.calls[c].signer;
        assert Real(start, i);
        var d :| 0 <= d < |last.calls| && last.calls[d].signer == i && last.calls[d].stage == Finished;
        assert c == d;
      }
    }
  }

  /**
   No lost completion: however signing calls interleave and whichever of them die, once every real
   signer that had not signed at the start has a call that finished, the request is completed, every
   real signer has exactly one signature row however many calls raced for it, and exactly one
   completion mail is queued.
   */
  lemma NoLostCompletion(start: Race, moves: seq<Move>)
    requires AtRest(start) && AllFinished(start, Run(start, moves))
    ensures var last := Run(start, moves);
      && last.status == Completed
      && (forall i: nat :: Real(start, i) ==> multiset(last.rows)[i] == 1)
      && multiset(last.jobs)[CompletionMail] == 1
  {
    hide Run;
    var last := Run(start, moves);
    RestIsFine(start);
    RunKeeps(start, moves);
    NothingIsUndone(start, moves);
    HoldersStayNew(start, moves, set i | i in start.rows);
    forall i: nat | Real(start, i) ensures last.statuses[i] == Signed && multiset(last.rows)[i] == 1 {
      FinishedSigners(start, last, i);
    }
    assert AllRealSigned(last) by {
      assert forall i :: 0 <= i < |last.roles| ==> Real(last, i) == Real(start, i);
    }
    NobodyPending(start, last);
  }

  // --------------------------------------------------------- calls that die

  /** A call died with the row of signer `i` inserted and the signer not yet marked. */
  ghost predicate Stranded(s: Race, i: nat) {
    exists c :: 0 <= c < |s.calls| && s.calls[c] == SigningCall(i, Inserted, true)
  }

  lemma {:induction false} StrandedForever(s: Race, moves: seq<Move>, c: nat)
    requires Shaped(s) && c < |s.calls| && s.calls[c].crashed
    ensures c < |Run(s, moves).calls| && Run(s, moves).calls[c] == s.calls[c]
    decreases |moves|
  {
    if moves != [] {
      assert Step(s, moves[0]).calls[c] == s.calls[c];
      StrandedForever(Step(s, moves[0]), moves[1..], c);
    }
  }

  ghost function FinishSigner(s: Race, i: nat): seq<Move> {
    if i !in s.rows then [Begin(i), Continue(|s.calls|), Continue(|s.calls|)]
    else if exists c: nat :: c < |s.calls| && s.calls[c] == SigningCall(i, Inserted, false) then
      var c: nat :| c < |s.calls| && s.calls[c] == SigningCall(i, Inserted, false);
      [Continue(c)]
    else []
  }

  lemma RunOne(s: Race, a: Move)
    requires Shaped(s)
    ensures Run(s, [a]) == Step(s, a)
  {
    assert [a][1..] == [];
  }

  lemma RunThree(s: Race, a: Move, b: Move, c: Move)
    requires Shaped(s)
    ensures Run(s, [a, b, c]) == Step(Step(Step(s, a), b), c)
  {
    hide Advance;
    assert [a, b, c][1..] == [b, c] && [b, c][1..] == [c];
    assert Shaped(Step(s, a)) && Shaped(Step(Step(s, a), b)) by {
      StepKeepsShape(s, a);
      StepKeepsShape(Step(s, a), b);
    }
    RunOne(Step(Step(s, a), b), c);
  }

  /**
   A call is not a transaction: if it dies between inserting the signature row and marking the signer,
   that signer can never sign again, and otherwise it always can. Exactly: an open real signer can
   still come to be signed if and only if it is not stranded.
   */
  lemma CanStillSignIff(s: Race, i: nat)
    requires RaceInv(s) && Real(s, i) && s.statuses[i] in {Invited, Viewed}
    ensures (exists moves :: Run(s, moves).statuses[i] == Signed) <==> !Stranded(s, i)
  {
    if Stranded(s, i) {
      var c :| 0 <= c < |s.calls| && s.calls[c] == SigningCall(i, Inserted, true);
      forall moves ensures Run(s, moves).statuses[i] != Signed {
        StrandedForever(s, moves, c);
        RunKeeps(s, moves);
        assert CallOk(Run(s, moves), c);
      }
    } else {
      var moves := FinishSigner(s, i);
      if i !in s.rows {
        assert PassesCheck(s, i) by { assert !AllRealSigned(s); }
        RunThree(s, moves[0], moves[1], moves[2]);
        var n := |s.calls|;
        var t := Step(s, moves[0]);
        assert t.calls[n] == SigningCall(i, Checked, false);
        var u := Step(t, moves[1]);
        assert u.calls[n] == SigningCall(i, Inserted, false);
      } else {
        var a :| 0 <= a < |s.rows| && s.rows[a] == i;
        assert BeingMarked(s, s.rows[a]);
        var c: nat :| c < |s.calls| && s.calls[c].signer == i && s.calls[c].stage == Inserted;
        assert s.calls[c] == SigningCall(i, Inserted, false);
        assert |moves| == 1;
        RunOne(s, moves[0]);
      }
      assert Run(s, moves).statuses[i] == Signed;
    }
  }

  /** A stranded signer keeps the request from ever completing. */
  lemma StrandedNeverCompletes(s: Race, i: nat, moves: seq<Move>)
    requires RaceInv(s) && Stranded(s, i)
    ensures Run(s, moves).status != Completed
  {
    var c :| 0 <= c < |s.calls| && s.calls[c] == SigningCall(i, Inserted, true);
    assert CallOk(s, c);
    StrandedForever(s, moves, c);
    RunKeeps(s, moves);
    NothingIsUndone(s, moves);
    assert CallOk(Run(s, moves), c);
    assert Real(Run(s, moves), i);
  }

  /** Somebody alive will still look whether all have signed. */
  ghost predicate AliveToComplete(s: Race) {
    exists c :: 0 <= c < |s.calls| && WillLook(s.calls[c]) && !s.calls[c].crashed
  }

  lemma NobodyAliveStep(s: Race, m: Move)
    requires RaceInv(s) && AllRealSigned(s) && s.status != Completed && !AliveToComplete(s)
    ensures var t := Step(s, m);
      Shaped(t) && AllRealSigned(t) && t.status != Completed && !AliveToComplete(t)
  {
    var t := Step(s, m);
    StepKeepsShape(s, m);
    forall c | 0 <= c < |s.calls| ensures s.calls[c].stage != Inserted && (s.calls[c].stage == Checked ==> s.calls[c].signer in s.rows) {
      assert CallOk(s, c);
    }
    assert forall k :: 0 <= k < |t.roles| ==> Real(t, k) == Real(s, k);
    forall c | 0 <= c < |t.calls| && WillLook(t.calls[c]) ensures t.calls[c].crashed {
      assert c < |s.calls| && WillLook(s.calls[c]);
    }
  }

  lemma {:induction false} NobodyAliveStays(s: Race, moves: seq<Move>)
    requires RaceInv(s) && AllRealSigned(s) && s.status != Completed && !AliveToComplete(s)
    ensures Run(s, moves).status != Completed
    decreases |moves|
  {
    hide Step;
    if moves != [] {
      StepKeeps(s, moves[0]);
      NobodyAliveStep(s, moves[0]);
      NobodyAliveStays(Step(s, moves[0]), moves[1..]);
    }
  }

  /**
   When all real signers have signed and the request is not yet completed, it can still be completed
   if and only if some call that has yet to look is alive: nothing else ever looks again.
   */
  lemma CanStillCompleteIff(s: Race)
    requires RaceInv(s) && AllRealSigned(s) && s.status != Completed
    ensures (exists moves :: Run(s, moves).status == Completed) <==> AliveToComplete(s)
  {
    if AliveToComplete(s) {
      var c: nat :| c < |s.calls| && WillLook(s.calls[c]) && !s.calls[c].crashed;
      var go := Continue(c);
      if s.calls[c].stage == SawAllSigned {
        RunOne(s, go);
        assert Run(s, [go]).status == Completed;
      } else if s.calls[c].stage == Logged {
        RunThree(s, go, go, go);
        var t := Step(s, go);
        assert t.calls[c].stage == SawAllSigned;
        var u := Step(t, go);
        assert u.calls[c].stage == Closed && u.status == Completed;
        assert Run(s, [go, go, go]).status == Completed;
      } else {
        RunThree(s, go, go, go);
        var t := Step(s, go);
        assert t.calls[c].stage == Logged && AllRealSigned(t);
        var u := Step(t, go);
        assert u.calls[c].stage == SawAllSigned;
        assert Run(s, [go, go, go]).status == Completed;
      }
    } else {
      forall moves ensures Run(s, moves).status != Completed { NobodyAliveStays(s, moves); }
    }
  }

  // ------------------------------------------------------ the log under a race

  function CountCompleted(log: seq<Entry>): nat {
    if log == [] then 0 else CountCompleted(log[..|log| - 1]) + if log[|log| - 1] == RequestCompletedEntry then 1 else 0
  }

  const TWO_SIGNERS := Race([Signer, Signer], [Invited, Invited], [], AwaitingSignature, [], [], [])

  /** Both calls mark their signers before either looks, so both close the request. */
  const BOTH_LOOK_LATE: seq<Move> := [
    Begin(0), Begin(1), Continue(0), Continue(1), Continue(0), Continue(1),
    Continue(0), Continue(1), Continue(0), Continue(1), Continue(0), Continue(1),
    Continue(0), Continue(1), Continue(0), Continue(1)]

  lemma RunNext(s: Race, moves: seq<Move>, n: nat)
    requires Shaped(s) && n < |moves|
    ensures Run(s, moves[n..]) == Run(Step(s, moves[n]), moves[n + 1..])
  {
    assert moves[n..][1..] == moves[n + 1..];
  }

  function Both(stage: Stage): seq<SigningCall> {
    [SigningCall(0, stage, false), SigningCall(1, stage, false)]
  }

  /** Both calls take their next step, the first one first. */
  lemma BothStep(s: Race, n: nat, t: Race)
    requires Shaped(s) && |s.calls| == 2 && !s.calls[0].crashed && !s.calls[1].crashed
    requires n + 1 < |BOTH_LOOK_LATE| && BOTH_LOOK_LATE[n] == Continue(0) && BOTH_LOOK_LATE[n + 1] == Continue(1)
    requires Advance(s, 0).calls == [Advance(s, 0).calls[0], s.calls[1]] && Shaped(Advance(s, 0))
    requires t == Advance(Advance(s, 0), 1)
    ensures Shaped(t) && Run(s, BOTH_LOOK_LATE[n..]) == Run(t, BOTH_LOOK_LATE[n + 2..])
  {
    hide Advance;
    StepKeepsShape(Step(s, Continue(0)), Continue(1));
    RunNext(s, BOTH_LOOK_LATE, n);
    RunNext(Step(s, Continue(0)), BOTH_LOOK_LATE, n + 1);
  }

  const TWICE_LOGGED := Race(
    [Signer, Signer], [Signed, Signed], [0, 1], Completed,
    [SignedBy(0), SignedBy(1), RequestCompletedEntry, RequestCompletedEntry], [CompletionMail], Both(Finished))

  /**
   The mail's stable job id is what keeps it to one: the log has no such guard, and two calls that
   both look after both signers are marked record the completion twice while queuing one mail.
   */
  lemma CompletionLoggedTwiceMailedOnce()
    ensures AtRest(TWO_SIGNERS)
    ensures Run(TWO_SIGNERS, BOTH_LOOK_LATE) == TWICE_LOGGED
    ensures TWICE_LOGGED.status == Completed
    ensures CountCompleted(TWICE_LOGGED.log) == 2
    ensures multiset(TWICE_LOGGED.jobs)[CompletionMail] == 1
  {
    hide Run;
    hide CountCompleted;
    LateRun();
    TwoOfFour(TWICE_LOGGED.log);
    assert AtRest(TWO_SIGNERS) by { assert Real(TWO_SIGNERS, 0); }
  }

  lemma LateRun()
    ensures Run(TWO_SIGNERS, BOTH_LOOK_LATE) == TWICE_LOGGED
  {
    hide Run;
    hide Advance;
    hide Step;
    var s1 := TWO_SIGNERS.(calls := Both(Checked));
    BothBegin(s1);
    var s4 := s1.(rows := [0, 1], statuses := [Signed, Signed], log := [SignedBy(0), SignedBy(1)], calls := Both(Logged));
    BothSign(s1, s4);
    var s7 := s4.(status := Completed, log := s4.log + [RequestCompletedEntry, RequestCompletedEntry], calls := Both(CompletionLogged));
    BothClose(s4, s7);
    BothMail(s7);
  }

  lemma BothMail(s7: Race)
    requires Shaped(s7) && |s7.roles| == 2 && s7.calls == Both(CompletionLogged) && s7.jobs == []
    ensures Run(s7, BOTH_LOOK_LATE[14..]) == s7.(jobs := [CompletionMail], calls := Both(Finished))
  {
    var s8 := s7.(jobs := [CompletionMail], calls := Both(Finished));
    BothStep(s7, 14, s8);
    assert BOTH_LOOK_LATE[16..] == [];
    assert Run(s8, []) == s8;
  }

  lemma BothBegin(s1: Race)
    requires s1 == TWO_SIGNERS.(calls := Both(Checked))
    ensures Shaped(s1) && Run(TWO_SIGNERS, BOTH_LOOK_LATE) == Run(s1, BOTH_LOOK_LATE[2..])
  {
    hide Run;
    assert BOTH_LOOK_LATE[0..] == BOTH_LOOK_LATE;
    RunNext(TWO_SIGNERS, BOTH_LOOK_LATE, 0);
    RunNext(Step(TWO_SIGNERS, Begin(0)), BOTH_LOOK_LATE, 1);
    assert s1 == Step(Step(TWO_SIGNERS, Begin(0)), Begin(1));
  }

  lemma BothSign(s1: Race, s4: Race)
    requires s1 == TWO_SIGNERS.(calls := Both(Checked))
    requires s4 == s1.(rows := [0, 1], statuses := [Signed, Signed], log := [SignedBy(0), SignedBy(1)], calls := Both(Logged))
    ensures Shaped(s4) && Run(s1, BOTH_LOOK_LATE[2..]) == Run(s4, BOTH_LOOK_LATE[8..])
  {
    hide Run;
    var s2 := s1.(rows := [0, 1], calls := Both(Inserted));
    BothStep(s1, 2, s2);
    var s3 := s2.(statuses := [Signed, Signed], calls := Both(Marked));
    BothStep(s2, 4, s3);
    BothStep(s3, 6, s4);
  }

  lemma BothClose(s4: Race, s7: Race)
    requires Shaped(s4) && |s4.roles| == 2 && s4.calls == Both(Logged) && AllRealSigned(s4)
    requires s7 == s4.(status := Completed, log := s4.log + [RequestCompletedEntry, RequestCompletedEntry], calls := Both(CompletionLogged))
    ensures Shaped(s7) && Run(s4, BOTH_LOOK_LATE[8..]) == Run(s7, BOTH_LOOK_LATE[14..])
  {
    hide Run;
    var s5 := s4.(calls := Both(SawAllSigned));
    assert AllRealSigned(s4.(calls := [SigningCall(0, SawAllSigned, false), SigningCall(1, Logged, false)]));
    BothStep(s4, 8, s5);
    var s6 := s5.(status := Completed, calls := Both(Closed));
    BothStep(s5, 10, s6);
    BothStep(s6, 12, s7);
  }

  lemma TwoOfFour(log: seq<Entry>)
    requires log == [SignedBy(0), SignedBy(1), RequestCompletedEntry, RequestCompletedEntry]
    ensures CountCompleted(log) == 2
  {
    var a := [SignedBy(0)];
    var b := a + [SignedBy(1)];
    var c := b + [RequestCompletedEntry];
    assert log == c + [RequestCompletedEntry];
    assert CountCompleted(a) == 0 by { assert a[..0] == []; }
    assert CountCompleted(b) == 0 by { assert b[..1] == a; }
    assert CountCompleted(c) == 1 by { assert c[..2] == b; }
    assert log[..3] == c;
  }
}
