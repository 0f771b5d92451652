/**
 The signing workflow as pure steps over one request and everything stored beside it: signer
 rows, placed fields, the event log, signature rows, queued jobs and emitted webhooks.

 A signer's token is modelled by the position of its row: tokens are unguessable and unique, so a
 token names one row or none. Rows are kept in `orderIndex` order, the order in which they are
 created and read back.
 */
module SigningModel {
  import opened Prelude

  /** Milliseconds. */
  type Time = int

  const MAX_SIGNERS: nat := 50

  datatype Role = Signer | Approver | CarbonCopy

  datatype Mode = Sequential | Parallel

  datatype SignerStatus = Pending | Invited | Viewed | Signed | Declined | Rescinded | Lapsed

  datatype RequestStatus = Draft | AwaitingSignature | InProgress | Completed | Voided | Cancelled | Expired

  datatype AuthMethod = Unstated | InPerson | Certificate

  /** What a signer can submit for a field. `Data` is any JSON value that is not a string or null. */
  datatype Value = Undefined | Null | Text(text: string) | Data(json: string)

  datatype SignerRow = SignerRow(
    email: string,
    role: Role,
    orderIndex: nat,
    status: SignerStatus,
    reminderCount: nat,
    auth: AuthMethod)

  datatype TemplateField = TemplateField(name: string, attachment: bool, required: bool, assigneeOrder: nat)

  datatype RequestField = RequestField(
    owner: Option<nat>,
    name: string,
    required: bool,
    value: Value,
    filledAt: Option<Time>)

  datatype EventKind =
    | CreatedEvent | ViewedEvent | SignedEvent | DeclinedEvent | RemindedEvent
    | ExpiredEvent | CancelledEvent | HandedOverEvent

  /** The parts of an event's metadata that the service itself reads or promises something about. */
  datatype Metadata = Metadata(completed: bool, automatic: bool, inPerson: bool)

  const PLAIN: Metadata := Metadata(false, false, false)

  datatype Event = Event(kind: EventKind, signer: Option<nat>, at: Time, meta: Metadata)

  datatype Webhook =
    | RequestCreated | RequestSent | RequestViewed | RequestSigned | RequestCompleted
    | RequestDeclined | RequestCancelled | RequestExpired | RequestReminded

  datatype Job = InviteJob(signer: nat) | ReminderJob(signer: nat, attempt: nat) | CompletionMail

  /**
   One signing request with all rows that hang off it. `lost` holds the positions in the event log
   whose webhook cannot be queued; it is fixed by the environment and never written by a step.
   */
  datatype Request = Request(
    mode: Mode,
    status: RequestStatus,
    deadline: Option<Time>,
    signers: seq<SignerRow>,
    fields: seq<RequestField>,
    events: seq<Event>,
    signatures: seq<nat>,
    jobs: seq<Job>,
    webhooks: seq<Webhook>,
    lost: set<nat>)
  {
    predicate Active() {
      status == AwaitingSignature || status == InProgress
    }

    predicate PastDeadline(now: Time) {
      deadline.Some? && deadline.value < now
    }

    predicate Acting(i: nat)
      requires i < |signers|
    {
      signers[i].role != CarbonCopy
    }

    predicate Open(i: nat)
      requires i < |signers|
    {
      signers[i].status == Invited || signers[i].status == Viewed
    }
  }

  datatype Refusal =
    | SessionNotFound | SessionExpired | NotActive | RequestExpiredNow | CarbonCopyCannotAct
    | AlreadySigned | AlreadyDeclined | NotReady | NotYourTurn | HashMismatch
    | UnknownField | MissingField | CertificateRefused
    | CannotCancelCompleted | NotAwaiting | SignerNotOnRequest | NobodyWaiting | SignerIdRequired
    | DocumentNotFound | DocumentCompleted | NoSigners | TooManySigners | DuplicateEmails
    | DuplicateOrder | RuleTargetGiven | AssigneeOutOfRange | AttachmentField

  datatype Reply = Opened(allowsSigning: bool) | Accepted | Enqueued(count: nat) | HandedTo(signer: nat)

  datatype Outcome = Outcome(next: Request, reply: Result<Reply, Refusal>)

  // ---------------------------------------------------------------- events

  function WebhookEventFor(kind: EventKind, meta: Metadata): Option<Webhook> {
    match kind
    case CreatedEvent => Some(RequestCreated)
    case ViewedEvent => Some(RequestViewed)
    case SignedEvent => Some(if meta.completed then RequestCompleted else RequestSigned)
    case DeclinedEvent => Some(RequestDeclined)
    case CancelledEvent => Some(RequestCancelled)
    case ExpiredEvent => Some(RequestExpired)
    case RemindedEvent => Some(RequestReminded)
    case HandedOverEvent => None
  }

  function RecordEvent(r: Request, kind: EventKind, who: Option<nat>, now: Time, meta: Metadata): Request {
    var hook := WebhookEventFor(kind, meta);
    r.(events := r.events + [Event(kind, who, now, meta)],
       webhooks := if hook.Some? && |r.events| !in r.lost then r.webhooks + [hook.value] else r.webhooks)
  }

  function MarkExpired(r: Request, now: Time): Request {
    RecordEvent(r.(status := Expired), ExpiredEvent, None, now, PLAIN)
  }

  function SetStatus(r: Request, i: nat, status: SignerStatus): Request
    requires i < |r.signers|
  {
    r.(signers := r.signers[i := r.signers[i].(status := status)])
  }

  // ------------------------------------------------------------ whose turn

  predicate CanAct(r: Request, i: nat)
    requires i < |r.signers|
  {
    && r.Acting(i)
    && (r.mode == Parallel ||
        forall j :: 0 <= j < |r.signers| && r.signers[j].orderIndex < r.signers[i].orderIndex && r.Acting(j)
          ==> r.signers[j].status == Signed)
  }

  predicate CanSignNow(mode: Mode, row: SignerRow) {
    row.role == Approver || mode == Parallel || row.status == Invited || row.status == Viewed
  }

  // ---------------------------------------------------------- open a link

  function OpenLink(r: Request, i: nat, now: Time): Request
    requires i < |r.signers|
  {
    if r.signers[i].status == Viewed then r
    else RecordEvent(SetStatus(r, i, Viewed), ViewedEvent, Some(i), now, PLAIN)
  }

  predicate MaySignFromLink(r: Request, i: nat)
    requires i < |r.signers|
  {
    (r.signers[i].status == Pending || r.Open(i)) && CanAct(r, i)
  }

  function PublicSession(r: Request, token: nat, now: Time): Outcome {
    if token >= |r.signers| || !r.Active()
       || r.signers[token].status == Declined || r.signers[token].status == Lapsed then
      Outcome(r, Failure(SessionNotFound))
    else if r.PastDeadline(now) then
      Outcome(MarkExpired(r, now), Failure(SessionExpired))
    else if MaySignFromLink(r, token) then
      Outcome(OpenLink(r, token, now), Success(Opened(true)))
    else
      Outcome(r, Success(Opened(false)))
  }

  // --------------------------------------------------------- placed fields

  /** White space as `String.prototype.trim` sees it. */
  predicate IsSpace(c: char) {
    c in {'\t', '\n', '\U{000B}', '\U{000C}', '\r', ' ', '\U{00A0}', '\U{1680}', '\U{2028}', '\U{2029}',
          '\U{202F}', '\U{205F}', '\U{3000}', '\U{FEFF}'}
    || '\U{2000}' <= c <= '\U{200A}'
  }

  predicate IsEmpty(v: Value) {
    v.Undefined? || v.Null? || (v.Text? && forall k :: 0 <= k < |v.text| ==> IsSpace(v.text[k]))
  }

  /** Later entries for the same field win, as they do when a `Map` is built from pairs. */
  function Submitted(input: seq<(nat, Value)>): map<nat, Value> {
    if input == [] then map[]
    else Submitted(input[..|input| - 1])[input[|input| - 1].0 := input[|input| - 1].1]
  }

  predicate Requested(r: Request, i: nat, f: nat) {
    f < |r.fields| && r.fields[f].owner == Some(i)
  }

  function ValueOf(submitted: map<nat, Value>, f: nat): Value {
    if f in submitted then submitted[f] else Undefined
  }

  function ResolveFieldValues(r: Request, i: nat, input: seq<(nat, Value)>): Result<map<nat, Value>, Refusal> {
    var submitted := Submitted(input);
    if forall f :: 0 <= f < |r.fields| ==> !Requested(r, i, f) then Success(map[])
    else if exists f :: f in submitted && !Requested(r, i, f) then Failure(UnknownField)
    else if exists f :: 0 <= f < |r.fields| && Requested(r, i, f) && r.fields[f].required && IsEmpty(ValueOf(submitted, f))
    then Failure(MissingField)
    else Success(submitted)
  }

  function Captured(f: RequestField, v: Value, now: Time): RequestField {
    f.(value := if v == Undefined then f.value else v, filledAt := Some(now))
  }

  function CaptureFieldValues(fields: seq<RequestField>, values: map<nat, Value>, now: Time): (result: seq<RequestField>)
    ensures |result| == |fields|
  {
    seq(|fields|, k requires 0 <= k < |fields| =>
      if k in values then Captured(fields[k], values[k], now) else fields[k])
  }

  // ------------------------------------------------------------------ sign

  /** The certificate branch of a signing call: none asked for, issued, or refused with an error. */
  datatype CertificateUse = NoCertificate | Issued | Refused

  datatype SignInput = SignInput(hashMatches: bool, values: seq<(nat, Value)>, certificate: CertificateUse)

  predicate AllSigned(r: Request) {
    forall i :: 0 <= i < |r.signers| && r.Acting(i) ==> r.signers[i].status == Signed
  }

  /** The first row, in order, that is not a carbon copy and still pending; `|signers|` if there is none. */
  function FirstPending(r: Request, from: nat): (i: nat)
    requires from <= |r.signers|
    ensures from <= i <= |r.signers|
    ensures forall j :: from <= j < i ==> !(r.Acting(j) && r.signers[j].status == Pending)
    ensures i < |r.signers| ==> r.Acting(i) && r.signers[i].status == Pending
    decreases |r.signers| - from
  {
    if from == |r.signers| then from
    else if r.Acting(from) && r.signers[from].status == Pending then from
    else FirstPending(r, from + 1)
  }

  /** Adding a job whose id is already queued does nothing. */
  function EnqueueCompletionMail(jobs: seq<Job>): seq<Job> {
    if CompletionMail in jobs then jobs else jobs + [CompletionMail]
  }

  function Complete(r: Request, now: Time): Request {
    var done := RecordEvent(r.(status := Completed), SignedEvent, None, now, PLAIN.(completed := true));
    done.(jobs := EnqueueCompletionMail(done.jobs))
  }

  function AdvanceWorkflow(r: Request, now: Time): Request {
    if AllSigned(r) then Complete(r, now)
    else if r.mode == Sequential && FirstPending(r, 0) < |r.signers| then
      var next := FirstPending(r, 0);
      SetStatus(r, next, Invited).(jobs := r.jobs + [InviteJob(next)])
    else r
  }

  /** The rows a successful call writes before the workflow advances. */
  function Collect(r: Request, i: nat, values: map<nat, Value>, certificate: CertificateUse, now: Time): Request
    requires i < |r.signers|
  {
    var row := r.signers[i].(status := Signed,
                             auth := if certificate == Issued then Certificate else r.signers[i].auth);
    RecordEvent(r.(signatures := r.signatures + [i],
                   fields := CaptureFieldValues(r.fields, values, now),
                   signers := r.signers[i := row]),
                SignedEvent, Some(i), now, PLAIN.(inPerson := r.signers[i].auth == InPerson))
  }

  function SignCheck(r: Request, i: nat): Option<Refusal>
    requires i < |r.signers|
  {
    if r.signers[i].role == CarbonCopy then Some(CarbonCopyCannotAct)
    else if r.signers[i].status == Signed then Some(AlreadySigned)
    else if r.signers[i].status == Declined then Some(AlreadyDeclined)
    else if !r.Open(i) || !CanAct(r, i) then Some(NotYourTurn)
    else None
  }

  function Sign(r: Request, token: nat, input: SignInput, now: Time): Outcome {
    if token >= |r.signers| then Outcome(r, Failure(SessionNotFound))
    else if !r.Active() then Outcome(r, Failure(NotActive))
    else if r.PastDeadline(now) then Outcome(MarkExpired(r, now), Failure(RequestExpiredNow))
    else if SignCheck(r, token).Some? then Outcome(r, Failure(SignCheck(r, token).value))
    else if !input.hashMatches then Outcome(r, Failure(HashMismatch))
    else
      var values := ResolveFieldValues(r, token, input.values);
      if values.Failure? then Outcome(r, Failure(values.error))
      else if input.certificate == Refused then Outcome(r, Failure(CertificateRefused))
      else if token in r.signatures then Outcome(r, Failure(AlreadySigned))
      else Outcome(AdvanceWorkflow(Collect(r, token, values.value, input.certificate, now), now), Success(Accepted))
  }

  /** Every check of a signing call passes. */
  predicate SignAccepted(r: Request, token: nat, input: SignInput, now: Time) {
    && token < |r.signers| && r.Active() && !r.PastDeadline(now)
    && SignCheck(r, token) == None
    && input.hashMatches
    && ResolveFieldValues(r, token, input.values).Success?
    && input.certificate != Refused
    && token !in r.signatures
  }

  /** A signing call expires the request, leaves it alone, or collects the signature and advances. */
  lemma SignResults(r: Request, token: nat, input: SignInput, now: Time)
    ensures Sign(r, token, input, now).reply.Success? <==> SignAccepted(r, token, input, now)
    ensures Sign(r, token, input, now).next ==
      if SignAccepted(r, token, input, now) then
        AdvanceWorkflow(Collect(r, token, ResolveFieldValues(r, token, input.values).value, input.certificate, now), now)
      else if token < |r.signers| && r.Active() && r.PastDeadline(now) then MarkExpired(r, now)
      else r
  {
  }

  // --------------------------------------------------------------- decline

  function RecordDecline(r: Request, i: nat, now: Time): Request
    requires i < |r.signers|
  {
    var declined := RecordEvent(SetStatus(r, i, Declined), DeclinedEvent, Some(i), now, PLAIN);
    if r.mode == Sequential then declined.(status := InProgress) else declined
  }

  function Decline(r: Request, token: nat, now: Time): Outcome {
    if token >= |r.signers| then Outcome(r, Failure(SessionNotFound))
    else if !r.Active() then Outcome(r, Failure(NotActive))
    else if r.PastDeadline(now) then Outcome(MarkExpired(r, now), Failure(RequestExpiredNow))
    else if r.signers[token].role == CarbonCopy then Outcome(r, Failure(CarbonCopyCannotAct))
    else if r.signers[token].status == Signed then Outcome(r, Failure(AlreadySigned))
    else if r.signers[token].status == Declined then Outcome(r, Failure(AlreadyDeclined))
    else if !r.Open(token) then Outcome(r, Failure(NotReady))
    else if !CanAct(r, token) then Outcome(r, Failure(NotYourTurn))
    else Outcome(RecordDecline(r, token, now), Success(Accepted))
  }

  // ---------------------------------------------------------------- cancel

  function Cancel(r: Request, now: Time): Outcome {
    if r.status == Completed then Outcome(r, Failure(CannotCancelCompleted))
    else Outcome(RecordEvent(r.(status := Cancelled), CancelledEvent, None, now, PLAIN), Success(Accepted))
  }

  // ------------------------------------------------------------- reminders

  /** `cap` is `None` for a deliberate reminder, which no cap applies to. */
  datatype ReminderRule = ReminderRule(minInterval: nat, cap: Option<nat>, only: Option<nat>)

  predicate RemindedSince(events: seq<Event>, i: nat, since: Time) {
    exists k :: 0 <= k < |events| && events[k].kind == RemindedEvent && events[k].signer == Some(i) && events[k].at > since
  }

  predicate EligibleForReminder(r: Request, i: nat, rule: ReminderRule, now: Time)
    requires i < |r.signers|
  {
    && (rule.only == None || rule.only == Some(i))
    && r.Open(i)
    && !RemindedSince(r.events, i, now - rule.minInterval)
    && (rule.cap == None || r.signers[i].reminderCount < rule.cap.value)
    && CanAct(r, i)
  }

  /** The eligible rows among the first `n`, in row order. */
  function ReminderTargets(r: Request, rule: ReminderRule, now: Time, n: nat): seq<nat>
    requires n <= |r.signers|
  {
    if n == 0 then []
    else
      var before := ReminderTargets(r, rule, now, n - 1);
      if EligibleForReminder(r, n - 1, rule, now) then before + [n - 1] else before
  }

  function RemindOne(r: Request, i: nat, automatic: bool, now: Time): Request
    requires i < |r.signers|
  {
    var row := r.signers[i];
    RecordEvent(r.(jobs := r.jobs + [ReminderJob(i, row.reminderCount + 1)],
                   signers := r.signers[i := row.(reminderCount := row.reminderCount + 1)]),
                RemindedEvent, Some(i), now, PLAIN.(automatic := automatic))
  }

  function DispatchReminders(r: Request, targets: seq<nat>, automatic: bool, now: Time): (result: Request)
    requires forall k :: 0 <= k < |targets| ==> targets[k] < |r.signers|
    ensures |result.signers| == |r.signers|
  {
    if targets == [] then r
    else RemindOne(DispatchReminders(r, targets[..|targets| - 1], automatic, now), targets[|targets| - 1], automatic, now)
  }

  lemma TargetsInRange(r: Request, rule: ReminderRule, now: Time, n: nat)
    requires n <= |r.signers|
    ensures forall k :: 0 <= k < |ReminderTargets(r, rule, now, n)| ==> ReminderTargets(r, rule, now, n)[k] < n
  {
  }

  function SendReminders(r: Request, rule: ReminderRule, automatic: bool, now: Time): Request {
    TargetsInRange(r, rule, now, |r.signers|);
    DispatchReminders(r, ReminderTargets(r, rule, now, |r.signers|), automatic, now)
  }

  function Remind(r: Request, only: Option<nat>, now: Time): Outcome {
    if !r.Active() then Outcome(r, Failure(NotAwaiting))
    else
      var rule := ReminderRule(DAY_MS, None, only);
      Outcome(SendReminders(r, rule, false, now), Success(Enqueued(|ReminderTargets(r, rule, now, |r.signers|)|)))
  }

  datatype Config = Config(smtpHost: bool, afterDays: nat, maxReminders: nat)

  function SweepRule(cfg: Config): ReminderRule {
    ReminderRule(cfg.afterDays * DAY_MS, Some(cfg.maxReminders), None)
  }

  predicate SelectedBySweep(r: Request, now: Time) {
    && r.Active()
    && (r.deadline == None || r.deadline.value > now)
    && exists i :: 0 <= i < |r.signers| && r.Open(i)
  }

  function SweepRequest(cfg: Config, r: Request, now: Time): Request {
    if cfg.smtpHost && SelectedBySweep(r, now) then SendReminders(r, SweepRule(cfg), true, now) else r
  }

  function SweepCount(cfg: Config, r: Request, now: Time): nat {
    if cfg.smtpHost && SelectedBySweep(r, now) then |ReminderTargets(r, SweepRule(cfg), now, |r.signers|)| else 0
  }

  // ------------------------------------------------------------- in person

  /** Candidates that are invited or viewed, in row order, among the first `n` rows. */
  function Waiting(r: Request, n: nat): seq<nat>
    requires n <= |r.signers|
  {
    if n == 0 then []
    else if r.Acting(n - 1) && r.Open(n - 1) then Waiting(r, n - 1) + [n - 1]
    else Waiting(r, n - 1)
  }

  function ChooseSigner(r: Request, wanted: Option<nat>): (chosen: Result<nat, Refusal>)
    ensures chosen.Success? ==> chosen.value < |r.signers| && r.Acting(chosen.value)
  {
    WaitingInRange(r, |r.signers|);
    if wanted.Some? then
      if wanted.value < |r.signers| && r.Acting(wanted.value) then Success(wanted.value) else Failure(SignerNotOnRequest)
    else if |Waiting(r, |r.signers|)| == 1 then Success(Waiting(r, |r.signers|)[0])
    else if |Waiting(r, |r.signers|)| == 0 then Failure(NobodyWaiting)
    else Failure(SignerIdRequired)
  }

  lemma WaitingInRange(r: Request, n: nat)
    requires n <= |r.signers|
    ensures forall k :: 0 <= k < |Waiting(r, n)| ==>
      Waiting(r, n)[k] < n && r.Acting(Waiting(r, n)[k]) && r.Open(Waiting(r, n)[k])
    ensures forall i :: 0 <= i < n && r.Acting(i) && r.Open(i) ==> i in Waiting(r, n)
    ensures forall k, l :: 0 <= k < l < |Waiting(r, n)| ==> Waiting(r, n)[k] < Waiting(r, n)[l]
  {
  }

  function RecordHandover(r: Request, i: nat, now: Time): Request
    requires i < |r.signers|
  {
    RecordEvent(r.(signers := r.signers[i := r.signers[i].(auth := InPerson)]),
                HandedOverEvent, Some(i), now, PLAIN.(inPerson := true))
  }

  function InPersonSession(r: Request, wanted: Option<nat>, now: Time): Outcome {
    if !r.Active() then Outcome(r, Failure(NotActive))
    else if r.PastDeadline(now) then Outcome(MarkExpired(r, now), Failure(RequestExpiredNow))
    else
      var chosen := ChooseSigner(r, wanted);
      if chosen.Failure? then Outcome(r, Failure(chosen.error))
      else
        var i := chosen.value;
        if r.signers[i].status == Signed then Outcome(r, Failure(AlreadySigned))
        else if r.signers[i].status == Declined then Outcome(r, Failure(AlreadyDeclined))
        else if !CanSignNow(r.mode, r.signers[i]) || !CanAct(r, i) then Outcome(r, Failure(NotYourTurn))
        else Outcome(RecordHandover(r, i, now), Success(HandedTo(i)))
  }

  // ---------------------------------------------------------------- create

  datatype NewSigner = NewSigner(email: string, role: Option<Role>, orderIndex: Option<nat>)

  datatype NewRequest = NewRequest(
    documentFound: bool,
    documentCompleted: bool,
    mode: Option<Mode>,
    deadline: Option<Time>,
    signers: seq<NewSigner>,
    ruleTargetGiven: bool,
    sendInvites: bool)

  datatype OrderedSigner = OrderedSigner(email: string, role: Role, orderIndex: nat)

  function WithDefaults(signers: seq<NewSigner>): (result: seq<OrderedSigner>)
    ensures |result| == |signers|
  {
    seq(|signers|, k requires 0 <= k < |signers| =>
      OrderedSigner(signers[k].email,
                    if signers[k].role.Some? then signers[k].role.value else Signer,
                    if signers[k].orderIndex.Some? then signers[k].orderIndex.value else k))
  }

  function InsertByOrder(s: OrderedSigner, sorted: seq<OrderedSigner>): seq<OrderedSigner> {
    if sorted == [] then [s]
    else if sorted[|sorted| - 1].orderIndex <= s.orderIndex then sorted + [s]
    else InsertByOrder(s, sorted[..|sorted| - 1]) + [sorted[|sorted| - 1]]
  }

  /** A stable sort by order index, as `Array.prototype.sort` gives. */
  function SortByOrder(signers: seq<OrderedSigner>): seq<OrderedSigner> {
    if signers == [] then []
    else InsertByOrder(signers[|signers| - 1], SortByOrder(signers[..|signers| - 1]))
  }

  predicate DistinctEmails(signers: seq<OrderedSigner>) {
    forall i, j :: 0 <= i < j < |signers| ==> signers[i].email != signers[j].email
  }

  predicate DistinctOrder(signers: seq<OrderedSigner>) {
    forall i, j :: 0 <= i < j < |signers| ==> signers[i].orderIndex != signers[j].orderIndex
  }

  function LoadTemplatePlacements(fields: seq<TemplateField>, signerCount: nat): Result<seq<TemplateField>, Refusal> {
    if exists k :: 0 <= k < |fields| && fields[k].assigneeOrder >= signerCount then Failure(AssigneeOutOfRange)
    else if exists k :: 0 <= k < |fields| && fields[k].attachment then Failure(AttachmentField)
    else Success(fields)
  }

  /** The row whose order index is `order`: the lookup in the map from order index to row. */
  function SignerByOrder(signers: seq<SignerRow>, order: nat): Option<nat> {
    if signers == [] then None
    else if signers[|signers| - 1].orderIndex == order then Some(|signers| - 1)
    else SignerByOrder(signers[..|signers| - 1], order)
  }

  function PlacementsForRequest(placements: seq<TemplateField>, signers: seq<SignerRow>): (result: seq<RequestField>)
    ensures |result| == |placements|
  {
    seq(|placements|, k requires 0 <= k < |placements| =>
      RequestField(SignerByOrder(signers, placements[k].assigneeOrder),
                   placements[k].name, placements[k].required, Undefined, None))
  }

  function InitialRows(mode: Mode, ordered: seq<OrderedSigner>): (rows: seq<SignerRow>)
    ensures |rows| == |ordered|
  {
    seq(|ordered|, k requires 0 <= k < |ordered| =>
      SignerRow(ordered[k].email, ordered[k].role, ordered[k].orderIndex,
                if mode == Sequential && k > 0 then Pending else Invited, 0, Unstated))
  }

  function InviteJobs(rows: seq<SignerRow>): seq<Job> {
    if rows == [] then []
    else if rows[|rows| - 1].status == Invited then InviteJobs(rows[..|rows| - 1]) + [InviteJob(|rows| - 1)]
    else InviteJobs(rows[..|rows| - 1])
  }

  function NewRows(input: NewRequest, ordered: seq<OrderedSigner>, placements: seq<TemplateField>, lost: set<nat>): Request {
    var mode := if input.mode.Some? then input.mode.value else Sequential;
    var rows := InitialRows(mode, ordered);
    Request(mode, AwaitingSignature, input.deadline, rows, PlacementsForRequest(placements, rows), [], [], [], [], lost)
  }

  /** `sentLost` says whether the one webhook that is not tied to an event cannot be queued. */
  function CreateRequest(input: NewRequest, template: seq<TemplateField>, now: Time, lost: set<nat>, sentLost: bool): Result<Request, Refusal> {
    if !input.documentFound then Failure(DocumentNotFound)
    else if input.documentCompleted then Failure(DocumentCompleted)
    else if |input.signers| == 0 then Failure(NoSigners)
    else if |input.signers| > MAX_SIGNERS then Failure(TooManySigners)
    else
      var ordered := SortByOrder(WithDefaults(input.signers));
      if !DistinctEmails(ordered) then Failure(DuplicateEmails)
      else if !DistinctOrder(ordered) then Failure(DuplicateOrder)
      else if input.ruleTargetGiven then Failure(RuleTargetGiven)
      else
        var placements := LoadTemplatePlacements(template, |ordered|);
        if placements.Failure? then Failure(placements.error)
        else
          var created := RecordEvent(NewRows(input, ordered, placements.value, lost), CreatedEvent, None, now, PLAIN);
          if !input.sendInvites then Success(created)
          else Success(created.(jobs := InviteJobs(created.signers),
                                webhooks := if sentLost then created.webhooks else created.webhooks + [RequestSent]))
  }
}
