/** POST requests made idempotent by an Idempotency-Key, and asynchronous jobs dispatched on commit
    (`apps/platform/idempotency.py`, `async_job_create` of `apps/platform/views.py`). Requests run
    concurrently; what a transaction wrote disappears if it rolls back. */
module Idempotency {
  import opened Basics
  import opened CanonicalJson

  datatype Request = Request(org: string, verb: string, path: string, header: string)

  /** The unique key of a record: the organization and the UUID the header spells. */
  datatype Key = Key(org: string, uuid: string)

  /** What a request gets before the table is looked at. */
  datatype Admission = PassThrough | KeyRequired | KeyInvalid | Keyed(key: Key, text: string)

  function Admit(parseUuid: string -> Option<string>, request: Request): Admission {
    var text := Strip(request.header);
    if request.verb != "POST" then PassThrough
    else if text == "" then KeyRequired
    else if parseUuid(text).None? then KeyInvalid
    else Keyed(Key(request.org, parseUuid(text).value), text)
  }

  datatype Record = Record(verb: string, path: string, status: int, body: Json)

  /** `_json_response_body`. */
  function JsonBody(json: Json): Json {
    if json.Obj? then json else Obj([Member("data", json)])
  }

  predicate SameRequest(record: Record, request: Request) {
    record.verb == request.verb && record.path == request.path
  }

  /** What a client is told: an error, the stored response, or the view's own response. */
  datatype Reply = MissingKey | InvalidKey | Conflict | Stored(status: int, body: Json) | Own(status: int, json: Json)

  /** The reply when the key already has a record. */
  function Replay(record: Record, request: Request): Reply {
    if SameRequest(record, request) then Stored(record.status, record.body) else Conflict
  }

  /** An asynchronous job is keyed by the header's text, not by the UUID it spells. */
  datatype JobKey = JobKey(org: string, text: string)

  predicate JobExists(jobs: map<nat, JobKey>, jk: JobKey) {
    exists id :: id in jobs && jobs[id] == jk
  }

  /** How a run of the view ends. A view that may create a job names the id it would draw. */
  datatype Outcome = Responded(status: int, json: Json, job: Option<nat>) | ViewRaised

  /** `async_job_create` finds a job for its key or creates one. */
  function NewJob(jobs: map<nat, JobKey>, jk: JobKey, job: Option<nat>): Option<nat> {
    if job.Some? && !JobExists(jobs, jk) then job else None
  }

  /** A POST whose header spells a UUID. */
  predicate KeyedBy(parseUuid: string -> Option<string>, request: Request) {
    request.verb == "POST" && Strip(request.header) != "" && parseUuid(Strip(request.header)).Some?
  }

  // ------------------------------------------------------------ one at a time

  class IdempotentViews {
    const parseUuid: string -> Option<string>
    var records: map<Key, Record>
    var jobs: map<nat, JobKey>
    var dispatched: seq<nat>

    constructor (parseUuid: string -> Option<string>)
      ensures this.parseUuid == parseUuid && records == map[] && jobs == map[] && dispatched == []
    {
      this.parseUuid := parseUuid;
      records, jobs, dispatched := map[], map[], [];
    }

    /** The wrapper of `require_idempotency_key` around one view, run alone; None is a view that
        raised, or one that is not a POST and is left to itself. */
    method Handle(request: Request, outcome: Outcome) returns (reply: Option<Reply>)
      requires outcome.Responded? && outcome.job.Some? ==> outcome.job.value !in jobs
      modifies this
      ensures reply == Handled(Admit(parseUuid, request), old(records), request, outcome).1
      ensures records == Handled(Admit(parseUuid, request), old(records), request, outcome).0
      ensures var job := JobOf(Admit(parseUuid, request), old(records), old(jobs), request, outcome);
              && jobs == WithJob(old(jobs), job, JobKey(request.org, Strip(request.header)))
              && dispatched == old(dispatched) + (if job.Some? then [job.value] else [])
      ensures AnsweredAs(parseUuid, old(records), records, request, outcome, reply)
      ensures JobsAs(old(jobs), jobs, old(dispatched), dispatched, request, outcome, reply)
    {
      AnswerIs(parseUuid, records, request, outcome);
      JobsIs(parseUuid, records, jobs, dispatched, request, outcome);
      match Admit(parseUuid, request) {
        case PassThrough => return None;
        case KeyRequired => return Some(MissingKey);
        case KeyInvalid => return Some(InvalidKey);
        case Keyed(key, text) =>
          if key in records {
            if records[key].verb != request.verb || records[key].path != request.path {
              return Some(Conflict);
            }
            return Some(Stored(records[key].status, records[key].body));
          }
          if outcome.ViewRaised? {
            return None;
          }
          var job := NewJob(jobs, JobKey(request.org, text), outcome.job);
          if job.Some? {
            jobs := jobs[job.value := JobKey(request.org, text)];
          }
          records := records[key := Record(request.verb, request.path, outcome.status, JsonBody(outcome.json))];
          if job.Some? {
            dispatched := dispatched + [job.value];
          }
          return Some(Own(outcome.status, outcome.json));
      }
    }
  }

  /** What a request is told and what it leaves in the records: only POSTs are looked at, a blank key and
      one that is no UUID are refused, a known key replays its record to the same path, and a first
      response is stored, wrapped if it is no object. */
  ghost predicate AnsweredAs(parseUuid: string -> Option<string>, before: map<Key, Record>, after: map<Key, Record>,
                             request: Request, outcome: Outcome, reply: Option<Reply>) {
    var text := Strip(request.header);
    if request.verb != "POST" then reply.None? && after == before
    else if text == "" then reply == Some(MissingKey) && after == before
    else if parseUuid(text).None? then reply == Some(InvalidKey) && after == before
    else RecordedAs(Key(request.org, parseUuid(text).value), before, after, request.path, outcome, reply)
  }

  ghost predicate RecordedAs(key: Key, before: map<Key, Record>, after: map<Key, Record>, path: string, outcome: Outcome,
                             reply: Option<Reply>) {
    if key in before then
      && after == before
      && reply == Some(if before[key].verb == "POST" && before[key].path == path
                       then Stored(before[key].status, before[key].body) else Conflict)
    else if outcome.ViewRaised? then reply.None? && after == before
    else
      && reply == Some(Own(outcome.status, outcome.json))
      && after == before[key := Record("POST", path, outcome.status,
                                       if outcome.json.Obj? then outcome.json else Obj([Member("data", outcome.json)]))]
  }

  /** The job of a first response is stored under the organization and the header's text and dispatched,
      unless there is one already; nobody else makes or dispatches a job. */
  ghost predicate JobsAs(before: map<nat, JobKey>, after: map<nat, JobKey>, sent: seq<nat>, sent': seq<nat>,
                         request: Request, outcome: Outcome, reply: Option<Reply>) {
    var jk := JobKey(request.org, Strip(request.header));
    if reply.Some? && reply.value.Own? && outcome.Responded? && outcome.job.Some?
       && forall i :: i in before ==> before[i] != jk then
      after == before[outcome.job.value := jk] && sent' == sent + [outcome.job.value]
    else after == before && sent' == sent
  }

  lemma AnswerIs(parseUuid: string -> Option<string>, records: map<Key, Record>, request: Request, outcome: Outcome)
    ensures var (records', reply) := Handled(Admit(parseUuid, request), records, request, outcome);
            AnsweredAs(parseUuid, records, records', request, outcome, reply)
  {
    if KeyedBy(parseUuid, request) {
      RecordIs(Key(request.org, parseUuid(Strip(request.header)).value), Strip(request.header), records, request, outcome);
    }
  }

  lemma RecordIs(key: Key, text: string, records: map<Key, Record>, request: Request, outcome: Outcome)
    requires request.verb == "POST"
    ensures var (records', reply) := Handled(Keyed(key, text), records, request, outcome);
            RecordedAs(key, records, records', request.path, outcome, reply)
  {
  }

  lemma JobsIs(parseUuid: string -> Option<string>, records: map<Key, Record>, jobs: map<nat, JobKey>, sent: seq<nat>,
               request: Request, outcome: Outcome)
    ensures var admission := Admit(parseUuid, request);
            var job := JobOf(admission, records, jobs, request, outcome);
            JobsAs(jobs, WithJob(jobs, job, JobKey(request.org, Strip(request.header))), sent,
                   sent + (if job.Some? then [job.value] else []), request, outcome,
                   Handled(admission, records, request, outcome).1)
  {
  }

  /** Sending a request again replays the first response: its status and its body, wrapped if it was no
      object; with another path it is refused. */
  lemma SecondCall(parseUuid: string -> Option<string>, records: map<Key, Record>, a: Request, b: Request, first: Outcome,
                   second: Outcome)
    requires KeyedBy(parseUuid, a) && KeyedBy(parseUuid, b) && a.org == b.org
    requires parseUuid(Strip(a.header)) == parseUuid(Strip(b.header))
    requires Key(a.org, parseUuid(Strip(a.header)).value) !in records && first.Responded?
    ensures var (records', told) := Handled(Admit(parseUuid, a), records, a, first);
            var (records'', again) := Handled(Admit(parseUuid, b), records', b, second);
            && told == Some(Own(first.status, first.json)) && records'' == records'
            && again == Some(if a.path != b.path then Conflict
                             else Stored(first.status, if first.json.Obj? then first.json else Obj([Member("data", first.json)])))
  {
  }

  /** The records and the reply of one request run alone. */
  function Handled(admission: Admission, records: map<Key, Record>, request: Request, outcome: Outcome):
    (map<Key, Record>, Option<Reply>)
  {
    match admission
    case PassThrough => (records, None)
    case KeyRequired => (records, Some(MissingKey))
    case KeyInvalid => (records, Some(InvalidKey))
    case Keyed(key, _) =>
      if key in records then (records, Some(Replay(records[key], request)))
      else if outcome.ViewRaised? then (records, None)
      else (records[key := RecordAfter(request, outcome)], Some(Own(outcome.status, outcome.json)))
  }

  function RecordAfter(request: Request, outcome: Outcome): Record
    requires outcome.Responded?
  {
    Record(request.verb, request.path, outcome.status, JsonBody(outcome.json))
  }

  /** The record key a job belongs to. */
  function KeyOfJob(parseUuid: string -> Option<string>, jk: JobKey): Option<Key> {
    if parseUuid(jk.text).Some? then Some(Key(jk.org, parseUuid(jk.text).value)) else None
  }

  /** How requests are admitted and which record a job belongs to. */
  datatype Rules = Rules(admit: Request -> Admission, keyOf: JobKey -> Option<Key>)

  function RulesOf(parseUuid: string -> Option<string>): Rules {
    Rules(request => Admit(parseUuid, request), jk => KeyOfJob(parseUuid, jk))
  }

  /** A job made for a request belongs to the request's own record. */
  ghost predicate Coherent(rules: Rules) {
    forall r :: rules.admit(r).Keyed? ==> rules.keyOf(JobKey(r.org, rules.admit(r).text)) == Some(rules.admit(r).key)
  }

  /** The job one request run alone creates and dispatches. */
  function JobOf(admission: Admission, records: map<Key, Record>, jobs: map<nat, JobKey>, request: Request, outcome: Outcome):
    Option<nat>
  {
    if admission.Keyed? && admission.key !in records && outcome.Responded?
    then NewJob(jobs, JobKey(request.org, admission.text), outcome.job)
    else None
  }

  function WithJob(jobs: map<nat, JobKey>, job: Option<nat>, jk: JobKey): map<nat, JobKey> {
    if job.Some? then jobs[job.value := jk] else jobs
  }

  // -------------------------------------------------------------- concurrency

  datatype Phase = Waiting | Holding | Ready(status: int, json: Json, job: Option<nat>)

  datatype Txn = Txn(request: Request, key: Key, text: string, phase: Phase)

  datatype Said = Said(request: Request, reply: Reply)

  /** `runs` counts the committed runs of the view; `callbacks` are the on-commit actions of
      committed transactions that have not run yet. */
  datatype State = State(records: map<Key, Record>, jobs: map<nat, JobKey>, txns: map<nat, Txn>, runs: multiset<Key>,
                         callbacks: set<nat>, dispatched: multiset<nat>, said: set<Said>)

  datatype Step =
    | Arrive(t: nat, request: Request)
    | Claim(t: nat)
    | RunView(t: nat, outcome: Outcome)
    | Commit(t: nat)
    | Rollback(t: nat)
    | Dispatch(job: nat)
    | Lose(job: nat)

  predicate Holds(txn: Txn, key: Key) {
    txn.key == key && !txn.phase.Waiting?
  }

  /** Another transaction inserted the key's record and has not ended: the insert waits for it. */
  predicate Held(txns: map<nat, Txn>, key: Key) {
    exists u :: u in txns && Holds(txns[u], key)
  }

  /** A fresh job id has not been used by anyone. */
  predicate FreshJob(s: State, job: nat) {
    && job !in s.jobs && job !in s.callbacks && job !in s.dispatched
    && forall u :: u in s.txns && s.txns[u].phase.Ready? ==> s.txns[u].phase.job != Some(job)
  }

  function AfterArrive(rules: Rules, s: State, t: nat, request: Request): State {
    match rules.admit(request)
    case PassThrough => s
    case KeyRequired => s.(said := s.said + {Said(request, MissingKey)})
    case KeyInvalid => s.(said := s.said + {Said(request, InvalidKey)})
    case Keyed(key, text) => s.(txns := s.txns[t := Txn(request, key, text, Waiting)])
  }

  /** `get_or_create` of the record. */
  function AfterClaim(s: State, t: nat): State
    requires t in s.txns
  {
    var txn := s.txns[t];
    if txn.key in s.records then
      s.(txns := s.txns - {t}, said := s.said + {Said(txn.request, Replay(s.records[txn.key], txn.request))})
    else if Held(s.txns, txn.key) then s
    else s.(txns := s.txns[t := txn.(phase := Holding)])
  }

  function AfterView(s: State, t: nat, outcome: Outcome): State
    requires t in s.txns
  {
    var txn := s.txns[t];
    if outcome.ViewRaised? then s.(txns := s.txns - {t})
    else
      var job := NewJob(s.jobs, JobKey(txn.request.org, txn.text), outcome.job);
      s.(txns := s.txns[t := txn.(phase := Ready(outcome.status, outcome.json, job))])
  }

  function RecordOf(txn: Txn): Record
    requires txn.phase.Ready?
  {
    Record(txn.request.verb, txn.request.path, txn.phase.status, JsonBody(txn.phase.json))
  }

  function AfterCommit(s: State, t: nat): State
    requires t in s.txns && s.txns[t].phase.Ready?
  {
    var txn := s.txns[t];
    var job := txn.phase.job;
    State(s.records[txn.key := RecordOf(txn)],
          WithJob(s.jobs, job, JobKey(txn.request.org, txn.text)),
          s.txns - {t}, s.runs + multiset{txn.key},
          if job.Some? then s.callbacks + {job.value} else s.callbacks, s.dispatched,
          s.said + {Said(txn.request, Own(txn.phase.status, txn.phase.json))})
  }

  function Next(rules: Rules, s: State, step: Step): State {
    match step
    case Arrive(t, request) => if t in s.txns then s else AfterArrive(rules, s, t, request)
    case Claim(t) => if t in s.txns && s.txns[t].phase.Waiting? then AfterClaim(s, t) else s
    case RunView(t, outcome) =>
      if t in s.txns && s.txns[t].phase.Holding?
         && (outcome.Responded? && outcome.job.Some? ==> FreshJob(s, outcome.job.value)) then AfterView(s, t, outcome) else s
    case Commit(t) => if t in s.txns && s.txns[t].phase.Ready? then AfterCommit(s, t) else s
    case Rollback(t) => s.(txns := s.txns - {t})
    case Dispatch(job) =>
      if job in s.callbacks then s.(callbacks := s.callbacks - {job}, dispatched := s.dispatched + multiset{job}) else s
    case Lose(job) => s.(callbacks := s.callbacks - {job})
  }

  function Run(rules: Rules, s: State, steps: seq<Step>): State
    decreases |steps|
  {
    if steps == [] then s else Run(rules, Next(rules, s, steps[0]), steps[1..])
  }

  const EMPTY := State(map[], map[], map[], multiset{}, {}, multiset{}, {})

  // ------------------------------------------------------------- invariant

  ghost predicate TxnsOk(rules: Rules, s: State) {
    && (forall t :: t in s.txns ==> rules.admit(s.txns[t].request) == Keyed(s.txns[t].key, s.txns[t].text))
    && (forall t :: t in s.txns && !s.txns[t].phase.Waiting? ==> s.txns[t].key !in s.records)
    && (forall t, u :: t in s.txns && u in s.txns && t != u && s.txns[t].key == s.txns[u].key ==>
          s.txns[t].phase.Waiting? || s.txns[u].phase.Waiting?)
  }

  /** A committed run of the view left exactly one record, and nothing else did. */
  ghost predicate RunsOk(s: State) {
    forall key :: s.runs[key] == if key in s.records then 1 else 0
  }

  /** What a client was told about a keyed request agrees with the key's record. */
  ghost predicate Agrees(rules: Rules, records: map<Key, Record>, said: Said) {
    match rules.admit(said.request)
    case PassThrough => false
    case KeyRequired => said.reply == MissingKey
    case KeyInvalid => said.reply == InvalidKey
    case Keyed(key, _) =>
      && key in records
      && match said.reply
         case Stored(status, body) =>
           SameRequest(records[key], said.request) && records[key].status == status && records[key].body == body
         case Own(status, json) =>
           SameRequest(records[key], said.request) && records[key].status == status && records[key].body == JsonBody(json)
         case Conflict => !SameRequest(records[key], said.request)
         case _ => false
  }

  ghost predicate SaidOk(rules: Rules, s: State) {
    forall r :: r in s.said ==> Agrees(rules, s.records, r)
  }

  ghost predicate JobsOk(rules: Rules, s: State) {
    && (forall i :: i in s.jobs ==> rules.keyOf(s.jobs[i]).Some? && rules.keyOf(s.jobs[i]).value in s.records)
    && (forall i, j :: i in s.jobs && j in s.jobs && rules.keyOf(s.jobs[i]) == rules.keyOf(s.jobs[j]) ==> i == j)
  }

  /** Dispatches belong to committed jobs, one each; the jobs of open transactions are new. */
  ghost predicate DispatchOk(s: State) {
    && (forall i :: s.dispatched[i] + (if i in s.callbacks then 1 else 0) <= if i in s.jobs then 1 else 0)
    && (forall t :: t in s.txns && WillCreate(s.txns[t]) ==> s.txns[t].phase.job.value !in s.jobs)
    && (forall t, u :: t in s.txns && u in s.txns && t != u && WillCreate(s.txns[t]) && WillCreate(s.txns[u]) ==>
          s.txns[t].phase.job != s.txns[u].phase.job)
  }

  predicate WillCreate(txn: Txn) {
    txn.phase.Ready? && txn.phase.job.Some?
  }

  ghost predicate Inv(rules: Rules, s: State) {
    TxnsOk(rules, s) && RunsOk(s) && SaidOk(rules, s) && JobsOk(rules, s) && DispatchOk(s)
  }

  // ------------------------------------------------------------------ steps

  lemma ArriveKeeps(rules: Rules, s: State, t: nat, request: Request)
    requires Inv(rules, s) && t !in s.txns
    ensures Inv(rules, AfterArrive(rules, s, t, request))
  {
    match rules.admit(request) {
      case PassThrough =>
      case KeyRequired => SaidMore(rules, s, Said(request, MissingKey));
      case KeyInvalid => SaidMore(rules, s, Said(request, InvalidKey));
      case Keyed(key, text) => OneMoreTxn(rules, s, t, Txn(request, key, text, Waiting));
    }
  }

  lemma SaidMore(rules: Rules, s: State, r: Said)
    requires Inv(rules, s) && Agrees(rules, s.records, r)
    ensures Inv(rules, s.(said := s.said + {r}))
  {
  }

  lemma OneMoreTxn(rules: Rules, s: State, t: nat, txn: Txn)
    requires Inv(rules, s) && t !in s.txns && txn.phase.Waiting? && rules.admit(txn.request) == Keyed(txn.key, txn.text)
    ensures Inv(rules, s.(txns := s.txns[t := txn]))
  {
    OneMoreWaits(s, t, txn);
    OneMoreAdmitted(rules, s, t, txn);
  }

  lemma OneMoreWaits(s: State, t: nat, txn: Txn)
    requires DispatchOk(s) && t !in s.txns && txn.phase.Waiting?
    ensures DispatchOk(s.(txns := s.txns[t := txn]))
  {
  }

  lemma OneMoreAdmitted(rules: Rules, s: State, t: nat, txn: Txn)
    requires TxnsOk(rules, s) && t !in s.txns && txn.phase.Waiting? && rules.admit(txn.request) == Keyed(txn.key, txn.text)
    ensures TxnsOk(rules, s.(txns := s.txns[t := txn]))
  {
  }

  lemma ClaimKeeps(rules: Rules, s: State, t: nat)
    requires Coherent(rules) && Inv(rules, s) && t in s.txns && s.txns[t].phase.Waiting?
    ensures Inv(rules, AfterClaim(s, t))
  {
    var txn := s.txns[t];
    if txn.key !in s.records && !Held(s.txns, txn.key) {
      forall u | u in s.txns && s.txns[u].key == txn.key ensures s.txns[u].phase.Waiting? {
        assert !Holds(s.txns[u], txn.key);
      }
    }
  }

  lemma ViewKeeps(rules: Rules, s: State, t: nat, outcome: Outcome)
    requires Coherent(rules) && Inv(rules, s) && t in s.txns && s.txns[t].phase.Holding?
    requires outcome.Responded? && outcome.job.Some? ==> FreshJob(s, outcome.job.value)
    ensures Inv(rules, AfterView(s, t, outcome))
  {
    if outcome.ViewRaised? {
      OneLessTxn(rules, s, t);
    } else {
      var job := NewJob(s.jobs, JobKey(s.txns[t].request.org, s.txns[t].text), outcome.job);
      ReadyTxns(rules, s, t, s.txns[t].(phase := Ready(outcome.status, outcome.json, job)));
      ReadyDispatch(s, t, s.txns[t].(phase := Ready(outcome.status, outcome.json, job)));
    }
  }

  lemma OneLessTxn(rules: Rules, s: State, t: nat)
    requires Inv(rules, s)
    ensures Inv(rules, s.(txns := s.txns - {t}))
  {
  }

  lemma ReadyTxns(rules: Rules, s: State, t: nat, txn: Txn)
    requires TxnsOk(rules, s) && t in s.txns && s.txns[t].phase.Holding? && txn == s.txns[t].(phase := txn.phase)
    ensures TxnsOk(rules, s.(txns := s.txns[t := txn]))
  {
  }

  lemma ReadyDispatch(s: State, t: nat, txn: Txn)
    requires DispatchOk(s) && t in s.txns && (WillCreate(txn) ==> FreshJob(s, txn.phase.job.value))
    ensures DispatchOk(s.(txns := s.txns[t := txn]))
  {
  }

  /** The committed record is new, so nothing said before changes its meaning. */
  lemma CommitSaid(rules: Rules, s: State, t: nat)
    requires TxnsOk(rules, s) && SaidOk(rules, s) && t in s.txns && s.txns[t].phase.Ready?
    ensures SaidOk(rules, AfterCommit(s, t))
  {
    var s' := AfterCommit(s, t);
    forall r | r in s'.said ensures Agrees(rules, s'.records, r) {
      if r in s.said {
        assert Agrees(rules, s.records, r);
      }
    }
  }

  lemma CommitJobs(rules: Rules, s: State, t: nat)
    requires Coherent(rules) && TxnsOk(rules, s) && JobsOk(rules, s) && t in s.txns && s.txns[t].phase.Ready?
    ensures JobsOk(rules, AfterCommit(s, t))
  {
    var txn := s.txns[t];
    assert rules.admit(txn.request).Keyed?;
    assert rules.keyOf(JobKey(txn.request.org, txn.text)) == Some(txn.key);
  }

  lemma CommitDispatch(s: State, t: nat)
    requires DispatchOk(s) && t in s.txns && s.txns[t].phase.Ready?
    ensures DispatchOk(AfterCommit(s, t))
  {
  }

  lemma CommitKeeps(rules: Rules, s: State, t: nat)
    requires Coherent(rules) && Inv(rules, s) && t in s.txns && s.txns[t].phase.Ready?
    ensures Inv(rules, AfterCommit(s, t))
  {
    CommitSaid(rules, s, t);
    CommitJobs(rules, s, t);
    CommitDispatch(s, t);
  }

  lemma NextKeeps(rules: Rules, s: State, step: Step)
    requires Coherent(rules) && Inv(rules, s)
    ensures Inv(rules, Next(rules, s, step))
  {
    match step {
      case Arrive(t, request) => if t !in s.txns { ArriveKeeps(rules, s, t, request); }
      case Claim(t) => if t in s.txns && s.txns[t].phase.Waiting? { ClaimKeeps(rules, s, t); }
      case RunView(t, outcome) => if Next(rules, s, step) != s { ViewKeeps(rules, s, t, outcome); }
      case Commit(t) => if t in s.txns && s.txns[t].phase.Ready? { CommitKeeps(rules, s, t); }
      case Rollback(t) => OneLessTxn(rules, s, t);
      case Dispatch(job) => CallbackKeeps(s, job);
      case Lose(job) => CallbackKeeps(s, job);
    }
  }

  /** Carrying out or losing a dispatch. */
  lemma CallbackKeeps(s: State, job: nat)
    requires DispatchOk(s)
    ensures job in s.callbacks ==>
              DispatchOk(s.(callbacks := s.callbacks - {job}, dispatched := s.dispatched + multiset{job}))
    ensures DispatchOk(s.(callbacks := s.callbacks - {job}))
  {
  }

  /** Records are never rewritten, and what was said or dispatched stays so. */
  ghost predicate RecordsStay(s: State, s': State) {
    && (forall key :: key in s.records ==> key in s'.records && s'.records[key] == s.records[key])
    && (forall id :: id in s.jobs ==> id in s'.jobs && s'.jobs[id] == s.jobs[id])
    && s.said <= s'.said && s.dispatched <= s'.dispatched && s.runs <= s'.runs
  }

  lemma NextStays(rules: Rules, s: State, step: Step)
    requires Inv(rules, s)
    ensures RecordsStay(s, Next(rules, s, step))
  {
    if step.Commit? {
      if step.t in s.txns && s.txns[step.t].phase.Ready? {
        CommitStays(rules, s, step.t);
      }
    } else {
      OthersStay(rules, s, step);
    }
  }

  lemma CommitStays(rules: Rules, s: State, t: nat)
    requires TxnsOk(rules, s) && DispatchOk(s) && t in s.txns && s.txns[t].phase.Ready?
    ensures RecordsStay(s, AfterCommit(s, t))
  {
  }

  lemma OthersStay(rules: Rules, s: State, step: Step)
    requires !step.Commit?
    ensures RecordsStay(s, Next(rules, s, step))
  {
  }

  lemma {:induction false} RunKeeps(rules: Rules, s: State, steps: seq<Step>)
    requires Coherent(rules) && Inv(rules, s)
    ensures Inv(rules, Run(rules, s, steps)) && RecordsStay(s, Run(rules, s, steps))
    decreases |steps|
  {
    if steps != [] {
      NextKeeps(rules, s, steps[0]);
      NextStays(rules, s, steps[0]);
      RunKeeps(rules, Next(rules, s, steps[0]), steps[1..]);
    }
  }

  /** A request that runs alone does to the records and the jobs, is told, and leaves for dispatch what
      the wrapper does, says and dispatches. */
  lemma {:induction false} AloneIsHandled(rules: Rules, s: State, t: nat, request: Request, outcome: Outcome)
    requires s.txns == map[]
    requires outcome.Responded? && outcome.job.Some? ==>
               outcome.job.value !in s.jobs && outcome.job.value !in s.callbacks && outcome.job.value !in s.dispatched
    ensures var s' := Run(rules, s, [Arrive(t, request), Claim(t), RunView(t, outcome), Commit(t)]);
            AsHandled(rules.admit(request), s, s', request, outcome)
  {
    FourSteps(rules, s, [Arrive(t, request), Claim(t), RunView(t, outcome), Commit(t)]);
    if rules.admit(request).Keyed? {
      AloneKeyed(rules, s, t, request, outcome);
    } else {
      AloneUnkeyed(rules, s, t, request, outcome);
    }
  }

  ghost predicate AsHandled(admission: Admission, s: State, s': State, request: Request, outcome: Outcome) {
    var (records, reply) := Handled(admission, s.records, request, outcome);
    && s'.txns == map[] && s'.records == records
    && s'.said == s.said + (if reply.Some? then {Said(request, reply.value)} else {})
    && JobLeft(s, s', JobOf(admission, s.records, s.jobs, request, outcome),
               JobKey(request.org, if admission.Keyed? then admission.text else ""))
  }

  lemma AloneUnkeyed(rules: Rules, s: State, t: nat, request: Request, outcome: Outcome)
    requires s.txns == map[] && !rules.admit(request).Keyed?
    ensures var s2 := Next(rules, Next(rules, s, Arrive(t, request)), Claim(t));
            var s4 := Next(rules, Next(rules, s2, RunView(t, outcome)), Commit(t));
            AsHandled(rules.admit(request), s, s4, request, outcome)
  {
    var s1 := Next(rules, s, Arrive(t, request));
    assert s1.txns == map[] && Next(rules, s1, Claim(t)) == s1 && Next(rules, s1, RunView(t, outcome)) == s1;
    assert Next(rules, s1, Commit(t)) == s1;
  }

  /** The job is stored and its dispatch is pending; carrying the dispatch out sends it once. */
  ghost predicate JobLeft(s: State, s': State, job: Option<nat>, jk: JobKey) {
    && s'.jobs == WithJob(s.jobs, job, jk) && s'.dispatched == s.dispatched
    && s'.callbacks == s.callbacks + (if job.Some? then {job.value} else {})
  }

  lemma {:induction false} FourSteps(rules: Rules, s: State, steps: seq<Step>)
    requires |steps| == 4
    ensures Run(rules, s, steps) == Next(rules, Next(rules, Next(rules, Next(rules, s, steps[0]), steps[1]), steps[2]), steps[3])
  {
    var s1 := Next(rules, s, steps[0]);
    var s2 := Next(rules, s1, steps[1]);
    var s3 := Next(rules, s2, steps[2]);
    RunFirst(rules, s, steps);
    RunFirst(rules, s1, steps[1..]);
    RunFirst(rules, s2, steps[1..][1..]);
    RunFirst(rules, s3, steps[1..][1..][1..]);
  }

  lemma {:induction false} RunFirst(rules: Rules, s: State, steps: seq<Step>)
    requires steps != []
    ensures Run(rules, s, steps) == Run(rules, Next(rules, s, steps[0]), steps[1..])
    ensures |steps| == 1 ==> Run(rules, s, steps) == Next(rules, s, steps[0])
  {
  }

  lemma AloneKeyed(rules: Rules, s: State, t: nat, request: Request, outcome: Outcome)
    requires s.txns == map[] && rules.admit(request).Keyed?
    requires outcome.Responded? && outcome.job.Some? ==> FreshJob(s, outcome.job.value)
    ensures var s2 := Next(rules, Next(rules, s, Arrive(t, request)), Claim(t));
            var s4 := Next(rules, Next(rules, s2, RunView(t, outcome)), Commit(t));
            AsHandled(rules.admit(request), s, s4, request, outcome)
  {
    var admitted := rules.admit(request);
    var waiting := s.(txns := map[t := Txn(request, admitted.key, admitted.text, Waiting)]);
    assert Next(rules, s, Arrive(t, request)) == waiting;
    if admitted.key in s.records {
      AloneAgain(rules, s, t, request, outcome);
    } else {
      var holding := s.(txns := map[t := Txn(request, admitted.key, admitted.text, Holding)]);
      assert Next(rules, waiting, Claim(t)) == holding;
      AloneFirst(rules, holding, t, outcome);
    }
  }

  /** The claim finds a record: the request is answered and gone. */
  lemma AloneAgain(rules: Rules, s: State, t: nat, request: Request, outcome: Outcome)
    requires s.txns == map[] && rules.admit(request).Keyed? && rules.admit(request).key in s.records
    ensures var admitted := rules.admit(request);
            var s2 := Next(rules, s.(txns := map[t := Txn(request, admitted.key, admitted.text, Waiting)]), Claim(t));
            var s4 := Next(rules, Next(rules, s2, RunView(t, outcome)), Commit(t));
            AsHandled(admitted, s, s4, request, outcome)
  {
    var admitted := rules.admit(request);
    var waiting := s.(txns := map[t := Txn(request, admitted.key, admitted.text, Waiting)]);
    assert Next(rules, waiting, Claim(t)).txns == map[];
  }

  lemma AloneFirst(rules: Rules, s: State, t: nat, outcome: Outcome)
    requires s.txns.Keys == {t} && s.txns[t].phase.Holding?
    requires outcome.Responded? && outcome.job.Some? ==> FreshJob(s, outcome.job.value)
    ensures var txn := s.txns[t];
            var s' := Next(rules, Next(rules, s, RunView(t, outcome)), Commit(t));
            var jk := JobKey(txn.request.org, txn.text);
            && s'.txns == map[]
            && (outcome.ViewRaised? ==> s' == s.(txns := map[]))
            && (outcome.Responded? ==>
                  && s'.records == s.records[txn.key := RecordAfter(txn.request, outcome)]
                  && s'.said == s.said + {Said(txn.request, Own(outcome.status, outcome.json))}
                  && JobLeft(s, s', NewJob(s.jobs, jk, outcome.job), jk))
  {
    var s1 := Next(rules, s, RunView(t, outcome));
    if outcome.ViewRaised? {
      assert s1.txns == map[];
    } else {
      assert s1.txns.Keys == {t} && s1.txns[t].phase.Ready?;
      assert Next(rules, s1, Commit(t)).txns == map[];
    }
  }

  // ----------------------------------------------------------- main results

  /** At most once per key: however requests interleave, repeat and roll back, the view's work is
      committed at most once per organization and UUID, and exactly once where there is a record. */
  lemma {:induction false} AtMostOnce(parseUuid: string -> Option<string>, steps: seq<Step>, key: Key)
    ensures var s := Run(RulesOf(parseUuid), EMPTY, steps); s.runs[key] == if key in s.records then 1 else 0
  {
    RunKeeps(RulesOf(parseUuid), EMPTY, steps);
  }

  /** What was told about a request that was run: its record. */
  ghost predicate ToldFrom(record: Record, r: Said) {
    match r.reply
    case Own(status, json) =>
      && record.verb == r.request.verb && record.path == r.request.path && record.status == status
      && record.body == if json.Obj? then json else Obj([Member("data", json)])
    case Stored(status, body) =>
      record.verb == r.request.verb && record.path == r.request.path && record.status == status && record.body == body
    case Conflict => record.verb != r.request.verb || record.path != r.request.path
    case _ => false
  }

  /** In every reachable state, whoever was told something had sent a POST; a blank key and one that is
      no UUID were refused, and everybody else was told what the one record of the organization and the
      UUID says. */
  lemma {:induction false} ToldByRecord(parseUuid: string -> Option<string>, steps: seq<Step>, r: Said)
    requires r in Run(RulesOf(parseUuid), EMPTY, steps).said
    ensures r.request.verb == "POST"
    ensures Strip(r.request.header) == "" ==> r.reply == MissingKey
    ensures Strip(r.request.header) != "" && parseUuid(Strip(r.request.header)).None? ==> r.reply == InvalidKey
    ensures KeyedBy(parseUuid, r.request) ==>
              var records := Run(RulesOf(parseUuid), EMPTY, steps).records;
              var key := Key(r.request.org, parseUuid(Strip(r.request.header)).value);
              key in records && ToldFrom(records[key], r)
  {
    RunKeeps(RulesOf(parseUuid), EMPTY, steps);
    assert Agrees(RulesOf(parseUuid), Run(RulesOf(parseUuid), EMPTY, steps).records, r);
  }

  /** All replies to one key agree. A replay carries the status and the body of the response that the
      first sender got, wrapped if it was no object; requests with one path are answered alike, and a
      request with another path than the first is refused. */
  lemma {:induction false} RepliesAgree(parseUuid: string -> Option<string>, steps: seq<Step>, a: Said, b: Said)
    requires a in Run(RulesOf(parseUuid), EMPTY, steps).said && b in Run(RulesOf(parseUuid), EMPTY, steps).said
    requires KeyedBy(parseUuid, a.request) && KeyedBy(parseUuid, b.request) && a.request.org == b.request.org
    requires parseUuid(Strip(a.request.header)) == parseUuid(Strip(b.request.header))
    ensures a.reply.Own? || a.reply.Stored? || a.reply == Conflict
    ensures a.reply.Own? && b.reply.Stored? ==>
              && b.reply.status == a.reply.status
              && b.reply.body == if a.reply.json.Obj? then a.reply.json else Obj([Member("data", a.reply.json)])
    ensures a.reply.Stored? && b.reply.Stored? ==> a.reply == b.reply
    ensures a.reply.Own? && b.reply.Own? ==> a.reply.status == b.reply.status
    ensures a.reply != Conflict ==> (b.reply == Conflict <==> a.request.path != b.request.path)
  {
    ToldByRecord(parseUuid, steps, a);
    ToldByRecord(parseUuid, steps, b);
  }

  predicate SameKey(parseUuid: string -> Option<string>, a: JobKey, b: JobKey) {
    a.org == b.org && parseUuid(a.text) == parseUuid(b.text)
  }

  /** At most one asynchronous job per organization and UUID, dispatched at most once, and only
      after it was committed. */
  lemma {:induction false} OneJobOneDispatch(parseUuid: string -> Option<string>, steps: seq<Step>, i: nat, j: nat)
    ensures var s := Run(RulesOf(parseUuid), EMPTY, steps);
            && s.dispatched[i] <= 1 && (i in s.dispatched ==> i in s.jobs)
            && (i in s.jobs ==> parseUuid(s.jobs[i].text).Some?
                                && Key(s.jobs[i].org, parseUuid(s.jobs[i].text).value) in s.records)
            && (i in s.jobs && j in s.jobs && SameKey(parseUuid, s.jobs[i], s.jobs[j]) ==> i == j)
  {
    RunKeeps(RulesOf(parseUuid), EMPTY, steps);
    var s := Run(RulesOf(parseUuid), EMPTY, steps);
    assert s.dispatched[i] + (if i in s.callbacks then 1 else 0) <= if i in s.jobs then 1 else 0;
  }

  /** A request waits exactly while another one, of the same key, holds an insert that is not committed;
      other keys do not hold it up. */
  lemma ClaimWaitsIff(rules: Rules, s: State, t: nat)
    requires t in s.txns && s.txns[t].phase.Waiting? && s.txns[t].key !in s.records
    ensures var s' := Next(rules, s, Claim(t));
            if exists u :: u in s.txns && s.txns[u].key == s.txns[t].key && !s.txns[u].phase.Waiting? then s' == s
            else t in s'.txns && s'.txns[t].phase == Holding && s' == s.(txns := s.txns[t := s'.txns[t]])
  {
    assert forall u :: u in s.txns ==>
        (Holds(s.txns[u], s.txns[t].key) <==> s.txns[u].key == s.txns[t].key && !s.txns[u].phase.Waiting?);
  }

  /** Whatever a keyed request has done before it could answer, rolling it back leaves nothing behind, so
      the next one with its key is the first. */
  lemma {:induction false} RollbackUndoes(rules: Rules, s: State, t: nat, request: Request, steps: seq<Step>)
    requires t !in s.txns && rules.admit(request).Keyed? && rules.admit(request).key !in s.records
    requires forall i :: 0 <= i < |steps| ==> steps[i] == Claim(t) || (steps[i].RunView? && steps[i].t == t)
    ensures Next(rules, Run(rules, Next(rules, s, Arrive(t, request)), steps), Rollback(t)) == s
  {
    var arrived := Next(rules, s, Arrive(t, request));
    assert arrived.txns - {t} == s.txns;
    OnlyItself(rules, s, arrived, t, steps);
  }

  /** `now` is `s` and one transaction more. */
  ghost predicate OneMore(rules: Rules, s: State, now: State, t: nat) {
    && t !in s.txns && now == s.(txns := now.txns) && now.txns - {t} == s.txns
    && (t in now.txns ==> now.txns[t].key !in s.records)
  }

  lemma {:induction false} OnlyItself(rules: Rules, s: State, now: State, t: nat, steps: seq<Step>)
    requires OneMore(rules, s, now, t)
    requires forall i :: 0 <= i < |steps| ==> steps[i] == Claim(t) || (steps[i].RunView? && steps[i].t == t)
    ensures OneMore(rules, s, Run(rules, now, steps), t)
    decreases |steps|
  {
    if steps != [] {
      OneMoreNext(rules, s, now, t, steps[0]);
      OnlyItself(rules, s, Next(rules, now, steps[0]), t, steps[1..]);
    }
  }

  lemma OneMoreNext(rules: Rules, s: State, now: State, t: nat, step: Step)
    requires OneMore(rules, s, now, t) && (step == Claim(t) || (step.RunView? && step.t == t))
    ensures OneMore(rules, s, Next(rules, now, step), t)
  {
    var next := Next(rules, now, step);
    assert next.txns - {t} == now.txns - {t};
  }

  /** In every reachable state the worker gets each job that was committed and not lost, and gets it
      once: it has been sent, or the next dispatch sends it. */
  lemma {:induction false} DispatchedUnlessLost(parseUuid: string -> Option<string>, steps: seq<Step>, job: nat)
    requires forall i :: 0 <= i < |steps| ==> steps[i] != Lose(job)
    ensures var s := Run(RulesOf(parseUuid), EMPTY, steps);
            job in s.jobs ==> Next(RulesOf(parseUuid), s, Dispatch(job)).dispatched[job] == 1
  {
    RunKeeps(RulesOf(parseUuid), EMPTY, steps);
    NoneLost(RulesOf(parseUuid), EMPTY, steps, job);
    NextSends(RulesOf(parseUuid), Run(RulesOf(parseUuid), EMPTY, steps), job);
  }

  /** A pending dispatch has not been carried out before, and a carried out one is not pending. */
  lemma SentOnce(s: State, job: nat)
    requires DispatchOk(s)
    ensures job in s.callbacks ==> job in s.jobs && s.dispatched[job] == 0
    ensures job in s.dispatched ==> job !in s.callbacks && s.dispatched[job] == 1
  {
    assert s.dispatched[job] + (if job in s.callbacks then 1 else 0) <= if job in s.jobs then 1 else 0;
  }

  lemma NextSends(rules: Rules, s: State, job: nat)
    requires DispatchOk(s) && SentOrPending(s, job)
    ensures job in s.jobs ==> Next(rules, s, Dispatch(job)).dispatched[job] == 1
  {
    SentOnce(s, job);
  }

  ghost predicate SentOrPending(s: State, job: nat) {
    job in s.jobs ==> job in s.callbacks || job in s.dispatched
  }

  lemma {:induction false} NoneLost(rules: Rules, s: State, steps: seq<Step>, job: nat)
    requires SentOrPending(s, job) && forall i :: 0 <= i < |steps| ==> steps[i] != Lose(job)
    ensures SentOrPending(Run(rules, s, steps), job)
    decreases |steps|
  {
    if steps != [] {
      assert SentOrPending(Next(rules, s, steps[0]), job);
      NoneLost(rules, Next(rules, s, steps[0]), steps[1..], job);
    }
  }

  /** A dispatch that is lost stays lost: the job is never sent, though its record answers replays. */
  lemma {:induction false} LostForGood(parseUuid: string -> Option<string>, before: seq<Step>, after: seq<Step>, job: nat)
    requires var s := Run(RulesOf(parseUuid), EMPTY, before); job in s.callbacks
    ensures var s := Run(RulesOf(parseUuid), EMPTY, before);
            Run(RulesOf(parseUuid), Next(RulesOf(parseUuid), s, Lose(job)), after).dispatched[job] == 0
  {
    RunKeeps(RulesOf(parseUuid), EMPTY, before);
    LostFrom(RulesOf(parseUuid), Run(RulesOf(parseUuid), EMPTY, before), after, job);
  }

  ghost predicate Gone(s: State, job: nat) {
    job in s.jobs && job !in s.callbacks && s.dispatched[job] == 0
  }

  lemma {:induction false} LostFrom(rules: Rules, s: State, steps: seq<Step>, job: nat)
    requires Coherent(rules) && Inv(rules, s) && job in s.callbacks
    ensures Run(rules, Next(rules, s, Lose(job)), steps).dispatched[job] == 0
  {
    LoseGone(rules, s, job);
    StaysLost(rules, Next(rules, s, Lose(job)), steps, job);
  }

  lemma LoseGone(rules: Rules, s: State, job: nat)
    requires Coherent(rules) && Inv(rules, s) && job in s.callbacks
    ensures Inv(rules, Next(rules, s, Lose(job))) && Gone(Next(rules, s, Lose(job)), job)
  {
    SentOnce(s, job);
    NextKeeps(rules, s, Lose(job));
  }

  lemma {:induction false} StaysLost(rules: Rules, s: State, steps: seq<Step>, job: nat)
    requires Coherent(rules) && Inv(rules, s) && Gone(s, job)
    ensures Gone(Run(rules, s, steps), job)
    decreases |steps|
  {
    if steps != [] {
      NextKeeps(rules, s, steps[0]);
      NextGone(rules, s, steps[0], job);
      StaysLost(rules, Next(rules, s, steps[0]), steps[1..], job);
    }
  }

  /** The job of a committing transaction is new, so it is not this one. */
  lemma NextGone(rules: Rules, s: State, step: Step, job: nat)
    requires DispatchOk(s) && Gone(s, job)
    ensures Gone(Next(rules, s, step), job)
  {
    if step.Commit? && step.t in s.txns && s.txns[step.t].phase.Ready? {
      CommitGone(s, step.t, job);
    }
  }

  lemma CommitGone(s: State, t: nat, job: nat)
    requires DispatchOk(s) && Gone(s, job) && t in s.txns && s.txns[t].phase.Ready?
    ensures Gone(AfterCommit(s, t), job)
  {
    assert WillCreate(s.txns[t]) ==> s.txns[t].phase.job.value !in s.jobs;
  }
}
