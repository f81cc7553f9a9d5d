/**
 * Queue delivery: the SQS batch loop of src/lambda.ts over processMessage and add of
 * src/shared/services/queue.service.ts. JSON.parse is a parameter, and so is whether the
 * underlying queue accepts a job at a given moment.
 */
module Queue {
  import opened Prelude
  import opened Redaction
  import opened Tracing

  datatype Driver = BULL | SQS | OTHER

  /** A job in the Bull queue; an undefined name or data is None. */
  datatype Job = Job(name: Option<Json>, data: Option<Json>)

  datatype Error = Malformed | QueueDown

  type Parser = string -> Option<Json>

  // ---- what one record amounts to ----------------------------------------------------------

  /** processMessage parses a message given as text; destructuring fails on null only. */
  function JobOf(parse: Parser, message: Json): Option<Job> {
    var parsed := if message.Str? then parse(message.s) else Some(message);
    if parsed.None? || parsed.value.Null? then None
    else Some(Job(Field(parsed, "name"), Field(parsed, "payload")))
  }

  function RecordJob(parse: Parser, body: string): Option<Job> {
    match parse(body)
    case None => None
    case Some(message) => JobOf(parse, message)
  }

  /** A body that cannot be parsed, or is null. */
  predicate Unreadable(parse: Parser, text: string) {
    parse(text) == None || parse(text) == Some(Null)
  }

  /**
   * What a record's body means: a message as an object, or once more as a text of one; name and
   * payload are taken from it. Null at either level, like any text that cannot be parsed, is an error.
   */
  lemma RecordsAreRead(parse: Parser, body: string)
    ensures Unreadable(parse, body) ==> RecordJob(parse, body) == None
    ensures forall fields :: parse(body) == Some(Obj(fields)) ==>
              RecordJob(parse, body) == Some(Job(if "name" in fields then Some(fields["name"]) else None,
                                                 if "payload" in fields then Some(fields["payload"]) else None))
    ensures forall text, fields :: parse(body) == Some(Str(text)) && parse(text) == Some(Obj(fields)) ==>
              RecordJob(parse, body) == Some(Job(if "name" in fields then Some(fields["name"]) else None,
                                                 if "payload" in fields then Some(fields["payload"]) else None))
    ensures forall text :: parse(body) == Some(Str(text)) && Unreadable(parse, text) ==> RecordJob(parse, body) == None
  {}

  /** How many records are dealt with before the first that fails. */
  function Handled(driver: Driver, parse: Parser, records: seq<string>, accepts: seq<bool>): (k: nat)
    requires |accepts| == |records|
    ensures k <= |records|
    ensures forall i :: 0 <= i < k ==> RecordJob(parse, records[i]).Some? && (driver == BULL || accepts[i])
    ensures k < |records| ==> RecordJob(parse, records[k]).None? || (driver != BULL && !accepts[k])
  {
    if records == [] || RecordJob(parse, records[0]).None? || (driver != BULL && !accepts[0]) then 0
    else
      var k := Handled(driver, parse, records[1..], accepts[1..]);
      assert forall i :: 1 <= i < k + 1 ==> records[i] == records[1..][i - 1] && accepts[i] == accepts[1..][i - 1];
      1 + k
  }

  function Jobs(parse: Parser, records: seq<string>): seq<Job>
    requires forall r :: r in records ==> RecordJob(parse, r).Some?
  {
    seq(|records|, i requires 0 <= i < |records| => RecordJob(parse, records[i]).value)
  }

  /** The Bull queue after one attempt at a batch: with driver bull nothing is added to it. */
  function AfterAttempt(bull: seq<Job>, driver: Driver, parse: Parser, records: seq<string>, accepts: seq<bool>): seq<Job>
    requires |accepts| == |records|
  {
    if driver == BULL then bull else bull + Jobs(parse, records[..Handled(driver, parse, records, accepts)])
  }

  /** The body of the SQS message that add sends, before it is turned into text. */
  function SqsBody(name: string, payload: Payload, context: Option<Context>): Json {
    Obj(map["name" := Str(name), "payload" := Obj(EnrichPayload(payload, context))])
  }

  // ---- the code ----------------------------------------------------------------------------

  class QueueService {
    const driver: Driver
    const parse: Parser
    var bull: seq<Job>
    var sqs: seq<Json>  // the bodies of the messages sent

    constructor (driver: Driver, parse: Parser)
      ensures this.driver == driver && this.parse == parse && bull == [] && sqs == []
    {
      this.driver, this.parse, bull, sqs := driver, parse, [], [];
    }

    /** A driver that is neither of the two drops the message without an error. */
    method Add(name: string, envelope: Payload, payload: Payload, context: Option<Context>, accepts: bool) returns (r: Result<(), Error>)
      modifies this
      ensures r == if driver != OTHER && !accepts then Err(QueueDown) else Ok(())
      ensures bull == old(bull) +
                if driver == BULL && accepts then [Job(Some(Str(name)), Some(BullData(envelope, payload, context)))] else []
      ensures sqs == old(sqs) +
                if driver == SQS && accepts then [SqsBody(name, payload, context)] else []
    {
      var enriched := EnrichPayload(payload, context);
      if driver == BULL {
        if !accepts {
          return Err(QueueDown);
        }
        bull := bull + [Job(Some(Str(name)), Some(Obj(envelope["payload" := Obj(enriched)])))];
      } else if driver == SQS {
        if !accepts {
          return Err(QueueDown);
        }
        sqs := sqs + [Obj(map["name" := Str(name), "payload" := Obj(enriched)])];
      }
      return Ok(());
    }

    method ProcessMessage(message: Json, accepts: bool) returns (r: Result<(), Error>)
      modifies this
      ensures sqs == old(sqs)
      ensures r == if JobOf(parse, message).None? then Err(Malformed)
                   else if driver == BULL || accepts then Ok(()) else Err(QueueDown)
      ensures bull == old(bull) + if r.Ok? && driver != BULL then [JobOf(parse, message).value] else []
    {
      var parsed := Some(message);
      if message.Str? {
        parsed := parse(message.s);
      }
      if parsed.None? || parsed.value.Null? {
        return Err(Malformed);
      }
      var name, payload := Field(parsed, "name"), Field(parsed, "payload");
      if driver != BULL {
        if !accepts {
          return Err(QueueDown);
        }
        bull := bull + [Job(name, payload)];
      }
      return Ok(());
    }
  }

  /**
   * taskHandler: the records in order, stopping at the first failure, which fails the whole batch.
   * With driver bull a batch that can be read succeeds, and none of it is put into the queue.
   */
  method TaskHandler(service: QueueService, records: seq<string>, accepts: seq<bool>) returns (r: Result<(), Error>)
    requires |accepts| == |records|
    modifies service
    ensures var k := Handled(service.driver, service.parse, records, accepts);
            && (r.Ok? <==> k == |records|)
            && service.bull == AfterAttempt(old(service.bull), service.driver, service.parse, records, accepts)
            && service.sqs == old(service.sqs)
    ensures service.driver == BULL ==>
              service.bull == old(service.bull) && (r.Ok? <==> forall body :: body in records ==> RecordJob(service.parse, body).Some?)
  {
    ghost var k := Handled(service.driver, service.parse, records, accepts);
    for i := 0 to |records|
      invariant i <= k
      invariant service.bull == old(service.bull) + if service.driver == BULL then [] else Jobs(service.parse, records[..i])
      invariant service.sqs == old(service.sqs)
    {
      var body := service.parse(records[i]);
      if body.None? {
        return Err(Malformed);
      }
      var outcome := service.ProcessMessage(body.value, accepts[i]);
      if outcome.Err? {
        return outcome;
      }
      assert Jobs(service.parse, records[..i + 1]) == Jobs(service.parse, records[..i]) + [RecordJob(service.parse, records[i]).value];
    }
    assert records[..|records|] == records;
    return Ok(());
  }

  // ---- redelivery of whole batches ---------------------------------------------------------

  /** Each attempt sees its own moments of the queue being up or down. */
  type Attempts = seq<seq<bool>>

  ghost predicate ForBatch(attempts: Attempts, records: seq<string>) {
    forall a :: a in attempts ==> |a| == |records|
  }

  function UpTo(k: nat): seq<nat> {
    seq(k, i => i)
  }

  /** The positions of the records put into Bull, attempt after attempt, in order: none with driver bull. */
  function Delivered(driver: Driver, parse: Parser, records: seq<string>, attempts: Attempts): seq<nat>
    requires ForBatch(attempts, records)
  {
    if attempts == [] || driver == BULL then []
    else Delivered(driver, parse, records, attempts[..|attempts| - 1])
         + UpTo(Handled(driver, parse, records, attempts[|attempts| - 1]))
  }

  /** How many attempts got past record i. */
  function Passes(driver: Driver, parse: Parser, records: seq<string>, attempts: Attempts, i: nat): nat
    requires ForBatch(attempts, records)
  {
    if attempts == [] then 0
    else Passes(driver, parse, records, attempts[..|attempts| - 1], i)
         + if i < Handled(driver, parse, records, attempts[|attempts| - 1]) then 1 else 0
  }

  lemma {:induction false} EachPositionOnce(k: nat, i: nat)
    ensures multiset(UpTo(k))[i] == if i < k then 1 else 0
  {
    if k > 0 {
      EachPositionOnce(k - 1, i);
      assert UpTo(k) == UpTo(k - 1) + [k - 1];
    }
  }

  /** A record is enqueued once by each attempt that gets past it, and not otherwise. */
  lemma {:induction false} CopiesArePasses(driver: Driver, parse: Parser, records: seq<string>, attempts: Attempts, i: nat)
    requires ForBatch(attempts, records) && driver != BULL
    ensures multiset(Delivered(driver, parse, records, attempts))[i] == Passes(driver, parse, records, attempts, i)
    ensures Passes(driver, parse, records, attempts, i) <= |attempts|
  {
    if attempts != [] {
      CopiesArePasses(driver, parse, records, attempts[..|attempts| - 1], i);
      EachPositionOnce(Handled(driver, parse, records, attempts[|attempts| - 1]), i);
    }
  }

  /** A record that cannot be read stops every attempt: no later record is ever enqueued, and no attempt succeeds. */
  lemma {:induction false} UnreadableRecordBlocksTheRest(
    driver: Driver, parse: Parser, records: seq<string>, attempts: Attempts, bad: nat, i: nat)
    requires ForBatch(attempts, records) && bad < |records| && RecordJob(parse, records[bad]).None? && i >= bad
    ensures i !in Delivered(driver, parse, records, attempts)
    ensures forall a :: a in attempts ==> Handled(driver, parse, records, a) <= bad
  {
    if attempts != [] {
      UnreadableRecordBlocksTheRest(driver, parse, records, attempts[..|attempts| - 1], bad, i);
      assert forall a :: a in attempts ==> a in attempts[..|attempts| - 1] || a == attempts[|attempts| - 1];
    }
  }

  ghost predicate Readable(parse: Parser, records: seq<string>, positions: seq<nat>) {
    forall n :: 0 <= n < |positions| ==> positions[n] < |records| && RecordJob(parse, records[positions[n]]).Some?
  }

  function JobsAt(parse: Parser, records: seq<string>, positions: seq<nat>): seq<Job>
    requires Readable(parse, records, positions)
  {
    seq(|positions|, n requires 0 <= n < |positions| => RecordJob(parse, records[positions[n]]).value)
  }

  function AfterAttempts(bull: seq<Job>, driver: Driver, parse: Parser, records: seq<string>, attempts: Attempts): seq<Job>
    requires ForBatch(attempts, records)
  {
    if attempts == [] then bull
    else AfterAttempt(AfterAttempts(bull, driver, parse, records, attempts[..|attempts| - 1]), driver, parse, records,
                      attempts[|attempts| - 1])
  }

  /**
   * With driver bull a batch reaches no queue, and yet an attempt at it succeeds as soon as every
   * record can be read: the messages are acknowledged and enqueued nowhere.
   */
  lemma {:induction false} BullDriverEnqueuesNothing(bull: seq<Job>, parse: Parser, records: seq<string>, attempts: Attempts)
    requires ForBatch(attempts, records)
    ensures AfterAttempts(bull, BULL, parse, records, attempts) == bull
    ensures forall a :: a in attempts ==>
              (Handled(BULL, parse, records, a) == |records| <==> forall body :: body in records ==> RecordJob(parse, body).Some?)
  {
    if attempts != [] { BullDriverEnqueuesNothing(bull, parse, records, attempts[..|attempts| - 1]); }
  }

  /** The queue holds the jobs of the delivered positions, in that order. */
  lemma {:induction false} QueueHoldsDelivered(bull: seq<Job>, driver: Driver, parse: Parser, records: seq<string>, attempts: Attempts)
    requires ForBatch(attempts, records)
    ensures Readable(parse, records, Delivered(driver, parse, records, attempts))
    ensures AfterAttempts(bull, driver, parse, records, attempts)
         == bull + JobsAt(parse, records, Delivered(driver, parse, records, attempts))
  {
    if attempts != [] {
      var init, last := attempts[..|attempts| - 1], attempts[|attempts| - 1];
      QueueHoldsDelivered(bull, driver, parse, records, init);
      if driver != BULL {
        hide Handled, RecordJob, Readable, JobsAt, Jobs, UpTo, AfterAttempt;
        OneMoreAttempt(bull, driver, parse, records, Delivered(driver, parse, records, init), last);
      }
    }
  }

  lemma OneMoreAttempt(bull: seq<Job>, driver: Driver, parse: Parser, records: seq<string>, positions: seq<nat>, accepts: seq<bool>)
    requires |accepts| == |records| && driver != BULL && Readable(parse, records, positions)
    ensures var more := UpTo(Handled(driver, parse, records, accepts));
            && Readable(parse, records, positions + more)
            && AfterAttempt(bull + JobsAt(parse, records, positions), driver, parse, records, accepts)
               == bull + JobsAt(parse, records, positions + more)
  {
    var k := Handled(driver, parse, records, accepts);
    JobsOfPrefix(parse, records, k);
    JobsJoin(parse, records, positions, UpTo(k));
    hide Handled, RecordJob, Readable, JobsAt, Jobs, UpTo;
  }

  lemma JobsJoin(parse: Parser, records: seq<string>, a: seq<nat>, b: seq<nat>)
    requires Readable(parse, records, a) && Readable(parse, records, b)
    ensures Readable(parse, records, a + b)
    ensures JobsAt(parse, records, a + b) == JobsAt(parse, records, a) + JobsAt(parse, records, b)
  {}

  lemma JobsOfPrefix(parse: Parser, records: seq<string>, k: nat)
    requires k <= |records| && forall i :: 0 <= i < k ==> RecordJob(parse, records[i]).Some?
    ensures Readable(parse, records, UpTo(k))
    ensures Jobs(parse, records[..k]) == JobsAt(parse, records, UpTo(k))
  {}

  /**
   * Over any series of redeliveries of a batch that ends in success, with a driver that enqueues,
   * what comes into the queue are the jobs of the delivered positions, and every position is
   * delivered at least once, and at most once for each attempt.
   */
  lemma AtLeastOnceAtMostOncePerAttempt(bull: seq<Job>, driver: Driver, parse: Parser, records: seq<string>, attempts: Attempts, i: nat)
    requires ForBatch(attempts, records) && attempts != [] && i < |records| && driver != BULL
    requires Handled(driver, parse, records, attempts[|attempts| - 1]) == |records|
    ensures 1 <= multiset(Delivered(driver, parse, records, attempts))[i] <= |attempts|
    ensures Readable(parse, records, Delivered(driver, parse, records, attempts))
    ensures AfterAttempts(bull, driver, parse, records, attempts)
         == bull + JobsAt(parse, records, Delivered(driver, parse, records, attempts))
  {
    CopiesArePasses(driver, parse, records, attempts, i);
    QueueHoldsDelivered(bull, driver, parse, records, attempts);
  }

  /** How many of the records are this job. */
  function Alike(parse: Parser, records: seq<string>, job: Job): nat {
    if records == [] then 0
    else Alike(parse, records[..|records| - 1], job) + if RecordJob(parse, records[|records| - 1]) == Some(job) then 1 else 0
  }

  lemma {:induction false} JobsAlike(parse: Parser, records: seq<string>, job: Job)
    requires forall r :: r in records ==> RecordJob(parse, r).Some?
    ensures multiset(Jobs(parse, records))[job] == Alike(parse, records, job)
  {
    if records != [] {
      var init, last := records[..|records| - 1], records[|records| - 1];
      JobsAlike(parse, init, job);
      assert Jobs(parse, records) == Jobs(parse, init) + [RecordJob(parse, last).value];
    }
  }

  lemma {:induction false} FewerAlike(parse: Parser, records: seq<string>, k: nat, job: Job)
    requires k <= |records|
    ensures Alike(parse, records[..k], job) <= Alike(parse, records, job)
  {
    if k < |records| {
      FewerAlike(parse, records[..|records| - 1], k, job);
      assert records[..|records| - 1][..k] == records[..k];
    } else {
      assert records[..k] == records;
    }
  }

  /** How often a job is in the queue. */
  function Copies(queue: seq<Job>, job: Job): nat {
    multiset(queue)[job]
  }

  lemma CopiesOfAnAttempt(bull: seq<Job>, driver: Driver, parse: Parser, records: seq<string>, accepts: seq<bool>, job: Job)
    requires |accepts| == |records| && driver != BULL
    ensures var n, after := Alike(parse, records, job), AfterAttempt(bull, driver, parse, records, accepts);
            && Copies(bull, job) <= Copies(after, job) <= Copies(bull, job) + n
            && (Handled(driver, parse, records, accepts) == |records| ==> Copies(after, job) == Copies(bull, job) + n)
  {
    var k := Handled(driver, parse, records, accepts);
    JobsAlike(parse, records[..k], job);
    FewerAlike(parse, records, k, job);
    if k == |records| { assert records[..k] == records; }
  }

  /**
   * The same counted in the queue itself: a series that ends in success adds each job at least as
   * often as the batch has it, and at most that often for each attempt.
   */
  lemma {:induction false} CopiesInTheQueue(bull: seq<Job>, driver: Driver, parse: Parser, records: seq<string>, attempts: Attempts, job: Job)
    requires ForBatch(attempts, records) && driver != BULL
    ensures var n, after := Alike(parse, records, job), AfterAttempts(bull, driver, parse, records, attempts);
            && Copies(bull, job) <= Copies(after, job) <= Copies(bull, job) + |attempts| * n
            && (attempts != [] && Handled(driver, parse, records, attempts[|attempts| - 1]) == |records| ==>
                  Copies(after, job) >= Copies(bull, job) + n)
  {
    hide Handled, Alike, AfterAttempt, Copies, RecordJob;
    if attempts != [] {
      var init, last := attempts[..|attempts| - 1], attempts[|attempts| - 1];
      CopiesInTheQueue(bull, driver, parse, records, init, job);
      CopiesOfAnAttempt(AfterAttempts(bull, driver, parse, records, init), driver, parse, records, last, job);
      OneMoreTime(|init|, Alike(parse, records, job));
    }
  }

  lemma OneMoreTime(attempts: nat, n: nat)
    ensures (attempts + 1) * n == attempts * n + n
  {}

  // ---- the email processor under both drivers ----------------------------------------------

  /** job.data.payload || job.data */
  function EmailFields(data: Json): Json {
    var payload := Field(Some(data), "payload");
    if Truthy(payload) then payload.value else data
  }

  /** The payload field of the data, unless it is missing or falsy; then the data itself. */
  lemma PayloadIsUnpacked(fields: Payload)
    ensures EmailFields(Obj(fields)) ==
              if "payload" in fields && fields["payload"] !in {Null, Bool(false), Num(0.0), Str("")} then fields["payload"]
              else Obj(fields)
  {}

  /** The data of the job that ends up in Bull when a message goes through SQS and the batch loop. */
  function DataThroughSqs(payload: Payload, context: Option<Context>): Json {
    Obj(EnrichPayload(payload, context))
  }

  datatype Message = Message(name: string, payload: Payload, context: Option<Context>)

  /** The texts of the messages that add sent, in order. */
  function Bodies(text: Json -> string, messages: seq<Message>): seq<string> {
    seq(|messages|, i requires 0 <= i < |messages| =>
      text(SqsBody(messages[i].name, messages[i].payload, messages[i].context)))
  }

  function JobsThroughSqs(messages: seq<Message>): seq<Job> {
    seq(|messages|, i requires 0 <= i < |messages| =>
      Job(Some(Str(messages[i].name)), Some(DataThroughSqs(messages[i].payload, messages[i].context))))
  }

  lemma BodyIsJob(parse: Parser, body: string, m: Message)
    requires parse(body) == Some(SqsBody(m.name, m.payload, m.context))
    ensures RecordJob(parse, body) == Some(Job(Some(Str(m.name)), Some(DataThroughSqs(m.payload, m.context))))
  {}

  /**
   * Whatever messages were added with driver sqs: as a batch they can all be read, and an attempt
   * that gets through puts each of them into Bull, in order, under its name and with the bare
   * enriched payload as data.
   */
  lemma ThroughSqsIsThat(parse: Parser, text: Json -> string, messages: seq<Message>, bull: seq<Job>, accepts: seq<bool>)
    requires forall i :: 0 <= i < |messages| ==>
               var body := SqsBody(messages[i].name, messages[i].payload, messages[i].context);
               parse(text(body)) == Some(body)
    requires |accepts| == |messages| && forall i :: 0 <= i < |accepts| ==> accepts[i]
    ensures Handled(SQS, parse, Bodies(text, messages), accepts) == |messages|
    ensures AfterAttempt(bull, SQS, parse, Bodies(text, messages), accepts) == bull + JobsThroughSqs(messages)
  {
    var records := Bodies(text, messages);
    forall i | 0 <= i < |messages| ensures RecordJob(parse, records[i]) == Some(JobsThroughSqs(messages)[i]) {
      BodyIsJob(parse, records[i], messages[i]);
    }
    hide RecordJob, SqsBody;
    assert records[..|records|] == records;
    assert Jobs(parse, records) == JobsThroughSqs(messages);
  }

  /** What the processor takes out of a job's data under some names. */
  predicate ReadsAlike(a: Json, b: Json, names: set<string>) {
    forall n :: n in names ==> Field(Some(a), n) == Field(Some(b), n)
  }

  /**
   * The email processor reads the same under both drivers, whatever names it looks for besides
   * the two trace fields, exactly when the message's own payload has no truthy field called
   * payload, or has those names alike in it.
   */
  lemma EmailFieldsAgreeExactly(envelope: Payload, payload: Payload, context: Option<Context>, names: set<string>)
    requires names !! {"traceId", "parentRequestId"}
    ensures ReadsAlike(EmailFields(BullData(envelope, payload, context)), EmailFields(DataThroughSqs(payload, context)), names) <==>
              var inner := Field(Some(Obj(payload)), "payload");
              !Truthy(inner) || ReadsAlike(inner.value, Obj(payload), names)
  {
    var enriched := EnrichPayload(payload, context);
    assert Field(Some(Obj(enriched)), "payload") == Field(Some(Obj(payload)), "payload");
    assert Field(Some(BullData(envelope, payload, context)), "payload") == Some(Obj(enriched));
    assert ReadsAlike(Obj(enriched), Obj(payload), names);
  }

  /**
   * The trace id survives Bull. Through SQS the processor looks for it one level too deep: the id
   * it takes does not depend on the sender's context, and is a new one unless the message's own
   * payload happens to have a payload.traceId.
   */
  lemma TraceIsLostThroughSqs(payload: Payload, c: Context, jobId: string, uuid: string)
    requires Full(c) && uuid != ""
    ensures JobContext(BullData(map[], payload, Some(c)), jobId, uuid).traceId == c.traceId
    ensures JobContext(DataThroughSqs(payload, Some(c)), jobId, uuid).traceId
         == Or(AsText(Field(Field(Some(Obj(payload)), "payload"), "traceId")), uuid)
  {
    JobHopKeepsTrace(c, EmailJob(map[], payload, jobId, uuid));
    var enriched := EnrichPayload(payload, Some(c));
    assert Field(Some(Obj(enriched)), "payload") == Field(Some(Obj(payload)), "payload");
  }
}
