/**
What the block driver, its queue and a conforming device amount to: requests wait, are held by the
device, are done, and are called back. No rings, slots or descriptors; only how many of them there are.
*/
module BlockDesk {
  import opened Distinctness
  import opened Descriptors
  import opened RequestSlots
  import opened VirtioBlock

  /** What driver and device do; the device finishes the k-th of the requests it holds. */
  datatype Op =
    | Enqueue(t: ReqType, queueIndex: nat, sector: nat, buffers: seq<IoVec>, token: Token)
    | Take
    | Finish(k: nat, status: nat, len: nat)
    | Process
    | Kick(queueIndex: nat, event: nat)

  /** An accepted request: its number in the order of enqueueing, its token and what it is about. */
  datatype Request = Request(number: nat, token: Token, job: Job)

  datatype Verdict = Verdict(request: Request, status: nat)

  /** capacity: the descriptors of the queue; count: the requests accepted so far. */
  datatype Desk = Desk(capacity: nat, count: nat, waiting: seq<Request>, held: seq<Request>, done: seq<Verdict>,
                       log: seq<Call>)

  function Sizes(rs: seq<Request>): nat {
    if rs == [] then 0 else Sizes(rs[..|rs| - 1]) + rs[|rs| - 1].job.Size()
  }

  function Requests(vs: seq<Verdict>): (rs: seq<Request>)
    ensures |rs| == |vs| && forall i | 0 <= i < |vs| :: rs[i] == vs[i].request
  {
    seq(|vs|, i requires 0 <= i < |vs| => vs[i].request)
  }

  function InFlight(d: Desk): seq<Request> { d.waiting + d.held + Requests(d.done) }

  /** The descriptors in use. */
  function Used(d: Desk): nat { Sizes(d.waiting) + Sizes(d.held) + Sizes(Requests(d.done)) }

  /** A request needs valid arguments, a slot and a descriptor for each buffer, header and status included. */
  predicate Accepts(d: Desk, queueIndex: nat, buffers: nat) {
    && queueIndex == 0 && buffers + 2 <= MAX_SG_ELEMENTS
    && |InFlight(d)| < MAX_INFLIGHT && Used(d) + buffers + 2 <= d.capacity
  }

  function CallOf(v: Verdict): Call { Call(v.request.token, MapBlkStatus(v.status)) }

  function Calls(vs: seq<Verdict>): (cs: seq<Call>)
    ensures |cs| == |vs| && forall i | 0 <= i < |vs| :: cs[i] == CallOf(vs[i])
  {
    seq(|vs|, i requires 0 <= i < |vs| => CallOf(vs[i]))
  }

  function Apply(d: Desk, op: Op): Desk {
    match op
    case Enqueue(t, queueIndex, sector, buffers, token) =>
      if !Accepts(d, queueIndex, |buffers|) then d
      else d.(count := d.count + 1, waiting := d.waiting + [Request(d.count, token, Job(t, sector, buffers))])
    case Take =>
      if d.waiting == [] then d else d.(waiting := d.waiting[1..], held := d.held + [d.waiting[0]])
    case Finish(k, status, _) =>
      if k >= |d.held| then d else d.(held := Without(d.held, k), done := d.done + [Verdict(d.held[k], status)])
    case Process => d.(done := [], log := d.log + Calls(d.done))
    case Kick(_, _) => d
  }

  function Exec(capacity: nat, ops: seq<Op>): Desk {
    if ops == [] then Desk(capacity, 0, [], [], [], []) else Apply(Exec(capacity, ops[..|ops| - 1]), ops[|ops| - 1])
  }

  // ---------------------------------------------------------------------------------------------
  // What every run of the desk keeps
  // ---------------------------------------------------------------------------------------------

  function NewRequests(d: Desk, op: Op): seq<Request> {
    if op.Enqueue? && Accepts(d, op.queueIndex, |op.buffers|)
    then [Request(d.count, op.token, Job(op.t, op.sector, op.buffers))] else []
  }

  function NewVerdicts(d: Desk, op: Op): seq<Verdict> {
    if op.Finish? && op.k < |d.held| then [Verdict(d.held[op.k], op.status)] else []
  }

  /** The requests accepted in a run, in order. */
  function Accepted(capacity: nat, ops: seq<Op>): seq<Request> {
    if ops == [] then []
    else
      var before := ops[..|ops| - 1];
      Accepted(capacity, before) + NewRequests(Exec(capacity, before), ops[|ops| - 1])
  }

  /** What the device has said in a run, in the order of its Finish operations. */
  function Verdicts(capacity: nat, ops: seq<Op>): seq<Verdict> {
    if ops == [] then []
    else
      var before := ops[..|ops| - 1];
      Verdicts(capacity, before) + NewVerdicts(Exec(capacity, before), ops[|ops| - 1])
  }

  lemma CallsConcat(a: seq<Verdict>, b: seq<Verdict>)
    ensures Calls(a + b) == Calls(a) + Calls(b)
  {
  }

  /**
  The callbacks made, followed by those that the next Process makes, are what the device said, in the
  order in which it said it; a run that ends with Process has made them all.
  */
  lemma {:induction false} LogIsFinishOrder(capacity: nat, ops: seq<Op>)
    ensures var d := Exec(capacity, ops); d.log + Calls(d.done) == Calls(Verdicts(capacity, ops))
    ensures ops != [] && ops[|ops| - 1].Process? ==> Exec(capacity, ops).log == Calls(Verdicts(capacity, ops))
  {
    if ops != [] {
      var before, op := ops[..|ops| - 1], ops[|ops| - 1];
      var d, d' := Exec(capacity, before), Exec(capacity, ops);
      LogIsFinishOrder(capacity, before);
      if op.Finish? && op.k < |d.held| {
        var v := NewVerdicts(d, op);
        CallsConcat(d.done, v);
        CallsConcat(Verdicts(capacity, before), v);
        assert d.log + (Calls(d.done) + Calls(v)) == d.log + Calls(d.done) + Calls(v);
      } else {
        assert Verdicts(capacity, ops) == Verdicts(capacity, before);
        if op.Process? {
          assert d'.log + Calls([]) == d'.log;
        }
      }
    }
  }

  /** One operation: what comes in and what is told about are the only differences. */
  lemma StepConserves(d: Desk, op: Op)
    ensures var d' := Apply(d, op);
      multiset(d'.waiting) + multiset(d'.held) + multiset(Requests(NewVerdicts(d, op)))
      == multiset(d.waiting) + multiset(d.held) + multiset(NewRequests(d, op))
  {
    if op.Take? && d.waiting != [] {
      TakeConserves(d);
    } else if op.Finish? && op.k < |d.held| {
      FinishConserves(d, op.k, op.status, op.len);
    }
  }

  lemma TakeConserves(d: Desk)
    requires d.waiting != []
    ensures multiset(d.waiting[1..]) + multiset(d.held + [d.waiting[0]]) == multiset(d.waiting) + multiset(d.held)
  {
    assert d.waiting == [d.waiting[0]] + d.waiting[1..];
  }

  lemma FinishConserves(d: Desk, k: nat, status: nat, len: nat)
    requires k < |d.held|
    ensures multiset(Without(d.held, k)) + multiset(Requests(NewVerdicts(d, Finish(k, status, len))))
      == multiset(d.held)
  {
    assert Requests(NewVerdicts(d, Finish(k, status, len))) == [d.held[k]];
    assert d.held == d.held[..k] + [d.held[k]] + d.held[k + 1..];
  }

  lemma RequestsConcat(a: seq<Verdict>, b: seq<Verdict>)
    ensures Requests(a + b) == Requests(a) + Requests(b)
  {
  }

  lemma AddUp(here: multiset<Request>, here': multiset<Request>, told: multiset<Request>, more: multiset<Request>,
              all: multiset<Request>, come: multiset<Request>)
    requires here + told == all && here' + more == here + come
    ensures here' + (told + more) == all + come
  {
    assert here' + (told + more) == (here' + more) + told;
    assert here + come + told == (here + told) + come;
  }

  /** Every accepted request is in one place: it waits, is held by the device, or has been told about. */
  lemma {:induction false} EveryRequestOnce(capacity: nat, ops: seq<Op>)
    ensures var d := Exec(capacity, ops);
      && d.count == |Accepted(capacity, ops)|
      && multiset(d.waiting) + multiset(d.held) + multiset(Requests(Verdicts(capacity, ops)))
         == multiset(Accepted(capacity, ops))
  {
    if ops != [] {
      var before, op := ops[..|ops| - 1], ops[|ops| - 1];
      var d, d' := Exec(capacity, before), Exec(capacity, ops);
      EveryRequestOnce(capacity, before);
      StepConserves(d, op);
      RequestsConcat(Verdicts(capacity, before), NewVerdicts(d, op));
      AddUp(multiset(d.waiting) + multiset(d.held), multiset(d'.waiting) + multiset(d'.held),
            multiset(Requests(Verdicts(capacity, before))), multiset(Requests(NewVerdicts(d, op))),
            multiset(Accepted(capacity, before)), multiset(NewRequests(d, op)));
    }
  }

  /** Requests are numbered in the order in which they were accepted. */
  lemma {:induction false} NumberedInOrder(capacity: nat, ops: seq<Op>, i: nat)
    requires i < |Accepted(capacity, ops)|
    ensures Accepted(capacity, ops)[i].number == i
    decreases |ops|
  {
    var before := ops[..|ops| - 1];
    EveryRequestOnce(capacity, before);
    if i < |Accepted(capacity, before)| {
      NumberedInOrder(capacity, before, i);
    }
  }

  /** Once nothing is in flight there have been as many callbacks as requests, one for each. */
  lemma IdleIsAnswered(capacity: nat, ops: seq<Op>)
    requires InFlight(Exec(capacity, ops)) == []
    ensures var d, vs := Exec(capacity, ops), Verdicts(capacity, ops);
      && d.log == Calls(vs) && |d.log| == d.count && multiset(Requests(vs)) == multiset(Accepted(capacity, ops))
  {
    var d, vs := Exec(capacity, ops), Verdicts(capacity, ops);
    LogIsFinishOrder(capacity, ops);
    EveryRequestOnce(capacity, ops);
    assert d.log + Calls(d.done) == d.log;
    assert |multiset(Requests(vs))| == |Requests(vs)|;
    assert |multiset(Accepted(capacity, ops))| == |Accepted(capacity, ops)|;
  }

  /**
  Callback i reports what the device said of the i-th request it finished: Success if and only if its
  status was 0.
  */
  lemma CallbackReports(capacity: nat, ops: seq<Op>, i: nat)
    requires i < |Exec(capacity, ops).log|
    ensures var call, vs := Exec(capacity, ops).log[i], Verdicts(capacity, ops);
      && i < |vs| && call.token == vs[i].request.token
      && (call.code == Success <==> vs[i].status == 0)
      && (call.code == IoError <==> vs[i].status == 1)
      && (call.code == NotSupported <==> vs[i].status == 2)
      && (call.code == DeviceError <==> vs[i].status > 2)
  {
    LogIsFinishOrder(capacity, ops);
    var d := Exec(capacity, ops);
    assert (d.log + Calls(d.done))[i] == d.log[i];
    assert d.log[i] == CallOf(Verdicts(capacity, ops)[i]);
  }
}
