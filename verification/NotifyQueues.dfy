/** The two notification queues: one in front of the notification manager, one for each client. */
module NotifyQueues {
  import opened Chain

  // ---- The manager's queue ----

  /** `dequeue` and `skip` say whether the two channel variables are set; `out` is what the reader has received. */
  datatype Queue<T> = Queue(q: seq<T>, dequeue: bool, skip: bool, next: Option<T>, out: seq<T>)

  /** Something comes in, while the reader is ready or not; or the reader takes what is offered. */
  datatype Event<T> = Arrives(n: T, ready: bool) | Takes

  function Arrive<T>(s: Queue<T>, n: T, ready: bool): Queue<T> {
    if s.skip && ready then s.(out := s.out + [n])
    else s.(q := s.q + [n], dequeue := true, skip := false, next := Some((s.q + [n])[0]))
  }

  /** The offered thing goes out; nothing is offered while `dequeue` is not set. */
  function Take<T>(s: Queue<T>): Queue<T> {
    if !s.dequeue || s.next.None? || s.q == [] then s
    else if |s.q| == 1 then s.(q := [], dequeue := false, skip := true, out := s.out + [s.next.value])
    else s.(q := s.q[1..], next := Some(s.q[1]), out := s.out + [s.next.value])
  }

  /** The flags tell whether the queue is empty, and the first thing in it is the one that is offered. */
  predicate QueueOk<T(==)>(s: Queue<T>) {
    && (s.skip <==> s.q == []) && (s.dequeue <==> s.q != [])
    && (s.q != [] ==> s.next == Some(s.q[0]))
  }

  /** What comes in goes straight out exactly if nothing waits and the reader is ready, and else behind what waits. */
  lemma ArriveAnswers<T>(s: Queue<T>, n: T, ready: bool)
    requires QueueOk(s)
    ensures var t := Arrive(s, n, ready);
      if s.q == [] && ready then t.out == s.out + [n] && t.q == [] else t.out == s.out && t.q == s.q + [n]
  {
  }

  function Run<T>(events: seq<Event<T>>): Queue<T> {
    if events == [] then Queue([], false, true, None, [])
    else
      var s := Run(events[..|events| - 1]);
      match events[|events| - 1]
      case Arrives(n, ready) => Arrive(s, n, ready)
      case Takes => Take(s)
  }

  function Arrivals<T>(events: seq<Event<T>>): seq<T> {
    if events == [] then []
    else
      var e := events[|events| - 1];
      Arrivals(events[..|events| - 1]) + if e.Arrives? then [e.n] else []
  }

  /** Nothing is lost, doubled or overtaken: what went out followed by what waits is what came in. */
  lemma {:induction false} RunIsFifo<T>(events: seq<Event<T>>)
    ensures QueueOk(Run(events)) && Run(events).out + Run(events).q == Arrivals(events)
  {
    if events != [] {
      RunIsFifo(events[..|events| - 1]);
    }
  }

  /** A reader that keeps taking gets all of it. */
  lemma {:induction false} TakingDrains<T>(events: seq<Event<T>>, n: nat)
    requires n == |Run(events).q|
    ensures Run(events + seq(n, _ => Takes)).out == Arrivals(events) && Run(events + seq(n, _ => Takes)).q == []
    decreases n
  {
    RunIsFifo(events);
    if n == 0 {
      assert events + seq(0, _ => Takes) == events;
    } else {
      var more := events + [Takes];
      assert more[..|events|] == events;
      TakingDrains(more, n - 1);
      assert more + seq(n - 1, _ => Takes) == events + seq(n, _ => Takes);
    }
  }

  class QueueHandler<T(==)> {
    var q: seq<T>
    var dequeue: bool
    var skipQueue: bool
    var next: Option<T>
    ghost var out: seq<T>

    ghost function View(): Queue<T>
      reads this
    {
      Queue(q, dequeue, skipQueue, next, out)
    }

    constructor ()
      ensures View() == Run([])
    {
      q, dequeue, skipQueue, next, out := [], false, true, None, [];
    }

    method OnArrival(n: T, ready: bool) returns (passed: bool)
      requires QueueOk(View())
      modifies this
      ensures View() == Arrive(old(View()), n, ready) && QueueOk(View()) && passed == (old(q) == [] && ready)
      ensures if passed then out == old(out) + [n] && q == [] else out == old(out) && q == old(q) + [n]
    {
      passed := skipQueue && ready;
      if passed {
        out := out + [n];
      } else {
        q := q + [n];
        dequeue := true;
        skipQueue := false;
        next := Some(q[0]);
      }
    }

    /** The reader takes `next`, which may only happen while it is offered. */
    method OnTaken() returns (n: T)
      requires QueueOk(View()) && dequeue
      modifies this
      ensures View() == Take(old(View())) && QueueOk(View()) && n == old(q)[0]
    {
      n := next.value;
      out := out + [n];
      q := q[1..];
      if |q| == 0 {
        dequeue := false;
        skipQueue := true;
      } else {
        next := Some(q[0]);
      }
    }
  }

  // ---- A client's queue ----

  /** `sent` is what was handed over for sending, and `unanswered` how many of those have not been reported as done. */
  datatype Client<T> = Client(pending: seq<T>, waiting: bool, sent: seq<T>, unanswered: nat)

  datatype ClientEvent<T> = Queued(msg: T) | Reported

  function Send<T>(s: Client<T>, msg: T): Client<T> {
    s.(sent := s.sent + [msg], unanswered := s.unanswered + 1)
  }

  function Submit<T>(s: Client<T>, msg: T): Client<T> {
    if !s.waiting then Send(s, msg).(waiting := true) else s.(pending := s.pending + [msg], waiting := true)
  }

  /** A send is reported as done; there is no report unless one is unanswered. */
  function Report<T>(s: Client<T>): Client<T> {
    if s.unanswered == 0 then s
    else
      var s1 := s.(unanswered := s.unanswered - 1);
      if s1.pending == [] then s1.(waiting := false) else Send(s1.(pending := s1.pending[1..]), s1.pending[0])
  }

  predicate ClientOk<T(==)>(s: Client<T>) {
    s.unanswered == (if s.waiting then 1 else 0) && (!s.waiting ==> s.pending == [])
  }

  function ClientRun<T>(events: seq<ClientEvent<T>>): Client<T> {
    if events == [] then Client([], false, [], 0)
    else
      var s := ClientRun(events[..|events| - 1]);
      match events[|events| - 1]
      case Queued(msg) => Submit(s, msg)
      case Reported => Report(s)
  }

  function Submitted<T>(events: seq<ClientEvent<T>>): seq<T> {
    if events == [] then []
    else
      var e := events[|events| - 1];
      Submitted(events[..|events| - 1]) + if e.Queued? then [e.msg] else []
  }

  /** Sends happen in order and one at a time, and a client that does not wait has nothing pending. */
  lemma {:induction false} ClientIsFifo<T>(events: seq<ClientEvent<T>>)
    ensures ClientOk(ClientRun(events)) && ClientRun(events).sent + ClientRun(events).pending == Submitted(events)
  {
    if events != [] {
      ClientIsFifo(events[..|events| - 1]);
    }
  }

  class NotificationQueue<T(==)> {
    var pendingNtfns: seq<T>
    var waiting: bool
    ghost var sent: seq<T>
    ghost var unanswered: nat

    ghost function View(): Client<T>
      reads this
    {
      Client(pendingNtfns, waiting, sent, unanswered)
    }

    constructor ()
      ensures View() == ClientRun([])
    {
      pendingNtfns, waiting, sent, unanswered := [], false, [], 0;
    }

    /** Hands a message over; the channel for reports holds one, so that there must be no other report to come. */
    method SendMessage(msg: T)
      requires unanswered == 0
      modifies this`sent, this`unanswered
      ensures sent == old(sent) + [msg] && unanswered == 1
    {
      sent := sent + [msg];
      unanswered := unanswered + 1;
    }

    method OnQueued(msg: T)
      requires ClientOk(View())
      modifies this
      ensures View() == Submit(old(View()), msg) && ClientOk(View())
    {
      if !waiting {
        SendMessage(msg);
      } else {
        pendingNtfns := pendingNtfns + [msg];
      }
      waiting := true;
    }

    method OnReported()
      requires ClientOk(View()) && unanswered > 0
      modifies this
      ensures View() == Report(old(View())) && ClientOk(View())
    {
      unanswered := unanswered - 1;
      if pendingNtfns == [] {
        waiting := false;
        return;
      }
      var msg := pendingNtfns[0];
      pendingNtfns := pendingNtfns[1..];
      SendMessage(msg);
    }
  }
}
