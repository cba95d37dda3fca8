/** What happens to messages over a whole run.  Every send is written to a log
    with the content its sender held, and every arrival with the content found
    in the receiver's buffer; the log only observes. */
module Delivery {
  import opened IpcState
  import opened IpcSteps

  datatype Packet = Packet(src: nat, dst: nat, content: Message)

  /** What a process asked for when it last called RECEIVE: from whom, and into which buffer. */
  datatype Want = Want(src: int, m: Ptr)

  /** Message number `ticket` arrived at `to`, which had asked for `want`, and
      whose buffer at that address then held `content`. */
  datatype Arrival = Arrival(ticket: nat, to: nat, want: Want, content: Message)

  /** `ticket[p]` numbers the last message `p` sent, `want[p]` is what its last RECEIVE asked for. */
  datatype Logged = Logged(k: State, sent: seq<Packet>, got: seq<Arrival>, ticket: seq<nat>, want: seq<Want>)

  /** What the running process, or the clock, can do next.  `Update` stands for
      what the process manager writes into the table: it leaves the processes
      blocked in a send, and the queues, as they are, and a process waits after
      it only if it did before, or if its slot was free and its parent waits. */
  datatype Event =
    | Send(dest: nat, m: Ptr)
    | Receive(src: int, m: Ptr)
    | Compute(own: Memory)
    | Clock
    | Update(next: State)

  ghost predicate SendersKept(s: State, t: State) {
    && |t.procs| == |s.procs| && |t.mem| == |s.mem| && t.queues == s.queues
    && (forall p: nat :: p < |s.procs| && (s.procs[p].flags.sending || t.procs[p].flags.sending) ==>
          && p < |s.mem| && t.procs[p].flags == s.procs[p].flags && t.procs[p].sendTo == s.procs[p].sendTo
          && t.procs[p].msg == s.procs[p].msg && t.mem[p] == s.mem[p])
  }

  /** Whose call process `p` of `t` is in: its own, or its parent's if the slot has just been filled. */
  function Origin(s: State, t: State, p: nat): int
    requires p < |s.procs| && p < |t.procs|
  {
    if s.procs[p].flags.free && !t.procs[p].flags.free then t.procs[p].parent else p
  }

  ghost predicate WaitersKept(s: State, t: State) {
    && |t.procs| == |s.procs|
    && (forall p: nat :: p < |s.procs| && t.procs[p].flags.receiving ==>
          var o := Origin(s, t, p);
          && 0 <= o < |s.procs| && s.procs[o].flags.receiving
          && t.procs[p].msg == s.procs[o].msg && t.procs[p].recvFrom == s.procs[o].recvFrom)
  }

  /** What everybody asked for, after an update of the table. */
  function Inherited(s: State, t: State, want: seq<Want>): (w: seq<Want>)
    requires |t.procs| == |s.procs| == |want|
    ensures |w| == |want|
  {
    seq(|want|, p requires 0 <= p < |want| =>
      var o := Origin(s, t, p);
      if 0 <= o < |want| then want[o] else want[p])
  }

  ghost predicate Enabled(s: State, e: Event) {
    Inv(s) &&
    match e
    case Send(d, m) => MaySend(s, s.ready, d, m) && exists q :: OtherRunnable(s, s.ready, q)
    case Receive(src, m) => MayReceive(s, s.ready, src, m) && exists q :: OtherRunnable(s, s.ready, q)
    case Compute(own) => true
    case Clock => true
    case Update(t) => Inv(t) && SendersKept(s, t) && WaitersKept(s, t)
  }

  predicate Sized(l: Logged) {
    |l.ticket| == |l.want| == |l.k.procs|
  }

  function LoggedSend(l: Logged, p: nat, d: nat, m: Ptr): Logged
    requires Shaped(l.k) && p < |l.k.procs| && d < |l.k.procs| && Sized(l)
  {
    var t := Stamp(l.k, p, m);
    var k := SysSend(l.k, p, d, m);
    Logged(k,
           l.sent + [Packet(p, d, Load(t.mem[p], m))],
           if Accepts(t.procs, d, p)
           then l.got + [Arrival(|l.sent|, d, l.want[d], Load(k.mem[d], l.want[d].m))] else l.got,
           l.ticket[p := |l.sent|], l.want)
  }

  function LoggedReceive(l: Logged, p: nat, src: int, m: Ptr): Logged
    requires Shaped(l.k) && p < |l.k.procs| && Sized(l)
  {
    var from := Partner(Stamp(l.k, p, m), p, src);
    var k := SysReceive(l.k, p, src, m);
    var want := Want(src, m);
    l.(k := k, want := l.want[p := want],
       got := if from.At? && from.slot < |l.ticket|
              then l.got + [Arrival(l.ticket[from.slot], p, want, Load(k.mem[p], m))] else l.got)
  }

  function Next(l: Logged, e: Event): Logged
    requires Shaped(l.k) && Sized(l) && (e.Send? ==> e.dest < |l.k.procs|)
    requires e.Update? ==> |e.next.procs| == |l.k.procs|
  {
    match e
    case Send(d, m) => LoggedSend(l, l.k.ready, d, m)
    case Receive(src, m) => LoggedReceive(l, l.k.ready, src, m)
    case Compute(own) => l.(k := l.k.(mem := l.k.mem[l.k.ready := own]))
    case Clock => l.(k := Tick(l.k))
    case Update(t) => l.(k := t, want := Inherited(l.k, t, l.want))
  }

  // ---- What the log says

  ghost predicate Delivered(got: seq<Arrival>, i: nat) {
    exists g: nat :: g < |got| && got[g].ticket == i
  }

  lemma DeliveredToo(got: seq<Arrival>, a: Arrival, i: nat)
    ensures Delivered(got + [a], i) <==> Delivered(got, i) || a.ticket == i
  {
    var more := got + [a];
    if g: nat :| g < |more| && more[g].ticket == i {
      assert g < |got| ==> got[g].ticket == i;
    }
    if g: nat :| g < |got| && got[g].ticket == i {
      assert more[g].ticket == i;
    }
    assert more[|got|] == a;
  }

  /** Message `i` is the one its sender is blocked with, and the sender's buffer
      still holds what was sent. */
  ghost predicate Pending(l: Logged, i: nat)
    requires i < |l.sent|
  {
    var p := l.sent[i].src;
    && Sends(l.k.procs, p, l.sent[i].dst) && p < |l.ticket| && l.ticket[p] == i
    && p < |l.k.mem| && Load(l.k.mem[p], l.k.procs[p].msg) == l.sent[i].content
  }

  ghost predicate Faithful(l: Logged, g: nat)
    requires g < |l.got|
  {
    var a := l.got[g];
    && a.ticket < |l.sent| && a.to == l.sent[a.ticket].dst && a.content == l.sent[a.ticket].content
    && (a.want.src == l.sent[a.ticket].src || a.want.src == Any(|l.k.procs|))
  }

  /** Every logged message names its sender, in the log and in its content. */
  ghost predicate Authentic(l: Logged) {
    forall i: nat :: i < |l.sent| ==> l.sent[i].src < |l.k.procs| && l.sent[i].content.source == l.sent[i].src
  }

  /** Every arrival is a logged message, reached its destination, which had asked
      for it, and stood with its content where the receiver had said; and no
      message arrives twice. */
  ghost predicate ArrivesOnce(l: Logged) {
    && (forall g: nat :: g < |l.got| ==> Faithful(l, g))
    && (forall g: nat, h: nat :: g < h < |l.got| ==> l.got[g].ticket != l.got[h].ticket)
  }

  /** A message that has not arrived is still held by its blocked sender, and
      every blocked sender holds one. */
  ghost predicate NothingLost(l: Logged) {
    && (forall i: nat :: i < |l.sent| ==> (Pending(l, i) <==> !Delivered(l.got, i)))
    && (forall p: nat :: p < |l.k.procs| && p < |l.ticket| && l.k.procs[p].flags.sending ==>
          l.ticket[p] < |l.sent| && l.sent[l.ticket[p]].src == p && Pending(l, l.ticket[p]))
  }

  /** A process that waits, waits for what it asked for. */
  ghost predicate WaitsAsAsked(l: Logged) {
    forall p: nat :: p < |l.k.procs| && p < |l.want| && l.k.procs[p].flags.receiving ==>
      l.k.procs[p].recvFrom == l.want[p].src && l.k.procs[p].msg == l.want[p].m
  }

  ghost predicate LogOk(l: Logged) {
    && Inv(l.k) && Sized(l)
    && Authentic(l) && ArrivesOnce(l) && NothingLost(l) && QueuesInOrder(l) && WaitsAsAsked(l)
  }

  ghost predicate InOrder(q: seq<nat>, ticket: seq<nat>) {
    && (forall a: nat :: a < |q| ==> q[a] < |ticket|)
    && (forall a: nat, b: nat :: a < b < |q| ==> ticket[q[a]] < ticket[q[b]])
  }

  /** Every queue is in order of sending. */
  ghost predicate QueuesInOrder(l: Logged) {
    forall d: nat :: d < |l.k.queues| ==> InOrder(l.k.queues[d], l.ticket)
  }

  lemma EnabledKeepsInv(l: Logged, e: Event)
    requires Enabled(l.k, e) && Sized(l)
    ensures Inv(Next(l, e).k)
  {
    match e
    case Send(d, m) =>
      var q :| OtherRunnable(l.k, l.k.ready, q);
      SendKeepsInv(l.k, l.k.ready, d, m, q);
    case Receive(src, m) =>
      var q :| OtherRunnable(l.k, l.k.ready, q);
      ReceiveKeepsInv(l.k, l.k.ready, src, m, q);
    case Compute(own) =>
    case Clock => TickKeepsInv(l.k);
    case Update(t) =>
  }

  /** A step that sends and delivers nothing and leaves blocked senders alone. */
  lemma QuietKeepsLog(l: Logged, t: State, want: seq<Want>)
    requires LogOk(l) && Inv(t) && SendersKept(l.k, t) && |want| == |t.procs| && WaitsAsAsked(l.(k := t, want := want))
    ensures LogOk(l.(k := t, want := want))
  {
    var l' := l.(k := t, want := want);
    forall i: nat | i < |l.sent| ensures Pending(l', i) <==> Pending(l, i) {
    }
    forall g: nat | g < |l.got| ensures Faithful(l', g) {
      assert Faithful(l, g);
    }
  }

  /** Another message in the log leaves the earlier arrivals faithful. */
  lemma SentMoreKeepsArrivals(l: Logged, l': Logged)
    requires ArrivesOnce(l) && l'.got == l.got && l.sent <= l'.sent && |l'.k.procs| == |l.k.procs|
    ensures ArrivesOnce(l')
  {
    forall g: nat | g < |l.got| ensures Faithful(l', g) {
      assert Faithful(l, g);
    }
  }

  /** One more arrival, of a message not delivered before. */
  lemma OneMoreArrival(l: Logged, l': Logged, a: Arrival)
    requires ArrivesOnce(l) && l'.got == l.got + [a] && l'.sent == l.sent && !Delivered(l.got, a.ticket)
    requires |l'.k.procs| == |l.k.procs|
    requires a.ticket < |l.sent| && (a.want.src == l.sent[a.ticket].src || a.want.src == Any(|l.k.procs|))
    requires a.ticket < |l.sent| && a.to == l.sent[a.ticket].dst && a.content == l.sent[a.ticket].content
    ensures ArrivesOnce(l')
  {
    forall g: nat | g < |l'.got| ensures Faithful(l', g) {
      assert g < |l.got| ==> Faithful(l, g);
    }
    forall g: nat | g < |l.got| ensures l.got[g].ticket != a.ticket {
    }
  }

  lemma SendDeliversKeepsLog(l: Logged, d: nat, m: Ptr)
    requires LogOk(l) && Enabled(l.k, Send(d, m)) && Accepts(l.k.procs, d, l.k.ready)
    ensures LogOk(Next(l, Send(d, m)))
  {
    EnabledKeepsInv(l, Send(d, m));
    var p := l.k.ready;
    var l' := Next(l, Send(d, m));
    var i0 := |l.sent|;
    var a := l'.got[|l.got|];
    assert l'.got == l.got + [a] && a.ticket == i0;
    var mid := l.(sent := l'.sent);
    SentMoreKeepsArrivals(l, mid);
    forall g: nat | g < |l.got| ensures l.got[g].ticket < i0 {
      assert Faithful(l, g);
    }
    OneMoreArrival(mid, l', a);
    forall i: nat | i < |l'.sent| ensures Pending(l', i) <==> !Delivered(l'.got, i) {
      DeliveredToo(l.got, a, i);
      assert i < i0 ==> (Pending(l', i) <==> Pending(l, i));
    }
    SendKeepsOrder(l, d, m);
  }

  lemma SendBlocksKeepsLog(l: Logged, d: nat, m: Ptr)
    requires LogOk(l) && Enabled(l.k, Send(d, m)) && !Accepts(l.k.procs, d, l.k.ready)
    ensures LogOk(Next(l, Send(d, m)))
  {
    EnabledKeepsInv(l, Send(d, m));
    var l' := Next(l, Send(d, m));
    var i0 := |l.sent|;
    SentMoreKeepsArrivals(l, l');
    forall g: nat | g < |l.got| ensures l.got[g].ticket < i0 {
      assert Faithful(l, g);
    }
    forall i: nat | i < |l'.sent| ensures Pending(l', i) <==> !Delivered(l'.got, i) {
      assert i < i0 ==> (Pending(l', i) <==> Pending(l, i));
    }
    SendKeepsOrder(l, d, m);
  }

  /** A new ticket for a process outside the queue, which may then join it. */
  lemma OrderKept(q: seq<nat>, ticket: seq<nat>, p: nat, i: nat)
    requires InOrder(q, ticket) && p < |ticket| && p !in q && forall a: nat :: a < |q| ==> ticket[q[a]] < i
    ensures InOrder(q, ticket[p := i]) && InOrder(q + [p], ticket[p := i])
  {
    assert forall a: nat :: a < |q| ==> q[a] != p;
  }

  lemma SendKeepsOrder(l: Logged, d: nat, m: Ptr)
    requires LogOk(l) && Enabled(l.k, Send(d, m))
    ensures QueuesInOrder(Next(l, Send(d, m)))
  {
    var p := l.k.ready;
    var l' := Next(l, Send(d, m));
    forall e: nat | e < |l'.k.queues| ensures InOrder(l'.k.queues[e], l'.ticket) {
      var q := l.k.queues[e];
      assert InOrder(q, l.ticket);
      forall a: nat | a < |q| ensures l.ticket[q[a]] < |l.sent| && q[a] != p {
        assert q[a] in q;
      }
      OrderKept(q, l.ticket, p, |l.sent|);
    }
  }

  lemma ReceiveKeepsLog(l: Logged, src: int, m: Ptr)
    requires LogOk(l) && Enabled(l.k, Receive(src, m))
    ensures LogOk(Next(l, Receive(src, m)))
  {
    EnabledKeepsInv(l, Receive(src, m));
    var p := l.k.ready;
    var l' := Next(l, Receive(src, m));
    var t := Stamp(l.k, p, m);
    StampKeepsInv(l.k, p, m);
    PartnerSends(t, p, src, m);
    var from := Partner(t, p, src);
    if from.Null? {
      QuietKeepsLog(l, l'.k, l'.want);
    } else {
      TakeKeepsLog(l, src, m, from.slot);
      TakeKeepsOrder(l, src, m, from.slot);
    }
  }

  lemma TakeKeepsLog(l: Logged, src: int, m: Ptr, f: nat)
    requires LogOk(l) && Enabled(l.k, Receive(src, m)) && Sends(l.k.procs, f, l.k.ready)
    requires Partner(Stamp(l.k, l.k.ready, m), l.k.ready, src) == At(f)
    ensures var l' := Next(l, Receive(src, m)); Authentic(l') && ArrivesOnce(l') && NothingLost(l')
  {
    var p := l.k.ready;
    var l' := Next(l, Receive(src, m));
    var i0 := l.ticket[f];
    assert Pending(l, i0) && !Delivered(l.got, i0);
    var a := l'.got[|l.got|];
    assert l'.got == l.got + [a] && a.ticket == i0 && a.to == p;
    OneMoreArrival(l, l', a);
    forall i: nat | i < |l'.sent| ensures Pending(l', i) <==> !Delivered(l'.got, i) {
      DeliveredToo(l.got, a, i);
      assert Pending(l', i) <==> Pending(l, i) && i != i0;
    }
  }

  lemma OrderWithout(q: seq<nat>, ticket: seq<nat>, f: nat)
    requires InOrder(q, ticket) && Distinct(q) && f in q
    ensures InOrder(Without(q, f), ticket)
  {
    var i :| 0 <= i < |q| && q[i] == f;
    WithoutAt(q, i);
    var w := Without(q, f);
    forall a: nat | a < |w| ensures w[a] == q[if a < i then a else a + 1] {
    }
  }

  lemma TakeKeepsOrder(l: Logged, src: int, m: Ptr, f: nat)
    requires LogOk(l) && Enabled(l.k, Receive(src, m)) && Sends(l.k.procs, f, l.k.ready)
    requires Partner(Stamp(l.k, l.k.ready, m), l.k.ready, src) == At(f)
    ensures QueuesInOrder(Next(l, Receive(src, m)))
  {
    var p := l.k.ready;
    var l' := Next(l, Receive(src, m));
    assert f in l.k.queues[p];
    OrderWithout(l.k.queues[p], l.ticket, f);
    forall e: nat | e < |l'.k.queues| ensures InOrder(l'.k.queues[e], l'.ticket) {
      assert InOrder(l.k.queues[e], l.ticket);
    }
  }

  // ---- Runs

  ghost predicate Steps(run: seq<Logged>, i: nat)
    requires i + 1 < |run|
  {
    exists e: Event :: Enabled(run[i].k, e) && Sized(run[i]) && run[i + 1] == Next(run[i], e)
  }

  ghost predicate Run(run: seq<Logged>) {
    && |run| > 0 && Inv(run[0].k) && run[0].sent == [] && run[0].got == []
    && Sized(run[0])
    && (forall p: nat :: p < |run[0].k.procs| ==>
          !run[0].k.procs[p].flags.sending && !run[0].k.procs[p].flags.receiving)
    && (forall d: nat :: d < |run[0].k.queues| ==> run[0].k.queues[d] == [])
    && (forall i: nat {:trigger Steps(run, i)} :: i + 1 < |run| ==> Steps(run, i))
  }

  lemma StepKeepsLog(l: Logged, e: Event)
    requires LogOk(l) && Enabled(l.k, e)
    ensures LogOk(Next(l, e))
  {
    match e
    case Send(d, m) =>
      if Accepts(l.k.procs, d, l.k.ready) {
        SendDeliversKeepsLog(l, d, m);
      } else {
        SendBlocksKeepsLog(l, d, m);
      }
    case Receive(src, m) => ReceiveKeepsLog(l, src, m);
    case Compute(own) => QuietKeepsLog(l, Next(l, e).k, l.want);
    case Clock =>
      TickKeepsInv(l.k);
      QuietKeepsLog(l, Next(l, e).k, l.want);
    case Update(t) => QuietKeepsLog(l, t, Inherited(l.k, t, l.want));
  }

  /** In every state of every run the log is in order. */
  lemma {:induction false} RunKeepsLog(run: seq<Logged>, i: nat)
    requires Run(run) && i < |run|
    ensures LogOk(run[i])
  {
    if i > 0 {
      RunKeepsLog(run, i - 1);
      assert Steps(run, i - 1);
      var e: Event :| Enabled(run[i - 1].k, e) && run[i] == Next(run[i - 1], e);
      StepKeepsLog(run[i - 1], e);
    }
  }

  // ---- Order

  /** A receive from `ANY` takes the oldest message waiting for the receiver. */
  lemma AnyTakesOldest(l: Logged, m: Ptr, x: nat)
    requires LogOk(l) && Enabled(l.k, Receive(Any(|l.k.procs|), m)) && Sends(l.k.procs, x, l.k.ready)
    ensures var l' := Next(l, Receive(Any(|l.k.procs|), m));
            && |l'.got| == |l.got| + 1 && l'.got[|l.got|].ticket <= l.ticket[x]
            && l'.got[|l.got|].to == l.k.ready
  {
    var q := l.k.queues[l.k.ready];
    assert x in q;
    var i :| 0 <= i < |q| && q[i] == x;
    assert InOrder(q, l.ticket);
  }

  lemma PlaceAfterRemoval(q: seq<nat>, y: nat, i: nat, j: nat)
    requires Distinct(q) && y in q && i < |q|
    requires j < |Without(q, y)| && Without(q, y)[j] == q[i]
    ensures j <= i
  {
    var k :| 0 <= k < |q| && q[k] == y;
    WithoutAt(q, k);
    assert Without(q, y)[j] == q[if j < k then j else j + 1];
  }

  /** While a process stays blocked with one message, its place in the queue
      never grows, whatever happens next. */
  lemma PlaceNeverGrows(l: Logged, e: Event, d: nat, i: nat, j: nat)
    requires Inv(l.k) && Sized(l) && Enabled(l.k, e)
    requires d < |l.k.queues| && i < |l.k.queues[d]|
    requires j < |Next(l, e).k.queues[d]| && Next(l, e).k.queues[d][j] == l.k.queues[d][i]
    ensures j <= i
  {
    var q := l.k.queues[d];
    var p := l.k.ready;
    assert Distinct(q) && p !in q && q[i] in q;
    if e.Receive? {
      var t := Stamp(l.k, p, e.m);
      StampKeepsInv(l.k, p, e.m);
      PartnerSends(t, p, e.src, e.m);
      var from := Partner(t, p, e.src);
      if from.At? && d == p {
        assert from.slot in q;
        PlaceAfterRemoval(q, from.slot, i, j);
      }
    }
  }
}
