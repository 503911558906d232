/** The installer's event stream: one emitter at a time appends to the backlog
    and offers the event to every subscribed channel; each viewer is sent a
    copy of the backlog, then subscribes, then drains its channel. Every
    operation under the session's lock is one step; steps of different viewers
    interleave freely. */
module EventFanout {
  import opened Wrappers

  const CAPACITY := 16

  /* ---- The stream by positions ---- */

  // An event is named by its position in the backlog.
  datatype Stage =
    | Arrived
    | Sending(upto: nat, sent: nat)     // sending a copy of the first `upto` events
    | Live(queue: seq<nat>)             // subscribed; the channel's content
    | Gone

  // What a viewer got, and what passed it by: events emitted between its copy
  // and its subscription, and events its full channel dropped.
  datatype View = View(stage: Stage, got: seq<nat>, gap: nat, drops: nat)

  datatype State = State(count: nat, views: map<nat, View>)

  datatype Op = Emit | Arrive(v: nat) | Snapshot(v: nat) | Send(v: nat) | Subscribe(v: nat) | Take(v: nat) | Leave(v: nat)

  function Offered(w: View, position: nat): View {
    match w.stage
    case Sending(_, _) => w.(gap := w.gap + 1)
    case Live(queue) =>
      if |queue| < CAPACITY then w.(stage := Live(queue + [position])) else w.(drops := w.drops + 1)
    case _ => w
  }

  function Moved(w: View, count: nat, op: Op): View {
    match (op, w.stage)
    case (Snapshot(_), Arrived) => w.(stage := Sending(count, 0))
    case (Send(_), Sending(upto, sent)) =>
      if sent < upto then w.(stage := Sending(upto, sent + 1), got := w.got + [sent]) else w
    case (Subscribe(_), Sending(upto, sent)) => if sent == upto then w.(stage := Live([])) else w
    case (Take(_), Live(queue)) =>
      if queue == [] then w else w.(stage := Live(queue[1..]), got := w.got + [queue[0]])
    case (Leave(_), _) => w.(stage := Gone)
    case _ => w
  }

  function Step(s: State, op: Op): State {
    match op
    case Emit => State(s.count + 1, map v | v in s.views :: Offered(s.views[v], s.count))
    case Arrive(v) => if v in s.views then s else s.(views := s.views[v := View(Arrived, [], 0, 0)])
    case _ => if op.v in s.views then s.(views := s.views[op.v := Moved(s.views[op.v], s.count, op)]) else s
  }

  function Ran(s: State, ops: seq<Op>): State
    decreases ops
  {
    if ops == [] then s else Ran(Step(s, ops[0]), ops[1..])
  }

  const START := State(0, map[])

  // In order, without repetition, and of the backlog.
  predicate Rising(s: seq<nat>, bound: nat) {
    && (forall i :: 0 <= i < |s| ==> s[i] < bound)
    && (forall i, j :: 0 <= i < j < |s| ==> s[i] < s[j])
  }

  function UpTo(n: nat): seq<nat> { seq(n, i => i) }

  function Queue(w: View): seq<nat> { if w.stage.Live? then w.stage.queue else [] }

  predicate Consistent(w: View, count: nat) {
    && Rising(w.got + Queue(w), count)
    && |Queue(w)| <= CAPACITY
    && match w.stage
       case Arrived => w.got == [] && w.gap == 0 && w.drops == 0
       case Sending(upto, sent) => sent <= upto && w.got == UpTo(sent) && upto + w.gap == count && w.drops == 0
       case Live(queue) => |w.got| + |queue| + w.gap + w.drops == count
       case Gone => true
  }

  predicate AllConsistent(s: State) { forall v :: v in s.views ==> Consistent(s.views[v], s.count) }

  lemma OfferedStays(w: View, count: nat)
    requires Consistent(w, count)
    ensures Consistent(Offered(w, count), count + 1)
  {
    if w.stage.Live? && |w.stage.queue| < CAPACITY {
      assert w.got + (w.stage.queue + [count]) == (w.got + w.stage.queue) + [count];
    }
  }

  lemma MovedStays(w: View, count: nat, op: Op)
    requires Consistent(w, count)
    ensures Consistent(Moved(w, count, op), count)
  {
    if op.Take? && w.stage.Live? && w.stage.queue != [] {
      assert (w.got + [w.stage.queue[0]]) + w.stage.queue[1..] == w.got + w.stage.queue;
    } else if op.Leave? {
      assert w.got + [] == w.got;
      assert forall i :: 0 <= i < |w.got| ==> (w.got + Queue(w))[i] == w.got[i];
    }
  }

  lemma StepStays(s: State, op: Op)
    requires AllConsistent(s)
    ensures AllConsistent(Step(s, op))
  {
    var t := Step(s, op);
    forall v | v in t.views
      ensures Consistent(t.views[v], t.count)
    {
      if op.Emit? {
        OfferedStays(s.views[v], s.count);
      } else if v in s.views && !op.Arrive? && op.v == v {
        MovedStays(s.views[v], s.count, op);
      }
    }
  }

  lemma {:induction false} RunStays(s: State, ops: seq<Op>)
    requires AllConsistent(s)
    ensures AllConsistent(Ran(s, ops))
    decreases ops
  {
    if ops != [] {
      StepStays(s, ops[0]);
      RunStays(Step(s, ops[0]), ops[1..]);
    }
  }

  // Under every interleaving a viewer gets a subsequence of the backlog, in
  // order and without repetition, beginning with its copy.
  lemma ViewersSeeASubsequence(ops: seq<Op>, v: nat)
    requires v in Ran(START, ops).views
    ensures var s := Ran(START, ops); Rising(s.views[v].got, s.count)
  {
    RunStays(START, ops);
    var w := Ran(START, ops).views[v];
    assert forall i :: 0 <= i < |w.got| ==> (w.got + Queue(w))[i] == w.got[i];
  }

  lemma {:induction false} FullIsEverything(s: seq<nat>, n: nat)
    requires Rising(s, n) && |s| == n
    ensures s == UpTo(n)
    decreases n
  {
    if n > 0 {
      var t := s[..n - 1];
      forall i | 0 <= i < |t|
        ensures t[i] < n - 1
      {
        assert s[i] < s[n - 1];
      }
      FullIsEverything(t, n - 1);
      assert s == t + [s[n - 1]];
      assert n > 1 ==> s[n - 2] < s[n - 1];
    }
  }

  // A subscribed viewer misses nothing exactly when no event fell between its
  // copy and its subscription and its channel was never full.
  lemma NothingLostExactly(ops: seq<Op>, v: nat)
    requires v in Ran(START, ops).views && Ran(START, ops).views[v].stage.Live?
    ensures var s := Ran(START, ops);
            var w := s.views[v];
            w.got + w.stage.queue == UpTo(s.count) <==> w.gap == 0 && w.drops == 0
  {
    RunStays(START, ops);
    var s := Ran(START, ops);
    var w := s.views[v];
    if w.gap == 0 && w.drops == 0 {
      FullIsEverything(w.got + w.stage.queue, s.count);
    }
  }

  // An event falling into that gap is lost: copy, event, subscription.
  lemma GapLoses(v: nat)
    ensures var s := Ran(START, [Arrive(v), Snapshot(v), Emit, Subscribe(v), Emit, Take(v)]);
            v in s.views && s.count == 2 && s.views[v].got == [1] && s.views[v].gap == 1
  {
    var s1 := Step(START, Arrive(v));
    var s2 := Step(s1, Snapshot(v));
    var s3 := Step(s2, Emit);
    var s4 := Step(s3, Subscribe(v));
    var s5 := Step(s4, Emit);
    var s6 := Step(s5, Take(v));
    RunsOn(START, Arrive(v), [Snapshot(v), Emit, Subscribe(v), Emit, Take(v)]);
    RunsOn(s1, Snapshot(v), [Emit, Subscribe(v), Emit, Take(v)]);
    RunsOn(s2, Emit, [Subscribe(v), Emit, Take(v)]);
    RunsOn(s3, Subscribe(v), [Emit, Take(v)]);
    RunsOn(s4, Emit, [Take(v)]);
    RunsOn(s5, Take(v), []);
    assert s5.views[v] == View(Live([1]), [], 1, 0);
  }

  lemma RunsOn(s: State, op: Op, rest: seq<Op>)
    ensures Ran(s, [op] + rest) == Ran(Step(s, op), rest)
  {
    assert ([op] + rest)[1..] == rest;
  }

  // An event offered to a channel that holds fewer than 16 is kept, as its last;
  // by a full one it is dropped, and nothing else moves.
  lemma OfferedExactly(w: View, position: nat)
    requires w.stage.Live?
    ensures var t := Offered(w, position);
            if |w.stage.queue| < 16 then t == w.(stage := Live(w.stage.queue + [position])) else t == w.(drops := w.drops + 1)
  {
  }

  function Times(op: Op, n: nat): seq<Op>
    decreases n
  {
    if n == 0 then [] else [op] + Times(op, n - 1)
  }

  // A viewer that drains its channel is written the oldest events it holds.
  lemma {:induction false} TakingDrains(s: State, v: nat, n: nat)
    requires v in s.views && s.views[v].stage.Live? && n <= |s.views[v].stage.queue|
    ensures var t, w := Ran(s, Times(Take(v), n)), s.views[v];
            && t.count == s.count && v in t.views
            && t.views[v] == w.(stage := Live(w.stage.queue[n..]), got := w.got + w.stage.queue[..n])
    decreases n
  {
    var w := s.views[v];
    if n == 0 {
      assert w.got + w.stage.queue[..0] == w.got;
    } else {
      var s1 := Step(s, Take(v));
      RunsOn(s, Take(v), Times(Take(v), n - 1));
      TakingDrains(s1, v, n - 1);
      assert w.stage.queue[1..][n - 1..] == w.stage.queue[n..];
      assert (w.got + [w.stage.queue[0]]) + w.stage.queue[1..][..n - 1] == w.got + w.stage.queue[..n];
    }
  }

  // A viewer that is sent its copy is sent all of it, in order.
  lemma {:induction false} SendingCopies(s: State, v: nat, n: nat)
    requires v in s.views && Consistent(s.views[v], s.count)
    requires s.views[v].stage.Sending? && n == s.views[v].stage.upto - s.views[v].stage.sent
    ensures var t, w := Ran(s, Times(Send(v), n)), s.views[v];
            && t.count == s.count && v in t.views
            && t.views[v] == w.(stage := Sending(w.stage.upto, w.stage.upto), got := UpTo(w.stage.upto))
    decreases n
  {
    if n > 0 {
      var s1 := Step(s, Send(v));
      MovedStays(s.views[v], s.count, Send(v));
      RunsOn(s, Send(v), Times(Send(v), n - 1));
      SendingCopies(s1, v, n - 1);
    }
  }

  lemma {:induction false} RanOver(s: State, a: seq<Op>, b: seq<Op>)
    ensures Ran(s, a + b) == Ran(Ran(s, a), b)
    decreases a
  {
    if a == [] {
      assert a + b == b;
    } else {
      assert (a + b)[1..] == a[1..] + b;
      RanOver(Step(s, a[0]), a[1..], b);
    }
  }

  // So an undisturbed viewer is subscribed with the whole backlog written to it.
  lemma ArrivingGetsTheBacklog(s: State, v: nat)
    requires v !in s.views
    ensures var t := Ran(s, [Arrive(v), Snapshot(v)] + (Times(Send(v), s.count) + [Subscribe(v)]));
            v in t.views && t.count == s.count && t.views[v] == View(Live([]), UpTo(s.count), 0, 0)
  {
    var s1 := Step(s, Arrive(v));
    var s2 := Step(s1, Snapshot(v));
    RunsOn(s, Arrive(v), [Snapshot(v)]);
    RunsOn(s1, Snapshot(v), []);
    assert [Arrive(v), Snapshot(v)] == [Arrive(v)] + ([Snapshot(v)] + []);
    RanOver(s, [Arrive(v), Snapshot(v)], Times(Send(v), s.count) + [Subscribe(v)]);
    RanOver(s2, Times(Send(v), s.count), [Subscribe(v)]);
    assert Consistent(s2.views[v], s2.count) by {
      assert UpTo(0) == [];
    }
    SendingCopies(s2, v, s.count);
    RunsOn(Ran(s2, Times(Send(v), s.count)), Subscribe(v), []);
  }

  /* ---- The session ---- */

  datatype Event = Event(stage: string, state: string, message: string)

  predicate Final(e: Event) { e.state == "failure" || (e.stage == "completed" && e.state == "success") }

  datatype Handler = Waiting | Copying(snapshot: seq<Event>, sent: nat) | Listening | Done

  datatype Channel = Channel(queue: seq<Event>, open: bool)

  function EventsAt(backlog: seq<Event>, positions: seq<nat>): seq<Event>
    requires Rising(positions, |backlog|)
  {
    seq(|positions|, i requires 0 <= i < |positions| => backlog[positions[i]])
  }

  // A viewer as the program has it: its handler, its channel, and what was
  // written to its connection.
  datatype Viewer = Viewer(handler: Handler, channel: Option<Channel>, wire: seq<Event>)

  // They hold the events the viewer's positions name.
  predicate Tied(backlog: seq<Event>, x: Viewer, w: View) {
    && Consistent(w, |backlog|)
    && Rising(w.got, |backlog|) && x.wire == EventsAt(backlog, w.got)
    && match w.stage
       case Arrived => x.handler.Waiting? && x.channel.None?
       case Sending(upto, sent) => x.handler == Copying(backlog[..upto], sent) && x.channel.None?
       case Live(queue) =>
         && x.handler.Listening? && x.channel.Some? && x.channel.value.open
         && Rising(queue, |backlog|) && x.channel.value.queue == EventsAt(backlog, queue)
       case Gone => x.handler.Done? && (x.channel.Some? ==> !x.channel.value.open)
  }

  lemma WireIsRising(w: View, count: nat)
    requires Consistent(w, count)
    ensures Rising(w.got, count) && Rising(Queue(w), count)
  {
    var all := w.got + Queue(w);
    assert forall i :: 0 <= i < |w.got| ==> all[i] == w.got[i];
    assert forall i :: 0 <= i < |Queue(w)| ==> all[|w.got| + i] == Queue(w)[i];
  }

  lemma StillAt(backlog: seq<Event>, e: Event, positions: seq<nat>)
    requires Rising(positions, |backlog|)
    ensures Rising(positions, |backlog| + 1) && EventsAt(backlog + [e], positions) == EventsAt(backlog, positions)
  {
  }

  // Offering an event to a channel: dropped when the channel is full.
  function Given(x: Viewer, e: Event): Viewer {
    if x.channel.Some? && x.channel.value.open && |x.channel.value.queue| < CAPACITY
    then x.(channel := Some(Channel(x.channel.value.queue + [e], true)))
    else x
  }

  lemma LiveAfterEmit(log: seq<Event>, e: Event, x: Viewer, w: View)
    requires Tied(log, x, w) && w.stage.Live?
    ensures Tied(log + [e], Given(x, e), Offered(w, |log|))
  {
    OfferedStays(w, |log|);
    StillAt(log, e, w.got);
    StillAt(log, e, w.stage.queue);
    WireIsRising(Offered(w, |log|), |log| + 1);
  }

  lemma TiedAfterEmit(log: seq<Event>, e: Event, x: Viewer, w: View)
    requires Tied(log, x, w)
    ensures Tied(log + [e], Given(x, e), Offered(w, |log|))
  {
    if w.stage.Live? {
      LiveAfterEmit(log, e, x, w);
    } else {
      IdleAfterEmit(log, e, x, w);
      assert Given(x, e) == x;
    }
  }

  // A viewer that does not listen is not touched by an event.
  lemma IdleAfterEmit(log: seq<Event>, e: Event, x: Viewer, w: View)
    requires Tied(log, x, w) && !w.stage.Live?
    ensures Tied(log + [e], x, Offered(w, |log|))
  {
    OfferedStays(w, |log|);
    StillAt(log, e, w.got);
    if w.stage.Sending? {
      assert (log + [e])[..w.stage.upto] == log[..w.stage.upto];
    }
  }

  predicate AllTied(backlog: seq<Event>, viewers: map<nat, Viewer>, views: map<nat, View>) {
    views.Keys == viewers.Keys && forall v :: v in viewers ==> Tied(backlog, viewers[v], views[v])
  }

  lemma AllTiedAfterMove(backlog: seq<Event>, viewers: map<nat, Viewer>, views: map<nat, View>, v: nat, x: Viewer, w: View)
    requires AllTied(backlog, viewers, views) && Tied(backlog, x, w)
    ensures AllTied(backlog, viewers[v := x], views[v := w])
  {
  }

  lemma AllTiedAfterEmit(log: seq<Event>, e: Event, viewers: map<nat, Viewer>, views: map<nat, View>,
                         after: map<nat, Viewer>, subs: set<nat>)
    requires AllTied(log, viewers, views)
    requires Listed(subs, viewers)
    requires after.Keys == viewers.Keys
    requires forall v :: v in viewers ==> after[v] == if v in subs then Given(viewers[v], e) else viewers[v]
    ensures AllTied(log + [e], after, Step(State(|log|, views), Emit).views)
    ensures Listed(subs, after)
  {
    forall v | v in after
      ensures Tied(log + [e], after[v], Offered(views[v], |log|))
    {
      GivenOrNot(log, e, viewers[v], views[v], v in subs);
    }
    ListedAfterEmit(e, viewers, after, subs);
  }

  lemma ListedAfterEmit(e: Event, viewers: map<nat, Viewer>, after: map<nat, Viewer>, subs: set<nat>)
    requires Listed(subs, viewers)
    requires after.Keys == viewers.Keys
    requires forall v :: v in viewers ==> after[v] == if v in subs then Given(viewers[v], e) else viewers[v]
    ensures Listed(subs, after)
  {
    assert forall v :: v in viewers ==> after[v].handler == viewers[v].handler;
  }

  // A viewer that does not listen has no open channel to be given the event.
  lemma GivenOrNot(log: seq<Event>, e: Event, x: Viewer, w: View, subscribed: bool)
    requires Tied(log, x, w) && (subscribed <==> x.handler.Listening?)
    ensures var y := if subscribed then Given(x, e) else x;
            y.handler == x.handler && Tied(log + [e], y, Offered(w, |log|))
  {
    TiedAfterEmit(log, e, x, w);
    assert !subscribed ==> Given(x, e) == x;
  }

  // The subscribed viewers are those that listen.
  predicate Listed(subs: set<nat>, viewers: map<nat, Viewer>) {
    && (forall v :: v in subs ==> v in viewers && viewers[v].handler.Listening?)
    && (forall v :: v in viewers && viewers[v].handler.Listening? ==> v in subs)
  }

  predicate HasFinal(backlog: seq<Event>) { exists i :: 0 <= i < |backlog| && Final(backlog[i]) }

  lemma ListedAfterMove(subs: set<nat>, viewers: map<nat, Viewer>, v: nat, x: Viewer)
    requires Listed(subs, viewers)
    ensures Listed(if x.handler.Listening? then subs + {v} else subs - {v}, viewers[v := x])
  {
  }

  // What the session holds fits the model.
  predicate Fits(backlog: seq<Event>, viewers: map<nat, Viewer>, subs: set<nat>, s: State) {
    s.count == |backlog| && AllTied(backlog, viewers, s.views) && Listed(subs, viewers)
  }

  lemma FitsAfterMove(backlog: seq<Event>, viewers: map<nat, Viewer>, subs: set<nat>, s: State, v: nat, x: Viewer, op: Op)
    requires !op.Emit? && !op.Arrive? && op.v == v && v in viewers && Fits(backlog, viewers, subs, s)
    requires Tied(backlog, x, Moved(s.views[v], s.count, op))
    ensures Fits(backlog, viewers[v := x], if x.handler.Listening? then subs + {v} else subs - {v}, Step(s, op))
  {
    AllTiedAfterMove(backlog, viewers, s.views, v, x, Moved(s.views[v], s.count, op));
    ListedAfterMove(subs, viewers, v, x);
  }

  lemma FinalAfterEmit(backlog: seq<Event>, e: Event)
    ensures HasFinal(backlog + [e]) <==> HasFinal(backlog) || Final(e)
  {
    var b := backlog + [e];
    assert b[|backlog|] == e;
    if i :| 0 <= i < |backlog| && Final(backlog[i]) {
      assert Final(b[i]);
    }
  }

  class InstallSession {
    var backlog: seq<Event>
    var subs: set<nat>               // the viewers whose channels are subscribed
    var viewers: map<nat, Viewer>
    var terminated: bool
    ghost var model: State

    ghost predicate Valid()
      reads this
    {
      Fits(backlog, viewers, subs, model) && (terminated <==> HasFinal(backlog))
    }

    constructor ()
      ensures Valid() && model == START && backlog == []
    {
      backlog, subs, viewers, terminated := [], {}, map[], false;
      model := START;
    }

    // Sending on a closed channel would panic.
    method Offer(v: nat, e: Event)
      requires v in viewers && viewers[v].channel.Some? && viewers[v].channel.value.open
      modifies `viewers
      ensures viewers == old(viewers)[v := Given(old(viewers)[v], e)]
    {
      var ch := viewers[v].channel.value;
      if |ch.queue| < CAPACITY {
        viewers := viewers[v := viewers[v].(channel := Some(Channel(ch.queue + [e], true)))];
      }
    }

    method OfferAll(e: Event)
      requires forall v :: v in subs ==> v in viewers && viewers[v].channel.Some? && viewers[v].channel.value.open
      modifies `viewers
      ensures viewers.Keys == old(viewers).Keys
      ensures forall v :: v in viewers ==> viewers[v] == if v in subs then Given(old(viewers)[v], e) else old(viewers)[v]
    {
      var rest := subs;
      while rest != {}
        invariant rest <= subs && viewers.Keys == old(viewers).Keys
        invariant forall v :: v in viewers ==>
                    viewers[v] == if v in subs && v !in rest then Given(old(viewers)[v], e) else old(viewers)[v]
      {
        var v :| v in rest;
        Offer(v, e);
        rest := rest - {v};
      }
    }

    method EmitEvent(e: Event)
      requires Valid()
      modifies this
      ensures Valid() && model == Step(old(model), Emit) && backlog == old(backlog) + [e]
      ensures terminated <==> old(terminated) || e.state == "failure" || (e.stage == "completed" && e.state == "success")
    {
      ghost var log, before, were := backlog, model, viewers;
      assert forall v :: v in subs ==> Tied(log, viewers[v], before.views[v]);
      FinalAfterEmit(backlog, e);
      backlog := backlog + [e];
      OfferAll(e);
      terminated := terminated || Final(e);
      model := Step(model, Emit);
      AllTiedAfterEmit(log, e, were, before.views, viewers, subs);
    }

    // One viewer moves; the rest of the session stays as it was.
    method Place(v: nat, x: Viewer, op: Op)
      requires Valid() && !op.Emit? && !op.Arrive? && op.v == v && v in viewers
      requires Tied(backlog, x, Moved(model.views[v], model.count, op))
      modifies `viewers, `subs, `model
      ensures Valid() && model == Step(old(model), op)
      ensures viewers == old(viewers)[v := x]
    {
      FitsAfterMove(backlog, viewers, subs, model, v, x, op);
      viewers := viewers[v := x];
      subs := if x.handler.Listening? then subs + {v} else subs - {v};
      model := Step(model, op);
    }

    method ArriveViewer(v: nat)
      requires Valid() && v !in viewers
      modifies this
      ensures Valid() && model == Step(old(model), Arrive(v)) && backlog == old(backlog)
    {
      viewers := viewers[v := Viewer(Waiting, None, [])];
      model := Step(model, Arrive(v));
    }

    method TakeSnapshot(v: nat)
      requires Valid() && v in viewers && viewers[v].handler.Waiting?
      modifies this
      ensures Valid() && model == Step(old(model), Snapshot(v)) && backlog == old(backlog)
    {
      assert Tied(backlog, viewers[v], model.views[v]);
      assert backlog[..|backlog|] == backlog;
      Place(v, viewers[v].(handler := Copying(backlog, 0)), Snapshot(v));
    }

    method SendNext(v: nat)
      requires Valid() && v in viewers && viewers[v].handler.Copying?
      requires viewers[v].handler.sent < |viewers[v].handler.snapshot|
      modifies this
      ensures Valid() && model == Step(old(model), Send(v)) && backlog == old(backlog)
      ensures v in viewers && viewers[v].wire ==
              old(viewers[v].wire) + [old(viewers[v].handler.snapshot[viewers[v].handler.sent])]
    {
      var x := viewers[v];
      ghost var w := model.views[v];
      assert Tied(backlog, x, w);
      TiedAfterSend(backlog, x, w, v);
      Place(v, Sent(x), Send(v));
    }

    method SubscribeViewer(v: nat)
      requires Valid() && v in viewers && viewers[v].handler.Copying?
      requires viewers[v].handler.sent == |viewers[v].handler.snapshot|
      modifies this
      ensures Valid() && model == Step(old(model), Subscribe(v)) && backlog == old(backlog)
    {
      assert Tied(backlog, viewers[v], model.views[v]);
      TiedAfterSubscribe(backlog, viewers[v], model.views[v], v);
      Place(v, viewers[v].(handler := Listening, channel := Some(Channel([], true))), Subscribe(v));
    }

    method Receive(v: nat)
      requires Valid() && v in viewers && viewers[v].handler.Listening?
      requires viewers[v].channel.Some? && viewers[v].channel.value.queue != []
      modifies this
      ensures Valid() && model == Step(old(model), Take(v)) && backlog == old(backlog)
      ensures v in viewers && viewers[v].wire == old(viewers[v].wire) + [old(viewers[v].channel.value.queue[0])]
    {
      var x := viewers[v];
      ghost var w := model.views[v];
      assert Tied(backlog, x, w);
      TiedAfterTake(backlog, x, w, v);
      Place(v, Taken(x), Take(v));
    }

    // Unsubscribing closes the channel; closing it twice would panic.
    method LeaveViewer(v: nat)
      requires Valid() && v in viewers
      modifies this
      ensures Valid() && model == Step(old(model), Leave(v)) && backlog == old(backlog)
    {
      var x := viewers[v];
      assert Tied(backlog, x, model.views[v]);
      TiedAfterLeave(backlog, x, model.views[v], v);
      if x.handler.Listening? {
        assert x.channel.value.open;
        x := x.(channel := Some(Channel(x.channel.value.queue, false)));
      }
      Place(v, x.(handler := Done), Leave(v));
    }
  }

  function Sent(x: Viewer): Viewer
    requires x.handler.Copying? && x.handler.sent < |x.handler.snapshot|
  {
    x.(handler := Copying(x.handler.snapshot, x.handler.sent + 1), wire := x.wire + [x.handler.snapshot[x.handler.sent]])
  }

  function Taken(x: Viewer): Viewer
    requires x.channel.Some? && x.channel.value.queue != []
  {
    var queue := x.channel.value.queue;
    x.(channel := Some(Channel(queue[1..], x.channel.value.open)), wire := x.wire + [queue[0]])
  }

  function Left(x: Viewer): Viewer {
    if x.handler.Listening? && x.channel.Some?
    then Viewer(Done, Some(Channel(x.channel.value.queue, false)), x.wire)
    else x.(handler := Done)
  }

  lemma TiedAfterSend(backlog: seq<Event>, x: Viewer, w: View, v: nat)
    requires Tied(backlog, x, w) && x.handler.Copying? && x.handler.sent < |x.handler.snapshot|
    ensures Tied(backlog, Sent(x), Moved(w, |backlog|, Send(v)))
  {
    MovedStays(w, |backlog|, Send(v));
    WireIsRising(Moved(w, |backlog|, Send(v)), |backlog|);
  }

  lemma TiedAfterSubscribe(backlog: seq<Event>, x: Viewer, w: View, v: nat)
    requires Tied(backlog, x, w) && x.handler.Copying? && x.handler.sent == |x.handler.snapshot|
    ensures Tied(backlog, x.(handler := Listening, channel := Some(Channel([], true))), Moved(w, |backlog|, Subscribe(v)))
  {
    MovedStays(w, |backlog|, Subscribe(v));
  }

  lemma TiedAfterTake(backlog: seq<Event>, x: Viewer, w: View, v: nat)
    requires Tied(backlog, x, w) && w.stage.Live? && x.channel.value.queue != []
    ensures Tied(backlog, Taken(x), Moved(w, |backlog|, Take(v)))
  {
    MovedStays(w, |backlog|, Take(v));
    WireIsRising(Moved(w, |backlog|, Take(v)), |backlog|);
  }

  lemma TiedAfterLeave(backlog: seq<Event>, x: Viewer, w: View, v: nat)
    requires Tied(backlog, x, w)
    ensures Tied(backlog, Left(x), Moved(w, |backlog|, Leave(v)))
    ensures Left(x).channel.Some? ==> !Left(x).channel.value.open
  {
    MovedStays(w, |backlog|, Leave(v));
  }

  // What such a viewer was sent, with what waits in its channel, is the backlog.
  lemma WireIsBacklog(backlog: seq<Event>, x: Viewer, w: View)
    requires Tied(backlog, x, w) && w.stage.Live? && w.gap == 0 && w.drops == 0
    ensures x.wire + x.channel.value.queue == backlog
  {
    var all := w.got + w.stage.queue;
    FullIsEverything(all, |backlog|);
    forall i | 0 <= i < |backlog|
      ensures (x.wire + x.channel.value.queue)[i] == backlog[i]
    {
      assert all[i] == i;
    }
  }
}
