/** The halo exchange as a protocol of ranks over message channels (src/core/HaloExchanger.cpp:
    199-281): every rank runs the same sequence of exchanges, each posting its receives, packing,
    sending, waiting for everything and unpacking.  Channels deliver in order per source,
    destination and tag (section 3.5 of MPI 3.1).  Any interleaving gives what a lock-step
    execution gives, and none gets stuck. */
module HaloProtocol {
  import opened Decomposition

  /** One exchange: its active directions. */
  datatype Call = Call(dirs: set<Dir>, wide: bool)

  /** What the ranks run: work between the exchanges, and the packing and unpacking of each.  F is
      a rank's fields, M a message's data. */
  datatype Program<!F, !M> = Program(l: Layout, calls: seq<Call>, init: nat -> F, compute: (nat, nat, F) -> F,
                                     pack: (nat, nat, Dir, F) -> M, unpack: (nat, nat, F, map<Dir, M>) -> F)
  {
    ghost predicate Ok() {
      l.Ok() && forall c, d :: 0 <= c < |calls| && d in calls[c].dirs ==> Opposite(d) in calls[c].dirs
    }
  }

  /** The directions rank r exchanges over in call c. */
  function Active<F, M>(p: Program<F, M>, r: nat, c: nat): set<Dir>
    requires p.l.px > 0
  {
    set d: Dir | 0 <= c < |p.calls| && d in p.calls[c].dirs && p.l.Neighbor(r, d) != NULL_RANK
  }

  function Index(d: Dir): nat {
    match d
    case West => 0
    case East => 1
    case South => 2
    case North => 3
  }

  /** A receive's tag, and the tag a send toward d carries. */
  function Tag(d: Dir): nat { 200 + Index(d) }
  function PairTag(d: Dir): nat { 200 + Index(Opposite(d)) }

  lemma TagsPair(d: Dir, e: Dir)
    ensures PairTag(Opposite(d)) == Tag(d) && Opposite(Opposite(d)) == d
    ensures Tag(d) == Tag(e) ==> d == e
  {
  }

  // ----- states and steps

  /** A message; the number of the exchange it belongs to is not sent, only tracked. */
  datatype Message<M> = Message(call: nat, data: M)

  /** A rank before an exchange, or inside one: directions not yet sent, receives not yet
      completed, and what the completed ones delivered. */
  datatype Local<F, M> =
    | Idle(call: nat, field: F)
    | Busy(call: nat, field: F, unsent: set<Dir>, missing: set<Dir>, got: map<Dir, M>)

  type Net<!M> = (int, int, int) -> seq<Message<M>>

  datatype State<!F, !M> = State(ranks: seq<Local<F, M>>, net: Net<M>)

  datatype Step = Start(r: nat) | Send(r: nat, d: Dir) | Receive(r: nat, d: Dir) | Finish(r: nat)

  ghost predicate Shaped<F, M>(p: Program<F, M>, s: State<F, M>) { p.Ok() && |s.ranks| == p.l.Size() }

  /** Whether a message of call c toward d is still on its way. */
  ghost predicate Unconsumed<F, M>(p: Program<F, M>, s: State<F, M>, r: nat, c: nat, d: Dir)
    requires p.l.px > 0
  {
    p.l.Neighbor(r, d) >= 0 && exists k :: 0 <= k < |s.net(r, p.l.Neighbor(r, d), PairTag(d))|
                                           && s.net(r, p.l.Neighbor(r, d), PairTag(d))[k].call == c
  }

  /** Which sends may complete before they are received: the implementation's choice. */
  type Buffering = (nat, nat, Dir) -> bool

  ghost predicate Enabled<F, M>(p: Program<F, M>, s: State<F, M>, t: Step, buffered: Buffering)
    requires Shaped(p, s)
  {
    && t.r < |s.ranks|
    && var me := s.ranks[t.r];
       match t
       case Start(_) => me.Idle? && me.call < |p.calls|
       case Send(r, d) => me.Busy? && d in me.unsent && p.l.Neighbor(r, d) >= 0
       case Receive(r, d) => me.Busy? && d in me.missing && p.l.Neighbor(r, d) >= 0
         && s.net(p.l.Neighbor(r, d), r, Tag(d)) != []
       case Finish(r) =>
         me.Busy? && me.unsent == {} && me.missing == {}
         && forall d :: d in Active(p, r, me.call) ==> buffered(r, me.call, d) || !Unconsumed(p, s, r, me.call, d)
  }

  function With<M>(net: Net<M>, src: int, dst: int, tag: int, q: seq<Message<M>>): Net<M> {
    (a, b, t) => if a == src && b == dst && t == tag then q else net(a, b, t)
  }

  ghost function After<F, M>(p: Program<F, M>, s: State<F, M>, t: Step, buffered: Buffering): State<F, M>
    requires Shaped(p, s) && Enabled(p, s, t, buffered)
  {
    var me := s.ranks[t.r];
    match t
    case Start(r) =>
      s.(ranks :=
         s.ranks[r := Busy(me.call, p.compute(r, me.call, me.field), Active(p, r, me.call), Active(p, r, me.call),
                           map[])])
    case Send(r, d) =>
      var n := p.l.Neighbor(r, d);
      State(s.ranks[r := me.(unsent := me.unsent - {d})],
            With(s.net, r, n, PairTag(d), s.net(r, n, PairTag(d))
                 + [Message(me.call, p.pack(r, me.call, d, me.field))]))
    case Receive(r, d) =>
      var n := p.l.Neighbor(r, d);
      var q := s.net(n, r, Tag(d));
      State(s.ranks[r := me.(missing := me.missing - {d}, got := me.got[d := q[0].data])],
            With(s.net, n, r, Tag(d), q[1..]))
    case Finish(r) => s.(ranks := s.ranks[r := Idle(me.call + 1, p.unpack(r, me.call, me.field, me.got))])
  }

  ghost predicate Initial<F, M>(p: Program<F, M>, s: State<F, M>) {
    Shaped(p, s) && (forall r :: 0 <= r < |s.ranks| ==> s.ranks[r] == Idle(0, p.init(r))) && forall a, b, t ::
      s.net(a, b, t) == []
  }

  ghost predicate IsRun<F, M>(p: Program<F, M>, run: seq<State<F, M>>, steps: seq<Step>, buffered: Buffering) {
    && |run| == |steps| + 1 && Initial(p, run[0])
    && forall n :: 0 <= n < |steps| ==> Shaped(p, run[n]) && Enabled(p, run[n], steps[n], buffered)
                                        && run[n + 1] == After(p, run[n], steps[n], buffered)
  }

  // ----- the lock-step reference

  /** Rank r's fields after c exchanges when all ranks move together. */
  ghost function Lockstep<F, M>(p: Program<F, M>, c: nat, r: nat): F
    requires p.Ok()
    decreases c, 0
  {
    if c == 0 then p.init(r)
    else p.unpack(r, c - 1, Prepared(p, c - 1, r), Delivery(p, c - 1, r))
  }

  ghost function Prepared<F, M>(p: Program<F, M>, c: nat, r: nat): F
    requires p.Ok()
    decreases c, 1
  {
    p.compute(r, c, Lockstep(p, c, r))
  }

  ghost function Payload<F, M>(p: Program<F, M>, c: nat, r: nat, d: Dir): M
    requires p.Ok()
    decreases c, 2
  {
    p.pack(r, c, d, Prepared(p, c, r))
  }

  ghost function Delivery<F, M>(p: Program<F, M>, c: nat, r: nat): map<Dir, M>
    requires p.Ok()
    decreases c, 3
  {
    map d | d in Active(p, r, c) :: Payload(p, c, if p.l.Neighbor(r, d) >= 0 then p.l.Neighbor(r, d)
                                            else 0, Opposite(d))
  }

  // ----- the invariant

  /** The messages rank n sends toward d in calls [lo, hi). */
  ghost function Pending<F, M>(p: Program<F, M>, n: nat, d: Dir, lo: nat, hi: nat): seq<Message<M>>
    requires p.Ok()
    decreases hi
  {
    if lo >= hi then []
    else Pending(p, n, d, lo, hi - 1)
         + if d in Active(p, n, hi - 1) then [Message(hi - 1, Payload(p, hi - 1, n, d))] else []
  }

  /** The first call a rank has not sent toward d, or not received from d. */
  function SentTo<F, M>(me: Local<F, M>, d: Dir): nat { if me.Idle? || d in me.unsent then me.call else me.call + 1 }
  function ReceivedFrom<F, M>(me: Local<F, M>, d: Dir): nat {
    if me.Idle? || d in me.missing then me.call else me.call + 1
  }

  ghost predicate LocalOk<F, M>(p: Program<F, M>, r: nat, me: Local<F, M>)
    requires p.Ok()
  {
    && me.call <= |p.calls|
    && (me.Idle? ==> me.field == Lockstep(p, me.call, r))
    && (me.Busy? ==>
          && me.call < |p.calls| && me.field == Prepared(p, me.call, r)
          && me.unsent <= Active(p, r, me.call) && me.missing <= Active(p, r, me.call)
          && me.got.Keys == Active(p, r, me.call) - me.missing
          && forall d :: d in me.got ==> me.got[d] == Delivery(p, me.call, r)[d])
  }

  /** The channel into r from its neighbour n toward d holds exactly the messages n has sent and r
      has not received. */
  ghost predicate ChannelOk<F, M>(p: Program<F, M>, s: State<F, M>, r: nat, d: Dir)
    requires Shaped(p, s) && r < |s.ranks|
  {
    var n := p.l.Neighbor(r, d);
    0 <= n < |s.ranks| ==>
      var lo, hi := ReceivedFrom(s.ranks[r], d), SentTo(s.ranks[n], Opposite(d));
      && s.net(n, r, Tag(d)) == Pending(p, n, Opposite(d), lo, hi)
      && forall k :: hi <= k < lo ==> Opposite(d) !in Active(p, n, k)
  }

  ghost predicate Inv<F, M>(p: Program<F, M>, s: State<F, M>) {
    && Shaped(p, s)
    && (forall r :: 0 <= r < |s.ranks| ==> LocalOk(p, r, s.ranks[r]))
    && (forall r, d :: 0 <= r < |s.ranks| ==> ChannelOk(p, s, r, d))
  }

  /** Both ends of a face are active in the same calls. */
  lemma ActiveMirrors<F, M>(p: Program<F, M>, r: nat, d: Dir, c: nat)
    requires p.Ok() && r < p.l.Size() && p.l.Neighbor(r, d) != NULL_RANK
    ensures 0 <= p.l.Neighbor(r, d) < p.l.Size() && p.l.Neighbor(p.l.Neighbor(r, d), Opposite(d)) == r
    ensures Opposite(d) in Active(p, p.l.Neighbor(r, d), c) <==> d in Active(p, r, c)
  {
    NeighborsMirror(p.l, r, d);
    TagsPair(d, d);
  }

  lemma {:induction false} PendingFirst<F, M>(p: Program<F, M>, n: nat, d: Dir, lo: nat, hi: nat)
    requires p.Ok() && lo < hi
    ensures Pending(p, n, d, lo, hi)
            == (if d in Active(p, n, lo) then [Message(lo, Payload(p, lo, n, d))] else [])
              + Pending(p, n, d, lo + 1, hi)
    decreases hi
  {
    if lo + 1 < hi { PendingFirst(p, n, d, lo, hi - 1); }
  }

  lemma {:induction false} PendingCalls<F, M>(p: Program<F, M>, n: nat, d: Dir, lo: nat, hi: nat)
    requires p.Ok()
    ensures forall k :: 0 <= k < |Pending(p, n, d, lo, hi)| ==> lo <= Pending(p, n, d, lo, hi)[k].call < hi
    ensures (forall k :: lo <= k < hi ==> d !in Active(p, n, k)) ==> Pending(p, n, d, lo, hi) == []
    decreases hi
  {
    if lo < hi { PendingCalls(p, n, d, lo, hi - 1); }
  }

  lemma InitialInv<F, M>(p: Program<F, M>, s: State<F, M>)
    requires Initial(p, s)
    ensures Inv(p, s)
  {
  }

  // ----- every step keeps it

  lemma StartKeeps<F, M>(p: Program<F, M>, s: State<F, M>, r: nat, b: Buffering)
    requires Inv(p, s) && Enabled(p, s, Start(r), b)
    ensures Inv(p, After(p, s, Start(r), b))
  {
    var s' := After(p, s, Start(r), b);
    forall q, d | 0 <= q < |s'.ranks| ensures ChannelOk(p, s', q, d) {
      assert ChannelOk(p, s, q, d);
      var n := p.l.Neighbor(q, d);
      if 0 <= n < |s.ranks| {
        ActiveMirrors(p, q, d, s.ranks[q].call);
        StartChannel(p, s, s', r, q, d, n, b);
      }
    }
  }

  /** Calls that do not use a channel do not matter to it. */
  lemma PendingSkips<F, M>(p: Program<F, M>, n: nat, o: Dir, lo: nat, hi: nat)
    requires p.Ok()
    ensures o !in Active(p, n, lo) ==> Pending(p, n, o, lo + 1, hi) == Pending(p, n, o, lo, hi)
    ensures o !in Active(p, n, hi) ==> Pending(p, n, o, lo, hi + 1) == Pending(p, n, o, lo, hi)
  {
    if lo < hi { PendingFirst(p, n, o, lo, hi); }
  }

  /** Starting a call moves a channel's ends only past calls that do not use it. */
  lemma StartChannel<F, M>(p: Program<F, M>, s: State<F, M>, s': State<F, M>, r: nat, q: nat, d: Dir, n: nat,
                           b: Buffering)
    requires Shaped(p, s) && q < |s.ranks| && ChannelOk(p, s, q, d) && Enabled(p, s, Start(r), b)
             && s' == After(p, s, Start(r), b)
    requires n == p.l.Neighbor(q, d) && n < |s.ranks| && p.l.Neighbor(n, Opposite(d)) == q
    requires Opposite(d) in Active(p, n, s.ranks[q].call) <==> d in Active(p, q, s.ranks[q].call)
    ensures ChannelOk(p, s', q, d)
  {
    hide Lockstep, Prepared, Payload, Delivery, Pending, Layout.Neighbor, Active, Program.Ok, Layout.Ok;
    ApartRanks(p, q, d);
    var o := Opposite(d);
    var lo, hi := ReceivedFrom(s.ranks[q], d), SentTo(s.ranks[n], o);
    PendingSkips(p, n, o, lo, hi);
  }

  lemma ApartRanks<F, M>(p: Program<F, M>, r: nat, d: Dir)
    requires p.Ok()
    ensures p.l.Neighbor(r, d) != r
  {
    Apart(p.l, r, d);
  }

  lemma Apart(l: Layout, r: nat, d: Dir)
    requires l.Ok()
    ensures l.Neighbor(r, d) != r
  {
  }

  lemma SendKeeps<F, M>(p: Program<F, M>, s: State<F, M>, r: nat, e: Dir, b: Buffering)
    requires Inv(p, s) && Enabled(p, s, Send(r, e), b)
    ensures Inv(p, After(p, s, Send(r, e), b))
  {
    var s' := After(p, s, Send(r, e), b);
    forall q | 0 <= q < |s'.ranks| ensures LocalOk(p, q, s'.ranks[q]) { assert LocalOk(p, q, s.ranks[q]); }
    forall q, d | 0 <= q < |s'.ranks| ensures ChannelOk(p, s', q, d) {
      assert ChannelOk(p, s, q, d);
      SendChannel(p, s, s', r, e, q, d, b);
    }
  }

  lemma SendChannel<F, M>(p: Program<F, M>, s: State<F, M>, s': State<F, M>, r: nat, e: Dir, q: nat, d: Dir,
                          b: Buffering)
    requires Inv(p, s) && Enabled(p, s, Send(r, e), b) && s' == After(p, s, Send(r, e), b)
    requires q < |s.ranks| && ChannelOk(p, s, q, d)
    ensures ChannelOk(p, s', q, d)
  {
    var n, c := p.l.Neighbor(q, d), s.ranks[r].call;
    if 0 <= n < |s.ranks| {
      ActiveMirrors(p, q, d, c);
      ActiveMirrors(p, r, e, c);
      TagsPair(d, Opposite(e));
      TagsPair(Opposite(d), e);
      assert LocalOk(p, r, s.ranks[r]);
      assert ReceivedFrom(s'.ranks[q], d) == ReceivedFrom(s.ranks[q], d);
      if n == r && Opposite(d) == e {
        var lo := ReceivedFrom(s.ranks[q], d);
        assert lo <= c;
        assert s'.net(r, q, Tag(d)) == Pending(p, r, e, lo, c) + [Message(c, Payload(p, c, r, e))];
        assert Pending(p, r, e, lo, c + 1) == Pending(p, r, e, lo, c) + [Message(c, Payload(p, c, r, e))];
      } else {
        assert s'.net(n, q, Tag(d)) == s.net(n, q, Tag(d));
        assert SentTo(s'.ranks[n], Opposite(d)) == SentTo(s.ranks[n], Opposite(d));
      }
    }
  }

  lemma ReceiveKeeps<F, M>(p: Program<F, M>, s: State<F, M>, r: nat, e: Dir, b: Buffering)
    requires Inv(p, s) && Enabled(p, s, Receive(r, e), b)
    ensures Inv(p, After(p, s, Receive(r, e), b))
    ensures s.net(p.l.Neighbor(r, e), r, Tag(e))[0].call == s.ranks[r].call
  {
    var s' := After(p, s, Receive(r, e), b);
    ReceiveMatches(p, s, r, e, b);
    forall q | 0 <= q < |s'.ranks| ensures LocalOk(p, q, s'.ranks[q]) {
      assert LocalOk(p, q, s.ranks[q]);
    }
    forall q, d | 0 <= q < |s'.ranks| ensures ChannelOk(p, s', q, d) {
      assert ChannelOk(p, s, q, d);
      ReceiveChannel(p, s, s', r, e, q, d, b);
    }
  }

  /** The message a receive takes is the one its neighbour packed in the same call. */
  lemma ReceiveMatches<F, M>(p: Program<F, M>, s: State<F, M>, r: nat, e: Dir, b: Buffering)
    requires Inv(p, s) && Enabled(p, s, Receive(r, e), b)
    ensures var n, c := p.l.Neighbor(r, e), s.ranks[r].call;
      && e in Active(p, r, c) && Opposite(e) in Active(p, n, c)
      && s.net(n, r, Tag(e))[0] == Message(c, Payload(p, c, n, Opposite(e)))
        && s.net(n, r, Tag(e))[0].data == Delivery(p, c, r)[e]
  {
    var n, c := p.l.Neighbor(r, e), s.ranks[r].call;
    assert LocalOk(p, r, s.ranks[r]) && ChannelOk(p, s, r, e);
    ActiveMirrors(p, r, e, c);
    PendingFirst(p, n, Opposite(e), c, SentTo(s.ranks[n], Opposite(e)));
  }

  lemma ReceiveChannel<F, M>(p: Program<F, M>, s: State<F, M>, s': State<F, M>, r: nat, e: Dir, q: nat, d: Dir,
                             b: Buffering)
    requires Inv(p, s) && Enabled(p, s, Receive(r, e), b) && s' == After(p, s, Receive(r, e), b)
    requires q < |s.ranks| && ChannelOk(p, s, q, d)
    ensures ChannelOk(p, s', q, d)
  {
    var n, c := p.l.Neighbor(q, d), s.ranks[r].call;
    if 0 <= n < |s.ranks| {
      TagsPair(d, e);
      ReceiveMatches(p, s, r, e, b);
      assert SentTo(s'.ranks[n], Opposite(d)) == SentTo(s.ranks[n], Opposite(d));
      if q == r && d == e {
        PendingFirst(p, n, Opposite(e), c, SentTo(s.ranks[n], Opposite(e)));
      } else {
        assert s'.net(n, q, Tag(d)) == s.net(n, q, Tag(d));
        assert ReceivedFrom(s'.ranks[q], d) == ReceivedFrom(s.ranks[q], d);
      }
    }
  }

  lemma FinishKeeps<F, M>(p: Program<F, M>, s: State<F, M>, r: nat, b: Buffering)
    requires Inv(p, s) && Enabled(p, s, Finish(r), b)
    ensures Inv(p, After(p, s, Finish(r), b))
  {
    var s' := After(p, s, Finish(r), b);
    var me := s.ranks[r];
    assert LocalOk(p, r, me);
    assert me.got == Delivery(p, me.call, r);
    forall q, d | 0 <= q < |s'.ranks| ensures ChannelOk(p, s', q, d) {
      assert ChannelOk(p, s, q, d);
      forall e ensures SentTo(s'.ranks[q], e) == SentTo(s.ranks[q], e)
        && ReceivedFrom(s'.ranks[q], e) == ReceivedFrom(s.ranks[q], e) {}
    }
  }

  lemma StepKeeps<F, M>(p: Program<F, M>, s: State<F, M>, t: Step, b: Buffering)
    requires Inv(p, s) && Enabled(p, s, t, b)
    ensures Inv(p, After(p, s, t, b))
  {
    match t
    case Start(r) => StartKeeps(p, s, r, b);
    case Send(r, d) => SendKeeps(p, s, r, d, b);
    case Receive(r, d) => ReceiveKeeps(p, s, r, d, b);
    case Finish(r) => FinishKeeps(p, s, r, b);
  }

  // ----- whole runs

  lemma {:induction false} RunKeeps<F, M>(p: Program<F, M>, run: seq<State<F, M>>, steps: seq<Step>, b: Buffering,
                                          n: nat)
    requires IsRun(p, run, steps, b) && n < |run|
    ensures Inv(p, run[n])
    decreases n
  {
    if n == 0 {
      InitialInv(p, run[0]);
    } else {
      RunKeeps(p, run, steps, b, n - 1);
      StepKeeps(p, run[n - 1], steps[n - 1], b);
      assert run[n - 1 + 1] == After(p, run[n - 1], steps[n - 1], b);
    }
  }

  /** Main result: under every interleaving and every choice of buffering, a rank between two
      exchanges holds exactly what the lock-step execution gives it, and every receive takes the
      message packed for it in the same exchange. */
  lemma RunsFollowLockstep<F, M>(p: Program<F, M>, run: seq<State<F, M>>, steps: seq<Step>, b: Buffering, n: nat,
                                 r: nat)
    requires IsRun(p, run, steps, b) && n < |run| && r < |run[n].ranks|
    ensures run[n].ranks[r].Idle? ==> run[n].ranks[r].field == Lockstep(p, run[n].ranks[r].call, r)
    ensures forall d :: n < |steps| && steps[n] == Receive(r, d) ==>
      var c := run[n].ranks[r].call;
      && run[n].net(p.l.Neighbor(r, d), r, Tag(d))[0].call == c
      && run[n].net(p.l.Neighbor(r, d), r, Tag(d))[0].data == Payload(p, c, p.l.Neighbor(r, d), Opposite(d))
  {
    RunKeeps(p, run, steps, b, n);
    assert LocalOk(p, r, run[n].ranks[r]);
    forall d | n < |steps| && steps[n] == Receive(r, d)
      ensures run[n].net(p.l.Neighbor(r, d), r, Tag(d))[0]
              == Message(run[n].ranks[r].call, Payload(p, run[n].ranks[r].call, p.l.Neighbor(r, d), Opposite(d)))
    {
      ReceiveMatches(p, run[n], r, d, b);
    }
  }

  ghost predicate Done<F, M>(p: Program<F, M>, s: State<F, M>) {
    forall r :: 0 <= r < |s.ranks| ==> s.ranks[r].Idle? && s.ranks[r].call == |p.calls|
  }

  lemma {:induction false} LeastCall<F, M>(s: State<F, M>, n: nat) returns (r: nat)
    requires 0 < n <= |s.ranks|
    ensures r < n && forall q :: 0 <= q < n ==> s.ranks[r].call <= s.ranks[q].call
    decreases n
  {
    if n == 1 { r := 0; } else {
      r := LeastCall(s, n - 1);
      if s.ranks[n - 1].call < s.ranks[r].call { r := n - 1; }
    }
  }

  /** A rank no later than every other can be moved, or its neighbour can. */
  lemma FeedMissing<F, M>(p: Program<F, M>, s: State<F, M>, b: Buffering, r: nat, d: Dir) returns (t: Step)
    requires Inv(p, s) && r < |s.ranks| && s.ranks[r].Busy? && d in s.ranks[r].missing
    requires forall q :: 0 <= q < |s.ranks| ==> s.ranks[r].call <= s.ranks[q].call
    ensures Enabled(p, s, t, b)
  {
    hide Lockstep, Prepared, Payload, Delivery, Pending, Layout.Ok, Layout.Neighbor, After;
    var c := s.ranks[r].call;
    assert LocalOk(p, r, s.ranks[r]) && ChannelOk(p, s, r, d);
    ActiveMirrors(p, r, d, c);
    var n: nat := p.l.Neighbor(r, d);
    var o := Opposite(d);
    assert LocalOk(p, n, s.ranks[n]);
    if s.ranks[n].Idle? && s.ranks[n].call == c {
      t := Start(n);
    } else if s.ranks[n].call == c && o in s.ranks[n].unsent {
      t := Send(n, o);
    } else {
      PendingFirst(p, n, o, c, SentTo(s.ranks[n], o));
      t := Receive(r, d);
    }
  }

  lemma DrainUnconsumed<F, M>(p: Program<F, M>, s: State<F, M>, b: Buffering, r: nat, d: Dir) returns (t: Step)
    requires Inv(p, s) && r < |s.ranks| && d in Active(p, r, s.ranks[r].call) && Unconsumed(p, s, r, s.ranks[r].call, d)
    requires forall q :: 0 <= q < |s.ranks| ==> s.ranks[r].call <= s.ranks[q].call
    requires s.ranks[r].call < |p.calls|
    ensures Enabled(p, s, t, b)
  {
    hide Lockstep, Prepared, Payload, Delivery, Pending, Layout.Ok, Layout.Neighbor, After;
    var c, o := s.ranks[r].call, Opposite(d);
    ActiveMirrors(p, r, d, c);
    var m: nat := p.l.Neighbor(r, d);
    TagsPair(o, d);
    assert ChannelOk(p, s, m, o) && LocalOk(p, m, s.ranks[m]);
    PendingCalls(p, r, d, ReceivedFrom(s.ranks[m], o), SentTo(s.ranks[r], d));
    if s.ranks[m].Idle? { t := Start(m); } else { t := Receive(m, o); }
  }

  /** Main result: no interleaving deadlocks, whatever the implementation buffers. */
  lemma Progress<F, M>(p: Program<F, M>, s: State<F, M>, b: Buffering) returns (t: Step)
    requires Inv(p, s) && !Done(p, s)
    ensures Enabled(p, s, t, b)
  {
    hide Lockstep, Prepared, Payload, Delivery, Pending, ChannelOk, Layout.Ok, Layout.Neighbor, After;
    var r := LeastCall(s, |s.ranks|);
    var me := s.ranks[r];
    assert LocalOk(p, r, me);
    assert me.call < |p.calls| by {
      var q :| 0 <= q < |s.ranks| && !(s.ranks[q].Idle? && s.ranks[q].call == |p.calls|);
      assert LocalOk(p, q, s.ranks[q]);
    }
    if me.Idle? {
      t := Start(r);
    } else if me.unsent != {} {
      var d :| d in me.unsent;
      ActiveMirrors(p, r, d, me.call);
      t := Send(r, d);
    } else if me.missing != {} {
      var d :| d in me.missing;
      t := FeedMissing(p, s, b, r, d);
    } else if exists d :: d in Active(p, r, me.call) && Unconsumed(p, s, r, me.call, d) {
      var d :| d in Active(p, r, me.call) && Unconsumed(p, s, r, me.call, d);
      t := DrainUnconsumed(p, s, b, r, d);
    } else {
      t := Finish(r);
    }
  }

  // ----- every run ends

  /** Steps a rank has left, counting a whole exchange as ten. */
  function Left<F, M>(p: Program<F, M>, me: Local<F, M>): int {
    10 * (|p.calls| - me.call) - if me.Idle? then 0 else 9 - |me.unsent| - |me.missing|
  }

  function LeftTo<F, M>(p: Program<F, M>, ranks: seq<Local<F, M>>, n: nat): int
    requires n <= |ranks|
  {
    if n == 0 then 0 else LeftTo(p, ranks, n - 1) + Left(p, ranks[n - 1])
  }

  lemma FewDirs(s: set<Dir>)
    ensures |s| <= 4
  {
    var all := {West, East, South, North};
    forall d: Dir ensures d in all { match d case West => case East => case South => case North => }
    Subset(s, all);
  }

  lemma {:induction false} Subset(s: set<Dir>, t: set<Dir>)
    requires s <= t
    ensures |s| <= |t|
    decreases t
  {
    if t != {} {
      var d :| d in t;
      Subset(s - {d}, t - {d});
    }
  }

  lemma {:induction false} LeftMoves<F, M>(p: Program<F, M>, a: seq<Local<F, M>>, b: seq<Local<F, M>>, r: nat, n: nat)
    requires r < |a| == |b| && n <= |a|
    requires forall q :: 0 <= q < |a| && q != r ==> b[q] == a[q]
    ensures LeftTo(p, b, n) == LeftTo(p, a, n) + if r < n then Left(p, b[r]) - Left(p, a[r]) else 0
    decreases n
  {
    if n > 0 { LeftMoves(p, a, b, r, n - 1); }
  }

  lemma {:induction false} LeftNonneg<F, M>(p: Program<F, M>, s: State<F, M>, n: nat)
    requires Inv(p, s) && n <= |s.ranks|
    ensures LeftTo(p, s.ranks, n) >= 0
    decreases n
  {
    if n > 0 {
      LeftNonneg(p, s, n - 1);
      assert LocalOk(p, n - 1, s.ranks[n - 1]);
    }
  }

  lemma StepShrinks<F, M>(p: Program<F, M>, s: State<F, M>, t: Step, b: Buffering)
    requires Inv(p, s) && Enabled(p, s, t, b)
    ensures LeftTo(p, After(p, s, t, b).ranks, |s.ranks|) < LeftTo(p, s.ranks, |s.ranks|)
  {
    var s' := After(p, s, t, b);
    LeftMoves(p, s.ranks, s'.ranks, t.r, |s.ranks|);
    if t.Start? { FewDirs(Active(p, t.r, s.ranks[t.r].call)); }
  }

  lemma {:induction false} RunShrinks<F, M>(p: Program<F, M>, run: seq<State<F, M>>, steps: seq<Step>, b: Buffering,
                                            n: nat)
    requires IsRun(p, run, steps, b) && n < |run|
    ensures |run[n].ranks| == p.l.Size() && n + LeftTo(p, run[n].ranks, p.l.Size())
            <= LeftTo(p, run[0].ranks, p.l.Size())
    decreases n
  {
    RunKeeps(p, run, steps, b, n);
    if n > 0 {
      RunShrinks(p, run, steps, b, n - 1);
      RunKeeps(p, run, steps, b, n - 1);
      StepShrinks(p, run[n - 1], steps[n - 1], b);
      assert run[n - 1 + 1] == After(p, run[n - 1], steps[n - 1], b);
    }
  }

  lemma {:induction false} InitialLeft<F, M>(p: Program<F, M>, s: State<F, M>, n: nat)
    requires Initial(p, s) && n <= |s.ranks|
    ensures LeftTo(p, s.ranks, n) == 10 * |p.calls| * n
    decreases n
  {
    if n > 0 { InitialLeft(p, s, n - 1); }
  }

  /** Main result: runs are finite, and one that cannot continue has every rank through every
      exchange with the lock-step fields. */
  lemma RunsComplete<F, M>(p: Program<F, M>, run: seq<State<F, M>>, steps: seq<Step>, b: Buffering)
    requires IsRun(p, run, steps, b)
    ensures |steps| <= 10 * |p.calls| * p.l.Size()
    ensures Shaped(p, run[|steps|])
    ensures (forall t :: !Enabled(p, run[|steps|], t, b)) ==>
      forall r :: 0 <= r < p.l.Size() ==> run[|steps|].ranks[r] == Idle(|p.calls|, Lockstep(p, |p.calls|, r))
  {
    var last := run[|steps|];
    RunShrinks(p, run, steps, b, |steps|);
    RunKeeps(p, run, steps, b, |steps|);
    LeftNonneg(p, last, p.l.Size());
    InitialLeft(p, run[0], p.l.Size());
    if forall t :: !Enabled(p, last, t, b) {
      if !Done(p, last) { var t := Progress(p, last, b); assert false; }
      forall r | 0 <= r < p.l.Size() ensures last.ranks[r] == Idle(|p.calls|, Lockstep(p, |p.calls|, r)) {
        assert LocalOk(p, r, last.ranks[r]);
      }
    }
  }
}
