/** A cut session can leave its receive loop behind: the other loop threw, the run returned, and the loop goes
    on saving while the next session is under way on the same store. */
module Leftovers {
  import opened Messages
  import opened StoreSpec
  import opened Handshake
  import opened Session
  import opened Resumption
  import opened AnyPeer

  /** The receive loops on one store, and the messages each is still to read. */
  datatype Loops = Loops(shared: Shared, feeds: seq<seq<Message>>)

  /** A loop reads its feed in order; its other moves are free. */
  predicate CanGo(l: Loops, x: RaceAct) {
    && x.side < |l.shared.sides| == |l.feeds| && Enabled(Facing(l.shared, x.side), x.act.move)
    && (x.act.move.Take? ==> l.feeds[x.side] != [] && x.act.frame == EmergencyMessage(l.feeds[x.side][0]))
  }

  function Go(env: Env, l: Loops, x: RaceAct): Loops
    requires CanGo(l, x)
  {
    Loops(RaceStep(env, l.shared, x), if x.act.move.Take? then l.feeds[x.side := l.feeds[x.side][1..]] else l.feeds)
  }

  predicate CanGoAll(env: Env, l: Loops, acts: seq<RaceAct>)
    decreases acts
  {
    acts == [] || (CanGo(l, acts[0]) && CanGoAll(env, Go(env, l, acts[0]), acts[1..]))
  }

  function GoAll(env: Env, l: Loops, acts: seq<RaceAct>): Loops
    requires CanGoAll(env, l, acts)
    decreases acts
  {
    if acts == [] then l else GoAll(env, Go(env, l, acts[0]), acts[1..])
  }

  /** What is news to the store and validates, in the peer's order. */
  ghost predicate ValidNews(env: Env, live: seq<Message>, valid: seq<Message>, now: int) {
    Distinct(live + valid) && forall m :: m in valid ==> Accepts(env, m, now)
  }

  /** A loop that is to read the valid news from `q` on, perhaps among other messages, where the store has
      the first `n`. The news it has accepted and not saved is the one before. */
  ghost predicate Follows(env: Env, s: Side, feed: seq<Message>, valid: seq<Message>, now: int, n: nat, q: nat) {
    var rest := Select(env, Passing(now), feed);
    && s.phase.Transfer? && s.self.now == now
    && q <= |valid| && rest == valid[q..]
    && (if s.reader.stage.Accepted? then 1 <= q <= n + 1 && s.reader.stage.message == valid[q - 1] else q <= n)
  }

  ghost predicate Trails(env: Env, s: Side, feed: seq<Message>, valid: seq<Message>, now: int, n: nat) {
    exists q :: Follows(env, s, feed, valid, now, n, q)
  }

  ghost predicate InLine(env: Env, l: Loops, live: seq<Message>, valid: seq<Message>, now: int, n: nat) {
    && n <= |valid| && l.shared.store == live + valid[..n] && |l.feeds| == |l.shared.sides|
    && forall i :: 0 <= i < |l.feeds| ==> Trails(env, l.shared.sides[i], l.feeds[i], valid, now, n)
  }

  lemma KnownNews(live: seq<Message>, valid: seq<Message>, n: nat, q: nat)
    requires Distinct(live + valid) && n <= |valid| && q < |valid|
    ensures valid[q].messageId in Ids(live + valid[..n]) <==> q < n
  {
    var store := live + valid[..n];
    assert (live + valid)[|live| + q] == valid[q];
    assert forall i :: 0 <= i < |store| ==> (live + valid)[i] == store[i];
    if q < n {
      assert store[|live| + q] == valid[q];
      IdsMember(store, valid[q]);
    }
  }

  lemma KnownSave(live: seq<Message>, valid: seq<Message>, n: nat, q: nat)
    requires Distinct(live + valid) && q < |valid| && q <= n <= |valid|
    ensures Put(live + valid[..n], valid[q]) == live + valid[..if q < n then n else n + 1]
  {
    var store := live + valid[..n];
    KnownNews(live, valid, n, q);
    if q < n {
      var at := IndexOf(store, valid[q].messageId);
      assert (live + valid)[at] == store[at] && (live + valid)[|live| + q] == valid[q];
    } else {
      assert valid[..n + 1] == valid[..n] + [valid[n]];
    }
  }

  lemma TakeFollows(env: Env, s: Side, feed: seq<Message>, live: seq<Message>, valid: seq<Message>, now: int, n: nat, q: nat)
      returns (q': nat)
    requires ValidNews(env, live, valid, now) && n <= |valid| && s.store == live + valid[..n]
    requires Follows(env, s, feed, valid, now, n, q) && feed != [] && Enabled(s, Take)
    ensures var s' := Apply(env, s, Take, EmergencyMessage(feed[0]));
            s'.store == s.store && Follows(env, s', feed[1..], valid, now, n, q')
  {
    var m, rest := feed[0], Select(env, Passing(now), feed);
    if Accepts(env, m, now) {
      assert rest == [m] + Select(env, Passing(now), feed[1..]);
      assert rest[0] == valid[q] && rest[1..] == valid[q + 1..];
      KnownNews(live, valid, n, q);
      q' := q + 1;
    } else {
      q' := q;
    }
  }

  lemma SaveFollows(env: Env, s: Side, feed: seq<Message>, live: seq<Message>, valid: seq<Message>, now: int, n: nat, q: nat, f: Frame)
      returns (n': nat)
    requires ValidNews(env, live, valid, now) && n <= |valid| && s.store == live + valid[..n]
    requires Follows(env, s, feed, valid, now, n, q) && Enabled(s, Save)
    ensures var s' := Apply(env, s, Save, f);
            n <= n' <= |valid| && s'.store == live + valid[..n'] && Follows(env, s', feed, valid, now, n', q)
  {
    KnownSave(live, valid, n, q - 1);
    n' := if q - 1 < n then n else n + 1;
  }

  /** The acting loop stays in line, and the store only gains what is next in the peer's order. */
  lemma MoveFollows(env: Env, s: Side, feed: seq<Message>, x: Act, live: seq<Message>, valid: seq<Message>, now: int, n: nat, q: nat)
      returns (n': nat, q': nat)
    requires ValidNews(env, live, valid, now) && n <= |valid| && s.store == live + valid[..n]
    requires Follows(env, s, feed, valid, now, n, q) && Enabled(s, x.move)
    requires x.move.Take? ==> feed != [] && x.frame == EmergencyMessage(feed[0])
    ensures var s' := Apply(env, s, x.move, x.frame);
            n <= n' <= |valid| && s'.store == live + valid[..n']
            && Follows(env, s', if x.move.Take? then feed[1..] else feed, valid, now, n', q')
  {
    n', q' := n, q;
    if x.move.Take? { q' := TakeFollows(env, s, feed, live, valid, now, n, q); }
    else if x.move.Save? { n' := SaveFollows(env, s, feed, live, valid, now, n, q, x.frame); }
  }

  lemma GoInLine(env: Env, l: Loops, x: RaceAct, live: seq<Message>, valid: seq<Message>, now: int, n: nat) returns (n': nat)
    requires ValidNews(env, live, valid, now) && InLine(env, l, live, valid, now, n) && CanGo(l, x)
    ensures n <= n' && InLine(env, Go(env, l, x), live, valid, now, n')
  {
    var i := x.side;
    var s := Facing(l.shared, i);
    assert Trails(env, l.shared.sides[i], l.feeds[i], valid, now, n);
    var q :| Follows(env, l.shared.sides[i], l.feeds[i], valid, now, n, q);
    assert Follows(env, s, l.feeds[i], valid, now, n, q);
    var q';
    n', q' := MoveFollows(env, s, l.feeds[i], x.act, live, valid, now, n, q);
    var l' := Go(env, l, x);
    forall j | 0 <= j < |l'.feeds|
      ensures Trails(env, l'.shared.sides[j], l'.feeds[j], valid, now, n')
    {
      if j == i {
        assert Follows(env, l'.shared.sides[j], l'.feeds[j], valid, now, n', q');
      } else {
        assert Trails(env, l.shared.sides[j], l.feeds[j], valid, now, n);
        var p :| Follows(env, l.shared.sides[j], l.feeds[j], valid, now, n, p);
        assert Follows(env, l'.shared.sides[j], l'.feeds[j], valid, now, n', p);
      }
    }
  }

  /** Any number of receive loops, left behind or current, racing on one store: it always holds the own live
      messages and then a prefix of the valid news, in the peer's order, as after a single session that was
      cut. */
  lemma {:induction false} LeftoversStayInLine(env: Env, l: Loops, acts: seq<RaceAct>, live: seq<Message>, valid: seq<Message>,
                                               now: int, n: nat) returns (n': nat)
    requires ValidNews(env, live, valid, now) && InLine(env, l, live, valid, now, n) && CanGoAll(env, l, acts)
    ensures n <= n' && InLine(env, GoAll(env, l, acts), live, valid, now, n')
    decreases acts
  {
    n' := n;
    if acts != [] {
      var k := GoInLine(env, l, acts[0], live, valid, now, n);
      n' := LeftoversStayInLine(env, Go(env, l, acts[0]), acts[1..], live, valid, now, k);
    }
  }

  /** Where a loop stands that a session of this plan left behind. */
  lemma LeftoverTrails(env: Env, s: Side, p: Plan, n: nat)
    requires TransferInv(env, s, p) && s.phase.Transfer?
    requires |Select(env, Passing(s.self.now), p.incoming[..Kept(s.reader)])| <= n
    ensures var at := s.reader.at + if s.reader.stage.Idle? then 0 else 1;
            at <= |p.incoming| && Trails(env, s, p.incoming[at..], Select(env, Passing(s.self.now), p.incoming), s.self.now, n)
  {
    var now := s.self.now;
    var at := s.reader.at + if s.reader.stage.Idle? then 0 else 1;
    var valid, read := Select(env, Passing(now), p.incoming), Select(env, Passing(now), p.incoming[..at]);
    SelectSplit(env, Passing(now), p.incoming, at);
    if !s.reader.stage.Idle? { TakenOneMore(env, now, p.incoming, s.reader.at); }
    assert valid[|read|..] == Select(env, Passing(now), p.incoming[at..]);
    assert valid[..|read|] == read;
    assert Follows(env, s, p.incoming[at..], valid, now, n, |read|);
  }

  /** And the loop of the next session, whose summary named what had come by then. */
  lemma NextTrails(env: Env, s: Side, live: seq<Message>, peerLive: seq<Message>, back: seq<Message>, k: nat, n: nat)
    requires News(live, Missing(env, peerLive, live)) && k <= |Missing(env, peerLive, live)|
    requires forall m :: m in back ==> m in live
    requires s.phase.Transfer? && s.reader.stage.Idle?
    requires |Select(env, Passing(s.self.now), Missing(env, peerLive, live)[..k])| <= n
    ensures var incoming := Missing(env, peerLive, live);
            var summary := live + Select(env, Passing(s.self.now), incoming[..k]);
            Trails(env, s, Missing(env, peerLive + back, summary), Select(env, Passing(s.self.now), incoming), s.self.now, n)
  {
    var now, incoming := s.self.now, Missing(env, peerLive, live);
    var valid, come := Select(env, Passing(now), incoming), Select(env, Passing(now), incoming[..k]);
    RestOfNews(env, live, peerLive, now, k, back);
    SelectSplit(env, Passing(now), incoming, k);
    assert valid[|come|..] == Select(env, Passing(now), incoming[k..]);
    assert Follows(env, s, Missing(env, peerLive + back, live + come), valid, now, n, |come|);
  }

  lemma NewsIsValid(env: Env, live: seq<Message>, incoming: seq<Message>, now: int)
    requires News(live, incoming)
    ensures ValidNews(env, live, Select(env, Passing(now), incoming), now)
  {
    NewsStore(env, live, incoming, now, |incoming|);
    assert incoming[..|incoming|] == incoming;
    SelectMembers(env, Passing(now), incoming);
  }

  /** A loop that has read its feed and saved what it accepted leaves nothing to come. */
  lemma EndOfLine(env: Env, s: Side, valid: seq<Message>, now: int, n: nat)
    requires Trails(env, s, [], valid, now, n) && n <= |valid| && !s.reader.stage.Accepted?
    ensures n == |valid|
  {
    var q :| Follows(env, s, [], valid, now, n, q);
  }

  /** The loop left behind and the next session's, each with what it is still to read. */
  function Beside(env: Env, p: Plan, back: seq<Message>, left: Side, next: Side, k: nat): Loops
    requires left.reader.at + (if left.reader.stage.Idle? then 0 else 1) <= |p.incoming| && k <= |p.incoming|
  {
    var at := left.reader.at + if left.reader.stage.Idle? then 0 else 1;
    var summary := p.live + Select(env, Passing(next.self.now), p.incoming[..k]);
    Loops(Shared(left.store, [left, next]), [p.incoming[at..], Missing(env, p.peerLive + back, summary)])
  }

  lemma SelectGrows(env: Env, t: Test, ms: seq<Message>, k: nat, n: nat)
    requires k <= n <= |ms|
    ensures |Select(env, t, ms[..k])| <= |Select(env, t, ms[..n])|
  {
    assert ms[..n] == ms[..k] + ms[k..n];
    SelectAppend(env, t, ms[..k], ms[k..n]);
  }

  /** A session was cut on the other side of its run; the next one took its summary when the first `k` of the
      news had been dealt with. */
  ghost predicate LeftBehind(env: Env, p: Plan, back: seq<Message>, left: Side, next: Side, k: nat) {
    && p == PlanOf(env, p.own, left.self.now, p.peerLive) && Distinct(p.own) && Distinct(p.peerLive)
    && (forall m :: m in back ==> m in p.live)
    && TransferInv(env, left, p) && left.phase.Transfer? && k <= Kept(left.reader) <= |p.incoming|
    && next.phase.Transfer? && next.reader.stage.Idle? && next.self.now == left.self.now
  }

  /** Where the cut session left the store, and its loop. */
  lemma LeftStands(env: Env, p: Plan, back: seq<Message>, left: Side, next: Side, k: nat) returns (n: nat)
    requires LeftBehind(env, p, back, left, next, k)
    ensures var valid := Select(env, Passing(left.self.now), p.incoming);
            && n == |Select(env, Passing(left.self.now), p.incoming[..Kept(left.reader)])| <= |valid|
            && left.store == p.live + valid[..n]
            && var at := left.reader.at + if left.reader.stage.Idle? then 0 else 1;
               at <= |p.incoming| && Trails(env, left, p.incoming[at..], valid, left.self.now, n)
  {
    var come := Select(env, Passing(left.self.now), p.incoming[..Kept(left.reader)]);
    n := |come|;
    SelectSplit(env, Passing(left.self.now), p.incoming, Kept(left.reader));
    assert Select(env, Passing(left.self.now), p.incoming)[..n] == come;
    LeftoverTrails(env, left, p, n);
  }

  lemma NextStands(env: Env, p: Plan, back: seq<Message>, left: Side, next: Side, k: nat, n: nat)
    requires LeftBehind(env, p, back, left, next, k)
    requires n == |Select(env, Passing(left.self.now), p.incoming[..Kept(left.reader)])|
    ensures ValidNews(env, p.live, Select(env, Passing(left.self.now), p.incoming), left.self.now)
    ensures var summary := p.live + Select(env, Passing(next.self.now), p.incoming[..k]);
            Trails(env, next, Missing(env, p.peerLive + back, summary), Select(env, Passing(left.self.now), p.incoming), left.self.now, n)
  {
    assert p.incoming == Missing(env, p.peerLive, p.live);
    assert News(p.live, p.incoming) by { PlanIsSound(env, p.own, left.self.now, p.peerLive); }
    NewsIsValid(env, p.live, p.incoming, left.self.now);
    SelectGrows(env, Passing(left.self.now), p.incoming, k, Kept(left.reader));
    NextTrails(env, next, p.live, p.peerLive, back, k, n);
  }

  lemma BesideInLine(env: Env, p: Plan, back: seq<Message>, left: Side, next: Side, k: nat) returns (n: nat)
    requires LeftBehind(env, p, back, left, next, k)
    ensures ValidNews(env, p.live, Select(env, Passing(left.self.now), p.incoming), left.self.now)
    ensures InLine(env, Beside(env, p, back, left, next, k), p.live, Select(env, Passing(left.self.now), p.incoming), left.self.now, n)
  {
    n := LeftStands(env, p, back, left, next, k);
    NextStands(env, p, back, left, next, k, n);
  }

  /** Resumption with a loop left behind: the receive loop of the cut session lives on, and the next session
      transfers at the same time. Whatever both loops do and in whatever order: once the loop of the next
      session has come to its end, and ever after, the store is what one uninterrupted session leaves, same
      entries, same order. */
  lemma ResumedBesideLeftover(env: Env, p: Plan, back: seq<Message>, left: Side, next: Side, k: nat, acts: seq<RaceAct>)
    requires LeftBehind(env, p, back, left, next, k) && CanGoAll(env, Beside(env, p, back, left, next, k), acts)
    requires var l := GoAll(env, Beside(env, p, back, left, next, k), acts);
             |l.feeds| == |l.shared.sides| == 2 && l.feeds[1] == [] && !l.shared.sides[1].reader.stage.Accepted?
    ensures GoAll(env, Beside(env, p, back, left, next, k), acts).shared.store == Merged(env, p.own, left.self.now, p.peerLive)
  {
    var now := left.self.now;
    var valid := Select(env, Passing(now), p.incoming);
    var m := BesideInLine(env, p, back, left, next, k);
    var n := LeftoversStayInLine(env, Beside(env, p, back, left, next, k), acts, p.live, valid, now, m);
    var l := GoAll(env, Beside(env, p, back, left, next, k), acts);
    assert Trails(env, l.shared.sides[1], l.feeds[1], valid, now, n);
    EndOfLine(env, l.shared.sides[1], valid, now, n);
    assert valid[..n] == valid;
  }
}
