/**
 The single-threaded coroutine scheduler: a ring of runnable coroutines, a count of pending
 requests per coroutine, and a list of futures that the main coroutine polls. A future may report
 the completion of a request of any coroutine.
 */
module Scheduler {
  import opened Entries
  import opened RoutineRing

  const MAX_ROUTINES: nat := 64

  // ---------- counting ----------

  ghost function Sum(s: seq<nat>): nat {
    if s == [] then 0 else Sum(s[..|s| - 1]) + s[|s| - 1]
  }

  lemma {:induction false} SumUpdate(s: seq<nat>, i: nat, x: nat)
    requires i < |s|
    ensures Sum(s[i := x]) == Sum(s) - s[i] + x
  {
    var t, n := s[i := x], |s| - 1;
    if i < n {
      assert t[..n] == s[..n][i := x];
      SumUpdate(s[..n], i, x);
    } else {
      assert t[..n] == s[..n];
    }
  }

  lemma {:induction false} SumZero(s: seq<nat>)
    requires forall i :: 0 <= i < |s| ==> s[i] == 0
    ensures Sum(s) == 0
  {
    if s != [] { SumZero(s[..|s| - 1]); }
  }

  /** What one round of polling reports, per future: not ready, or the completion of a coroutine's request. */
  type Polls = seq<Option<nat>>

  ghost function Reported(polls: Polls): (r: multiset<nat>) {
    if polls == [] then multiset{}
    else
      var last := polls[|polls| - 1];
      Reported(polls[..|polls| - 1]) + if last.Some? then multiset{last.value} else multiset{}
  }

  /** The coroutines whose last pending request is reported, in the order of the reports. */
  ghost function Woken(counts: multiset<nat>, polls: Polls): (r: seq<nat>) {
    if polls == [] then []
    else
      var rest, last := polls[..|polls| - 1], polls[|polls| - 1];
      Woken(counts, rest) +
        if last.Some? && (counts - Reported(rest))[last.value] == 1 then [last.value] else []
  }

  /** Each coroutine is woken exactly when its count drops to zero, and once. */
  lemma {:induction false} WokenOnce(counts: multiset<nat>, polls: Polls, c: nat)
    requires Reported(polls) <= counts
    ensures multiset(Woken(counts, polls))[c] == if counts[c] > 0 && Reported(polls)[c] == counts[c] then 1 else 0
  {
    if polls != [] {
      var rest, last := polls[..|polls| - 1], polls[|polls| - 1];
      assert Reported(rest) <= Reported(polls);
      WokenOnce(counts, rest, c);
    }
  }

  lemma {:induction false} ReportedPrefix(polls: Polls, i: nat)
    requires i <= |polls|
    ensures Reported(polls[..i]) <= Reported(polls)
    decreases |polls|
  {
    if i < |polls| {
      ReportedPrefix(polls[..|polls| - 1], i);
      assert polls[..|polls| - 1][..i] == polls[..i];
    } else {
      assert polls[..i] == polls;
    }
  }

  /** The next report is of a request that is still outstanding. */
  lemma PollNext(counts: multiset<nat>, polls: Polls, i: nat)
    requires i < |polls| && Reported(polls) <= counts
    ensures Reported(polls[..i]) <= Reported(polls[..i + 1]) <= counts
    ensures Reported(polls[..i + 1]) ==
              Reported(polls[..i]) + if polls[i].Some? then multiset{polls[i].value} else multiset{}
    ensures counts - Reported(polls[..i + 1]) ==
              counts - Reported(polls[..i]) - if polls[i].Some? then multiset{polls[i].value} else multiset{}
    ensures polls[i].Some? ==> polls[i].value in counts - Reported(polls[..i])
    ensures Woken(counts, polls[..i + 1]) == Woken(counts, polls[..i]) +
              if polls[i].Some? && (counts - Reported(polls[..i]))[polls[i].value] == 1 then [polls[i].value] else []
  {
    assert polls[..i + 1][..i] == polls[..i];
    ReportedPrefix(polls, i + 1);
  }

  lemma {:induction false} WokenPrefix(counts: multiset<nat>, polls: Polls, i: nat)
    requires i <= |polls|
    ensures Woken(counts, polls[..i]) <= Woken(counts, polls)
    decreases |polls|
  {
    if i < |polls| {
      WokenPrefix(counts, polls[..|polls| - 1], i);
      assert polls[..|polls| - 1][..i] == polls[..i];
    } else {
      assert polls[..i] == polls;
    }
  }

  /** A coroutine whose last request is reported next has not been woken before, and is woken now. */
  lemma WokenNext(counts: multiset<nat>, polls: Polls, i: nat)
    requires i < |polls| && Reported(polls) <= counts
    ensures polls[i].Some? && (counts - Reported(polls[..i]))[polls[i].value] == 1 ==>
              polls[i].value !in Woken(counts, polls[..i]) && polls[i].value in Woken(counts, polls)
  {
    hide Woken, Reported;
    PollNext(counts, polls, i);
    if polls[i].Some? && (counts - Reported(polls[..i]))[polls[i].value] == 1 {
      var c, before, after := polls[i].value, Woken(counts, polls[..i]), Woken(counts, polls[..i + 1]);
      WokenOnce(counts, polls[..i + 1], c);
      assert multiset(after)[c] == multiset(before)[c] + 1;
      WokenPrefix(counts, polls, i + 1);
      assert after[|after| - 1] == c;
    }
  }

  /** Only coroutines with outstanding requests are woken. */
  lemma WokenCounted(counts: multiset<nat>, polls: Polls)
    requires Reported(polls) <= counts
    ensures forall c :: c in Woken(counts, polls) ==> c in counts
  {
    hide Woken, Reported;
    forall c | c in Woken(counts, polls) ensures c in counts {
      WokenOnce(counts, polls, c);
      assert c in multiset(Woken(counts, polls));
    }
  }

  /** The futures whose poll is not ready, in their order. */
  ghost function Kept(futures: seq<nat>, polls: Polls): (r: seq<nat>)
    requires |polls| == |futures|
  {
    if polls == [] then []
    else
      var n := |polls| - 1;
      Kept(futures[..n], polls[..n]) + if polls[n].None? then [futures[n]] else []
  }

  ghost function NotReady(polls: Polls): nat {
    if polls == [] then 0
    else NotReady(polls[..|polls| - 1]) + if polls[|polls| - 1].None? then 1 else 0
  }

  /** Of the futures that are kept, each stands behind as many as were kept before it, and there are no others. */
  lemma {:induction false} KeptAt(futures: seq<nat>, polls: Polls, i: nat)
    requires |polls| == |futures|
    ensures |Kept(futures, polls)| == NotReady(polls)
    ensures i < |polls| && polls[i].None? ==>
              NotReady(polls[..i]) < |Kept(futures, polls)| && Kept(futures, polls)[NotReady(polls[..i])] == futures[i]
  {
    if polls != [] {
      var n := |polls| - 1;
      KeptAt(futures[..n], polls[..n], i);
      if i < n { assert polls[..n][..i] == polls[..i]; }
    }
  }

  lemma KeptNone(futures: seq<nat>, polls: Polls)
    requires |polls| == |futures|
    ensures Kept(futures[..0], polls[..0]) == [] && [] + futures[0..] == futures
  {
  }

  /** The list of futures while it is polled: what was kept so far, and what is still to be polled. */
  lemma KeptNext(futures: seq<nat>, polls: Polls, i: nat)
    requires i < |polls| == |futures|
    ensures var kept, it := Kept(futures[..i], polls[..i]), |Kept(futures[..i], polls[..i])|;
            var now := kept + futures[i..];
            && |now| > it
            && Kept(futures[..i + 1], polls[..i + 1]) == kept + (if polls[i].None? then [futures[i]] else [])
            && (polls[i].None? ==> now == Kept(futures[..i + 1], polls[..i + 1]) + futures[i + 1..])
            && (polls[i].Some? ==>
                  now[..it] + now[it + 1..] == Kept(futures[..i + 1], polls[..i + 1]) + futures[i + 1..])
  {
    assert futures[..i + 1][..i] == futures[..i] && polls[..i + 1][..i] == polls[..i];
    assert futures[i..] == [futures[i]] + futures[i + 1..];
  }

  ghost predicate Known(routines: seq<Node>, ids: seq<nat>) {
    forall i :: 0 <= i < |ids| ==> ids[i] < |routines|
  }

  /** The coroutines with the given numbers. */
  ghost function Pick(routines: seq<Node>, ids: seq<nat>): (r: seq<Node>)
    requires Known(routines, ids)
    ensures |r| == |ids| && forall i :: 0 <= i < |r| ==> r[i] == routines[ids[i]]
  {
    seq(|ids|, i requires 0 <= i < |ids| => routines[ids[i]])
  }

  lemma PickGrows(routines: seq<Node>, ids: seq<nat>, c: nat)
    requires Known(routines, ids) && c < |routines|
    ensures Known(routines, ids + [c]) && Pick(routines, ids + [c]) == Pick(routines, ids) + [routines[c]]
  {
  }

  lemma NonePolled(routines: seq<Node>, counts: multiset<nat>, polls: Polls)
    ensures Reported(polls[..0]) == multiset{} && Woken(counts, polls[..0]) == []
    ensures Known(routines, []) && Pick(routines, []) == []
  {
  }

  /** The ring after report i, if it was the right one before it. */
  lemma RingNext(routines: seq<Node>, ring: seq<Node>, counts: multiset<nat>, polls: Polls, i: nat)
    requires i < |polls| && Reported(polls) <= counts && Known(routines, Woken(counts, polls[..i]))
    requires polls[i].Some? ==> polls[i].value < |routines|
    ensures Known(routines, Woken(counts, polls[..i + 1]))
    ensures ring + Pick(routines, Woken(counts, polls[..i])) +
              (if polls[i].Some? && (counts - Reported(polls[..i]))[polls[i].value] == 1
               then [routines[polls[i].value]] else [])
         == ring + Pick(routines, Woken(counts, polls[..i + 1]))
  {
    hide Woken, Reported;
    PollNext(counts, polls, i);
    var ids := Woken(counts, polls[..i]);
    if polls[i].Some? { PickGrows(routines, ids, polls[i].value); }
    assert ids + [] == ids;
  }

  /** In the ring, node n stands at place k and m comes after it. */
  ghost predicate Successor(nodes: seq<Node>, n: Node, k: nat, m: Node) {
    k < |nodes| && nodes[k] == n && m == nodes[if k + 1 < |nodes| then k + 1 else 0]
  }

  /** Where all coroutines are, told on values: who is in the ring, active, awaited, gone, and paused. */
  ghost predicate Places(rs: seq<Node>, ring: seq<Node>, marks: seq<bool>, counts: multiset<nat>, gone: set<nat>,
                         waits: set<nat>)
    requires |marks| == |rs|
  {
    forall c :: 0 <= c < |rs| ==>
      && rs[c].id == c && (rs[c] in ring <==> c !in gone && c !in waits)
      && (c in waits ==> !marks[c])
      && (c in counts && c !in gone && c !in waits ==> marks[c])
  }

  /** One report for coroutine cid, which goes back into the ring if it had paused and nothing is left. */
  lemma PlacesAfter(rs: seq<Node>, ring: seq<Node>, marks: seq<bool>, counts: multiset<nat>, gone: set<nat>,
                    waits: set<nat>, cid: nat)
    requires |marks| == |rs| && Places(rs, ring, marks, counts, gone, waits) && cid < |rs| && cid in counts
    requires cid in waits ==> cid !in gone
    ensures var back := cid in waits && counts[cid] == 1;
            Places(rs, ring + if back then [rs[cid]] else [], marks, counts - multiset{cid}, gone,
                   if counts[cid] == 1 then waits - {cid} else waits)
  {
    forall c | 0 <= c < |rs| && rs[c] == rs[cid] ensures c == cid {
      assert rs[c].id == c && rs[cid].id == cid;
    }
  }

  /** What the place of one coroutine means for waking it. */
  lemma PlaceOf(rs: seq<Node>, ring: seq<Node>, marks: seq<bool>, counts: multiset<nat>, gone: set<nat>,
                waits: set<nat>, c: nat)
    requires |marks| == |rs| && Places(rs, ring, marks, counts, gone, waits) && c < |rs| && c in counts
    ensures rs[c] in ring <==> c !in gone && c !in waits
    ensures c !in gone ==> (marks[c] <==> c !in waits)
  {
  }

  /**
   What waking a coroutine comes to: nothing to do or put back into the ring; an assertion fails,
   because it is still active; or its memory is gone, because it has exited.
   */
  datatype Wake = Fine | AssertionFails | Freed

  class SScheduler {
    const chain: LinkedList
    var routines: seq<Node>
    var cur: Node
    var pendingFutures: seq<nat>
    /** One future per outstanding request, with the coroutine that issued it. */
    var futures: seq<nat>
    /** The coroutine of each request whose completion no future has reported yet. */
    ghost var outstanding: multiset<nat>
    /** The coroutines that ended, whose memory is released. */
    var exited: set<nat>
    /** The coroutines that left the ring to wait for their requests. */
    ghost var paused: set<nat>

    /** The counts are those of outstanding requests, each of which has its future. */
    ghost predicate Tallied()
      reads `pendingFutures, `futures, `outstanding
    {
      && |pendingFutures| == MAX_ROUTINES
      && (forall c :: 0 <= c < MAX_ROUTINES ==> pendingFutures[c] == outstanding[c])
      && |futures| == |outstanding| && Sum(pendingFutures) == |futures|
    }

    ghost predicate Counted()
      reads `routines, `pendingFutures, `futures, `outstanding, `exited, `paused
    {
      && Tallied() && |routines| <= MAX_ROUTINES
      && (forall c :: c in outstanding ==> 0 < c < |routines|)
      && (forall c :: c in exited ==> 0 < c < |routines|)
      && (forall c :: c in paused ==> c in outstanding && c !in exited)
    }

    /** A coroutine is in the ring unless it has exited or paused; one that posted and did not pause is active. */
    ghost predicate Placed(c: nat)
      requires c < |routines|
      reads `routines, `outstanding, `exited, `paused, chain, routines
    {
      && (routines[c] in chain.nodes <==> c !in exited && c !in paused)
      && (c in paused ==> !routines[c].active)
      && (c in outstanding && c !in exited && c !in paused ==> routines[c].active)
    }

    ghost predicate Valid()
      reads this, chain, chain.nodes, routines
    {
      && Counted() && chain.Valid()
      && 0 < |routines| && chain.nodes != [] && chain.nodes[0] == routines[0] && cur in chain.nodes
      && (cur != routines[0] ==> cur.active)
      && (forall c :: 0 <= c < |routines| ==> routines[c].id == c && Placed(c))
      && (forall n :: n in chain.nodes ==> n in routines)
    }

    /** Whoever has outstanding requests has paused, except perhaps the running coroutine. */
    ghost predicate AllPaused()
      reads `outstanding, `paused, `cur
    {
      forall c :: c in outstanding ==> c in paused || c == cur.id
    }

    /** Which coroutines are marked active. */
    ghost function Marks(): (r: seq<bool>)
      reads this, routines
      ensures |r| == |routines| && forall c :: 0 <= c < |r| ==> r[c] == routines[c].active
    {
      seq(|routines|, c requires 0 <= c < |routines| reads this, routines => routines[c].active)
    }

    lemma PlacesNow()
      requires Valid()
      ensures Places(routines, chain.nodes, Marks(), outstanding, exited, paused)
    {
      forall c | 0 <= c < |routines| ensures Placed(c) {
      }
    }

    /** The scheduler is valid again once every coroutine is where it should be. */
    lemma NowValid()
      requires Counted() && chain.Valid() && Places(routines, chain.nodes, Marks(), outstanding, exited, paused)
      requires 0 < |routines| && chain.nodes != [] && chain.nodes[0] == routines[0]
      requires cur in chain.nodes && (cur != routines[0] ==> cur.active)
      requires forall i :: 0 <= i < |chain.nodes| ==> chain.nodes[i] in routines
      ensures Valid()
    {
      hide Counted, LinkedList.Valid;
      forall c | 0 <= c < |routines| ensures routines[c].id == c && Placed(c) {
        assert Marks()[c] == routines[c].active;
      }
    }

    /** The scheduler with its main coroutine, number 0. */
    constructor ()
      ensures Valid() && |routines| == 1 && futures == [] && cur == routines[0] && AllPaused()
      ensures outstanding == multiset{} && exited == {} && paused == {}
      ensures fresh(chain) && fresh(routines[0])
    {
      var main := new Node(0);
      var ring := new LinkedList();
      ring.Add(main);
      chain, routines, cur := ring, [main], main;
      pendingFutures, futures := seq(MAX_ROUTINES, _ => 0), [];
      outstanding, exited, paused := multiset{}, {}, {};
      new;
      SumZero(pendingFutures);
    }

    lemma RingInside()
      requires Valid()
      ensures forall i :: 0 <= i < |chain.nodes| ==> chain.nodes[i] in routines
    {
    }

    /** Adds a coroutine at the end of the ring, unless there are too many. */
    method Spawn() returns (r: Option<nat>)
      requires Valid()
      modifies this, chain, routines
      ensures Valid() && cur == old(cur) && futures == old(futures) && pendingFutures == old(pendingFutures)
      ensures outstanding == old(outstanding) && exited == old(exited) && paused == old(paused)
      ensures r.None? <==> old(|routines|) >= MAX_ROUTINES
      ensures r.None? ==> routines == old(routines) && chain.nodes == old(chain.nodes)
      ensures r.Some? ==>
                && r.value == old(|routines|) && |routines| == old(|routines|) + 1
                && fresh(routines[r.value]) && routines == old(routines) + [routines[r.value]]
                && chain.nodes == old(chain.nodes) + [routines[r.value]] && !routines[r.value].active
    {
      hide LinkedList.Wired, LinkedList.Valid, Tallied;
      var cid := |routines|;
      if cid >= MAX_ROUTINES {
        return None;
      }
      RingInside();
      var n := new Node(cid);
      chain.Add(n);
      assert forall c :: 0 <= c < cid ==> old(Placed(c)) && routines[c] != n;
      routines := routines + [n];
      assert Placed(cid);
      return Some(cid);
    }

    /** The running coroutine's number and its place in the ring. */
    lemma CurPlace() returns (k: nat)
      requires Valid()
      ensures k < |chain.nodes| && chain.nodes[k] == cur
      ensures cur.id < |routines| && routines[cur.id] == cur && cur.id !in exited
      ensures k > 0 <==> cur.id != 0
    {
      k :| 0 <= k < |chain.nodes| && chain.nodes[k] == cur;
      assert cur in routines;
      assert Placed(cur.id);
    }

    /** The running coroutine has posted a request and leaves a future for its completion. */
    method EmplaceForRoutine()
      requires Valid() && cur != routines[0]
      modifies this
      ensures Valid() && routines == old(routines) && cur == old(cur) && exited == old(exited) && paused == old(paused)
      ensures old(AllPaused()) ==> AllPaused()
      ensures futures == old(futures) + [cur.id] && outstanding == old(outstanding) + multiset{cur.id}
    {
      hide LinkedList.Wired, LinkedList.Valid, Sum;
      var k := CurPlace();
      var id := cur.id;
      SumUpdate(pendingFutures, id, pendingFutures[id] + 1);
      pendingFutures := pendingFutures[id := pendingFutures[id] + 1];
      futures := futures + [id];
      outstanding := outstanding + multiset{id};
      assert forall c :: 0 <= c < |routines| ==> old(Placed(c));
    }

    /** The running coroutine is taken out of the ring; the one after it runs. */
    method LeaveRing(ghost k: nat)
      requires chain.Valid() && 0 < k < |chain.nodes| && chain.nodes[k] == cur
      requires forall i :: 0 <= i < |chain.nodes| ==> chain.nodes[i] in routines
      modifies `cur, chain, routines
      ensures chain.Valid() && chain.nodes == Without(old(chain.nodes), k)
      ensures Successor(old(chain.nodes), old(cur), k, cur)
      ensures cur.active && cur != old(cur) && chain.nodes != [] && chain.nodes[0] == old(chain.nodes[0])
      ensures forall m :: m in chain.nodes <==> m in old(chain.nodes) && m != old(cur)
      ensures forall m :: m in routines && m != cur ==> m.active == old(m.active)
    {
      cur := chain.LeaveOne(cur, k);
      chain.SetActive(cur, true);
    }

    lemma PendingNow()
      requires Valid()
      ensures cur.id < |pendingFutures| && pendingFutures[cur.id] == outstanding[cur.id]
    {
      var k := CurPlace();
    }

    /** Where everyone pauses after posting, who comes to run has nothing outstanding. */
    lemma NowFree()
      requires Valid()
      ensures cur.id !in paused
    {
      var k := CurPlace();
      assert Placed(cur.id);
    }

    /** The running coroutine, which waits for requests, leaves the ring; the next one runs. */
    method PauseAndYield(ghost k: nat)
      requires Valid() && 0 < k < |chain.nodes| && chain.nodes[k] == cur && cur.id in outstanding
      modifies this, chain, routines
      ensures Valid() && routines == old(routines) && futures == old(futures) && outstanding == old(outstanding)
      ensures exited == old(exited) && paused == old(paused) + {old(cur.id)}
      ensures cur.active && !old(cur).active
      ensures Successor(old(chain.nodes), old(cur), k, cur) && chain.nodes == Without(old(chain.nodes), k)
    {
      hide LinkedList.Wired, LinkedList.Valid, Tallied, Without, Successor;
      RingInside();
      chain.SetActive(cur, false);
      paused := paused + {cur.id};
      LeaveRing(k);
      assert forall c :: 0 <= c < |routines| ==> old(Placed(c));
    }

    /** A coroutine with pending requests leaves the ring; the next one runs. */
    method Pause()
      requires Valid()
      modifies this, chain, routines
      ensures Valid() && routines == old(routines) && futures == old(futures) && outstanding == old(outstanding)
      ensures exited == old(exited) && (old(AllPaused()) ==> AllPaused() && outstanding[cur.id] == 0)
      ensures old(outstanding[cur.id]) == 0 ==>
                cur == old(cur) && chain.nodes == old(chain.nodes) && paused == old(paused)
      ensures old(outstanding[cur.id]) > 0 ==>
                cur.active && !old(cur).active && paused == old(paused) + {old(cur.id)}
      ensures old(outstanding[cur.id]) > 0 ==>
                exists k :: Successor(old(chain.nodes), old(cur), k, cur) && chain.nodes == Without(old(chain.nodes), k)
    {
      hide LinkedList.Wired, LinkedList.Valid, Tallied, Without, Successor;
      ghost var k := CurPlace();
      PendingNow();
      if pendingFutures[cur.id] > 0 {
        PauseAndYield(k);
        NowFree();
      }
    }

    /** Runs the next coroutine of the ring; the caller keeps its place, whether it has pending requests or not. */
    method YieldToNext()
      requires Valid()
      modifies this, chain, routines
      ensures Valid() && routines == old(routines) && futures == old(futures) && outstanding == old(outstanding)
      ensures exited == old(exited) && paused == old(paused) && chain.nodes == old(chain.nodes)
      ensures old(AllPaused()) && old(outstanding[cur.id]) == 0 ==> AllPaused()
      ensures exists k :: Successor(chain.nodes, old(cur), k, cur)
      ensures cur != old(cur) ==> cur.active
    {
      hide Tallied;
      ghost var k := CurPlace();
      RingInside();
      assert chain.Wired(k);
      var was := cur;
      cur := cur.next;
      assert Successor(chain.nodes, was, k, cur);
      if was != cur {
        chain.SetActive(cur, true);
      }
      assert forall c :: 0 <= c < |routines| ==> old(Placed(c));
    }

    /** The running coroutine ends, whether it has pending requests or not. The main coroutine never does. */
    method Exit()
      requires Valid() && cur != routines[0]
      modifies this, chain, routines
      ensures Valid() && routines == old(routines) && futures == old(futures) && outstanding == old(outstanding)
      ensures exited == old(exited) + {old(cur.id)} && paused == old(paused) && cur.active
      ensures old(AllPaused()) && old(outstanding[cur.id]) == 0 ==> AllPaused()
      ensures exists k :: Successor(old(chain.nodes), old(cur), k, cur) && chain.nodes == Without(old(chain.nodes), k)
    {
      hide LinkedList.Wired, LinkedList.Valid, Tallied, Without, Successor;
      ghost var k := CurPlace();
      RingInside();
      exited := exited + {cur.id};
      LeaveRing(k);
      assert forall c :: 0 <= c < |routines| ==> old(Placed(c));
    }

    /** A coroutine with an outstanding request is a known one other than the main one. */
    lemma Waiting(cid: nat)
      requires Counted() && cid in outstanding
      ensures 0 < cid < |routines| && 0 !in outstanding
    {
    }

    /** Takes one report off the coroutine's count and drops the future; who has nothing left no longer waits. */
    method Decrease(it: nat, cid: nat) returns (left: nat)
      requires Counted() && it < |futures| && cid in outstanding
      modifies this`pendingFutures, this`futures, this`outstanding, this`paused
      ensures Counted() && left == outstanding[cid] && outstanding == old(outstanding) - multiset{cid}
      ensures futures == old(futures[..it] + futures[it + 1..])
      ensures paused == if left == 0 then old(paused) - {cid} else old(paused)
    {
      assert pendingFutures[cid] >= 1;
      SumUpdate(pendingFutures, cid, pendingFutures[cid] - 1);
      pendingFutures := pendingFutures[cid := pendingFutures[cid] - 1];
      futures := futures[..it] + futures[it + 1..];
      outstanding := outstanding - multiset{cid};
      left := pendingFutures[cid];
      if left == 0 { paused := paused - {cid}; }
    }

    /** What polling needs of a valid scheduler. */
    lemma PollFacts()
      requires Valid() && cur == routines[0]
      ensures Counted() && chain.Valid() && 0 < |routines| && chain.nodes != [] && chain.nodes[0] == routines[0]
      ensures routines[0].id == 0 && forall i :: 0 <= i < |chain.nodes| ==> chain.nodes[i] in routines
      ensures forall c :: c in paused ==> c !in exited
    {
    }

    /** The report is the last one its coroutine waits for. */
    ghost predicate IsLast(report: Option<nat>)
      reads `outstanding
    {
      report.Some? && outstanding[report.value] == 1
    }

    /** Puts a coroutine back whose last request was reported, unless it is gone or still active. */
    method PutBack(cid: nat) returns (wake: Wake)
      requires chain.Valid() && cid < |routines|
      requires forall i :: 0 <= i < |chain.nodes| ==> chain.nodes[i] in routines
      requires routines[cid] !in chain.nodes || cid in exited || routines[cid].active
      modifies chain, routines
      ensures chain.Valid()
      ensures wake == Freed <==> cid in exited
      ensures wake == AssertionFails <==> cid !in exited && old(routines[cid].active)
      ensures chain.nodes == old(chain.nodes) + if wake == Fine then [routines[cid]] else []
      ensures Marks() == old(Marks())
    {
      hide LinkedList.Wired, LinkedList.Valid;
      wake := Fine;
      if cid in exited {
        wake := Freed;
      } else if routines[cid].active {
        wake := AssertionFails;
      } else {
        chain.Add(routines[cid]);
      }
    }

    /**
     One future is polled: it is not ready, or it reports a completion and is dropped. The count
     never underflows. A coroutine whose last request is reported is put back exactly if it has
     paused; if it has not, it is still active or gone.
     */
    method PollOne(it: nat, report: Option<nat>) returns (wake: Wake, next: nat)
      requires Valid() && cur == routines[0] && it < |futures|
      requires report.Some? ==> report.value in outstanding
      modifies this, chain, routines
      ensures Valid() && cur == old(cur) && routines == old(routines) && exited == old(exited)
      ensures outstanding == old(outstanding) - if report.Some? then multiset{report.value} else multiset{}
      ensures report.None? ==> next == it + 1 && futures == old(futures)
      ensures report.Some? ==>
                && report.value < |routines| && next == it && futures == old(futures[..it] + futures[it + 1..])
      ensures wake == Fine <==> !old(IsLast(report)) || report.value in old(paused)
      ensures wake == Freed <==> old(IsLast(report)) && report.value in exited
      ensures paused == if old(IsLast(report)) then old(paused) - {report.value} else old(paused)
      ensures chain.nodes == old(chain.nodes) +
                if old(IsLast(report)) && wake == Fine then [routines[report.value]] else []
      ensures Marks() == old(Marks()) && (old(AllPaused()) ==> AllPaused() && wake == Fine)
    {
      hide LinkedList.Wired, LinkedList.Valid, Tallied, Counted, Valid, Placed, Places;
      PollFacts();
      PlacesNow();
      wake, next := Fine, it + 1;
      if report.Some? {
        var cid := report.value;
        Waiting(cid);
        ghost var ring, marks, counts, waits := chain.nodes, Marks(), outstanding, paused;
        PlaceOf(routines, ring, marks, counts, exited, waits, cid);
        PlacesAfter(routines, ring, marks, counts, exited, waits, cid);
        var left := Decrease(it, cid);
        assert Marks() == marks;
        next := it;
        if left == 0 { wake := PutBack(cid); }
        assert chain.nodes == ring + if cid in waits && counts[cid] == 1 then [routines[cid]] else [];
        NowValid();
      }
    }

    lemma AllKnown(polls: Polls)
      requires Counted() && Reported(polls) <= outstanding
      ensures Known(routines, Woken(outstanding, polls))
    {
      hide Woken, Reported;
      WokenCounted(outstanding, polls);
      var ids := Woken(outstanding, polls);
      forall i | 0 <= i < |ids| ensures ids[i] < |routines| {
        assert ids[i] in ids;
      }
    }

    /**
     The main coroutine polls every future once, up to a report that wakes wrongly. With one
     completion per request, the counts go down by what is reported, and each coroutine whose count
     reaches zero joins the ring, once, exactly if all of these have paused. The first n futures have
     been polled: those not ready are left, in their order, and the rest follow as they were.
     */
    method PollAllFutures(polls: Polls) returns (wake: Wake, ghost n: nat)
      requires Valid() && cur == routines[0] && |polls| == |futures| && Reported(polls) <= outstanding
      modifies this, chain, routines
      ensures Valid() && cur == old(cur) && routines == old(routines) && exited == old(exited)
      ensures Known(routines, Woken(old(outstanding), polls))
      ensures wake == Fine <==> forall c :: c in Woken(old(outstanding), polls) ==> c in old(paused)
      ensures n <= |polls| && outstanding == old(outstanding) - Reported(polls[..n])
      ensures futures == Kept(old(futures)[..n], polls[..n]) + old(futures)[n..]
      ensures wake == Fine ==>
                && outstanding == old(outstanding) - Reported(polls) && futures == Kept(old(futures), polls)
                && chain.nodes == old(chain.nodes) + Pick(routines, Woken(old(outstanding), polls))
                && forall c :: c in paused <==> c in old(paused) && c !in Woken(old(outstanding), polls)
      ensures Marks() == old(Marks()) && (old(AllPaused()) ==> AllPaused() && wake == Fine)
    {
      hide Reported, Woken, Counted, Placed, Pick, Known, Marks, AllPaused, Kept;
      ghost var counts, ring, waiting, all := outstanding, chain.nodes, paused, futures;
      NonePolled(routines, counts, polls);
      KeptNone(all, polls);
      AllKnown(polls);
      var it := 0;
      wake, n := Fine, |polls|;
      for i := 0 to |polls|
        invariant Valid() && cur == old(cur) && routines == old(routines) && exited == old(exited)
        invariant Reported(polls[..i]) <= counts && outstanding == counts - Reported(polls[..i])
        invariant futures == Kept(all[..i], polls[..i]) + all[i..] && it == |Kept(all[..i], polls[..i])|
        invariant wake == Fine && n == |polls|
        invariant Marks() == old(Marks()) && (old(AllPaused()) ==> AllPaused())
        invariant Known(routines, Woken(counts, polls[..i]))
        invariant chain.nodes == ring + Pick(routines, Woken(counts, polls[..i]))
        invariant forall c :: c in Woken(counts, polls[..i]) ==> c in waiting
        invariant forall c :: c in paused <==> c in waiting && c !in Woken(counts, polls[..i])
      {
        PollNext(counts, polls, i);
        WokenNext(counts, polls, i);
        KeptNext(all, polls, i);
        wake, it := PollOne(it, polls[i]);
        if wake != Fine {
          n := i + 1;
          return;
        }
        RingNext(routines, ring, counts, polls, i);
      }
      assert polls[..|polls|] == polls && all[..|polls|] == all && all[|polls|..] == [];
    }
  }

  /** A scheduler in which coroutine 1 runs. */
  method StartOne() returns (s: SScheduler)
    ensures fresh(s) && fresh(s.chain) && (forall n :: n in s.routines ==> fresh(n))
    ensures s.Valid() && |s.routines| == 2 && s.chain.nodes == s.routines && s.cur == s.routines[1]
    ensures s.outstanding == multiset{} && s.paused == {} && s.exited == {} && s.futures == []
  {
    s := new SScheduler();
    var c := s.Spawn();
    s.YieldToNext();
  }

  /** A coroutine that posts, yields without a pause, and is active in the ring when its request completes. */
  method YieldInsteadOfPause() returns (s: SScheduler, wake: Wake)
    ensures s.Valid() && 1 !in s.exited && wake == AssertionFails
  {
    s := StartOne();
    s.EmplaceForRoutine();
    s.YieldToNext();
    var next;
    wake, next := s.PollOne(0, Some(1));
  }

  /** A coroutine that posts and exits, and is gone when its request completes. */
  method ExitInsteadOfPause() returns (s: SScheduler, wake: Wake)
    ensures s.Valid() && 1 in s.exited && wake == Freed
  {
    s := StartOne();
    s.EmplaceForRoutine();
    s.Exit();
    var next;
    wake, next := s.PollOne(0, Some(1));
  }
}
