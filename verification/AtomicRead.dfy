/**
 Reads of a versioned object without locks. A writer closes the object, changes its payload and
 stamps the next version; a reader copies the object two words at a time in ascending order and
 accepts the copy when both stamps agree. Steps of the two interleave in any order.
 */
module AtomicRead {
  /** Stamps are 32-bit counters. */
  const WRAP: nat := 0x1_0000_0000

  const INVALID_SEQ: nat := 0

  /** Where the writer is between its stores. */
  datatype Phase = Idle | Marked(ret: nat) | Open(ret: nat) | Stamped

  /**
   The object's memory in 32-bit words (stamp, payload, stamp, padding), the writer, and the
   reader's copy so far. The rest is history: all committed payloads, and how many commits there
   were when the read started and when it copied the front and the back stamp.
   */
  datatype State = State(size: nat, mem: seq<nat>, phase: Phase, buf: seq<nat>,
                         versions: seq<seq<nat>>, since: nat, front: nat, back: nat)

  /** Words of an object, padded to a multiple of 64 bytes. */
  function Words(size: nat): nat { (size + 17) / 16 * 16 }

  function Payload(size: nat, mem: seq<nat>): seq<nat>
    requires |mem| > size
  {
    mem[1..size + 1]
  }

  predicate Consistent(size: nat, mem: seq<nat>)
    requires |mem| > size + 1
  {
    mem[0] == mem[size + 1] && mem[0] != INVALID_SEQ
  }

  function Init(payload: seq<nat>): State {
    var n := |payload|;
    State(n, [1] + payload + [1] + seq(Words(n) - n - 2, _ => 0), Idle, [], [payload], 1, 0, 0)
  }

  datatype Action = MarkBack | MarkFront | Store(i: nat, v: nat) | StampFront | StampBack | Copy | Restart

  /** One atomic step; an action that is not next for its thread changes nothing. */
  function Step(s: State, a: Action): (r: State)
    requires |s.mem| == Words(s.size)
    ensures |r.mem| == Words(r.size) && r.size == s.size
  {
    match a
    case MarkBack =>
      if s.phase.Idle? then s.(mem := s.mem[s.size + 1 := INVALID_SEQ], phase := Marked(s.mem[s.size + 1])) else s
    case MarkFront =>
      if s.phase.Marked? then s.(mem := s.mem[0 := INVALID_SEQ], phase := Open(s.phase.ret)) else s
    case Store(i, v) =>
      if s.phase.Open? && i < s.size then s.(mem := s.mem[i + 1 := v]) else s
    case StampFront =>
      if s.phase.Open? then
        s.(mem := s.mem[0 := (s.phase.ret + 1) % WRAP], phase := Stamped,
           versions := s.versions + [Payload(s.size, s.mem)])
      else s
    case StampBack =>
      if s.phase.Stamped? then s.(mem := s.mem[s.size + 1 := s.mem[0]], phase := Idle) else s
    case Copy =>
      if |s.buf| + 2 <= |s.mem| then
        s.(buf := s.buf + s.mem[|s.buf|..|s.buf| + 2],
           front := if s.buf == [] then |s.versions| else s.front,
           back := if |s.buf| <= s.size + 1 < |s.buf| + 2 then |s.versions| else s.back)
      else s
    case Restart => s.(buf := [], since := |s.versions|)
  }

  function Exec(s: State, actions: seq<Action>): (r: State)
    requires |s.mem| == Words(s.size)
    ensures |r.mem| == Words(r.size) && r.size == s.size
    decreases |actions|
  {
    if actions == [] then s else Exec(Step(s, actions[0]), actions[1..])
  }

  // ---------- the invariant ----------

  /** The stamp of the n-th commit. */
  function Stamp(n: nat): nat { n % WRAP }

  ghost predicate Shape(s: State) {
    && |s.mem| == Words(s.size) && |s.buf| <= |s.mem| && |s.buf| % 2 == 0
    && 1 <= s.since <= |s.versions|
    && (forall k :: 0 <= k < |s.versions| ==> |s.versions[k]| == s.size)
  }

  /** Outside the writer's changes the payload is the last commit; stamps are valid only then. */
  ghost predicate WriterOk(s: State)
    requires Shape(s)
  {
    var front, back := s.mem[0], s.mem[s.size + 1];
    && (s.phase.Open? || Payload(s.size, s.mem) == s.versions[|s.versions| - 1])
    && front == (if s.phase.Open? then INVALID_SEQ else Stamp(|s.versions|))
    && back == (if s.phase.Idle? then Stamp(|s.versions|) else INVALID_SEQ)
    && (s.phase.Marked? || s.phase.Open? ==> s.phase.ret == Stamp(|s.versions|))
  }

  /** The part of the payload copied so far is that of the k-th commit. */
  ghost predicate CopiedFrom(s: State, k: nat)
    requires Shape(s)
  {
    && 0 < k <= |s.versions|
    && forall i :: 1 <= i <= s.size && i < |s.buf| ==> s.buf[i] == s.versions[k - 1][i - 1]
  }

  ghost predicate ReaderOk(s: State)
    requires Shape(s)
  {
    && (|s.buf| > 0 ==>
          && s.since <= s.front <= |s.versions|
          && (s.buf[0] != INVALID_SEQ ==>
                && s.buf[0] == Stamp(s.front)
                && (s.front == |s.versions| && !s.phase.Open? ==> CopiedFrom(s, s.front))))
    && (|s.buf| > s.size + 1 ==>
          && s.front <= s.back <= |s.versions|
          && (s.buf[s.size + 1] != INVALID_SEQ ==>
                && s.buf[s.size + 1] == Stamp(s.back)
                && (s.buf[0] != INVALID_SEQ && s.front == s.back ==> CopiedFrom(s, s.front))))
  }

  ghost predicate Inv(s: State) { Shape(s) && WriterOk(s) && ReaderOk(s) }

  lemma InitInv(payload: seq<nat>)
    ensures Inv(Init(payload))
  {
  }

  lemma StampGrows(n: nat)
    ensures (Stamp(n) + 1) % WRAP == Stamp(n + 1)
  {
  }

  /** No writer action touches the copy or an earlier commit. */
  lemma WriterKeepsCopy(s: State, a: Action, k: nat)
    requires Shape(s) && CopiedFrom(s, k) && !a.Copy? && !a.Restart? && Shape(Step(s, a))
    ensures CopiedFrom(Step(s, a), k)
  {
  }

  lemma WordsFit(size: nat)
    ensures Words(size) >= size + 2 && Words(size) % 2 == 0
  {
  }

  lemma WriterStep(s: State, a: Action)
    requires Inv(s) && !a.Copy? && !a.Restart?
    ensures Inv(Step(s, a))
  {
    hide Words, CopiedFrom, Stamp;
    WordsFit(s.size);
    if a.StampFront? { StampGrows(|s.versions|); }
    if CopiedFrom(s, s.front) { WriterKeepsCopy(s, a, s.front); }
  }

  /** While the writer is not inside, two more words are two more words of the last commit. */
  lemma CopyExtends(s: State)
    requires Shape(s) && WriterOk(s) && !s.phase.Open? && |s.buf| < |s.mem|
    requires s.buf == [] || CopiedFrom(s, |s.versions|)
    requires Shape(Step(s, Copy))
    ensures CopiedFrom(Step(s, Copy), |s.versions|)
  {
    hide Words, Stamp;
    WordsFit(s.size);
    var t, p := Step(s, Copy), s.versions[|s.versions| - 1];
    forall i | 1 <= i <= s.size && i < |t.buf| ensures t.buf[i] == p[i - 1] {
      if i < |s.buf| {
        assert t.buf[i] == s.buf[i];
      } else {
        assert t.buf[i] == s.mem[i] == Payload(s.size, s.mem)[i - 1];
      }
    }
  }

  /** Once the whole payload is copied, further words do not matter. */
  lemma CopyPast(s: State, k: nat)
    requires Shape(s) && CopiedFrom(s, k) && s.size + 1 < |s.buf| < |s.mem| && Shape(Step(s, Copy))
    ensures CopiedFrom(Step(s, Copy), k)
  {
  }

  lemma CopyWords(s: State)
    requires Shape(s) && |s.buf| < |s.mem|
    ensures var t := Step(s, Copy);
            && Shape(t) && |t.buf| == |s.buf| + 2
            && forall i :: 0 <= i < |t.buf| ==> t.buf[i] == if i < |s.buf| then s.buf[i] else s.mem[i]
  {
    hide Words, Stamp;
    WordsFit(s.size);
  }

  lemma CopyStep(s: State)
    requires Inv(s)
    ensures Inv(Step(s, Copy))
  {
    hide Words, Stamp, CopiedFrom;
    WordsFit(s.size);
    if |s.buf| < |s.mem| {
      CopyWords(s);
      if !s.phase.Open? && (s.buf == [] || CopiedFrom(s, |s.versions|)) { CopyExtends(s); }
      if s.size + 1 < |s.buf| && CopiedFrom(s, s.front) { CopyPast(s, s.front); }
    }
  }

  lemma StepInv(s: State, a: Action)
    requires Inv(s)
    ensures Inv(Step(s, a))
  {
    hide Words, Stamp, CopiedFrom;
    if a.Copy? {
      CopyStep(s);
    } else if !a.Restart? {
      WriterStep(s, a);
    }
  }

  lemma {:induction false} ExecInv(s: State, actions: seq<Action>)
    requires Inv(s)
    ensures Inv(Exec(s, actions))
    decreases |actions|
  {
    if actions != [] {
      StepInv(s, actions[0]);
      ExecInv(Step(s, actions[0]), actions[1..]);
    }
  }

  // ---------- what an accepted copy is ----------

  predicate Accepted(s: State)
    requires |s.mem| == Words(s.size)
  {
    |s.buf| == |s.mem| && Consistent(s.size, s.buf)
  }

  lemma SameStamp(a: nat, b: nat)
    requires a <= b < a + WRAP && a % WRAP == b % WRAP
    ensures a == b
  {
  }

  lemma AcceptedHolds(s: State)
    requires Inv(s) && Accepted(s)
    ensures |s.versions| - s.since < WRAP ==>
              && 1 <= s.since <= s.front <= |s.versions|
              && Payload(s.size, s.buf) == s.versions[s.front - 1]
              && s.buf[0] == Stamp(s.front)
  {
    if |s.versions| - s.since < WRAP { SameStamp(s.front, s.back); }
  }

  /**
   For every interleaving: a copy accepted while fewer than 2^32 writes committed since its read
   began is the payload of one commit, one that was the latest at some moment of the read.
   */
  lemma AcceptedIsSnapshot(payload: seq<nat>, actions: seq<Action>)
    requires var s := Exec(Init(payload), actions);
             Accepted(s) && |s.versions| - s.since < WRAP
    ensures var s := Exec(Init(payload), actions);
            && 1 <= s.since <= s.front <= |s.versions|
            && Payload(s.size, s.buf) == s.versions[s.front - 1]
            && s.buf[0] == Stamp(s.front)
  {
    InitInv(payload);
    ExecInv(Init(payload), actions);
    AcceptedHolds(Exec(Init(payload), actions));
  }

  // ---------- undisturbed reads ----------

  function Copies(k: nat): seq<Action> { seq(k, _ => Copy) }

  lemma {:induction false} CopiesPrefix(s: State, k: nat)
    requires Inv(s) && |s.buf| + 2 * k <= |s.mem|
    ensures var t := Exec(s, Copies(k));
            && t.mem == s.mem && t.versions == s.versions && t.phase == s.phase && t.size == s.size
            && t.since == s.since
            && t.buf == s.buf + s.mem[|s.buf|..|s.buf| + 2 * k]
    decreases k
  {
    hide Words, Stamp, Inv;
    if k > 0 {
      assert Copies(k)[0] == Copy && Copies(k)[1..] == Copies(k - 1);
      StepInv(s, Copy);
      CopiesPrefix(Step(s, Copy), k - 1);
    }
  }

  /** A read with no writer at work is accepted at once, except on the version whose stamp wrapped to 0. */
  lemma QuietReadAccepted(s: State)
    requires Inv(s) && s.phase.Idle?
    ensures var t := Exec(Step(s, Restart), Copies(|s.mem| / 2));
            Accepted(t) <==> Stamp(|s.versions|) != INVALID_SEQ
  {
    hide Words, Stamp;
    WordsFit(s.size);
    StepInv(s, Restart);
    CopiesPrefix(Step(s, Restart), |s.mem| / 2);
    assert |s.mem| % 2 == 0;
    assert s.mem[0..|s.mem|] == s.mem;
  }

  // ---------- the bound on commits is needed ----------

  lemma {:induction false} ExecAppend(s: State, a: seq<Action>, b: seq<Action>)
    requires |s.mem| == Words(s.size)
    ensures Exec(s, a + b) == Exec(Exec(s, a), b)
    decreases |a|
  {
    if a == [] {
      assert a + b == b;
    } else {
      assert (a + b)[0] == a[0] && (a + b)[1..] == a[1..] + b;
      ExecAppend(Step(s, a[0]), a[1..], b);
    }
  }

  lemma ExecSingle(s: State, a: Action)
    requires |s.mem| == Words(s.size)
    ensures Exec(s, [a]) == Step(s, a)
  {
    assert [a][1..] == [];
  }

  /** The stores of the first n words of a payload. */
  function Stores(payload: seq<nat>, n: nat): seq<Action>
    requires n <= |payload|
  {
    if n == 0 then [] else Stores(payload, n - 1) + [Store(n - 1, payload[n - 1])]
  }

  /** One complete write of a payload. */
  function WriteOf(payload: seq<nat>): seq<Action> {
    [MarkBack] + ([MarkFront] + (Stores(payload, |payload|) + ([StampFront] + [StampBack])))
  }

  function Writes(v: nat, k: nat): seq<Action> {
    if k == 0 then [] else WriteOf([v, v]) + Writes(v, k - 1)
  }

  lemma {:induction false} StoresRun(s: State, payload: seq<nat>, n: nat)
    requires Inv(s) && s.phase.Open? && n <= |payload| == s.size
    ensures var t := Exec(s, Stores(payload, n));
            && t == s.(mem := t.mem) && t.mem[0] == s.mem[0] && t.mem[s.size + 1] == s.mem[s.size + 1]
            && forall i :: 0 <= i < n ==> t.mem[i + 1] == payload[i]
  {
    if n > 0 {
      StoresRun(s, payload, n - 1);
      ExecAppend(s, Stores(payload, n - 1), [Store(n - 1, payload[n - 1])]);
      ExecSingle(Exec(s, Stores(payload, n - 1)), Store(n - 1, payload[n - 1]));
    }
  }

  /** The five parts of a write, one after the other. */
  lemma WriteParts(s: State, payload: seq<nat>)
    requires |s.mem| == Words(s.size)
    ensures Exec(s, WriteOf(payload)) ==
              Step(Step(Exec(Step(Step(s, MarkBack), MarkFront), Stores(payload, |payload|)), StampFront), StampBack)
  {
    hide Step, Exec, Words;
    var st := Stores(payload, |payload|);
    ExecAppend(s, [MarkBack], [MarkFront] + (st + ([StampFront] + [StampBack])));
    ExecSingle(s, MarkBack);
    var s1 := Step(s, MarkBack);
    ExecAppend(s1, [MarkFront], st + ([StampFront] + [StampBack]));
    ExecSingle(s1, MarkFront);
    var s2 := Step(s1, MarkFront);
    ExecAppend(s2, st, [StampFront] + [StampBack]);
    var s3 := Exec(s2, st);
    ExecAppend(s3, [StampFront], [StampBack]);
    ExecSingle(s3, StampFront);
    ExecSingle(Step(s3, StampFront), StampBack);
  }

  /** A whole write of any payload, made by a writer at rest, commits that payload and rests again. */
  lemma WriteCommits(s: State, payload: seq<nat>)
    requires Inv(s) && s.phase.Idle? && |payload| == s.size
    ensures var t := Exec(s, WriteOf(payload));
            && Inv(t) && t.phase.Idle? && t.buf == s.buf && t.since == s.since && t.size == s.size
            && t.versions == s.versions + [payload] && Payload(t.size, t.mem) == payload
  {
    hide Exec, ReaderOk;
    ExecInv(s, WriteOf(payload));
    WriteParts(s, payload);
    var s2 := Step(Step(s, MarkBack), MarkFront);
    StepInv(s, MarkBack);
    StepInv(Step(s, MarkBack), MarkFront);
    StoresRun(s2, payload, |payload|);
    assert Payload(s.size, Exec(s2, Stores(payload, |payload|)).mem) == payload;
  }

  lemma {:induction false} ManyWrites(s: State, v: nat, k: nat)
    requires Inv(s) && s.phase.Idle? && s.size == 2
    ensures var t := Exec(s, Writes(v, k));
            && Inv(t) && t.phase.Idle? && t.buf == s.buf && t.since == s.since && t.size == 2
            && |t.versions| == |s.versions| + k
            && (forall i :: 0 <= i < |t.versions| ==>
                  t.versions[i] == if i < |s.versions| then s.versions[i] else [v, v])
    decreases k
  {
    if k > 0 {
      WriteCommits(s, [v, v]);
      ManyWrites(Exec(s, WriteOf([v, v])), v, k - 1);
      ExecAppend(s, WriteOf([v, v]), Writes(v, k - 1));
    }
  }

  /** The front stamp and first word of the first version, and the rest of a version a stamp cycle later. */
  lemma MixedCopy(u: State, buf: seq<nat>)
    requires Inv(u) && u.phase.Idle? && u.size == 2 && |u.versions| == 1 + WRAP && u.versions[WRAP] == [7, 7]
    requires |u.mem| == 16 && buf == Init([0, 0]).mem[0..2] + u.mem[2..16]
    ensures Consistent(2, buf) && Payload(2, buf) == [0, 7]
  {
    hide CopiedFrom;
    assert u.mem[2] == Payload(2, u.mem)[1];
    assert buf[0] == 1 && buf[1] == 0 && buf[2] == 7 && buf[3] == 1;
  }

  /** A copy that straddles 2^32 commits is accepted, but mixes the first payload with the last. */
  lemma Straddle() returns (s: State, t: State)
    ensures s == Init([0, 0]) && t == Exec(s, [Copy] + (Writes(7, WRAP) + Copies(7)))
    ensures Inv(t) && t.phase.Idle? && t.size == 2 && t.since == s.since == 1 && |t.versions| == 1 + WRAP
    ensures Accepted(t) && Payload(2, t.buf) == [0, 7]
    ensures forall i :: 0 <= i < |t.versions| ==> t.versions[i] == if i == 0 then [0, 0] else [7, 7]
  {
    hide Exec, Writes, CopiedFrom, WriterOk, Consistent, Payload;
    s := Init([0, 0]);
    InitInv([0, 0]);
    StepInv(s, Copy);
    var c := Step(s, Copy);
    ManyWrites(c, 7, WRAP);
    var u := Exec(c, Writes(7, WRAP));
    CopiesPrefix(u, 7);
    ExecAppend(s, [Copy], Writes(7, WRAP) + Copies(7));
    ExecAppend(c, Writes(7, WRAP), Copies(7));
    ExecSingle(s, Copy);
    t := Exec(u, Copies(7));
    ExecInv(u, Copies(7));
    assert c.buf == s.mem[0..2];
    MixedCopy(u, t.buf);
  }

  /**
   For every number of commits from 2^32 on there is a read during which that many happen and whose
   accepted copy is no version at all.
   */
  lemma WrapTears(n: nat) returns (payload: seq<nat>, actions: seq<Action>)
    requires n >= WRAP
    ensures var s := Exec(Init(payload), actions);
            && Accepted(s) && |s.versions| - s.since == n
            && Payload(s.size, s.buf) !in s.versions
  {
    hide Exec, Writes, Inv;
    var s, t := Straddle();
    var front := [Copy] + (Writes(7, WRAP) + Copies(7));
    payload, actions := [0, 0], front + Writes(7, n - WRAP);
    ManyWrites(t, 7, n - WRAP);
    ExecAppend(s, front, Writes(7, n - WRAP));
  }

  // ---------- the retry loop ----------

  /**
   One read operation: it fails, or it starts afresh, runs interleaved with the writer as the
   actions say, and then copies whatever is still missing.
   */
  datatype Attempt = Copied(actions: seq<Action>) | Failed

  /** Waiting: all attempts supplied so far were inconsistent and the loop goes on. */
  datatype Outcome = Done(mem: seq<nat>) | ReadError | TooSmall | Waiting

  const MAX_RETRIES: nat := 1000000

  function Attempted(s: State, actions: seq<Action>): (r: State)
    requires |s.mem| == Words(s.size)
    ensures |r.mem| == Words(r.size) && r.size == s.size
  {
    var t := Exec(Step(s, Restart), actions);
    if |t.buf| <= |t.mem| then Exec(t, Copies((|t.mem| - |t.buf|) / 2)) else t
  }

  // ---------- what an attempt does and does not ----------

  /** Two states that differ at most in the reader's part. */
  ghost predicate SameWriter(s: State, t: State) {
    s.size == t.size && s.mem == t.mem && s.phase == t.phase && s.versions == t.versions
  }

  lemma StepSameWriter(s: State, t: State, a: Action)
    requires |s.mem| == Words(s.size) && SameWriter(s, t)
    ensures SameWriter(Step(s, a), Step(t, a))
    ensures a.Copy? || a.Restart? ==> SameWriter(Step(s, a), s)
    ensures |s.versions| <= |Step(s, a).versions| && (s.since <= |s.versions| ==> s.since <= Step(s, a).since)
  {
  }

  lemma {:induction false} ExecSameWriter(s: State, t: State, actions: seq<Action>)
    requires |s.mem| == Words(s.size) && SameWriter(s, t)
    ensures SameWriter(Exec(s, actions), Exec(t, actions))
    decreases |actions|
  {
    hide Step, Words;
    if actions != [] {
      StepSameWriter(s, t, actions[0]);
      ExecSameWriter(Step(s, actions[0]), Step(t, actions[0]), actions[1..]);
    }
  }

  /** What only copies and restarts leave alone. */
  ghost predicate ReaderOnly(actions: seq<Action>) {
    forall i :: 0 <= i < |actions| ==> actions[i].Copy? || actions[i].Restart?
  }

  /** The copy so far is what the memory holds now. */
  ghost predicate CopiesNow(s: State) {
    |s.mem| == Words(s.size) && |s.buf| % 2 == 0 && |s.buf| <= |s.mem| && s.buf == s.mem[..|s.buf|]
  }

  lemma ReaderStep(s: State, a: Action)
    requires CopiesNow(s) && (a.Copy? || a.Restart?)
    ensures CopiesNow(Step(s, a)) && SameWriter(Step(s, a), s)
  {
    if a.Copy? && |s.buf| + 2 <= |s.mem| {
      var n := |s.buf|;
      assert s.mem[..n] + s.mem[n..n + 2] == s.mem[..n + 2];
    }
  }

  lemma NowShaped(s: State)
    ensures CopiesNow(s) ==> |s.mem| == Words(s.size) && |s.buf| <= |s.mem|
  {
  }

  /** While the writer rests, copying copies what is there. */
  lemma {:induction false} ReaderRun(s: State, actions: seq<Action>)
    requires CopiesNow(s) && ReaderOnly(actions)
    ensures CopiesNow(Exec(s, actions)) && SameWriter(Exec(s, actions), s)
    decreases |actions|
  {
    hide Step, Words, CopiesNow;
    if actions != [] {
      NowShaped(s);
      ReaderStep(s, actions[0]);
      assert ReaderOnly(actions[1..]);
      ReaderRun(Step(s, actions[0]), actions[1..]);
    }
  }

  /** The number of commits never falls, and the start of a read only moves on. */
  lemma {:induction false} ExecGrows(s: State, actions: seq<Action>)
    requires Inv(s)
    ensures |s.versions| <= |Exec(s, actions).versions| && s.since <= Exec(s, actions).since
    decreases |actions|
  {
    hide Step, Words, WriterOk, ReaderOk;
    if actions != [] {
      StepInv(s, actions[0]);
      StepSameWriter(s, s, actions[0]);
      ExecGrows(Step(s, actions[0]), actions[1..]);
    }
  }

  /** After an attempt the copy is complete, whatever the writer did meanwhile. */
  lemma AttemptedInv(s: State, actions: seq<Action>)
    requires Inv(s)
    ensures var r := Attempted(s, actions); Inv(r) && |r.buf| == |r.mem| && r.since >= |s.versions|
  {
    hide Words, Stamp, CopiedFrom, WriterOk, ReaderOk;
    StepInv(s, Restart);
    ExecInv(Step(s, Restart), actions);
    ExecGrows(Step(s, Restart), actions);
    var t := Exec(Step(s, Restart), actions);
    WordsFit(t.size);
    ExecInv(t, Copies((|t.mem| - |t.buf|) / 2));
    CopiesPrefix(t, (|t.mem| - |t.buf|) / 2);
  }

  lemma {:induction false} ReaderKeepsWriter(s: State, actions: seq<Action>)
    requires |s.mem| == Words(s.size) && ReaderOnly(actions)
    ensures SameWriter(Exec(s, actions), s)
    decreases |actions|
  {
    hide Step, Words;
    if actions != [] {
      StepSameWriter(s, s, actions[0]);
      assert ReaderOnly(actions[1..]);
      ReaderKeepsWriter(Step(s, actions[0]), actions[1..]);
    }
  }

  /** The writer does in an attempt what its actions say, as if nobody read. */
  lemma AttemptedWriter(s: State, actions: seq<Action>)
    requires |s.mem| == Words(s.size)
    ensures SameWriter(Attempted(s, actions), Exec(s, actions))
  {
    hide Step, Words, Exec;
    StepSameWriter(s, s, Restart);
    ExecSameWriter(Step(s, Restart), s, actions);
    var t := Exec(Step(s, Restart), actions);
    if |t.buf| <= |t.mem| { ReaderKeepsWriter(t, Copies((|t.mem| - |t.buf|) / 2)); }
  }

  lemma StartsNow(s: State)
    requires |s.mem| == Words(s.size)
    ensures CopiesNow(Step(s, Restart)) && SameWriter(Step(s, Restart), s)
  {
    assert s.mem[..0] == [];
  }

  lemma CopiesRead(rest: seq<Action>, k: nat)
    requires rest == Copies(k)
    ensures ReaderOnly(rest)
  {
  }

  lemma WholeNow(s: State)
    requires CopiesNow(s) && |s.buf| == |s.mem|
    ensures s.buf == s.mem
  {
  }

  /** An attempt made while the writer rests at a valid stamp is accepted, and copies the last commit. */
  lemma QuietAttempt(s: State, actions: seq<Action>)
    requires Inv(s) && s.phase.Idle? && Stamp(|s.versions|) != INVALID_SEQ && ReaderOnly(actions)
    ensures var r := Attempted(s, actions);
            Accepted(r) && Payload(r.size, r.buf) == s.versions[|s.versions| - 1]
  {
    hide Step, Words, Exec, ReaderOk, CopiesNow, ReaderOnly, Stamp;
    WordsFit(s.size);
    StartsNow(s);
    var u := Step(s, Restart);
    ReaderRun(u, actions);
    var t := Exec(u, actions);
    NowShaped(t);
    var rest := Copies((|t.mem| - |t.buf|) / 2);
    CopiesRead(rest, (|t.mem| - |t.buf|) / 2);
    ReaderRun(t, rest);
    AttemptedInv(s, actions);
    WholeNow(Attempted(s, actions));
  }

  /** The state after the first k attempts. */
  ghost function After(s: State, attempts: seq<Attempt>, k: nat): (r: State)
    requires |s.mem| == Words(s.size) && k <= |attempts|
    ensures |r.mem| == Words(r.size) && r.size == s.size
  {
    if k == 0 then s
    else
      var t := After(s, attempts, k - 1);
      if attempts[k - 1].Copied? then Attempted(t, attempts[k - 1].actions) else t
  }

  /** Attempt k came back, but with a copy that is not consistent. */
  ghost predicate Rejected(s: State, attempts: seq<Attempt>, k: nat)
    requires |s.mem| == Words(s.size) && k < |attempts|
  {
    attempts[k].Copied? && !Accepted(After(s, attempts, k + 1))
  }

  lemma {:induction false} AfterInv(s: State, attempts: seq<Attempt>, k: nat)
    requires Inv(s) && k <= |attempts|
    ensures Inv(After(s, attempts, k))
  {
    hide Attempted, WriterOk, ReaderOk;
    if k > 0 {
      AfterInv(s, attempts, k - 1);
      if attempts[k - 1].Copied? { AttemptedInv(After(s, attempts, k - 1), attempts[k - 1].actions); }
    }
  }

  /** Retrying helps: an attempt that finds the writer at rest, at a valid stamp, is not rejected. */
  lemma QuietNotRejected(s: State, attempts: seq<Attempt>, k: nat)
    requires Inv(s) && k < |attempts| && attempts[k].Copied? && ReaderOnly(attempts[k].actions)
    requires var t := After(s, attempts, k); t.phase.Idle? && Stamp(|t.versions|) != INVALID_SEQ
    ensures !Rejected(s, attempts, k)
  {
    hide Attempted, WriterOk, ReaderOk, Stamp, ReaderOnly;
    AfterInv(s, attempts, k);
    QuietAttempt(After(s, attempts, k), attempts[k].actions);
  }

  /** Between attempts the object is as the writer left it. */
  lemma AfterWriter(s: State, attempts: seq<Attempt>, k: nat)
    requires |s.mem| == Words(s.size) && k < |attempts| && attempts[k].Copied?
    ensures SameWriter(After(s, attempts, k + 1), Exec(After(s, attempts, k), attempts[k].actions))
  {
    hide Attempted, Exec;
    AttemptedWriter(After(s, attempts, k), attempts[k].actions);
  }

  class AtomicRW {
    var retryCnt: nat

    constructor ()
      ensures retryCnt == 0
    {
      retryCnt := 0;
    }

    /**
     Reads until a copy is consistent, whatever a writer does in between. What is returned is one
     committed payload, the latest at some moment of the last attempt, if fewer than 2^32 writes
     committed during that attempt. The retry counter is cleared at the head of every attempt, so
     it never exceeds 1 and the bound on it is never met.
     */
    method Read(s: State, destWords: nat, attempts: seq<Attempt>)
      returns (r: Outcome, ghost tries: nat, ghost t: State)
      requires Inv(s)
      modifies this
      ensures r == TooSmall <==> destWords < Words(s.size)
      ensures r != TooSmall && attempts != [] ==> retryCnt <= 1
      ensures r.Done? || r.ReadError? ==> retryCnt == 0
      ensures r != TooSmall ==> tries <= |attempts| && forall i :: 0 <= i < tries ==> Rejected(s, attempts, i)
      ensures r == Waiting ==> tries == |attempts|
      ensures r == ReadError ==> tries < |attempts| && attempts[tries].Failed?
      ensures r.Done? ==>
                && tries < |attempts| && attempts[tries].Copied?
                && t == After(s, attempts, tries + 1) && t.size == s.size && r.mem == t.buf && Accepted(t)
                && t.since >= |After(s, attempts, tries).versions|
      ensures r.Done? && |t.versions| - t.since < WRAP ==>
                && 1 <= t.since <= t.front <= |t.versions|
                && Payload(s.size, r.mem) == t.versions[t.front - 1]
    {
      hide Step, Exec, WriterOk, CopiedFrom, Attempted, Words;
      WordsFit(s.size);
      var u := s;
      if destWords < Words(s.size) {
        return TooSmall, 0, u;
      }
      for i := 0 to |attempts|
        invariant Inv(u) && u == After(s, attempts, i) && (i > 0 ==> retryCnt <= 1)
        invariant forall j :: 0 <= j < i ==> Rejected(s, attempts, j)
      {
        retryCnt := 0;
        if attempts[i].Failed? {
          return ReadError, i, u;
        }
        AttemptedInv(u, attempts[i].actions);
        u := Attempted(u, attempts[i].actions);
        if Consistent(u.size, u.buf) {
          AcceptedHolds(u);
          return Done(u.buf), i, u;
        }
        retryCnt := retryCnt + 1;
        if retryCnt > MAX_RETRIES {
          assert false;
        }
      }
      return Waiting, |attempts|, u;
    }
  }
}
