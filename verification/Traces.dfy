/** The stores of a node's threads in the order they happen, and what becomes of them when
    the stores of several nodes interleave. */
module Traces {
  import opened Phases

  /** The stores of a phase in the order of the schedule. */
  function Linear(ps: seq<Program>, sched: seq<nat>): (p: Program)
    requires Complete(ps, sched)
    decreases |sched|
  {
    if sched == [] then []
    else [ps[sched[0]][0]] + Linear(ps[sched[0] := ps[sched[0]][1..]], sched[1..])
  }

  /** Performing the stores p one after the other turns m into m'. */
  ghost predicate Traced(m: Memory, p: Program, m': Memory) {
    (forall w :: w in p ==> InBounds(w, m)) && RunAlone(m, p) == m'
  }

  /** All stores go to one of two buffers. */
  ghost predicate StaysIn(p: Program, b: nat, c: nat) {
    forall w :: w in p ==> w.buf == b || w.buf == c
  }

  ghost predicate AllStayIn(ps: seq<Program>, b: nat) {
    forall t, w :: 0 <= t < |ps| && w in ps[t] ==> w.buf == b
  }

  lemma TracedHead(m: Memory, w: Store, p: Program, m': Memory)
    requires InBounds(w, m) && Traced(Put(m, w), p, m')
    ensures Traced(m, [w] + p, m')
  {
    var q := [w] + p;
    assert q[1..] == p && q[0] == w;
    forall v | v in q ensures InBounds(v, m) {
      if v in p { assert InBounds(v, Put(m, w)) && |Put(m, w)[v.buf]| == |m[v.buf]|; }
    }
  }

  /** A phase does what its stores do in the order of its schedule. */
  lemma {:induction false} PhaseTraced(m: Memory, ps: seq<Program>, sched: seq<nat>)
    requires Complete(ps, sched) && AllInBounds(ps, m)
    ensures Traced(m, Linear(ps, sched), Run(m, ps, sched))
    decreases |sched|
  {
    if sched != [] {
      var p := ps[sched[0]];
      StepInBounds(m, ps, sched[0]);
      PhaseTraced(Put(m, p[0]), ps[sched[0] := p[1..]], sched[1..]);
      TracedHead(m, p[0], Linear(ps[sched[0] := p[1..]], sched[1..]), Run(m, ps, sched));
    }
  }

  lemma {:induction false} LinearStaysIn(ps: seq<Program>, sched: seq<nat>, b: nat, c: nat)
    requires Complete(ps, sched) && AllStayIn(ps, b)
    ensures StaysIn(Linear(ps, sched), b, c)
    decreases |sched|
  {
    if sched != [] {
      var t := sched[0];
      var qs := ps[t := ps[t][1..]];
      assert ps[t][0] in ps[t];
      forall u, w: Store | 0 <= u < |qs| && w in qs[u] ensures w.buf == b { assert w in ps[u]; }
      LinearStaysIn(qs, sched[1..], b, c);
    }
  }

  lemma {:induction false} TracedAppend(m: Memory, p: Program, m': Memory, q: Program, m'': Memory)
    requires Traced(m, p, m') && Traced(m', q, m'')
    ensures Traced(m, p + q, m'')
    decreases |p|
  {
    if p == [] {
      assert p + q == q;
    } else {
      TailInBounds(m, p);
      TracedAppend(Put(m, p[0]), p[1..], m', q, m'');
      TracedHead(m, p[0], p[1..] + q, m'');
      assert [p[0]] + (p[1..] + q) == p + q;
    }
  }

  /** Copying keys one after the other. */
  lemma CopyTraced(m: Memory, buf: nat, d: nat, s: seq<int>)
    requires buf < |m| && d + |s| <= |m[buf]|
    ensures Traced(m, KeyProgram(buf, d, s), Place(m, buf, d, s)) && StaysIn(KeyProgram(buf, d, s), buf, buf)
  {
    var p, goal := KeyProgram(buf, d, s), Place(m, buf, d, s);
    KeyProgramAgrees(m, buf, d, s);
    forall w | w in p ensures w.buf == buf && InBounds(w, m) { KeyProgramStores(buf, d, s, w); }
    var r := RunAlone(m, p);
    forall b | 0 <= b < |m| ensures r[b] == goal[b] {
      forall k | 0 <= k < |m[b]| ensures r[b][k] == goal[b][k] {
        RunAloneResult(m, p, goal, b, k);
        KeyProgramHits(buf, d, s, b, k);
      }
    }
  }

  // ------------------------------------------------------------- nodes side by side

  /** What a node's stores leave in a buffer depends on nothing but that buffer. */
  lemma {:induction false} OwnBuffer(m: Memory, m': Memory, p: Program, b: nat)
    requires SameShape(m, m') && b < |m| && m[b] == m'[b] && forall w :: w in p ==> InBounds(w, m)
    ensures forall w :: w in p ==> InBounds(w, m')
    ensures RunAlone(m, p)[b] == RunAlone(m', p)[b]
    decreases |p|
  {
    forall w | w in p ensures InBounds(w, m') { assert InBounds(w, m) && |m'[w.buf]| == |m[w.buf]|; }
    if p != [] {
      TailInBounds(m, p);
      TailInBounds(m', p);
      OwnBuffer(Put(m, p[0]), Put(m', p[0]), p[1..], b);
    }
  }

  lemma {:induction false} OtherBuffer(m: Memory, p: Program, b: nat)
    requires b < |m| && (forall w :: w in p ==> InBounds(w, m)) && forall w :: w in p ==> w.buf != b
    ensures RunAlone(m, p)[b] == m[b]
    decreases |p|
  {
    if p != [] {
      TailInBounds(m, p);
      assert p[0] in p;
      OtherBuffer(Put(m, p[0]), p[1..], b);
    }
  }

  /** Node x only stores to buffers 2x+1 and 2x+2. */
  ghost predicate OwnOnly(traces: seq<Program>) {
    forall x :: 0 <= x < |traces| ==> StaysIn(traces[x], 2 * x + 1, 2 * x + 2)
  }

  lemma OwnOnlyStep(traces: seq<Program>, t: nat)
    requires OwnOnly(traces) && t < |traces| && traces[t] != []
    ensures OwnOnly(traces[t := traces[t][1..]])
    ensures traces[t][0].buf == 2 * t + 1 || traces[t][0].buf == 2 * t + 2
  {
    assert StaysIn(traces[t], 2 * t + 1, 2 * t + 2) && traces[t][0] in traces[t];
    var rest := traces[t := traces[t][1..]];
    forall x | 0 <= x < |rest| ensures StaysIn(rest[x], 2 * x + 1, 2 * x + 2) {
      assert StaysIn(traces[x], 2 * x + 1, 2 * x + 2);
    }
  }

  /** However the nodes' stores interleave, each node's buffers end up as if it had been alone. */
  lemma {:induction false} NodesInterleave(m: Memory, traces: seq<Program>, sched: seq<nat>, x: nat, b: nat)
    requires Complete(traces, sched) && AllInBounds(traces, m) && OwnOnly(traces) && x < |traces|
    requires b < |m| && (b == 2 * x + 1 || b == 2 * x + 2)
    ensures Run(m, traces, sched)[b] == RunAlone(m, traces[x])[b]
    decreases |sched|
  {
    if sched != [] {
      var t := sched[0];
      var rest, m' := traces[t := traces[t][1..]], Put(m, traces[t][0]);
      StepInBounds(m, traces, t);
      OwnOnlyStep(traces, t);
      NodesInterleave(m', rest, sched[1..], x, b);
      if t != x { OwnBuffer(m, m', traces[x], b); }
    }
  }

  lemma {:induction false} ArrayUntouched(m: Memory, traces: seq<Program>, sched: seq<nat>)
    requires Complete(traces, sched) && AllInBounds(traces, m) && OwnOnly(traces) && |m| > 0
    ensures Run(m, traces, sched)[0] == m[0]
    decreases |sched|
  {
    if sched != [] {
      StepInBounds(m, traces, sched[0]);
      OwnOnlyStep(traces, sched[0]);
      ArrayUntouched(Put(m, traces[sched[0]][0]), traces[sched[0] := traces[sched[0]][1..]], sched[1..]);
    }
  }

  /** Every interleaving of the nodes' stores turns m into m'. */
  ghost predicate AnyOrder(m: Memory, traces: seq<Program>, m': Memory) {
    && AllInBounds(traces, m)
    && forall sched :: Complete(traces, sched) ==> Run(m, traces, sched) == m'
  }

  /** The first nodes have run, one after the other; the buffers of the others are as before. */
  ghost predicate RanInTurn(m: Memory, traces: seq<Program>, m': Memory) {
    && SameShape(m, m') && OwnOnly(traces) && AllInBounds(traces, m)
    && forall b :: 0 <= b < |m| ==> BufferAfter(m, traces, m', b)
  }

  /** The buffer is as its node, if that has run, leaves it when alone. */
  ghost predicate BufferAfter(m: Memory, traces: seq<Program>, m': Memory, b: nat)
    requires SameShape(m, m') && AllInBounds(traces, m) && b < |m|
  {
    if 0 < b <= 2 * |traces| then m'[b] == RunAlone(m, traces[(b - 1) / 2])[b] else m'[b] == m[b]
  }

  lemma NextInTurn(m: Memory, traces: seq<Program>, m': Memory, p: Program, m'': Memory)
    requires RanInTurn(m, traces, m') && Traced(m', p, m'') && StaysIn(p, 2 * |traces| + 1, 2 * |traces| + 2)
    ensures RanInTurn(m, traces + [p], m'')
  {
    var all := traces + [p];
    forall w | w in p ensures InBounds(w, m) { assert InBounds(w, m') && |m'[w.buf]| == |m[w.buf]|; }
    forall x | 0 <= x < |all| ensures StaysIn(all[x], 2 * x + 1, 2 * x + 2) {
      if x < |traces| { assert all[x] == traces[x]; }
    }
    forall t, w | 0 <= t < |all| && w in all[t] ensures InBounds(w, m) {
      if t < |traces| { assert all[t] == traces[t]; }
    }
    forall b | 0 <= b < |m| ensures BufferAfter(m, all, m'', b) {
      assert BufferAfter(m, traces, m', b);
      if b == 2 * |traces| + 1 || b == 2 * |traces| + 2 {
        OwnBuffer(m', m, p, b);
      } else {
        OtherBuffer(m', p, b);
      }
    }
  }

  /** The nodes run side by side leave what they leave one after the other. */
  lemma InTurnIsAnyOrder(m: Memory, traces: seq<Program>, m': Memory)
    requires RanInTurn(m, traces, m') && |m| == 1 + 2 * |traces|
    ensures AnyOrder(m, traces, m')
  {
    forall sched | Complete(traces, sched) ensures Run(m, traces, sched) == m' {
      var r := Run(m, traces, sched);
      ArrayUntouched(m, traces, sched);
      forall b | 0 <= b < |m| ensures r[b] == m'[b] {
        assert BufferAfter(m, traces, m', b);
        if b > 0 { NodesInterleave(m, traces, sched, (b - 1) / 2, b); }
      }
    }
  }
}
