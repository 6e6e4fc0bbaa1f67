/** A parallel phase between two barriers: every thread has a list of stores left
    to perform, and a schedule picks which thread stores next. Memory is a list of
    buffers. Threads of one phase never read a buffer that the phase writes. */
module Phases {

  datatype Store = Store(buf: nat, idx: nat, val: int)

  type Memory = seq<seq<int>>
  type Program = seq<Store>

  ghost predicate InBounds(w: Store, shape: Memory) {
    w.buf < |shape| && w.idx < |shape[w.buf]|
  }

  ghost predicate SameShape(m: Memory, m': Memory) {
    |m| == |m'| && forall b :: 0 <= b < |m| ==> |m[b]| == |m'[b]|
  }

  function Put(m: Memory, w: Store): (m': Memory)
    requires InBounds(w, m)
    ensures SameShape(m, m')
  {
    m[w.buf := m[w.buf][w.idx := w.val]]
  }

  lemma TailInBounds(m: Memory, p: Program)
    requires p != [] && forall w :: w in p ==> InBounds(w, m)
    ensures InBounds(p[0], m) && forall w :: w in p[1..] ==> InBounds(w, Put(m, p[0]))
  {
    assert p[0] in p;
    var m' := Put(m, p[0]);
    forall w | w in p[1..] ensures InBounds(w, m') {
      assert InBounds(w, m) && |m'[w.buf]| == |m[w.buf]|;
    }
  }

  /** One thread running alone. */
  function RunAlone(m: Memory, p: Program): (m': Memory)
    requires forall w :: w in p ==> InBounds(w, m)
    ensures SameShape(m, m')
    decreases |p|
  {
    if p == [] then m
    else
      TailInBounds(m, p);
      RunAlone(Put(m, p[0]), p[1..])
  }

  /** The schedule names, store by store, the thread that moves; it is complete
      when it drains every program. */
  predicate Complete(ps: seq<Program>, sched: seq<nat>)
    decreases |sched|
  {
    if sched == [] then forall t :: 0 <= t < |ps| ==> ps[t] == []
    else sched[0] < |ps| && ps[sched[0]] != []
         && Complete(ps[sched[0] := ps[sched[0]][1..]], sched[1..])
  }

  ghost predicate AllInBounds(ps: seq<Program>, m: Memory) {
    forall t, w :: 0 <= t < |ps| && w in ps[t] ==> InBounds(w, m)
  }

  lemma StepInBounds(m: Memory, ps: seq<Program>, t: nat)
    requires t < |ps| && ps[t] != [] && AllInBounds(ps, m)
    ensures InBounds(ps[t][0], m)
    ensures AllInBounds(ps[t := ps[t][1..]], Put(m, ps[t][0]))
  {
    assert ps[t][0] in ps[t];
    var qs, m' := ps[t := ps[t][1..]], Put(m, ps[t][0]);
    forall u, w | 0 <= u < |qs| && w in qs[u] ensures InBounds(w, m') {
      assert w in ps[u];
      assert InBounds(w, m) && |m'[w.buf]| == |m[w.buf]|;
    }
  }

  /** The memory left by running all programs in the interleaving `sched`. */
  function Run(m: Memory, ps: seq<Program>, sched: seq<nat>): (m': Memory)
    requires Complete(ps, sched) && AllInBounds(ps, m)
    ensures SameShape(m, m')
    decreases |sched|
  {
    if sched == [] then m
    else
      var p := ps[sched[0]];
      StepInBounds(m, ps, sched[0]);
      Run(Put(m, p[0]), ps[sched[0] := p[1..]], sched[1..])
  }

  /** Location (b, k) is stored to by some thread. */
  ghost predicate Hits(p: Program, b: nat, k: nat) {
    exists w :: w in p && w.buf == b && w.idx == k
  }

  ghost predicate Written(ps: seq<Program>, b: nat, k: nat) {
    exists t :: 0 <= t < |ps| && Hits(ps[t], b, k)
  }

  /** Every store of every thread puts the value that `goal` has at its location. */
  ghost predicate Agree(ps: seq<Program>, goal: Memory) {
    forall t, w :: 0 <= t < |ps| && w in ps[t] ==> InBounds(w, goal) && goal[w.buf][w.idx] == w.val
  }

  lemma HeadHits(p: Program, b: nat, k: nat)
    requires p != []
    ensures Hits(p, b, k) <==> (p[0].buf == b && p[0].idx == k) || Hits(p[1..], b, k)
  {
    if Hits(p, b, k) {
      var w :| w in p && w.buf == b && w.idx == k;
      assert w == p[0] || w in p[1..];
    }
    if p[0].buf == b && p[0].idx == k { assert p[0] in p; }
    if Hits(p[1..], b, k) {
      var w :| w in p[1..] && w.buf == b && w.idx == k;
      assert w in p;
    }
  }

  lemma StepWritten(ps: seq<Program>, t: nat, b: nat, k: nat)
    requires t < |ps| && ps[t] != []
    ensures Written(ps, b, k) <==>
            (ps[t][0].buf == b && ps[t][0].idx == k) || Written(ps[t := ps[t][1..]], b, k)
  {
    var qs := ps[t := ps[t][1..]];
    HeadHits(ps[t], b, k);
    if Written(ps, b, k) {
      var u :| 0 <= u < |ps| && Hits(ps[u], b, k);
      assert u != t ==> qs[u] == ps[u];
      assert Hits(qs[u], b, k) || (ps[t][0].buf == b && ps[t][0].idx == k);
    }
    if Written(qs, b, k) {
      var u :| 0 <= u < |qs| && Hits(qs[u], b, k);
      assert Hits(ps[u], b, k);
    }
    if ps[t][0].buf == b && ps[t][0].idx == k { assert Hits(ps[t], b, k); }
  }

  lemma StepAgree(ps: seq<Program>, t: nat, goal: Memory)
    requires t < |ps| && ps[t] != [] && Agree(ps, goal)
    ensures Agree(ps[t := ps[t][1..]], goal)
    ensures InBounds(ps[t][0], goal) && goal[ps[t][0].buf][ps[t][0].idx] == ps[t][0].val
  {
    var qs := ps[t := ps[t][1..]];
    forall u, w | 0 <= u < |qs| && w in qs[u]
      ensures InBounds(w, goal) && goal[w.buf][w.idx] == w.val
    {
      assert w in ps[u];
    }
    assert ps[t][0] in ps[t];
  }

  /** Agreeing stores commute: whatever the interleaving, a written location ends
      with its goal value and an unwritten one is untouched. */
  lemma {:induction false} AgreeingStores(m: Memory, ps: seq<Program>, sched: seq<nat>, goal: Memory, b: nat, k: nat)
    requires Complete(ps, sched) && SameShape(m, goal) && Agree(ps, goal)
    requires b < |m| && k < |m[b]|
    ensures AllInBounds(ps, m)
    ensures Run(m, ps, sched)[b][k] == if Written(ps, b, k) then goal[b][k] else m[b][k]
    decreases |sched|
  {
    if sched == [] {
    } else {
      var t := sched[0];
      StepAgree(ps, t, goal);
      StepWritten(ps, t, b, k);
      AgreeingStores(Put(m, ps[t][0]), ps[t := ps[t][1..]], sched[1..], goal, b, k);
    }
  }

  /** A phase whose threads agree with `goal`, and which stores to every location at which
      `goal` differs from the memory before. */
  lemma PhaseResult(m: Memory, ps: seq<Program>, sched: seq<nat>, goal: Memory)
    requires Complete(ps, sched) && SameShape(m, goal) && Agree(ps, goal)
    requires forall b, k :: 0 <= b < |m| && 0 <= k < |m[b]| && !Written(ps, b, k) ==> m[b][k] == goal[b][k]
    ensures AllInBounds(ps, m)
    ensures Run(m, ps, sched) == goal
  {
    var r := Run(m, ps, sched);
    forall b | 0 <= b < |m| ensures r[b] == goal[b] {
      forall k | 0 <= k < |m[b]| ensures r[b][k] == goal[b][k] {
        AgreeingStores(m, ps, sched, goal, b, k);
      }
    }
  }

  lemma {:induction false} RunAloneResult(m: Memory, p: Program, goal: Memory, b: nat, k: nat)
    requires SameShape(m, goal) && Agree([p], goal)
    requires b < |m| && k < |m[b]|
    ensures forall w :: w in p ==> InBounds(w, m)
    ensures RunAlone(m, p)[b][k] == if Hits(p, b, k) then goal[b][k] else m[b][k]
    decreases |p|
  {
    assert forall w :: w in p ==> w in [p][0];
    if p != [] {
      HeadHits(p, b, k);
      StepAgree([p], 0, goal);
      assert [p][0 := p[1..]] == [p[1..]];
      RunAloneResult(Put(m, p[0]), p[1..], goal, b, k);
    }
  }

  /** Every phase can be scheduled: here the threads run one after the other. */
  lemma {:induction false} SomeSchedule(ps: seq<Program>, t: nat) returns (sched: seq<nat>)
    requires t <= |ps| && forall u :: 0 <= u < t ==> ps[u] == []
    ensures Complete(ps, sched)
    decreases |ps| - t, if t < |ps| then |ps[t]| else 0
  {
    if t == |ps| {
      sched := [];
    } else if ps[t] == [] {
      sched := SomeSchedule(ps, t + 1);
    } else {
      var rest := SomeSchedule(ps[t := ps[t][1..]], t);
      sched := [t] + rest;
    }
  }

  /** Stores the keys `s` one after the other, from index d of buffer `buf` on. */
  function KeyProgram(buf: nat, d: nat, s: seq<int>): (p: Program)
    ensures |p| == |s|
  {
    seq(|s|, k requires 0 <= k < |s| => Store(buf, d + k, s[k]))
  }

  lemma KeyProgramHits(buf: nat, d: nat, s: seq<int>, b: nat, k: nat)
    ensures Hits(KeyProgram(buf, d, s), b, k) <==> b == buf && d <= k < d + |s|
  {
    var p := KeyProgram(buf, d, s);
    if b == buf && d <= k < d + |s| { assert p[k - d] in p; }
  }

  lemma KeyProgramStores(buf: nat, d: nat, s: seq<int>, w: Store)
    requires w in KeyProgram(buf, d, s)
    ensures w.buf == buf && d <= w.idx < d + |s| && w.val == s[w.idx - d]
  {
    var p := KeyProgram(buf, d, s);
    var k :| 0 <= k < |p| && p[k] == w;
  }

  /** Storing a stretch of `s` where it belongs. */
  lemma StretchStores(s: seq<int>, g: nat, n: nat, buf: nat, d: nat, w: Store)
    requires g + n <= |s| && w in KeyProgram(buf, d + g, s[g..g + n])
    ensures w.buf == buf && d <= w.idx < d + |s| && w.val == s[w.idx - d]
  {
    KeyProgramStores(buf, d + g, s[g..g + n], w);
  }

  /** `m` with the keys `s` placed in buffer `buf` from index d on. */
  function Place(m: Memory, buf: nat, d: nat, s: seq<int>): (m': Memory)
    requires buf < |m| && d + |s| <= |m[buf]|
    ensures SameShape(m, m')
  {
    m[buf := m[buf][..d] + s + m[buf][d + |s|..]]
  }

  lemma KeyProgramAgrees(m: Memory, buf: nat, d: nat, s: seq<int>)
    requires buf < |m| && d + |s| <= |m[buf]|
    ensures Agree([KeyProgram(buf, d, s)], Place(m, buf, d, s))
  {
    var p, goal := KeyProgram(buf, d, s), Place(m, buf, d, s);
    var ps := [p];
    forall t, w | 0 <= t < |ps| && w in ps[t] ensures InBounds(w, goal) && goal[w.buf][w.idx] == w.val {
      KeyProgramStores(buf, d, s, w);
    }
  }

  /** A thread that runs alone leaves its keys in place. */
  lemma RunKeys(m: Memory, buf: nat, d: nat, s: seq<int>)
    requires buf < |m| && d + |s| <= |m[buf]|
    ensures forall w :: w in KeyProgram(buf, d, s) ==> InBounds(w, m)
    ensures RunAlone(m, KeyProgram(buf, d, s)) == Place(m, buf, d, s)
  {
    var p, goal := KeyProgram(buf, d, s), Place(m, buf, d, s);
    KeyProgramAgrees(m, buf, d, s);
    forall w | w in p ensures InBounds(w, m) { assert w in [p][0] && InBounds(w, goal); }
    var r := RunAlone(m, p);
    forall b | 0 <= b < |m| ensures r[b] == goal[b] {
      forall k | 0 <= k < |m[b]| ensures r[b][k] == goal[b][k] {
        RunAloneResult(m, p, goal, b, k);
        KeyProgramHits(buf, d, s, b, k);
      }
    }
  }
}
