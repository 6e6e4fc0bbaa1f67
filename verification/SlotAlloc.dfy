/** Threads that pin themselves to the slots of one allocation and release them again. */
module SlotAlloc {
  import opened FiniteSets

  /** The slot a thread is pinned to while it tries to pin itself again. */
  datatype Kept = NoSlot | Slot(i: nat)

  /** What a thread does next. `Scan` looks at a slot, `Take` tries to set it, `Count` adds
      it to the number of used slots, `Mark` sets it once more, `Uncount` and `Clear` give
      it back; `again` says that a pin follows the release. */
  datatype Pc =
    | Idle
    | Check(kept: Kept)
    | Scan(at: nat, kept: Kept)
    | Take(at: nat, kept: Kept)
    | Count(i: nat)
    | Mark(i: nat)
    | Pinned(i: nat)
    | Uncount(i: nat, again: bool)
    | Clear(i: nat, again: bool)

  /** The slots' flags, the counter and the threads. */
  datatype State = State(used: seq<bool>, nUsed: int, pcs: seq<Pc>)

  predicate Pinning(pc: Pc) { pc.Check? || pc.Scan? || pc.Take? }

  /** The slot that a thread has set and not yet cleared or left behind. */
  predicate Holds(pc: Pc, i: nat) {
    || ((pc.Count? || pc.Mark? || pc.Pinned? || pc.Uncount? || pc.Clear?) && pc.i == i)
    || (Pinning(pc) && pc.kept == Slot(i))
  }

  /** Set but not counted: the two updates of a pin or a release are not one step. */
  predicate Pending(pc: Pc, i: nat) {
    (pc.Count? || pc.Clear?) && pc.i == i
  }

  function Init(slots: nat, threads: nat): State {
    State(seq(slots, i => false), 0, seq(threads, t => Idle))
  }

  function SetPc(s: State, t: nat, pc: Pc): State
    requires t < |s.pcs|
  {
    s.(pcs := s.pcs[t := pc])
  }

  /** A pin that gives up: a thread that was pinned still is, to its old slot. */
  function GivenUp(kept: Kept): Pc {
    match kept
    case NoSlot => Idle
    case Slot(i) => Pinned(i)
  }

  /** One shared access, or a call, of thread t. A pinned thread may release its slot, pin
      again after releasing it, or pin again without releasing it. In the last case it keeps
      the slot if it finds no other; the slot it leaves behind otherwise stays set. */
  ghost predicate Step(s: State, s': State, t: nat)
    requires t < |s.pcs|
  {
    var n := |s.used|;
    match s.pcs[t]
    case Idle => s' == SetPc(s, t, Check(NoSlot))
    case Check(kept) => s' == SetPc(s, t, if s.nUsed < n then Scan(0, kept) else GivenUp(kept))
    case Scan(i, kept) =>
      s' == SetPc(s, t, if i >= n then Check(kept) else if s.used[i] then Scan(i + 1, kept) else Take(i, kept))
    case Take(i, kept) =>
      i < n
      && s' == if s.used[i] then SetPc(s, t, Scan(i + 1, kept)) else SetPc(s, t, Count(i)).(used := s.used[i := true])
    case Count(i) => s' == SetPc(s, t, Mark(i)).(nUsed := s.nUsed + 1)
    case Mark(i) => i < n && s' == SetPc(s, t, Pinned(i)).(used := s.used[i := true])
    case Pinned(i) =>
      s' == SetPc(s, t, Uncount(i, false)) || s' == SetPc(s, t, Uncount(i, true)) || s' == SetPc(s, t, Check(Slot(i)))
    case Uncount(i, again) => s' == SetPc(s, t, Clear(i, again)).(nUsed := s.nUsed - 1)
    case Clear(i, again) =>
      i < n && s' == SetPc(s, t, if again then Check(NoSlot) else Idle).(used := s.used[i := false])
  }

  ghost predicate PendingAt(s: State, i: nat) {
    exists t :: 0 <= t < |s.pcs| && Pending(s.pcs[t], i)
  }

  /** The slots the counter stands for. */
  ghost function Counted(s: State): (c: set<nat>)
    ensures forall i: nat :: i in c <==> i < |s.used| && s.used[i] && !PendingAt(s, i)
  {
    set i: nat | i < |s.used| && s.used[i] && !PendingAt(s, i)
  }

  ghost predicate HeldOk(s: State, t: nat)
    requires t < |s.pcs|
  {
    (forall i: nat :: Holds(s.pcs[t], i) ==> i < |s.used| && s.used[i])
    && (s.pcs[t].Take? ==> s.pcs[t].at < |s.used|)
  }

  ghost predicate Different(s: State, t: nat, u: nat)
    requires t < |s.pcs| && u < |s.pcs|
  {
    t != u ==> forall i: nat :: !(Holds(s.pcs[t], i) && Holds(s.pcs[u], i))
  }

  /** A held slot is set, no two threads hold the same one, and the counter is the number
      of slots that are set and not in between the two updates. */
  ghost predicate Inv(s: State) {
    && (forall t :: 0 <= t < |s.pcs| ==> HeldOk(s, t))
    && (forall t, u :: 0 <= t < |s.pcs| && 0 <= u < |s.pcs| ==> Different(s, t, u))
    && s.nUsed == |Counted(s)|
  }

  lemma InitOk(slots: nat, threads: nat)
    ensures Inv(Init(slots, threads))
  {
    assert Counted(Init(slots, threads)) == {};
  }

  lemma PendingAfter(s: State, s': State, t: nat, i: nat)
    requires t < |s.pcs| == |s'.pcs| && s'.pcs == s.pcs[t := s'.pcs[t]]
    ensures PendingAt(s', i) <==> Pending(s'.pcs[t], i) || exists u ::
              0 <= u < |s.pcs| && u != t && Pending(s.pcs[u], i)
    ensures PendingAt(s, i) <==> Pending(s.pcs[t], i) || exists u :: 0 <= u < |s.pcs| && u != t && Pending(s.pcs[u], i)
  {
    if PendingAt(s', i) {
      var u :| 0 <= u < |s'.pcs| && Pending(s'.pcs[u], i);
    }
    if u :| 0 <= u < |s.pcs| && u != t && Pending(s.pcs[u], i) { assert Pending(s'.pcs[u], i); }
    if Pending(s'.pcs[t], i) { assert Pending(s'.pcs[t], i); }
  }

  /** Only the slot the thread works on can change its standing. */
  lemma CountedAfter(s: State, s': State, t: nat)
    requires t < |s.pcs| && Inv(s) && Step(s, s', t)
    ensures Counted(s') == match s.pcs[t]
                           case Count(i) => Counted(s) + {i}
                           case Uncount(i, again) => Counted(s) - {i}
                           case _ => Counted(s)
    ensures s.pcs[t].Count? ==> s.pcs[t].i !in Counted(s)
    ensures s.pcs[t].Uncount? ==> s.pcs[t].i in Counted(s)
  {
    assert HeldOk(s, t);
    forall i: nat
      ensures i in Counted(s') <==> i in match s.pcs[t]
                                        case Count(j) => Counted(s) + {j}
                                        case Uncount(j, again) => Counted(s) - {j}
                                        case _ => Counted(s)
    {
      StandingAfter(s, s', t, i);
    }
    if s.pcs[t].Count? { StandingAfter(s, s', t, s.pcs[t].i); assert Pending(s.pcs[t], s.pcs[t].i); }
    if s.pcs[t].Uncount? { StandingAfter(s, s', t, s.pcs[t].i); }
  }

  /** No other thread is in between its updates of a slot this thread holds. */
  lemma StandingAfter(s: State, s': State, t: nat, i: nat)
    requires t < |s.pcs| && Inv(s) && Step(s, s', t)
    ensures i in Counted(s') <==> if s.pcs[t] == Count(i) then true
                                  else if s.pcs[t].Uncount? && s.pcs[t].i == i then false
                                  else i in Counted(s)
    ensures s.pcs[t].Uncount? && s.pcs[t].i == i ==> i in Counted(s)
  {
    assert HeldOk(s, t) && (Holds(s.pcs[t], i) ==> i < |s.used| && s.used[i]);
    PendingAfter(s, s', t, i);
    if u :| 0 <= u < |s.pcs| && u != t && Pending(s.pcs[u], i) {
      assert Different(s, t, u) && HeldOk(s, u) && Holds(s.pcs[u], i) && !Holds(s.pcs[t], i);
    }
  }

  lemma StepHolds(s: State, s': State, t: nat, u: nat)
    requires t < |s.pcs| && u < |s.pcs| && Inv(s) && Step(s, s', t)
    ensures |s'.pcs| == |s.pcs| && |s'.used| == |s.used| && HeldOk(s', u)
  {
    assert HeldOk(s, t) && HeldOk(s, u) && Different(s, t, u);
  }

  lemma StepDiffers(s: State, s': State, t: nat, u: nat, v: nat)
    requires t < |s.pcs| && u < |s.pcs| && v < |s.pcs| && Inv(s) && Step(s, s', t)
    ensures |s'.pcs| == |s.pcs| && Different(s', u, v)
  {
    assert HeldOk(s, u) && HeldOk(s, v) && Different(s, u, v) && Different(s, t, u) && Different(s, t, v);
  }

  lemma StepKeeps(s: State, s': State, t: nat)
    requires t < |s.pcs| && Inv(s) && Step(s, s', t)
    ensures Inv(s') && |s'.used| == |s.used| && |s'.pcs| == |s.pcs|
  {
    assert HeldOk(s, t);
    CountedAfter(s, s', t);
    forall u | 0 <= u < |s'.pcs| ensures HeldOk(s', u) { StepHolds(s, s', t, u); }
    forall u, v | 0 <= u < |s'.pcs| && 0 <= v < |s'.pcs| ensures Different(s', u, v) { StepDiffers(s, s', t, u, v); }
  }

  ghost predicate IsRun(run: seq<State>, who: seq<nat>, slots: nat, threads: nat) {
    && |run| == |who| + 1 && run[0] == Init(slots, threads)
    && forall i :: 0 <= i < |who| ==> who[i] < |run[i].pcs| && Step(run[i], run[i + 1], who[i])
  }

  lemma {:induction false} RunOk(run: seq<State>, who: seq<nat>, slots: nat, threads: nat, i: nat)
    requires IsRun(run, who, slots, threads) && i < |run|
    ensures Inv(run[i]) && |run[i].used| == slots && |run[i].pcs| == threads
  {
    if i == 0 { InitOk(slots, threads); } else {
      RunOk(run, who, slots, threads, i - 1);
      StepKeeps(run[i - 1], run[i], who[i - 1]);
    }
  }

  ghost function SetSlots(s: State): set<nat> {
    set i: nat | i < |s.used| && s.used[i]
  }

  /** In every reachable state no slot has two owners and the counter is at most the number
      of set slots; when no thread is between its two updates they agree. */
  lemma SlotsAreExclusive(run: seq<State>, who: seq<nat>, slots: nat, threads: nat, k: nat)
    requires IsRun(run, who, slots, threads) && k < |run|
    ensures forall t, u, i: nat :: 0 <= t < u < threads && |run[k].pcs| == threads ==>
              !(Holds(run[k].pcs[t], i) && Holds(run[k].pcs[u], i))
    ensures 0 <= run[k].nUsed <= |SetSlots(run[k])| <= slots
    ensures (forall i: nat :: !PendingAt(run[k], i)) ==> run[k].nUsed == |SetSlots(run[k])|
  {
    var s := run[k];
    RunOk(run, who, slots, threads, k);
    forall t, u, i: nat | 0 <= t < u < threads ensures !(Holds(s.pcs[t], i) && Holds(s.pcs[u], i)) {
      assert Different(s, t, u);
    }
    SubsetSize(Counted(s), SetSlots(s));
    SubsetSize(SetSlots(s), NumbersBelow(slots));
    if forall i: nat :: !PendingAt(s, i) { assert Counted(s) == SetSlots(s); }
  }

  /** A pin that gives up does so in a state in which every slot is taken, and its thread is as
      it was before. */
  lemma GivesUpWhenFull(run: seq<State>, who: seq<nat>, slots: nat, threads: nat, k: nat)
    requires IsRun(run, who, slots, threads) && k < |who|
    requires who[k] < |run[k].pcs| && run[k].pcs[who[k]].Check?
             && run[k + 1].pcs != run[k].pcs[who[k] := Scan(0, run[k].pcs[who[k]].kept)]
    ensures |run[k].used| == slots && forall i :: 0 <= i < slots ==> run[k].used[i]
    ensures run[k + 1].pcs == run[k].pcs[who[k] := GivenUp(run[k].pcs[who[k]].kept)]
  {
    var s := run[k];
    RunOk(run, who, slots, threads, k);
    SubsetSize(Counted(s), SetSlots(s));
    SubsetSize(SetSlots(s), NumbersBelow(slots));
    forall i: nat | i < slots ensures s.used[i] { assert i in SetSlots(s); }
  }

  // ------------------------------------------------------------------ a thread alone

  /** Thread t moves alone through these states. */
  ghost predicate AloneRun(run: seq<State>, t: nat) {
    && |run| > 0 && (forall k :: 0 <= k < |run| ==> t < |run[k].pcs|)
    && forall k :: 0 <= k < |run| - 1 ==> Step(run[k], run[k + 1], t)
  }

  /** Slot i is the first one that is free. */
  predicate FirstFree(used: seq<bool>, i: nat) {
    i < |used| && !used[i] && forall j :: 0 <= j < i ==> used[j]
  }

  /** With a free slot the counter leaves room. */
  lemma RoomLeft(s: State, i: nat)
    requires Inv(s) && i < |s.used| && !s.used[i]
    ensures s.nUsed < |s.used|
  {
    assert i in NumbersBelow(|s.used|) && i !in Counted(s);
    SubsetSize(Counted(s), NumbersBelow(|s.used|) - {i});
  }

  /** The scan passes the slots that are set. */
  lemma {:induction false} ScanPasses(run: seq<State>, t: nat, i: nat, kept: Kept, k: nat)
    requires AloneRun(run, t) && FirstFree(run[0].used, i) && k <= i && k < |run|
    requires run[0].pcs[t] == Scan(0, kept)
    ensures run[k] == SetPc(run[0], t, Scan(k, kept))
  {
    if k > 0 {
      ScanPasses(run, t, i, kept, k - 1);
      assert Step(run[k - 1], run[k - 1 + 1], t);
    } else {
      assert run[0].pcs[t := Scan(0, kept)] == run[0].pcs;
    }
  }

  /** From a free slot in front of the scan four more accesses pin the thread. */
  lemma FreeSlotIsTaken(run: seq<State>, t: nat, i: nat, kept: Kept)
    requires AloneRun(run, t) && |run| > 4 && run[0].pcs[t] == Scan(i, kept) && i < |run[0].used| && !run[0].used[i]
    ensures run[4].used == run[0].used[i := true] && run[4].nUsed == run[0].nUsed + 1
    ensures run[4].pcs == run[0].pcs[t := Pinned(i)]
  {
    assert Step(run[0], run[0 + 1], t) && Step(run[1], run[1 + 1], t);
    assert Step(run[2], run[2 + 1], t) && Step(run[3], run[3 + 1], t);
  }

  lemma AloneFrom(run: seq<State>, t: nat, k: nat)
    requires AloneRun(run, t) && k < |run|
    ensures AloneRun(run[k..], t)
  {
    var rest := run[k..];
    forall j | 0 <= j < |rest| - 1 ensures Step(rest[j], rest[j + 1], t) { assert Step(run[k + j], run[k + j + 1], t); }
  }

  /** A thread that starts a pin while a slot is free, and then moves alone, is pinned to the first
      free slot i after i + 5 accesses. That slot is then set and the counter one higher; nothing
      else changes. A slot it is pinned to already stays set. */
  lemma PinTakesFirstFree(run: seq<State>, t: nat, i: nat, kept: Kept)
    requires AloneRun(run, t) && Inv(run[0]) && FirstFree(run[0].used, i)
    requires run[0].pcs[t] == Check(kept) && |run| > i + 5
    ensures run[i + 5].used == run[0].used[i := true] && run[i + 5].nUsed == run[0].nUsed + 1
    ensures run[i + 5].pcs == run[0].pcs[t := Pinned(i)]
  {
    RoomLeft(run[0], i);
    assert Step(run[0], run[0 + 1], t);
    AloneFrom(run, t, 1);
    ScanPasses(run[1..], t, i, kept, i);
    AloneFrom(run, t, i + 1);
    FreeSlotIsTaken(run[i + 1..], t, i, kept);
    assert run[i + 1..][4] == run[i + 5] && run[1..][i] == run[i + 1];
  }

  /** Threads outside the allocation begin with the check, and so does the second half of a repin. */
  lemma PinBegins(s: State, s': State, t: nat)
    requires t < |s.pcs| && s.pcs[t] == Idle && Step(s, s', t)
    ensures s' == SetPc(s, t, Check(NoSlot))
  {}

  /** An unpin that runs alone leaves its thread idle and its slot clear, and the counter one lower. */
  lemma UnpinClears(run: seq<State>, t: nat, i: nat)
    requires AloneRun(run, t) && |run| > 3 && i < |run[0].used| && run[0].pcs[t] == Pinned(i)
    requires run[1] == SetPc(run[0], t, Uncount(i, false))
    ensures run[3].used == run[0].used[i := false] && run[3].nUsed == run[0].nUsed - 1
    ensures run[3].pcs == run[0].pcs[t := Idle]
  {
    assert Step(run[1], run[1 + 1], t) && Step(run[2], run[2 + 1], t);
  }

  /** A pinned thread that pins itself again with a release first gives its slot back, and then takes
      the first free one. */
  lemma RepinReleasesFirst(run: seq<State>, t: nat, i: nat)
    requires AloneRun(run, t) && |run| > 3 && i < |run[0].used| && run[0].pcs[t] == Pinned(i)
    requires run[1] == SetPc(run[0], t, Uncount(i, true))
    ensures run[3].used == run[0].used[i := false] && run[3].nUsed == run[0].nUsed - 1
    ensures run[3].pcs == run[0].pcs[t := Check(NoSlot)]
  {
    assert Step(run[1], run[1 + 1], t) && Step(run[2], run[2 + 1], t);
  }

  /** A pin that does not get a slot: it goes on with the next slot when another thread was faster,
      starts over at the end of the slots, and gives up when the counter says that all are used. */
  lemma PinGoesOn(s: State, s': State, t: nat)
    requires t < |s.pcs| && Inv(s) && Step(s, s', t)
    ensures s.pcs[t].Take? && s.used[s.pcs[t].at] ==> s' == SetPc(s, t, Scan(s.pcs[t].at + 1, s.pcs[t].kept))
    ensures s.pcs[t].Scan? && s.pcs[t].at == |s.used| ==> s' == SetPc(s, t, Check(s.pcs[t].kept))
    ensures s.pcs[t] == Check(NoSlot) && s.nUsed == |s.used| ==> s' == SetPc(s, t, Idle)
    ensures forall i: nat :: s.pcs[t] == Check(Slot(i)) && s.nUsed == |s.used| ==> s' == SetPc(s, t, Pinned(i))
  {}

  /** A pinned thread may release its slot, release it and pin again, or pin again without releasing it. */
  lemma PinnedMayDo(s: State, t: nat, i: nat)
    requires t < |s.pcs| && s.pcs[t] == Pinned(i)
    ensures Step(s, SetPc(s, t, Uncount(i, false)), t) && Step(s, SetPc(s, t, Uncount(i, true)), t)
    ensures Step(s, SetPc(s, t, Check(Slot(i))), t)
  {}

  /** Every thread can always make its next access. */
  lemma CanStep(s: State, t: nat) returns (s': State)
    requires Inv(s) && t < |s.pcs|
    ensures Step(s, s', t)
  {
    var n := |s.used|;
    assert HeldOk(s, t);
    match s.pcs[t]
    case Idle => s' := SetPc(s, t, Check(NoSlot));
    case Check(kept) => s' := SetPc(s, t, if s.nUsed < n then Scan(0, kept) else GivenUp(kept));
    case Scan(i, kept) =>
      s' := SetPc(s, t, if i >= n then Check(kept) else if s.used[i] then Scan(i + 1, kept) else Take(i, kept));
    case Take(i, kept) =>
      s' := if s.used[i] then SetPc(s, t, Scan(i + 1, kept)) else SetPc(s, t, Count(i)).(used := s.used[i := true]);
    case Count(i) => s' := SetPc(s, t, Mark(i)).(nUsed := s.nUsed + 1);
    case Mark(i) =>
      assert Holds(s.pcs[t], i);
      s' := SetPc(s, t, Pinned(i)).(used := s.used[i := true]);
    case Pinned(i) => s' := SetPc(s, t, Uncount(i, false));
    case Uncount(i, again) => s' := SetPc(s, t, Clear(i, again)).(nUsed := s.nUsed - 1);
    case Clear(i, again) =>
      assert Holds(s.pcs[t], i);
      s' := SetPc(s, t, if again then Check(NoSlot) else Idle).(used := s.used[i := false]);
  }

  /** From every reachable state a thread can go on alone for any number of accesses. */
  lemma {:induction false} AloneRunExists(s: State, t: nat, n: nat) returns (run: seq<State>)
    requires Inv(s) && t < |s.pcs|
    ensures |run| == n + 1 && run[0] == s && AloneRun(run, t)
    decreases n
  {
    if n == 0 {
      run := [s];
    } else {
      var s' := CanStep(s, t);
      StepKeeps(s, s', t);
      var rest := AloneRunExists(s', t, n - 1);
      run := [s] + rest;
      forall k | 0 <= k < |run| - 1 ensures Step(run[k], run[k + 1], t) {
        if k > 0 { assert Step(rest[k - 1], rest[k - 1 + 1], t); }
      }
    }
  }
}
