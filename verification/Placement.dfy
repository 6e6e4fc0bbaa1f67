/** Which hardware contexts an allocation hands out, and in which order. */
module Placement {
  import opened Arithmetic

  /** Every socket has nCores cores of nSmt contexts; nSmt is 1 on a machine without SMT. */
  datatype Machine = Machine(nSockets: nat, nCores: nat, nSmt: nat) {
    predicate Ok() { nSockets > 0 && nCores > 0 && nSmt > 0 }

    function PerSocket(): nat { nCores * nSmt }
  }

  /** A context by its place; its identifier is unique to the place. */
  datatype Hwc = Hwc(socket: nat, core: nat, smt: nat)

  ghost predicate Distinct(s: seq<Hwc>) {
    forall i, j :: 0 <= i < j < |s| ==> s[i] != s[j]
  }

  predicate Exists(m: Machine, h: Hwc) {
    h.socket < m.nSockets && h.core < m.nCores && h.smt < m.nSmt
  }

  lemma DivModIs(x: nat, d: nat, q: nat, r: nat)
    requires r < d && x == q * d + r
    ensures x / d == q && x % d == r
  {
    var q', r' := x / d, x % d;
    assert x == q' * d + r';
    ProductStep(q, q', d);
    ProductStep(q', q, d);
  }

  // ---------------------------------------------------------- contexts of a socket

  /** The n-th context of a socket: core by core when `smtFirst` is positive, otherwise
      the first context of every core before the second of any. */
  function NthHwcId(m: Machine, socket: nat, nth: nat, smtFirst: int): (h: Hwc)
    requires m.Ok()
  {
    if m.nSmt == 1 then Hwc(socket, nth, 0)
    else if smtFirst > 0 then Hwc(socket, nth / m.nSmt, nth % m.nSmt)
    else Hwc(socket, nth % m.nCores, nth / m.nCores)
  }

  /** Different numbers give different contexts, and all numbers of a socket exist. */
  lemma NthHwcIsInjective(m: Machine, socket: nat, smtFirst: int, i: nat, j: nat)
    requires m.Ok() && socket < m.nSockets && i < m.PerSocket() && j < m.PerSocket()
    ensures Exists(m, NthHwcId(m, socket, i, smtFirst)) && NthHwcId(m, socket, i, smtFirst).socket == socket
    ensures NthHwcId(m, socket, i, smtFirst) == NthHwcId(m, socket, j, smtFirst) ==> i == j
  {
    if m.nSmt == 1 {
      assert m.PerSocket() == m.nCores;
    } else if smtFirst > 0 {
      DivBelow(i, m.nSmt, m.nCores);
      if i / m.nSmt == j / m.nSmt && i % m.nSmt == j % m.nSmt { SameTurn(i, j, m.nSmt); }
    } else {
      Commute(m.nCores, m.nSmt);
      DivBelow(i, m.nCores, m.nSmt);
      if i / m.nCores == j / m.nCores && i % m.nCores == j % m.nCores { SameTurn(i, j, m.nCores); }
    }
  }

  /** The first n contexts of a socket in that order. */
  function FirstHwcs(m: Machine, socket: nat, n: nat, smtFirst: int): (s: seq<Hwc>)
    requires m.Ok()
    ensures |s| == n && forall k :: 0 <= k < n ==> s[k] == NthHwcId(m, socket, k, smtFirst)
  {
    seq(n, k requires 0 <= k < n => NthHwcId(m, socket, k, smtFirst))
  }

  /** Context `smt` of each of the first n cores. */
  function CoreHwcs(socket: nat, n: nat, smt: nat): (s: seq<Hwc>)
    ensures |s| == n && forall k :: 0 <= k < n ==> s[k] == Hwc(socket, k, smt)
  {
    seq(n, k requires 0 <= k < n => Hwc(socket, k, smt))
  }

  /** What one call takes from a socket. */
  function Taken(m: Machine, socket: nat, n: nat, smtFirst: int, hwc: nat): (s: seq<Hwc>)
    requires m.Ok()
    ensures |s| == if m.nSmt > 1 && smtFirst < 0 then Min(n, m.nCores) else Min(n, m.PerSocket())
  {
    if m.nSmt > 1 && smtFirst < 0 then CoreHwcs(socket, Min(n, m.nCores), hwc)
    else FirstHwcs(m, socket, Min(n, m.PerSocket()), smtFirst)
  }

  /** One round over the cores of a socket: context `ht` of each, until n are taken. */
  method TakeFromCores(m: Machine, socket: nat, n: nat, ht: nat, smtFirst: int, ids0: seq<Hwc>) returns (ids: seq<Hwc>)
    requires m.Ok() && m.nSmt > 1 && smtFirst == 0 && ht < m.nSmt
    requires ids0 == FirstHwcs(m, socket, Min(n, ht * m.nCores), 0)
    ensures ids == FirstHwcs(m, socket, Min(n, (ht + 1) * m.nCores), 0)
  {
    ids := ids0;
    var i: nat := 0;
    ghost var base := ht * m.nCores;
    while |ids| < n && i < m.nCores
      invariant i <= m.nCores && ids == FirstHwcs(m, socket, Min(n, base + i), 0)
      decreases m.nCores - i
    {
      DivModIs(base + i, m.nCores, ht, i);
      ids := ids + [Hwc(socket, i, ht)];
      i := i + 1;
    }
    assert (ht + 1) * m.nCores == ht * m.nCores + m.nCores;
  }

  /** One core's contexts, until n are taken. */
  method TakeFromCore(m: Machine, socket: nat, n: nat, core: nat, smtFirst: int, ids0: seq<Hwc>) returns (ids: seq<Hwc>)
    requires m.Ok() && m.nSmt > 1 && smtFirst > 0 && core < m.nCores
    requires ids0 == FirstHwcs(m, socket, Min(n, core * m.nSmt), smtFirst)
    ensures ids == FirstHwcs(m, socket, Min(n, (core + 1) * m.nSmt), smtFirst)
  {
    ids := ids0;
    var ht: nat := 0;
    ghost var base := core * m.nSmt;
    while |ids| < n && ht < m.nSmt
      invariant ht <= m.nSmt && ids == FirstHwcs(m, socket, Min(n, base + ht), smtFirst)
      decreases m.nSmt - ht
    {
      DivModIs(base + ht, m.nSmt, core, ht);
      ids := ids + [Hwc(socket, core, ht)];
      ht := ht + 1;
    }
    assert (core + 1) * m.nSmt == core * m.nSmt + m.nSmt;
  }

  /** Without SMT: the cores in order. */
  method TakeCores(m: Machine, socket: nat, n: nat, smtFirst: int) returns (ids: seq<Hwc>)
    requires m.Ok() && m.nSmt == 1
    ensures ids == FirstHwcs(m, socket, Min(n, m.nCores), smtFirst)
  {
    ids := [];
    var i: nat := 0;
    while |ids| < n && i < m.nCores
      invariant i <= m.nCores && ids == FirstHwcs(m, socket, Min(n, i), smtFirst)
      decreases m.nCores - i
    {
      ids := ids + [Hwc(socket, |ids|, 0)];
      i := i + 1;
    }
  }

  /** Context `hwc` of each core. */
  method TakeContext(m: Machine, socket: nat, n: nat, hwc: nat) returns (ids: seq<Hwc>)
    ensures ids == CoreHwcs(socket, Min(n, m.nCores), hwc)
  {
    ids := [];
    var i: nat := 0;
    while |ids| < n && i < m.nCores
      invariant i <= m.nCores && ids == CoreHwcs(socket, Min(n, i), hwc)
      decreases m.nCores - i
    {
      ids := ids + [Hwc(socket, i, hwc)];
      i := i + 1;
    }
  }

  /** Every core once before any core twice. */
  method TakeCoresFirst(m: Machine, socket: nat, n: nat, smtFirst: int) returns (ids: seq<Hwc>)
    requires m.Ok() && m.nSmt > 1 && smtFirst == 0
    ensures ids == FirstHwcs(m, socket, Min(n, m.nSmt * m.nCores), 0)
  {
    ids := [];
    var i: nat := 0;
    while |ids| < n && i < m.nSmt
      invariant i <= m.nSmt && ids == FirstHwcs(m, socket, Min(n, i * m.nCores), 0)
      decreases m.nSmt - i
    {
      ids := TakeFromCores(m, socket, n, i, smtFirst, ids);
      i := i + 1;
    }
    ProductStep(i, m.nSmt, m.nCores);
  }

  /** All contexts of a core before the next core. */
  method TakeHwcsFirst(m: Machine, socket: nat, n: nat, smtFirst: int) returns (ids: seq<Hwc>)
    requires m.Ok() && m.nSmt > 1 && smtFirst > 0
    ensures ids == FirstHwcs(m, socket, Min(n, m.nCores * m.nSmt), smtFirst)
  {
    ids := [];
    var i: nat := 0;
    while |ids| < n && i < m.nCores
      invariant i <= m.nCores && ids == FirstHwcs(m, socket, Min(n, i * m.nSmt), smtFirst)
      decreases m.nCores - i
    {
      ids := TakeFromCore(m, socket, n, i, smtFirst, ids);
      i := i + 1;
    }
    ProductStep(i, m.nCores, m.nSmt);
  }

  /** The four ways to take up to n contexts from a socket. With `smtFirst` not negative
      the k-th one is the socket's k-th context in that order. */
  method GetHwcIds(m: Machine, socket: nat, n: nat, smtFirst: int, hwc: nat) returns (ids: seq<Hwc>)
    requires m.Ok() && hwc < m.nSmt
    ensures ids == Taken(m, socket, n, smtFirst, hwc)
  {
    if m.nSmt == 1 {
      assert m.PerSocket() == m.nCores;
      ids := TakeCores(m, socket, n, smtFirst);
    } else if smtFirst < 0 {
      ids := TakeContext(m, socket, n, hwc);
    } else if smtFirst == 0 {
      Commute(m.nCores, m.nSmt);
      ids := TakeCoresFirst(m, socket, n, smtFirst);
    } else {
      ids := TakeHwcsFirst(m, socket, n, smtFirst);
    }
  }

  // -------------------------------------------------------------- distinct contexts

  ghost predicate On(s: seq<Hwc>, sockets: seq<nat>) {
    forall k :: 0 <= k < |s| ==> s[k].socket in sockets
  }

  lemma TakenDistinct(m: Machine, socket: nat, n: nat, smtFirst: int, hwc: nat)
    requires m.Ok() && socket < m.nSockets && hwc < m.nSmt
    ensures var ids := Taken(m, socket, n, smtFirst, hwc);
            && Distinct(ids) && (forall k :: 0 <= k < |ids| ==> Exists(m, ids[k]) && ids[k].socket == socket)
            && (m.nSmt > 1 && smtFirst < 0 ==> forall k :: 0 <= k < |ids| ==> ids[k].smt == hwc)
  {
    var ids := Taken(m, socket, n, smtFirst, hwc);
    if !(m.nSmt > 1 && smtFirst < 0) {
      forall i | 0 <= i < |ids| ensures Exists(m, ids[i]) && ids[i].socket == socket {
        NthHwcIsInjective(m, socket, smtFirst, i, i);
      }
      forall i, j | 0 <= i < j < |ids| ensures ids[i] != ids[j] { NthHwcIsInjective(m, socket, smtFirst, i, j); }
    }
  }

  lemma AppendDistinct(s: seq<Hwc>, t: seq<Hwc>)
    requires Distinct(s) && Distinct(t) && forall i, j :: 0 <= i < |s| && 0 <= j < |t| ==> s[i] != t[j]
    ensures Distinct(s + t)
  {}

  ghost predicate AllExist(m: Machine, s: seq<Hwc>) {
    forall k :: 0 <= k < |s| ==> Exists(m, s[k])
  }

  /** Contexts taken so far: distinct, existing, and on the sockets visited; while only cores
      are taken, no context of a later round is among them. */
  ghost predicate Handed(m: Machine, s: seq<Hwc>, sockets: seq<nat>, coresOnly: bool, round: nat, visited: nat) {
    && Distinct(s) && AllExist(m, s) && On(s, sockets)
    && (coresOnly ==> forall k :: 0 <= k < |s| ==> BeforeTurn(s[k], sockets, round, visited))
  }

  /** In this round only the first sockets have had their turn. */
  ghost predicate BeforeTurn(h: Hwc, sockets: seq<nat>, round: nat, visited: nat) {
    h.smt <= round && (h.smt == round ==> visited <= |sockets| && h.socket in sockets[..visited])
  }

  ghost predicate SocketList(m: Machine, sockets: seq<nat>) {
    && (forall i :: 0 <= i < |sockets| ==> sockets[i] < m.nSockets)
    && (forall i, j :: 0 <= i < j < |sockets| ==> sockets[i] != sockets[j])
  }

  /** A socket not visited before adds only new contexts. */
  lemma VisitSocket(m: Machine, s: seq<Hwc>, sockets: seq<nat>, socket: nat, n: nat, smtFirst: int)
    requires m.Ok() && SocketList(m, sockets + [socket])
    requires Handed(m, s, sockets, m.nSmt > 1 && smtFirst < 0, 0, |sockets|)
    ensures Handed(m, s + Taken(m, socket, n, smtFirst, 0), sockets + [socket],
                   m.nSmt > 1 && smtFirst < 0, 0, |sockets| + 1)
  {
    var t, sockets' := Taken(m, socket, n, smtFirst, 0), sockets + [socket];
    assert sockets'[|sockets|] == socket;
    TakenDistinct(m, socket, n, smtFirst, 0);
    forall i, j | 0 <= i < |s| && 0 <= j < |t| ensures s[i] != t[j] {
      assert s[i].socket in sockets;
      var k :| 0 <= k < |sockets| && sockets[k] == s[i].socket;
      assert sockets'[k] != sockets'[|sockets|];
    }
    AppendDistinct(s, t);
    assert sockets'[..|sockets'|] == sockets' && sockets[..|sockets|] == sockets;
    forall k | 0 <= k < |s + t| ensures (s + t)[k].socket in sockets' {
      if k < |s| { assert s[k].socket in sockets; }
    }
  }

  /** A later round takes another context of every core. */
  lemma VisitAgain(m: Machine, s: seq<Hwc>, sockets: seq<nat>, i: nat, n: nat, round: nat)
    requires m.Ok() && m.nSmt > 1 && round < m.nSmt && SocketList(m, sockets) && i < |sockets|
    requires Handed(m, s, sockets, true, round, i)
    ensures Handed(m, s + Taken(m, sockets[i], n, -1, round), sockets, true, round, i + 1)
  {
    var t := Taken(m, sockets[i], n, -1, round);
    TakenDistinct(m, sockets[i], n, -1, round);
    forall a, b | 0 <= a < |s| && 0 <= b < |t| ensures s[a] != t[b] {
      assert BeforeTurn(s[a], sockets, round, i);
      if s[a].smt == round {
        var k :| 0 <= k < i && sockets[..i][k] == s[a].socket;
        assert sockets[k] != sockets[i];
      }
    }
    AppendDistinct(s, t);
    assert sockets[..i + 1] == sockets[..i] + [sockets[i]];
    forall k | 0 <= k < |s + t| ensures BeforeTurn((s + t)[k], sockets, round, i + 1) {
      if k < |s| { assert BeforeTurn(s[k], sockets, round, i); }
    }
  }

  lemma NextRound(m: Machine, s: seq<Hwc>, sockets: seq<nat>, round: nat)
    requires Handed(m, s, sockets, true, round, |sockets|)
    ensures Handed(m, s, sockets, true, round + 1, 0)
  {
    forall k | 0 <= k < |s| ensures BeforeTurn(s[k], sockets, round + 1, 0) {
      assert BeforeTurn(s[k], sockets, round, |sockets|);
    }
  }

  // ---------------------------------------------------------------- minimum latency

  function CeilDiv(n: nat, d: nat): (q: nat)
    requires d > 0
  {
    n / d + (if n % d > 0 then 1 else 0)
  }

  lemma CeilDivIs(n: nat, d: nat, k: nat)
    requires d > 0
    ensures n <= CeilDiv(n, d) * d && (CeilDiv(n, d) <= k <==> n <= k * d)
    ensures CeilDiv(n, d) == 0 <==> n == 0
  {
    var q, r := n / d, n % d;
    assert n == q * d + r && (q + 1) * d == q * d + d;
    ProductStep(k, q, d);
    ProductStep(q, k, d);
    ProductLe(q, k, d);
    ProductLe(q + 1, k, d);
    if n == 0 { DivModIs(0, d, 0, 0); }
  }

  /** n contexts in k equal parts, rounded up; also how many parts of size k they make. */
  ghost predicate IsShare(n: nat, k: nat, share: nat) {
    k > 0 && n <= share * k && (share > 0 ==> (share - 1) * k < n)
  }

  lemma CeilIsShare(n: nat, k: nat)
    requires k > 0
    ensures IsShare(n, k, CeilDiv(n, k))
  {
    CeilDivIs(n, k, CeilDiv(n, k));
    if CeilDiv(n, k) > 0 { CeilDivIs(n, k, CeilDiv(n, k) - 1); }
  }

  /** How many contexts a socket is to give: what is configured, or all; with balancing, an equal share
      for as many sockets as it takes to hold all n, counting only cores if first contexts come first. */
  ghost predicate IsQuota(m: Machine, n: nat, nConfig: int, smtFirst: int, balance: bool, quota: nat) {
    if !balance then quota == if 0 < nConfig <= m.nCores * m.nSmt then nConfig else m.nCores * m.nSmt
    else if m.nSmt > 1 && smtFirst < 0
    then exists k: nat :: IsShare(n, m.nCores, k) && IsShare(n, Min(k, m.nSockets), quota)
    else exists k: nat :: IsShare(n, m.nCores * m.nSmt, k) && IsShare(n, k, quota)
  }

  /** The number of contexts to take from a socket, before and after balancing. */
  method PerSocketCount(m: Machine, n: nat, nConfig: int, smtFirst: int, balance: bool) returns (perSocket: nat)
    requires m.Ok() && 0 < n <= m.nSockets * m.PerSocket()
    ensures perSocket > 0
    ensures !(m.nSmt > 1 && smtFirst < 0) ==> perSocket <= m.PerSocket()
    ensures balance ==> n <= perSocket * m.nSockets
    ensures !balance ==> perSocket == if 0 < nConfig <= m.PerSocket() then nConfig else m.PerSocket()
    ensures IsQuota(m, n, nConfig, smtFirst, balance, perSocket)
  {
    ProductStep(0, m.nCores, m.nSmt);
    perSocket := if nConfig == -1 || nConfig > m.PerSocket() || nConfig <= 0 then m.PerSocket() else nConfig;
    if balance {
      var avail := m.PerSocket();
      if smtFirst < 0 {
        DivModIs(m.PerSocket(), m.nSmt, m.nCores, 0);
        avail := avail / m.nSmt;
      }
      var nSockets := CeilDiv(n, avail);
      CeilDivIs(n, avail, m.nSockets);
      CeilIsShare(n, avail);
      if nSockets > m.nSockets && smtFirst < 0 { nSockets := m.nSockets; }
      CeilIsShare(n, nSockets);
      perSocket := CeilDiv(n, nSockets);
      CeilDivIs(n, nSockets, m.PerSocket());
      CeilDivIs(n, avail, nSockets);
      ProductLe(nSockets, m.nSockets, perSocket);
      Commute(nSockets, perSocket);
      Commute(m.nSockets, perSocket);
      Commute(nSockets, m.PerSocket());
      if m.nSmt == 1 { assert m.PerSocket() == m.nCores; }
    }
  }

  // ---------------------------------------------------------- what is where

  /** The number of contexts that one visit of a socket gives. */
  function Each(m: Machine, perSocket: nat, smtFirst: int): (n: nat) {
    if m.nSmt > 1 && smtFirst < 0 then Min(perSocket, m.nCores) else Min(perSocket, m.PerSocket())
  }

  /** The sockets' contexts follow each other, as many of each. */
  ghost predicate Blocks(m: Machine, s: seq<Hwc>, sockets: seq<nat>, perSocket: nat, smtFirst: int) {
    && m.Ok() && Each(m, perSocket, smtFirst) > 0
    && forall j :: 0 <= j < |s| ==> BlockAt(m, s, sockets, perSocket, smtFirst, j)
  }

  ghost predicate BlockAt(m: Machine, s: seq<Hwc>, sockets: seq<nat>, perSocket: nat, smtFirst: int, j: nat)
    requires m.Ok() && Each(m, perSocket, smtFirst) > 0 && j < |s|
  {
    var each := Each(m, perSocket, smtFirst);
    j / each < |sockets| && s[j] == Taken(m, sockets[j / each], perSocket, smtFirst, 0)[j % each]
  }

  lemma NextBlock(m: Machine, s: seq<Hwc>, sockets: seq<nat>, socket: nat, perSocket: nat, smtFirst: int)
    requires Blocks(m, s, sockets, perSocket, smtFirst) && |s| == |sockets| * Each(m, perSocket, smtFirst)
    ensures Blocks(m, s + Taken(m, socket, perSocket, smtFirst, 0), sockets + [socket], perSocket, smtFirst)
  {
    var t, sockets', each := Taken(m, socket, perSocket, smtFirst, 0), sockets + [socket], Each(m, perSocket, smtFirst);
    forall j | 0 <= j < |s + t| ensures BlockAt(m, s + t, sockets', perSocket, smtFirst, j) {
      if j < |s| {
        assert BlockAt(m, s, sockets, perSocket, smtFirst, j);
      } else {
        DivModIs(j, each, |sockets|, j - |s|);
      }
    }
  }

  /** Context h has been handed out before the j-th one. */
  ghost predicate Precedes(s: seq<Hwc>, h: Hwc, j: nat) {
    j <= |s| && h in s[..j]
  }

  /** The cores of a socket come in order. */
  ghost predicate CoresInOrder(s: seq<Hwc>) {
    forall j: nat, h: Hwc :: j < |s| && h.socket == s[j].socket && h.smt == s[j].smt && h.core + 1 == s[j].core ==>
        Precedes(s, h, j)
  }

  /** Within a socket a core's next context comes only after that of every core, and cores come in order. */
  ghost predicate CoresFirst(m: Machine, s: seq<Hwc>) {
    && CoresInOrder(s)
    && forall j: nat, h: Hwc :: j < |s| && h.socket == s[j].socket && h.smt + 1 == s[j].smt && h.core < m.nCores ==>
         Precedes(s, h, j)
  }

  /** Within a socket the next core comes only after all contexts of the one before, and these in order. */
  ghost predicate HwcsFirst(m: Machine, s: seq<Hwc>) {
    && (forall j: nat, h: Hwc :: j < |s| && h.socket == s[j].socket && h.core + 1 == s[j].core && h.smt < m.nSmt ==>
          Precedes(s, h, j))
    && forall j: nat, h: Hwc :: j < |s| && h.socket == s[j].socket && h.core == s[j].core && h.smt + 1 == s[j].smt ==>
         Precedes(s, h, j)
  }

  /** A core's next context comes only after that of every core of every listed socket, and the cores of a
      socket come in order. */
  ghost predicate RoundByRound(m: Machine, s: seq<Hwc>, sockets: seq<nat>) {
    && CoresInOrder(s)
    && forall j: nat, h: Hwc :: j < |s| && h.socket in sockets && h.smt + 1 == s[j].smt && h.core < m.nCores ==>
         Precedes(s, h, j)
  }

  lemma SameRow(j: nat, d: nat, r: nat) returns (i: nat)
    requires d > 0 && r < j % d
    ensures i < j && i / d == j / d && i % d == r
  {
    assert j == (j / d) * d + j % d;
    i := (j / d) * d + r;
    DivModIs(i, d, j / d, r);
  }

  /** The contexts of a block that come before context r of it come before in the whole. */
  lemma EarlierInBlock(m: Machine, s: seq<Hwc>, sockets: seq<nat>, perSocket: nat, smtFirst: int, j: nat, r: nat)
    requires Blocks(m, s, sockets, perSocket, smtFirst) && j < |s| && r < j % Each(m, perSocket, smtFirst)
    ensures j / Each(m, perSocket, smtFirst) < |sockets|
    ensures Precedes(s, Taken(m, sockets[j / Each(m, perSocket, smtFirst)], perSocket, smtFirst, 0)[r], j)
  {
    var i := SameRow(j, Each(m, perSocket, smtFirst), r);
    assert BlockAt(m, s, sockets, perSocket, smtFirst, j) && BlockAt(m, s, sockets, perSocket, smtFirst, i);
    PrecedesAt(s, i, j);
  }

  lemma TakenIs(m: Machine, socket: nat, perSocket: nat, smtFirst: int, r: nat)
    requires m.Ok() && r < Each(m, perSocket, smtFirst)
    ensures Taken(m, socket, perSocket, smtFirst, 0)[r] == VisitHwc(m, socket, smtFirst, r)
  {}

  /** Context r of a visit. */
  function VisitHwc(m: Machine, socket: nat, smtFirst: int, r: nat): Hwc
    requires m.Ok()
  {
    if m.nSmt == 1 || smtFirst < 0 then Hwc(socket, r, 0)
    else if smtFirst > 0 then Hwc(socket, r / m.nSmt, r % m.nSmt)
    else Hwc(socket, r % m.nCores, r / m.nCores)
  }

  lemma BlockPart(m: Machine, s: seq<Hwc>, sockets: seq<nat>, perSocket: nat, smtFirst: int, j: nat) returns (r: nat)
    requires Blocks(m, s, sockets, perSocket, smtFirst) && j < |s|
    ensures r < Each(m, perSocket, smtFirst) && s[j] == VisitHwc(m, s[j].socket, smtFirst, r)
    ensures forall q: nat :: q < r ==> Precedes(s, VisitHwc(m, s[j].socket, smtFirst, q), j)
  {
    var each := Each(m, perSocket, smtFirst);
    r := j % each;
    assert BlockAt(m, s, sockets, perSocket, smtFirst, j);
    TakenIs(m, sockets[j / each], perSocket, smtFirst, r);
    forall q: nat | q < r ensures Precedes(s, VisitHwc(m, s[j].socket, smtFirst, q), j) {
      EarlierInBlock(m, s, sockets, perSocket, smtFirst, j, q);
      TakenIs(m, sockets[j / each], perSocket, smtFirst, q);
    }
  }

  /** Number r of d a row is behind all of the rows before, and behind those before it in its row. */
  lemma RowBefore(r: nat, d: nat, c: nat)
    requires d > 0 && c < d && r / d > 0
    ensures 0 <= (r / d - 1) * d + c < r
    ensures ((r / d - 1) * d + c) / d == r / d - 1 && ((r / d - 1) * d + c) % d == c
  {
    OneMore(r / d - 1, d);
    assert r == (r / d) * d + r % d;
    ProductStep(0, r / d, d);
    DivModIs((r / d - 1) * d + c, d, r / d - 1, c);
  }

  lemma JustBefore(r: nat, d: nat)
    requires d > 0 && r % d > 0
    ensures r > 0 && (r - 1) / d == r / d && (r - 1) % d == r % d - 1
  {
    assert r == (r / d) * d + r % d;
    DivModIs(r - 1, d, r / d, r % d - 1);
  }

  lemma BlocksAreCoresFirst(m: Machine, s: seq<Hwc>, sockets: seq<nat>, perSocket: nat)
    requires Blocks(m, s, sockets, perSocket, 0) && m.nSmt > 1
    ensures CoresFirst(m, s)
  {
    forall j: nat, h: Hwc | j < |s| && h.socket == s[j].socket && h.smt + 1 == s[j].smt && h.core < m.nCores
      ensures Precedes(s, h, j)
    {
      var r := BlockPart(m, s, sockets, perSocket, 0, j);
      RowBefore(r, m.nCores, h.core);
      assert h == VisitHwc(m, h.socket, 0, (r / m.nCores - 1) * m.nCores + h.core);
    }
    forall j: nat, h: Hwc | j < |s| && h.socket == s[j].socket && h.smt == s[j].smt && h.core + 1 == s[j].core
      ensures Precedes(s, h, j)
    {
      var r := BlockPart(m, s, sockets, perSocket, 0, j);
      JustBefore(r, m.nCores);
      assert h == VisitHwc(m, h.socket, 0, r - 1);
    }
  }

  lemma BlocksAreHwcsFirst(m: Machine, s: seq<Hwc>, sockets: seq<nat>, perSocket: nat, smtFirst: int)
    requires Blocks(m, s, sockets, perSocket, smtFirst) && m.nSmt > 1 && smtFirst > 0
    ensures HwcsFirst(m, s)
  {
    forall j: nat, h: Hwc | j < |s| && h.socket == s[j].socket && h.core + 1 == s[j].core && h.smt < m.nSmt
      ensures Precedes(s, h, j)
    {
      var r := BlockPart(m, s, sockets, perSocket, smtFirst, j);
      RowBefore(r, m.nSmt, h.smt);
      assert h == VisitHwc(m, h.socket, smtFirst, (r / m.nSmt - 1) * m.nSmt + h.smt);
    }
    forall j: nat, h: Hwc | j < |s| && h.socket == s[j].socket && h.core == s[j].core && h.smt + 1 == s[j].smt
      ensures Precedes(s, h, j)
    {
      var r := BlockPart(m, s, sockets, perSocket, smtFirst, j);
      JustBefore(r, m.nSmt);
      assert h == VisitHwc(m, h.socket, smtFirst, r - 1);
    }
  }

  /** Without SMT, or when only cores are taken, a socket's cores come in order. */
  lemma BlocksAreInOrder(m: Machine, s: seq<Hwc>, sockets: seq<nat>, perSocket: nat, smtFirst: int)
    requires Blocks(m, s, sockets, perSocket, smtFirst) && (m.nSmt == 1 || smtFirst < 0)
    ensures CoresInOrder(s) && forall j :: 0 <= j < |s| ==> s[j].smt == 0
  {
    forall j: nat | j < |s| ensures s[j].smt == 0 {
      var r := BlockPart(m, s, sockets, perSocket, smtFirst, j);
    }
    forall j: nat, h: Hwc | j < |s| && h.socket == s[j].socket && h.smt == s[j].smt && h.core + 1 == s[j].core
      ensures Precedes(s, h, j)
    {
      var r := BlockPart(m, s, sockets, perSocket, smtFirst, j);
      assert h == VisitHwc(m, h.socket, smtFirst, r - 1);
    }
  }

  /** The sockets in turn. */
  lemma BlockSockets(m: Machine, s: seq<Hwc>, sockets: seq<nat>, perSocket: nat, smtFirst: int)
    requires Blocks(m, s, sockets, perSocket, smtFirst)
    ensures forall j :: 0 <= j < |s| ==>
              j / Each(m, perSocket, smtFirst) < |sockets|
              && s[j].socket == sockets[j / Each(m, perSocket, smtFirst)]
  {
    forall j | 0 <= j < |s|
      ensures j / Each(m, perSocket, smtFirst) < |sockets|
              && s[j].socket == sockets[j / Each(m, perSocket, smtFirst)]
    {
      assert BlockAt(m, s, sockets, perSocket, smtFirst, j);
      TakenIs(m, sockets[j / Each(m, perSocket, smtFirst)], perSocket, smtFirst, j % Each(m, perSocket, smtFirst));
    }
  }

  lemma BlocksPrefix(m: Machine, s: seq<Hwc>, sockets: seq<nat>, perSocket: nat, smtFirst: int, n: nat)
    requires Blocks(m, s, sockets, perSocket, smtFirst) && n <= |s|
    ensures Blocks(m, s[..n], sockets, perSocket, smtFirst)
  {
    forall j | 0 <= j < n ensures BlockAt(m, s[..n], sockets, perSocket, smtFirst, j) {
      assert BlockAt(m, s, sockets, perSocket, smtFirst, j);
    }
  }

  /** Phase one: the starting socket and then its siblings, until there are enough. */
  method VisitSockets(m: Machine, order: seq<nat>, n: nat, perSocket: nat, smtFirst: int)
    returns (hwcs: seq<Hwc>, sockets: seq<nat>)
    requires m.Ok() && SocketList(m, order) && order != [] && Each(m, perSocket, smtFirst) > 0
    ensures Blocks(m, hwcs, sockets, perSocket, smtFirst)
    ensures |hwcs| == |sockets| * Each(m, perSocket, smtFirst)
    ensures |sockets| > 1 ==> (|sockets| - 1) * Each(m, perSocket, smtFirst) < n
    ensures 0 < |sockets| <= |order| && sockets == order[..|sockets|]
    ensures Handed(m, hwcs, sockets, m.nSmt > 1 && smtFirst < 0, 0, |sockets|)
    ensures |hwcs| >= n || (sockets == order && |hwcs| == |order| * |Taken(m, 0, perSocket, smtFirst, 0)|)
  {
    hwcs, sockets := [], [];
    var siblingI: nat := 0;
    ghost var each := |Taken(m, 0, perSocket, smtFirst, 0)|;
    while true
      invariant |sockets| == siblingI < |order| && sockets == order[..siblingI]
      invariant Handed(m, hwcs, sockets, m.nSmt > 1 && smtFirst < 0, 0, |sockets|)
      invariant |hwcs| == siblingI * each && each == Each(m, perSocket, smtFirst)
      invariant Blocks(m, hwcs, sockets, perSocket, smtFirst)
      invariant siblingI > 0 ==> siblingI * each < n
      decreases |order| - siblingI
    {
      var socket := order[siblingI];
      assert order[..siblingI + 1] == sockets + [socket];
      PartialList(m, order, siblingI + 1);
      VisitSocket(m, hwcs, sockets, socket, perSocket, smtFirst);
      NextBlock(m, hwcs, sockets, socket, perSocket, smtFirst);
      var ids := GetHwcIds(m, socket, perSocket, smtFirst, 0);
      hwcs, sockets := hwcs + ids, sockets + [socket];
      assert (siblingI + 1) * each == siblingI * each + each;
      if |hwcs| >= n || siblingI >= |order| - 1 { break; }
      siblingI := siblingI + 1;
    }
    assert |sockets| == |order| ==> order[..|order|] == order;
  }

  lemma PartialList(m: Machine, order: seq<nat>, k: nat)
    requires SocketList(m, order) && k <= |order|
    ensures SocketList(m, order[..k])
  {}

  /** From index `base` on, round after round, every socket gives q cores' next contexts. */
  ghost predicate Rounds(s: seq<Hwc>, sockets: seq<nat>, base: nat, q: nat) {
    forall j :: base <= j < |s| ==> RoundAt(s, sockets, base, q, j)
  }

  ghost predicate RoundAt(s: seq<Hwc>, sockets: seq<nat>, base: nat, q: nat, j: nat)
    requires base <= j < |s|
  {
    && q > 0 && |sockets| * q > 0
    && var (turn, i) := ((j - base) / (|sockets| * q), (j - base) % (|sockets| * q));
       i / q < |sockets| && s[j] == Hwc(sockets[i / q], i % q, turn + 1)
  }

  /** Where core c of socket i is in round `turn`. */
  lemma RoundIndex(n: nat, q: nat, turn: nat, i: nat, c: nat)
    requires i < n && c < q
    ensures n * q > 0 && 0 <= i * q + c < n * q
    ensures (turn * (n * q) + (i * q + c)) / (n * q) == turn && (turn * (n * q) + (i * q + c)) % (n * q) == i * q + c
    ensures (i * q + c) / q == i && (i * q + c) % q == c
  {
    ProductLe(i + 1, n, q);
    OneMore(i, q);
    DivModIs(turn * (n * q) + (i * q + c), n * q, turn, i * q + c);
    DivModIs(i * q + c, q, i, c);
  }

  lemma RoundMore(s: seq<Hwc>, sockets: seq<nat>, base: nat, q: nat, turn: nat, i: nat)
    requires Rounds(s, sockets, base, q) && i < |sockets| && |s| == base + turn * (|sockets| * q) + i * q
    ensures Rounds(s + CoreHwcs(sockets[i], q, turn + 1), sockets, base, q)
  {
    var s' := s + CoreHwcs(sockets[i], q, turn + 1);
    forall j | base <= j < |s'| ensures RoundAt(s', sockets, base, q, j) {
      if j < |s| {
        assert RoundAt(s, sockets, base, q, j);
      } else {
        RoundIndex(|sockets|, q, turn, i, j - |s|);
      }
    }
  }

  /** One later round: context `round` of the cores of every socket. */
  method VisitRound(m: Machine, sockets: seq<nat>, hwcs0: seq<Hwc>, perSocket: nat, round: nat, ghost base: nat)
    returns (hwcs: seq<Hwc>)
    requires m.Ok() && m.nSmt > 1 && 0 < round < m.nSmt && SocketList(m, sockets)
    requires Handed(m, hwcs0, sockets, true, round, 0)
    requires Rounds(hwcs0, sockets, base, Min(perSocket, m.nCores))
    requires |hwcs0| == base + (round - 1) * (|sockets| * Min(perSocket, m.nCores))
    ensures Handed(m, hwcs, sockets, true, round, |sockets|)
    ensures |hwcs| == |hwcs0| + |sockets| * Min(perSocket, m.nCores)
    ensures hwcs0 <= hwcs && Rounds(hwcs, sockets, base, Min(perSocket, m.nCores))
  {
    hwcs := hwcs0;
    ghost var q := Min(perSocket, m.nCores);
    var i: nat := 0;
    while i < |sockets|
      invariant i <= |sockets| && Handed(m, hwcs, sockets, true, round, i)
      invariant |hwcs| == |hwcs0| + i * q && hwcs0 <= hwcs && Rounds(hwcs, sockets, base, q)
    {
      VisitAgain(m, hwcs, sockets, i, perSocket, round);
      RoundMore(hwcs, sockets, base, q, round - 1, i);
      var ids := GetHwcIds(m, sockets[i], perSocket, -1, round);
      OneMore(i, q);
      hwcs := hwcs + ids;
      i := i + 1;
    }
  }

  /** Phase two, when only cores have been taken: the other contexts of the cores, round by round. */
  method VisitSmt(m: Machine, sockets: seq<nat>, hwcs0: seq<Hwc>, n: nat, perSocket: nat) returns (hwcs: seq<Hwc>)
    requires m.Ok() && m.nSmt > 1 && SocketList(m, sockets) && Handed(m, hwcs0, sockets, true, 0, |sockets|)
    requires |hwcs0| >= n || (|hwcs0| == |sockets| * m.nCores && n <= |sockets| * m.PerSocket()
                              && (perSocket < m.nCores ==> n <= |sockets| * m.nCores + |sockets| * perSocket))
    ensures Distinct(hwcs) && AllExist(m, hwcs) && On(hwcs, sockets) && |hwcs| >= n
    ensures hwcs0 <= hwcs && Rounds(hwcs, sockets, |hwcs0|, Min(perSocket, m.nCores))
    ensures |hwcs0| >= n ==> hwcs == hwcs0
    ensures perSocket < m.nCores ==> |hwcs| <= |hwcs0| + |sockets| * perSocket
  {
    hwcs := hwcs0;
    var hwc: nat := 1;
    ghost var perRound, q := |sockets| * m.nCores, Min(perSocket, m.nCores);
    NextRound(m, hwcs, sockets, 0);
    EachRound(|sockets|, perSocket, m.nCores);
    Rearrange(|sockets|, m.nCores, m.nSmt);
    while |hwcs| < n && hwc < m.nSmt
      invariant 1 <= hwc <= m.nSmt && Handed(m, hwcs, sockets, true, hwc, 0)
      invariant hwcs0 <= hwcs && Rounds(hwcs, sockets, |hwcs0|, q)
      invariant |hwcs| == |hwcs0| + (hwc - 1) * (|sockets| * q) && (hwc > 1 ==> |hwcs0| < n)
      invariant |hwcs| >= n || (|hwcs| == hwc * perRound && (perSocket < m.nCores ==> hwc == 1))
      invariant perSocket < m.nCores ==> hwc <= 2
      decreases m.nSmt - hwc
    {
      hwcs := VisitRound(m, sockets, hwcs, perSocket, hwc, |hwcs0|);
      NextRound(m, hwcs, sockets, hwc);
      assert (hwc + 1) * perRound == hwc * perRound + perRound;
      OneMore(hwc - 1, |sockets| * q);
      hwc := hwc + 1;
    }
  }

  lemma EachRound(s: nat, p: nat, c: nat)
    ensures s * Min(p, c) == if p < c then s * p else s * c
  {}

  lemma Rearrange(s: nat, c: nat, h: nat)
    ensures h * (s * c) == s * (c * h)
  {}

  lemma PrecedesLonger(s: seq<Hwc>, t: seq<Hwc>, h: Hwc, j: nat)
    requires s <= t && Precedes(s, h, j)
    ensures Precedes(t, h, j)
  {
    assert t[..j] == s[..j];
  }

  lemma PrecedesAt(s: seq<Hwc>, i: nat, j: nat)
    requires i < j <= |s|
    ensures Precedes(s, s[i], j)
  {
    assert s[..j][i] == s[i];
  }

  /** The first cores of all sockets, and then rounds over the sockets. */
  ghost predicate TwoPhases(m: Machine, s: seq<Hwc>, sockets: seq<nat>, base: nat, q: nat) {
    && m.Ok() && base <= |s| && Rounds(s, sockets, base, q) && q <= m.nCores
    && (forall j: nat :: j < base ==> s[j].smt == 0) && CoresInOrder(s[..base])
    && (base < |s| ==> base == |sockets| * m.nCores)
    && (base < |s| ==> forall y: nat, c: nat :: y < |sockets| && c < m.nCores ==> FirstAt(m, s, sockets, y, c))
    && (q < m.nCores ==> |s| <= base + |sockets| * q)
  }

  /** The first context of core c of socket y. */
  ghost predicate FirstAt(m: Machine, s: seq<Hwc>, sockets: seq<nat>, y: nat, c: nat)
    requires y < |sockets|
  {
    y * m.nCores + c < |s| && s[y * m.nCores + c] == Hwc(sockets[y], c, 0)
  }

  lemma TwoPhasesCores(m: Machine, s: seq<Hwc>, sockets: seq<nat>, base: nat, q: nat)
    requires TwoPhases(m, s, sockets, base, q)
    ensures CoresInOrder(s)
  {
    forall j: nat, h: Hwc | j < |s| && h.socket == s[j].socket && h.smt == s[j].smt && h.core + 1 == s[j].core
      ensures Precedes(s, h, j)
    {
      if j < base {
        assert s[..base][j] == s[j];
        PrecedesLonger(s[..base], s, h, j);
      } else {
        assert RoundAt(s, sockets, base, q, j);
        var d := |sockets| * q;
        var turn, i := (j - base) / d, (j - base) % d;
        JustBefore(i, q);
        JustBefore(j - base, d);
        assert RoundAt(s, sockets, base, q, j - 1);
        PrecedesAt(s, j - 1, j);
      }
    }
  }

  /** Core c of socket y in the round before that of index j. */
  lemma RoundBefore(s: seq<Hwc>, sockets: seq<nat>, base: nat, q: nat, j: nat, y: nat, c: nat)
    requires Rounds(s, sockets, base, q) && base <= j < |s| && y < |sockets| && c < q
    requires s[j].smt > 1 && RoundAt(s, sockets, base, q, j)
    ensures Precedes(s, Hwc(sockets[y], c, s[j].smt - 1), j)
  {
    var d := |sockets| * q;
    RoundIndex(|sockets|, q, 0, y, c);
    RowBefore(j - base, d, y * q + c);
    var i := base + (((j - base) / d - 1) * d + (y * q + c));
    assert RoundAt(s, sockets, base, q, i);
    PrecedesAt(s, i, j);
  }

  lemma LaterTurn(x: nat, d: nat)
    requires d > 0 && x / d > 0
    ensures x >= d
  {}

  lemma TwoPhasesRounds(m: Machine, s: seq<Hwc>, sockets: seq<nat>, base: nat, q: nat, j: nat, h: Hwc, y: nat)
    requires TwoPhases(m, s, sockets, base, q) && j < |s| && y < |sockets| && sockets[y] == h.socket
    requires h.smt + 1 == s[j].smt && h.core < m.nCores
    ensures Precedes(s, h, j)
  {
    assert base <= j && RoundAt(s, sockets, base, q, j);
    if h.smt == 0 {
      assert FirstAt(m, s, sockets, y, h.core);
      RoundIndex(|sockets|, m.nCores, 0, y, h.core);
      PrecedesAt(s, y * m.nCores + h.core, j);
    } else {
      LaterTurn(j - base, |sockets| * q);
      assert q == m.nCores;
      RoundBefore(s, sockets, base, q, j, y, h.core);
    }
  }

  lemma TwoPhasesAreRounds(m: Machine, s: seq<Hwc>, sockets: seq<nat>, base: nat, q: nat)
    requires TwoPhases(m, s, sockets, base, q)
    ensures RoundByRound(m, s, sockets)
  {
    TwoPhasesCores(m, s, sockets, base, q);
    forall j: nat, h: Hwc | j < |s| && h.socket in sockets && h.smt + 1 == s[j].smt && h.core < m.nCores
      ensures Precedes(s, h, j)
    {
      var y: nat :| y < |sockets| && sockets[y] == h.socket;
      TwoPhasesRounds(m, s, sockets, base, q, j, h, y);
    }
  }

  /** A block is in place from its first to its last core. */
  lemma BlocksHaveFirst(m: Machine, s: seq<Hwc>, sockets: seq<nat>, perSocket: nat, y: nat, c: nat)
    requires Blocks(m, s, sockets, perSocket, -1) && m.nSmt > 1 && perSocket >= m.nCores
    requires |s| == |sockets| * m.nCores && y < |sockets| && c < m.nCores
    ensures FirstAt(m, s, sockets, y, c)
  {
    RoundIndex(|sockets|, m.nCores, 0, y, c);
    var j := y * m.nCores + c;
    assert BlockAt(m, s, sockets, perSocket, -1, j);
    TakenIs(m, sockets[y], perSocket, -1, c);
  }

  lemma BothPhases(m: Machine, first: seq<Hwc>, s: seq<Hwc>, sockets: seq<nat>, perSocket: nat, smtFirst: int, q: nat)
    requires Blocks(m, first, sockets, perSocket, smtFirst) && m.nSmt > 1 && smtFirst < 0 && q <= m.nCores
    requires first <= s && Rounds(s, sockets, |first|, q) && (q < m.nCores ==> |s| <= |first| + |sockets| * q)
    requires |first| < |s| ==> |first| == |sockets| * m.nCores && perSocket >= m.nCores
    ensures TwoPhases(m, s, sockets, |first|, q)
  {
    BlocksAreInOrder(m, first, sockets, perSocket, smtFirst);
    assert s[..|first|] == first;
    if |first| < |s| {
      forall j | 0 <= j < |first| ensures BlockAt(m, first, sockets, perSocket, -1, j) {
        assert BlockAt(m, first, sockets, perSocket, smtFirst, j);
      }
      forall y: nat, c: nat | y < |sockets| && c < m.nCores ensures FirstAt(m, s, sockets, y, c) {
        BlocksHaveFirst(m, first, sockets, perSocket, y, c);
      }
    }
  }

  /** What the order of a policy says holds of the first n contexts as well. */
  lemma OrderOfPrefix(m: Machine, s: seq<Hwc>, sockets: seq<nat>, n: nat)
    requires n <= |s|
    ensures CoresInOrder(s) ==> CoresInOrder(s[..n])
    ensures RoundByRound(m, s, sockets) ==> RoundByRound(m, s[..n], sockets)
  {
    forall j: nat, h: Hwc | j < n && Precedes(s, h, j) ensures Precedes(s[..n], h, j) {
      assert s[..n][..j] == s[..j];
    }
    forall j: nat | j < n ensures s[..n][j] == s[j] {}
  }

  /** First contexts of cores first: phase one has given `first`; the rest comes in rounds. */
  method OtherContexts(m: Machine, sockets: seq<nat>, first: seq<Hwc>, n: nat, quota: nat, smtFirst: int, balance: bool)
    returns (hwcs: seq<Hwc>, more: nat)
    requires m.Ok() && m.nSmt > 1 && smtFirst < 0 && SocketList(m, sockets) && |sockets| > 0 && quota > 0
    requires Blocks(m, first, sockets, quota, smtFirst) && Handed(m, first, sockets, true, 0, |sockets|)
    requires |first| == |sockets| * Min(quota, m.nCores) && (|first| < n ==> |sockets| == m.nSockets)
    requires n <= m.nSockets * m.PerSocket() && n <= quota * m.nSockets
    ensures |hwcs| == n && Distinct(hwcs) && AllExist(m, hwcs) && On(hwcs, sockets)
    ensures RoundByRound(m, hwcs, sockets)
    ensures Phases(hwcs, sockets, |sockets| * Min(quota, m.nCores), Min(quota, m.nCores), Min(more, m.nCores))
    ensures |first| < n ==>
              quota >= m.nCores && if balance then IsShare(n - |first|, |sockets|, more) else more == quota
  {
    var remaining := if n > |first| then n - |first| else 0;
    CeilIsShare(remaining, |sockets|);
    Commute(quota, m.nSockets);
    more := if balance then CeilDiv(remaining, |sockets|) else quota;
    Commute(|sockets|, more);
    if |first| < n { Enough(|sockets|, quota, m.nCores, n); }
    var all := VisitSmt(m, sockets, first, n, more);
    BothPhases(m, first, all, sockets, quota, smtFirst, Min(more, m.nCores));
    TwoPhasesAreRounds(m, all, sockets, |first|, Min(more, m.nCores));
    PhasesOf(m, first, all, sockets, quota, smtFirst, Min(quota, m.nCores), Min(more, m.nCores));
    OrderOfPrefix(m, all, sockets, n);
    PhasesPrefix(all, sockets, |first|, Min(quota, m.nCores), Min(more, m.nCores), n);
    hwcs := all[..n];
  }

  /** Sockets that give less than they have cores give enough in phase one. */
  lemma Enough(k: nat, quota: nat, cores: nat, n: nat)
    requires n <= k * quota && k * Min(quota, cores) < n
    ensures quota >= cores
  {}

  /** The minimum-latency policies. `order` is the starting socket followed by its
      siblings'. All contexts that are handed out are different and on the listed sockets,
      and there are as many as asked for, up to the quota on all sockets. The sockets give their
      quota one after the other, in the order of the policy; when first contexts of cores come
      first, `more` is what a socket gives in each later round. */
  method PrepMinLat(m: Machine, order: seq<nat>, nAsked: nat, nConfig: int, smtFirst: int, balance: bool)
    returns (hwcs: seq<Hwc>, sockets: seq<nat>, ghost quota: nat, ghost more: nat)
    requires m.Ok() && SocketList(m, order) && |order| == m.nSockets && 0 < nAsked <= m.nSockets * m.PerSocket()
    ensures Distinct(hwcs) && AllExist(m, hwcs) && On(hwcs, sockets) && sockets <= order
    ensures quota > 0 && IsQuota(m, nAsked, nConfig, smtFirst, balance, quota)
    ensures |hwcs| == Min(nAsked, quota * m.nSockets) && (balance ==> |hwcs| == nAsked)
    ensures m.nSmt == 1 ==> CoresInOrder(hwcs)
    ensures m.nSmt > 1 && smtFirst == 0 ==> CoresFirst(m, hwcs)
    ensures m.nSmt > 1 && smtFirst > 0 ==> HwcsFirst(m, hwcs)
    ensures m.nSmt > 1 && smtFirst < 0 ==> RoundByRound(m, hwcs, sockets)
    ensures |sockets| > 1 ==>
              (|sockets| - 1) * (if m.nSmt > 1 && smtFirst < 0 then Min(quota, m.nCores) else quota) < |hwcs|
    ensures m.nSmt == 1 || smtFirst >= 0 ==>
              forall j :: 0 <= j < |hwcs| ==> j / quota < |sockets| && hwcs[j].socket == sockets[j / quota]
    ensures m.nSmt > 1 && smtFirst < 0 ==>
              Phases(hwcs, sockets, |sockets| * Min(quota, m.nCores), Min(quota, m.nCores), Min(more, m.nCores))
    ensures m.nSmt > 1 && smtFirst < 0 && |hwcs| > |sockets| * Min(quota, m.nCores) ==>
              quota >= m.nCores
              && if balance then IsShare(|hwcs| - |sockets| * m.nCores, |sockets|, more) else more == quota
  {
    var perSocket := PerSocketCount(m, nAsked, nConfig, smtFirst, balance);
    quota, more := perSocket, perSocket;
    var n := nAsked;
    Commute(m.PerSocket(), m.nSockets);
    if perSocket * m.nSockets < nAsked { n := perSocket * m.nSockets; }
    hwcs, sockets := VisitSockets(m, order, n, perSocket, smtFirst);
    if smtFirst < 0 && m.nSmt > 1 {
      var later;
      hwcs, later := OtherContexts(m, sockets, hwcs, n, perSocket, smtFirst, balance);
      more := later;
    } else {
      Commute(|sockets|, perSocket);
      BlocksPrefix(m, hwcs, sockets, perSocket, smtFirst, n);
      hwcs := hwcs[..n];
      BlocksInOrder(m, hwcs, sockets, perSocket, smtFirst);
      BlockSockets(m, hwcs, sockets, perSocket, smtFirst);
    }
  }

  lemma BlocksInOrder(m: Machine, s: seq<Hwc>, sockets: seq<nat>, perSocket: nat, smtFirst: int)
    requires Blocks(m, s, sockets, perSocket, smtFirst) && (m.nSmt == 1 || smtFirst >= 0)
    ensures m.nSmt == 1 ==> CoresInOrder(s)
    ensures m.nSmt > 1 && smtFirst == 0 ==> CoresFirst(m, s)
    ensures m.nSmt > 1 && smtFirst > 0 ==> HwcsFirst(m, s)
  {
    if m.nSmt == 1 {
      BlocksAreInOrder(m, s, sockets, perSocket, smtFirst);
    } else if smtFirst == 0 {
      BlocksAreCoresFirst(m, s, sockets, perSocket);
    } else {
      BlocksAreHwcsFirst(m, s, sockets, perSocket, smtFirst);
    }
  }

  /** The first contexts of q cores of each socket in turn, and then, as long as there are any to give,
      rounds over the sockets, each of which gives the next contexts of its first r cores. */
  ghost predicate Phases(s: seq<Hwc>, sockets: seq<nat>, base: nat, q: nat, r: nat) {
    && q > 0 && base == |sockets| * q
    && (forall j: nat :: j < |s| && j < base ==> FirstPhaseAt(s, sockets, q, j))
    && (forall j: nat :: base <= j < |s| ==> RoundAt(s, sockets, base, r, j))
  }

  ghost predicate FirstPhaseAt(s: seq<Hwc>, sockets: seq<nat>, q: nat, j: nat)
    requires q > 0 && j < |s|
  {
    j / q < |sockets| && s[j] == Hwc(sockets[j / q], j % q, 0)
  }

  lemma FirstPhaseIs(m: Machine, first: seq<Hwc>, sockets: seq<nat>, quota: nat, smtFirst: int, j: nat)
    requires Blocks(m, first, sockets, quota, smtFirst) && m.nSmt > 1 && smtFirst < 0 && j < |first|
    ensures FirstPhaseAt(first, sockets, Min(quota, m.nCores), j)
  {
    var q := Each(m, quota, smtFirst);
    assert BlockAt(m, first, sockets, quota, smtFirst, j);
    TakenIs(m, sockets[j / q], quota, smtFirst, j % q);
  }

  lemma PhasesOf(m: Machine, first: seq<Hwc>, s: seq<Hwc>, sockets: seq<nat>, quota: nat, smtFirst: int, q: nat, r: nat)
    requires Blocks(m, first, sockets, quota, smtFirst) && m.nSmt > 1 && smtFirst < 0 && q == Min(quota, m.nCores)
    requires |first| == |sockets| * q && first <= s && Rounds(s, sockets, |first|, r)
    ensures Phases(s, sockets, |first|, q, r)
  {
    forall j: nat | j < |s| && j < |first| ensures FirstPhaseAt(s, sockets, q, j) {
      FirstPhaseIs(m, first, sockets, quota, smtFirst, j);
      assert FirstPhaseAt(first, sockets, q, j);
    }
  }

  lemma PhasesPrefix(s: seq<Hwc>, sockets: seq<nat>, base: nat, q: nat, r: nat, n: nat)
    requires Phases(s, sockets, base, q, r) && n <= |s|
    ensures Phases(s[..n], sockets, base, q, r)
  {
    forall j: nat | j < n && j < base ensures FirstPhaseAt(s[..n], sockets, q, j) {
      assert FirstPhaseAt(s, sockets, q, j);
    }
    forall j: nat | base <= j < n ensures RoundAt(s[..n], sockets, base, r, j) {
      assert RoundAt(s, sockets, base, r, j);
    }
  }

  // ------------------------------------------------------------------- round robin

  /** The n-th context handed out: the sockets take turns, and each turn goes one context further. */
  function TurnHwc(m: Machine, order: seq<nat>, nSockets: nat, smtFirst: int, n: nat): Hwc
    requires m.Ok() && 0 < nSockets <= |order|
  {
    NthHwcId(m, order[n % nSockets], n / nSockets, smtFirst)
  }

  lemma SameTurn(i: nat, j: nat, d: nat)
    requires d > 0 && i / d == j / d && i % d == j % d
    ensures i == j
  {
    assert i == (i / d) * d + i % d && j == (j / d) * d + j % d;
  }

  lemma NthDiffers(m: Machine, s: nat, i: nat, t: nat, j: nat, smtFirst: int)
    requires m.Ok() && s < m.nSockets && t < m.nSockets && i < m.PerSocket() && j < m.PerSocket()
    ensures Exists(m, NthHwcId(m, s, i, smtFirst))
    ensures NthHwcId(m, s, i, smtFirst) == NthHwcId(m, t, j, smtFirst) ==> s == t && i == j
  {
    NthHwcIsInjective(m, s, smtFirst, i, i);
    NthHwcIsInjective(m, t, smtFirst, j, j);
    if s == t { NthHwcIsInjective(m, s, smtFirst, i, j); }
  }

  /** The turn and the socket of the i-th context. */
  lemma TurnParts(m: Machine, order: seq<nat>, nSockets: nat, smtFirst: int, i: nat) returns (p: nat, x: nat)
    requires m.Ok() && 0 < nSockets <= |order| && i < nSockets * m.PerSocket()
    ensures p < nSockets && x < m.PerSocket() && i == x * nSockets + p
    ensures TurnHwc(m, order, nSockets, smtFirst, i) == NthHwcId(m, order[p], x, smtFirst)
  {
    TurnInside(m, nSockets, i);
    p, x := i % nSockets, i / nSockets;
  }

  lemma TurnsDiffer(m: Machine, order: seq<nat>, nSockets: nat, smtFirst: int, i: nat, j: nat)
    requires m.Ok() && 0 < nSockets <= |order| && SocketList(m, order)
    requires i < nSockets * m.PerSocket() && j < nSockets * m.PerSocket()
    ensures Exists(m, TurnHwc(m, order, nSockets, smtFirst, i))
    ensures TurnHwc(m, order, nSockets, smtFirst, i) == TurnHwc(m, order, nSockets, smtFirst, j) ==> i == j
  {
    var p, x := TurnParts(m, order, nSockets, smtFirst, i);
    var q, y := TurnParts(m, order, nSockets, smtFirst, j);
    TurnPlaces(m, order, p, x, q, y, smtFirst);
  }

  lemma TurnInside(m: Machine, nSockets: nat, i: nat)
    requires m.Ok() && nSockets > 0 && i < nSockets * m.PerSocket()
    ensures i / nSockets < m.PerSocket() && i % nSockets < nSockets
  {
    Commute(nSockets, m.PerSocket());
    DivBelow(i, nSockets, m.PerSocket());
  }

  lemma TurnPlaces(m: Machine, order: seq<nat>, p: nat, x: nat, q: nat, y: nat, smtFirst: int)
    requires m.Ok() && SocketList(m, order) && p < |order| && q < |order| && x < m.PerSocket() && y < m.PerSocket()
    ensures Exists(m, NthHwcId(m, order[p], x, smtFirst))
    ensures NthHwcId(m, order[p], x, smtFirst) == NthHwcId(m, order[q], y, smtFirst) ==> p == q && x == y
  {
    NthDiffers(m, order[p], x, order[q], y, smtFirst);
  }

  function TurnSockets(m: Machine, n: nat, nConfig: int): nat {
    var clamped := if nConfig == -1 || nConfig > m.nSockets || nConfig <= 0 then m.nSockets else nConfig;
    Min(clamped, n)
  }

  /** One turn of every socket. */
  method TakeTurn(m: Machine, order: seq<nat>, nSockets: nat, smtFirst: int, round: nat, all0: seq<Hwc>)
    returns (all: seq<Hwc>)
    requires m.Ok() && 0 < nSockets <= |order| && |all0| == round * nSockets
    requires forall k :: 0 <= k < |all0| ==> all0[k] == TurnHwc(m, order, nSockets, smtFirst, k)
    ensures |all| == (round + 1) * nSockets
    ensures forall k :: 0 <= k < |all| ==> all[k] == TurnHwc(m, order, nSockets, smtFirst, k)
  {
    all := all0;
    var socketN: nat := 0;
    while socketN < nSockets
      invariant socketN <= nSockets && |all| == round * nSockets + socketN
      invariant forall k :: 0 <= k < |all| ==> all[k] == TurnHwc(m, order, nSockets, smtFirst, k)
    {
      DivModIs(|all|, nSockets, round, socketN);
      all := all + [NthHwcId(m, order[socketN], round, smtFirst)];
      socketN := socketN + 1;
    }
    assert (round + 1) * nSockets == round * nSockets + nSockets;
  }

  /** The bandwidth round-robin policies. `order` lists the sockets by bandwidth. When the
      contexts asked for fit on the sockets used, they are all different and on those sockets. */
  method PrepRoundRobin(m: Machine, order: seq<nat>, n: nat, nConfig: int, smtFirst: int)
    returns (hwcs: seq<Hwc>, sockets: seq<nat>)
    requires m.Ok() && SocketList(m, order) && |order| == m.nSockets && n > 0
    ensures |hwcs| == n && (AllExist(m, hwcs) <==> Fit(m, n, nConfig))
    ensures Fit(m, n, nConfig) ==> Distinct(hwcs) && On(hwcs, sockets)
    ensures sockets <= order && |sockets| == TurnSockets(m, n, nConfig)
    ensures |sockets| == Min(if 0 < nConfig <= m.nSockets then nConfig else m.nSockets, n) > 0
    ensures forall k :: 0 <= k < n ==> hwcs[k] == TurnHwc(m, order, |sockets|, smtFirst, k)
    ensures forall k :: 0 <= k < n ==> hwcs[k].socket == sockets[k % |sockets|]
    ensures forall k :: 0 <= k < n && m.nSmt == 1 ==> hwcs[k].core == k / |sockets| && hwcs[k].smt == 0
    ensures forall k :: 0 <= k < n && m.nSmt > 1 && smtFirst > 0 ==>
              hwcs[k].core == k / |sockets| / m.nSmt && hwcs[k].smt == k / |sockets| % m.nSmt
    ensures forall k :: 0 <= k < n && m.nSmt > 1 && smtFirst <= 0 ==>
              hwcs[k].core == k / |sockets| % m.nCores && hwcs[k].smt == k / |sockets| / m.nCores
  {
    var nSockets := TurnSockets(m, n, nConfig);
    var all: seq<Hwc>, round: nat, hwcI: nat := [], 0, 0;
    while hwcI < n
      invariant hwcI == |all| == round * nSockets
      invariant forall k :: 0 <= k < |all| ==> all[k] == TurnHwc(m, order, nSockets, smtFirst, k)
      decreases n - hwcI
    {
      all := TakeTurn(m, order, nSockets, smtFirst, round, all);
      assert (round + 1) * nSockets == round * nSockets + nSockets;
      hwcI := hwcI + nSockets;
      round := round + 1;
    }
    hwcs, sockets := all[..n], order[..nSockets];
    TurnsFitExactly(m, order, n, nConfig, nSockets, smtFirst, hwcs);
  }

  /** The contexts asked for fit on the sockets used. */
  predicate Fit(m: Machine, n: nat, nConfig: int) {
    n <= TurnSockets(m, n, nConfig) * m.PerSocket()
  }

  /** The first context that no longer fits does not exist. */
  lemma FirstBeyond(m: Machine, socket: nat, smtFirst: int)
    requires m.Ok()
    ensures !Exists(m, NthHwcId(m, socket, m.PerSocket(), smtFirst))
  {
    if m.nSmt > 1 {
      DivIs(m.PerSocket(), m.nSmt, m.nCores);
      Commute(m.nCores, m.nSmt);
      DivIs(m.PerSocket(), m.nCores, m.nSmt);
    }
  }

  lemma TurnsFitExactly(m: Machine, order: seq<nat>, n: nat, nConfig: int, nSockets: nat, smtFirst: int, hwcs: seq<Hwc>)
    requires m.Ok() && SocketList(m, order) && |order| == m.nSockets && n > 0
    requires nSockets == TurnSockets(m, n, nConfig) && |hwcs| == n
    requires forall k :: 0 <= k < n ==> hwcs[k] == TurnHwc(m, order, nSockets, smtFirst, k)
    ensures AllExist(m, hwcs) <==> Fit(m, n, nConfig)
    ensures Fit(m, n, nConfig) ==> Distinct(hwcs) && On(hwcs, order[..nSockets])
  {
    if Fit(m, n, nConfig) {
      forall i | 0 <= i < n ensures Exists(m, hwcs[i]) && hwcs[i].socket in order[..nSockets] {
        TurnsDiffer(m, order, nSockets, smtFirst, i, i);
        TurnOnSocket(m, order, nSockets, smtFirst, i);
      }
      forall i, j | 0 <= i < j < n ensures hwcs[i] != hwcs[j] { TurnsDiffer(m, order, nSockets, smtFirst, i, j); }
    } else {
      var k := nSockets * m.PerSocket();
      Commute(nSockets, m.PerSocket());
      DivModIs(k, nSockets, m.PerSocket(), 0);
      FirstBeyond(m, order[0], smtFirst);
      assert !Exists(m, hwcs[k]);
    }
  }

  lemma TurnOnSocket(m: Machine, order: seq<nat>, nSockets: nat, smtFirst: int, i: nat)
    requires m.Ok() && 0 < nSockets <= |order|
    ensures TurnHwc(m, order, nSockets, smtFirst, i).socket in order[..nSockets]
  {
    var p := i % nSockets;
    assert order[..nSockets][p] == order[p];
  }

  // ------------------------------------------------------------- ranks in a socket

  /** How many of the first k contexts are on the socket. */
  function OnSocket(hwcs: seq<Hwc>, socket: nat, k: nat): (n: nat)
    requires k <= |hwcs|
    ensures n <= k
  {
    if k == 0 then 0 else OnSocket(hwcs, socket, k - 1) + (if hwcs[k - 1].socket == socket then 1 else 0)
  }

  /** A slot's rank among the slots of its socket. */
  method GetNthHwcInSocket(hwcs: seq<Hwc>, id: nat) returns (rank: nat)
    requires id < |hwcs|
    ensures rank == OnSocket(hwcs, hwcs[id].socket, id)
  {
    rank := 0;
    var i: nat := 0;
    while i < id
      invariant i <= id && rank == OnSocket(hwcs, hwcs[id].socket, i)
    {
      if hwcs[i].socket == hwcs[id].socket { rank := rank + 1; }
      i := i + 1;
    }
  }

  lemma {:induction false} OnSocketGrows(hwcs: seq<Hwc>, socket: nat, i: nat, j: nat)
    requires i <= j <= |hwcs|
    ensures OnSocket(hwcs, socket, i) <= OnSocket(hwcs, socket, j)
  {
    if i < j { OnSocketGrows(hwcs, socket, i, j - 1); }
  }

  lemma {:induction false} SlotOfRank(hwcs: seq<Hwc>, socket: nat, k: nat, rank: nat) returns (id: nat)
    requires k <= |hwcs| && rank < OnSocket(hwcs, socket, k)
    ensures id < k && hwcs[id].socket == socket && OnSocket(hwcs, socket, id) == rank
  {
    if rank < OnSocket(hwcs, socket, k - 1) { id := SlotOfRank(hwcs, socket, k - 1, rank); } else { id := k - 1; }
  }

  /** The slots of a socket have the ranks from 0 to their number, each once. */
  lemma RanksAreABijection(hwcs: seq<Hwc>, socket: nat)
    ensures forall i :: 0 <= i < |hwcs| && hwcs[i].socket == socket ==>
              OnSocket(hwcs, socket, i) < OnSocket(hwcs, socket, |hwcs|)
    ensures forall i, j :: 0 <= i < j < |hwcs| && hwcs[i].socket == socket && hwcs[j].socket == socket ==>
              OnSocket(hwcs, socket, i) < OnSocket(hwcs, socket, j)
    ensures forall rank: nat :: rank < OnSocket(hwcs, socket, |hwcs|) ==> HasRank(hwcs, socket, rank)
  {
    forall i | 0 <= i < |hwcs| && hwcs[i].socket == socket
      ensures OnSocket(hwcs, socket, i) < OnSocket(hwcs, socket, |hwcs|)
    {
      OnSocketGrows(hwcs, socket, i + 1, |hwcs|);
    }
    forall i, j | 0 <= i < j < |hwcs| && hwcs[i].socket == socket && hwcs[j].socket == socket
      ensures OnSocket(hwcs, socket, i) < OnSocket(hwcs, socket, j)
    {
      OnSocketGrows(hwcs, socket, i + 1, j);
    }
    forall rank: nat | rank < OnSocket(hwcs, socket, |hwcs|) ensures HasRank(hwcs, socket, rank) {
      var id := SlotOfRank(hwcs, socket, |hwcs|, rank);
    }
  }

  ghost predicate HasRank(hwcs: seq<Hwc>, socket: nat, rank: nat) {
    exists id :: 0 <= id < |hwcs| && hwcs[id].socket == socket && OnSocket(hwcs, socket, id) == rank
  }

  // ------------------------------------------------------- how many on a socket

  lemma BlockOf(j: nat, quota: nat, k: nat)
    requires quota > 0
    ensures j / quota == k <==> k * quota <= j < (k + 1) * quota
  {
    assert j == (j / quota) * quota + j % quota;
    OneMore(k, quota);
    if k * quota <= j < (k + 1) * quota { DivIs(j, quota, k); }
  }

  lemma {:induction false} OnStretch(hwcs: seq<Hwc>, socket: nat, lo: nat, hi: nat, n: nat)
    requires lo <= hi && n <= |hwcs| && forall j :: 0 <= j < |hwcs| ==> (hwcs[j].socket == socket <==> lo <= j < hi)
    ensures OnSocket(hwcs, socket, n) == if n <= lo then 0 else if n < hi then n - lo else hi - lo
  {
    if n > 0 { OnStretch(hwcs, socket, lo, hi, n - 1); }
  }

  /** Position j is of socket k exactly when it is in that socket's stretch. */
  lemma StretchOf(sockets: seq<nat>, quota: nat, k: nat, j: nat, lo: nat)
    requires quota > 0 && k < |sockets| && j / quota < |sockets| && lo == k * quota
    requires forall i, l :: 0 <= i < l < |sockets| ==> sockets[i] != sockets[l]
    ensures sockets[j / quota] == sockets[k] <==> lo <= j < lo + quota
  {
    BlockOf(j, quota, k);
    OneMore(k, quota);
    var b := j / quota;
    assert sockets[b] == sockets[k] <==> b == k;
  }

  /** When the sockets give their contexts one after the other, `quota` each, every listed socket but the
      last gives exactly that many, and the last what is missing. */
  lemma QuotaOnSocket(hwcs: seq<Hwc>, sockets: seq<nat>, quota: nat, k: nat, lo: nat)
    requires quota > 0 && k < |sockets| && forall i, l :: 0 <= i < l < |sockets| ==> sockets[i] != sockets[l]
    requires forall j :: 0 <= j < |hwcs| ==> j / quota < |sockets| && hwcs[j].socket == sockets[j / quota]
    requires lo == k * quota < |hwcs|
    ensures OnSocket(hwcs, sockets[k], |hwcs|) == Min(|hwcs| - lo, quota)
  {
    forall j | 0 <= j < |hwcs| ensures hwcs[j].socket == sockets[k] <==> lo <= j < lo + quota {
      StretchOf(sockets, quota, k, j, lo);
    }
    OnStretch(hwcs, sockets[k], lo, lo + quota, |hwcs|);
  }

  /** Two sockets of two cores with three contexts each, ten contexts asked for, cores first and balanced:
      the whole rounds give socket 0 six of them and socket 1 four. */
  lemma UnevenRounds(s: seq<Hwc>)
    requires |s| == 10 && Phases(s, [0, 1], 4, 2, 2)
    ensures forall j :: 0 <= j < 10 ==> s[j].socket == [0, 0, 1, 1, 0, 0, 1, 1, 0, 0][j]
  {
    forall j | 0 <= j < 10 ensures s[j].socket == [0, 0, 1, 1, 0, 0, 1, 1, 0, 0][j] {
      if j < 4 { assert FirstPhaseAt(s, [0, 1], 2, j); } else { assert RoundAt(s, [0, 1], 4, 2, j); }
    }
  }
}
