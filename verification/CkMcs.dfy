/**
 The MCS tree barrier of `ck_barrier_mcs.c`, for every number of threads and any number of
 episodes: arrivals gather up a 4-ary tree, wake-ups spread down a binary tree, both rooted at
 thread 0. Every load and store is one atomic step; the thread field `episode` is history.
 */
module CkMcs {

  /** Where a link of the barrier points: nowhere in particular, a child slot, or a sense word. */
  datatype Link = Dummy | ChildSlot(thread: nat, slot: nat) | ParentSense(thread: nat)

  datatype Node = Node(havechild: seq<bool>, parent: Link, children: seq<Link>)

  function LinksOf(i: nat, nthr: nat): (n: Node)
    requires nthr > 0
    ensures |n.havechild| == 4 && |n.children| == 2
  {
    Node([4 * i + 0 < nthr - 1, 4 * i + 1 < nthr - 1, 4 * i + 2 < nthr - 1, 4 * i + 3 < nthr - 1],
         if i == 0 then Dummy else ChildSlot((i - 1) / 4, (i - 1) % 4),
         [if 2 * i + 1 >= nthr then Dummy else ParentSense(2 * i + 1),
          if 2 * i + 2 >= nthr then Dummy else ParentSense(2 * i + 2)])
  }

  /** `ck_barrier_mcs_init`. */
  method InitLinks(nthr: nat) returns (nodes: seq<Node>)
    requires nthr > 0
    ensures |nodes| == nthr && forall i :: 0 <= i < nthr ==> nodes[i] == LinksOf(i, nthr)
  {
    nodes := [];
    for i := 0 to nthr
      invariant |nodes| == i && forall k :: 0 <= k < i ==> nodes[k] == LinksOf(k, nthr)
    {
      var havechild: seq<bool> := [];
      for j := 0 to 4
        invariant |havechild| == j && forall k :: 0 <= k < j ==> havechild[k] == (4 * i + k < nthr - 1)
      {
        havechild := havechild + [4 * i + j < nthr - 1];
      }
      var parent := if i == 0 then Dummy else ChildSlot((i - 1) / 4, (i - 1) % 4);
      var first := if 2 * i + 1 >= nthr then Dummy else ParentSense(2 * i + 1);
      var second := if 2 * i + 2 >= nthr then Dummy else ParentSense(2 * i + 2);
      assert havechild == LinksOf(i, nthr).havechild;
      nodes := nodes + [Node(havechild, parent, [first, second])];
    }
  }

  ghost predicate Reaches(parent: nat -> nat, i: nat, steps: nat)
    decreases steps
  {
    i == 0 || (steps > 0 && Reaches(parent, parent(i), steps - 1))
  }

  function ArrivalParent(i: nat): nat { if i == 0 then 0 else (i - 1) / 4 }

  function WakeParent(i: nat): nat { if i == 0 then 0 else (i - 1) / 2 }

  function WakeSlot(i: nat): (j: nat)
    ensures j < 2
  {
    (i + 1) % 2
  }

  lemma {:induction false} ParentsReachTheRoot(parent: nat -> nat, i: nat, steps: nat)
    requires forall k :: k > 0 ==> parent(k) < k
    requires i <= steps
    ensures Reaches(parent, i, steps)
    decreases steps
  {
    if i > 0 {
      ParentsReachTheRoot(parent, parent(i), steps - 1);
    }
  }

  /** The slot a thread reports to and the one word it can name. */
  lemma SlotOf(c: nat, i: nat, j: nat)
    requires c > 0 && j < 4
    ensures (c - 1) / 4 == i && (c - 1) % 4 == j <==> c == 4 * i + j + 1
  {
  }

  ghost predicate ArrivalTree(nthr: nat)
    requires nthr > 0
  {
    && (forall i, j :: 0 <= i < nthr && 0 <= j < 4 ==>
          (LinksOf(i, nthr).havechild[j] <==> exists c :: 0 < c < nthr && LinksOf(c, nthr).parent == ChildSlot(i, j)))
    && (forall c, d :: 0 < c < nthr && 0 < d < nthr && LinksOf(c, nthr).parent == LinksOf(d, nthr).parent ==> c == d)
    && (forall i: nat :: i < nthr ==> Reaches(ArrivalParent, i, nthr))
  }

  ghost predicate WakeTree(nthr: nat)
    requires nthr > 0
  {
    && (forall i, j, c :: 0 <= i < nthr && 0 <= j < 2 && 0 < c < nthr ==>
          (LinksOf(i, nthr).children[j] == ParentSense(c) <==> i == WakeParent(c) && j == WakeSlot(c)))
    && (forall i, j :: 0 <= i < nthr && 0 <= j < 2 && LinksOf(i, nthr).children[j].ParentSense? ==>
          0 < LinksOf(i, nthr).children[j].thread < nthr)
    && (forall i: nat :: i < nthr ==> Reaches(WakeParent, i, nthr))
  }

  /**
   The arrival links are a spanning tree rooted at thread 0: a child slot is in use exactly when
   some thread reports to it, no two threads report to the same slot, and following parents from
   any thread ends at the root.
   */
  lemma ArrivalLinksAreATree(nthr: nat)
    requires nthr > 0
    ensures ArrivalTree(nthr)
  {
    forall i, j | 0 <= i < nthr && 0 <= j < 4
      ensures LinksOf(i, nthr).havechild[j] <==> exists c :: 0 < c < nthr && LinksOf(c, nthr).parent == ChildSlot(i, j)
    {
      SlotOf(4 * i + j + 1, i, j);
      assert LinksOf(4 * i + j + 1, nthr).parent == ChildSlot(i, j);
      forall c | 0 < c < nthr && LinksOf(c, nthr).parent == ChildSlot(i, j) ensures c == 4 * i + j + 1 {
        SlotOf(c, i, j);
      }
    }
    forall c, d | 0 < c < nthr && 0 < d < nthr && LinksOf(c, nthr).parent == LinksOf(d, nthr).parent ensures c == d {
      SlotOf(c, (c - 1) / 4, (c - 1) % 4);
      SlotOf(d, (c - 1) / 4, (c - 1) % 4);
    }
    forall i: nat | i < nthr ensures Reaches(ArrivalParent, i, nthr) { ParentsReachTheRoot(ArrivalParent, i, nthr); }
  }

  /** The wake-up links are one too: each sense word but the root's is the target of exactly one link. */
  lemma WakeLinksAreATree(nthr: nat)
    requires nthr > 0
    ensures WakeTree(nthr)
  {
    forall i, j, c | 0 <= i < nthr && 0 <= j < 2 && 0 < c < nthr
      ensures LinksOf(i, nthr).children[j] == ParentSense(c) <==> i == WakeParent(c) && j == WakeSlot(c)
    {
      WakeLink(nthr, i, j, c);
    }
    forall i: nat | i < nthr ensures Reaches(WakeParent, i, nthr) { ParentsReachTheRoot(WakeParent, i, nthr); }
    forall i, j | 0 <= i < nthr && 0 <= j < 2 && LinksOf(i, nthr).children[j].ParentSense?
      ensures 0 < LinksOf(i, nthr).children[j].thread < nthr
    {
    }
  }

  lemma WakeLink(nthr: nat, i: nat, j: nat, c: nat)
    requires i < nthr && j < 2 && 0 < c < nthr
    ensures LinksOf(i, nthr).children[j] == ParentSense(c) <==> i == WakeParent(c) && j == WakeSlot(c)
  {
  }

  // ---------------------------------------------------------------- the barrier

  /** The next access; `Check`, `Reinit` and `Wake` carry the slot they are at. */
  datatype Pc = Idle | Check(j: nat) | Reinit(j: nat) | Notify | Await | Wake(j: nat)

  datatype Local = Local(pc: Pc, sense: bool, episode: nat)

  /** `notready[i][j]` is the word a child clears; `parentsense[i]` the word a parent sets. */
  datatype State = State(notready: seq<seq<bool>>, parentsense: seq<bool>, threads: seq<Local>)

  ghost predicate Sized(s: State) {
    && 0 < |s.threads| == |s.notready| == |s.parentsense|
    && forall i :: 0 <= i < |s.notready| ==> |s.notready[i]| == 4
  }

  ghost predicate Init(s: State) {
    && Sized(s)
    && forall i :: 0 <= i < |s.threads| ==>
         && s.notready[i] == LinksOf(i, |s.threads|).havechild
         && !s.parentsense[i]
         && s.threads[i] == Local(Idle, true, 0)
  }

  function Store(s: State, link: Link, v: bool): State
    requires Sized(s)
  {
    match link
    case Dummy => s
    case ChildSlot(t, j) => if t < |s.notready| && j < 4 then s.(notready := s.notready[t := s.notready[t][j := v]])
      else s
    case ParentSense(t) => if t < |s.parentsense| then s.(parentsense := s.parentsense[t := v]) else s
  }

  function Go(s: State, i: nat, pc: Pc): State
    requires i < |s.threads|
  {
    s.(threads := s.threads[i := s.threads[i].(pc := pc)])
  }

  function Leave(l: Local): Local { Local(Idle, !l.sense, l.episode + 1) }

  function Step(s: State, i: nat): State
    requires Sized(s) && i < |s.threads|
  {
    var l, node := s.threads[i], LinksOf(i, |s.threads|);
    match l.pc
    case Idle => Go(s, i, Check(0))
    case Check(j) =>
      if j < 4 && s.notready[i][j] then Go(s, i, Check(0))
      else if j < 3 then Go(s, i, Check(j + 1))
      else Go(s, i, Reinit(0))
    case Reinit(j) =>
      if j < 4 then Go(Store(s, ChildSlot(i, j), node.havechild[j]), i, if j < 3 then Reinit(j + 1) else Notify)
      else Go(s, i, Notify)
    case Notify => Go(Store(s, node.parent, false), i, if i == 0 then Wake(0) else Await)
    case Await => if s.parentsense[i] == l.sense then Go(s, i, Wake(0)) else s
    case Wake(j) =>
      if j == 0 then Go(Store(s, node.children[0], l.sense), i, Wake(1))
      else Store(s, node.children[1], l.sense).(threads := s.threads[i := Leave(l)])
  }

  ghost predicate Next(s: State, s': State) {
    Sized(s) && exists i :: 0 <= i < |s.threads| && s' == Step(s, i)
  }

  ghost predicate IsRun(run: seq<State>) {
    && |run| > 0 && Init(run[0])
    && forall i :: 0 <= i < |run| - 1 ==> Next(run[i], run[i + 1])
  }

  // ---------------------------------------------------------------- the invariant

  predicate SenseOf(episode: nat) { episode % 2 == 0 }

  /** How often the thread has told its parent that its subtree has arrived. */
  function Notified(l: Local): nat { l.episode + if l.pc.Await? || l.pc.Wake? then 1 else 0 }

  /** How often it has re-armed child slot `j`. */
  function Rearmed(l: Local, j: nat): nat {
    l.episode + if (l.pc.Reinit? && l.pc.j > j) || l.pc.Notify? || l.pc.Await? || l.pc.Wake? then 1 else 0
  }

  /** How often it has been released. */
  function Released(l: Local): nat { l.episode + if l.pc.Wake? then 1 else 0 }

  /** How often it has woken its `j`-th wake-up child. */
  function Woken(l: Local, j: nat): nat { l.episode + if l.pc.Wake? && l.pc.j > j then 1 else 0 }

  predicate Entered(l: Local, episode: nat) {
    l.episode > episode || (l.episode == episode && l.pc != Idle)
  }

  ghost predicate PcInv(i: nat, l: Local) {
    && l.sense == SenseOf(l.episode)
    && (l.pc.Check? || l.pc.Reinit? ==> l.pc.j < 4)
    && (l.pc.Wake? ==> l.pc.j < 2)
    && (l.pc.Await? ==> i != 0)
  }

  /** The slot of child `c` is clear exactly when `c` has notified since the parent re-armed it. */
  ghost predicate SlotInv(s: State, i: nat, j: nat)
    requires Sized(s) && i < |s.threads| && j < 4
  {
    var c, l := 4 * i + j + 1, s.threads[i];
    if c >= |s.threads| then !s.notready[i][j] else
    var done := Notified(s.threads[c]);
    && Rearmed(l, j) <= done <= Rearmed(l, j) + 1
    && (s.notready[i][j] <==> done == Rearmed(l, j))
    && ((l.pc.Check? && j < l.pc.j) || (l.pc.Reinit? && l.pc.j <= j) ==> done == l.episode + 1)
  }

  ghost predicate WakeInv(s: State, i: nat, j: nat)
    requires Sized(s) && i < |s.threads| && j < 2
  {
    var c, w := 2 * i + j + 1, Woken(s.threads[i], j);
    c < |s.threads| ==>
      && Released(s.threads[c]) <= w <= Released(s.threads[c]) + 1
      && s.parentsense[c] == (w > 0 && SenseOf(w - 1))
  }

  ghost predicate Inv(s: State) {
    && Sized(s)
    && (forall i :: 0 <= i < |s.threads| ==> PcInv(i, s.threads[i]))
    && (forall i, j :: 0 <= i < |s.threads| && 0 <= j < 4 ==> SlotInv(s, i, j))
    && (forall i, j :: 0 <= i < |s.threads| && 0 <= j < 2 ==> WakeInv(s, i, j))
  }

  /** A notification speaks for the whole subtree, so the root's speaks for everybody. */
  lemma {:induction false} RootSpeaksForAll(s: State, u: nat)
    requires Inv(s) && u < |s.threads|
    ensures Notified(s.threads[u]) >= Notified(s.threads[0])
  {
    if u > 0 {
      var p := (u - 1) / 4;
      RootSpeaksForAll(s, p);
      assert SlotInv(s, p, (u - 1) % 4);
    }
  }

  lemma {:induction false} ReleaseComesFromTheRoot(s: State, t: nat)
    requires Inv(s) && t < |s.threads|
    ensures Released(s.threads[t]) <= Notified(s.threads[0])
  {
    if t == 0 {
      assert PcInv(0, s.threads[0]);
    } else {
      var p := (t - 1) / 2;
      ReleaseComesFromTheRoot(s, p);
      assert WakeInv(s, p, (t - 1) % 2);
    }
  }

  lemma ReleasedMeansAllArrived(s: State, t: nat, u: nat)
    requires Inv(s) && t < |s.threads| && u < |s.threads|
    ensures Released(s.threads[t]) <= Notified(s.threads[u])
  {
    ReleaseComesFromTheRoot(s, t);
    RootSpeaksForAll(s, u);
  }

  lemma StoreSlot(s: State, link: Link, v: bool, i: nat, j: nat)
    requires Sized(s) && i < |s.threads| && j < 4
    ensures Sized(Store(s, link, v)) && Store(s, link, v).threads == s.threads
    ensures Store(s, link, v).notready[i][j] == if link == ChildSlot(i, j) then v else s.notready[i][j]
  {
  }

  /** What a step writes to the child slots. */
  lemma SlotAfter(s: State, t: nat, i: nat, j: nat)
    requires Sized(s) && t < |s.threads| && i < |s.threads| && j < 4 && PcInv(t, s.threads[t])
    ensures Sized(Step(s, t))
    ensures Step(s, t).notready[i][j] ==
            if s.threads[t].pc == Reinit(j) && t == i then 4 * i + j + 1 < |s.threads|
            else if s.threads[t].pc == Notify && t == 4 * i + j + 1 then false
            else s.notready[i][j]
  {
    hide Store;
    var l, node := s.threads[t], LinksOf(t, |s.threads|);
    if t > 0 { SlotOf(t, i, j); }
    match l.pc
    case Notify => StoreSlot(s, node.parent, false, i, j);
    case Reinit(k) => StoreSlot(s, ChildSlot(t, k), node.havechild[k], i, j);
    case Wake(k) => StoreSlot(s, node.children[k], l.sense, i, j);
    case _ =>
  }

  /** What a step writes to the sense words. */
  lemma SenseAfter(s: State, t: nat, i: nat, j: nat)
    requires Sized(s) && t < |s.threads| && j < 2 && 2 * i + j + 1 < |s.threads| && PcInv(t, s.threads[t])
    ensures Step(s, t).parentsense[2 * i + j + 1] ==
            if s.threads[t].pc == Wake(j) && t == i then s.threads[t].sense else s.parentsense[2 * i + j + 1]
  {
  }

  function NextLocal(s: State, t: nat): Local
    requires Sized(s) && t < |s.threads|
  {
    Step(s, t).threads[t]
  }

  lemma ThreadsAfter(s: State, t: nat)
    requires Sized(s) && t < |s.threads|
    ensures Step(s, t).threads == s.threads[t := NextLocal(s, t)]
  {
  }

  ghost predicate Progress(l: Local, l': Local, j: nat) {
    && (Notified(l') == Notified(l) + (if l.pc.Notify? then 1 else 0))
    && (j < 4 ==> Rearmed(l', j) == Rearmed(l, j) + (if l.pc == Reinit(j) then 1 else 0))
    && (j < 2 ==> Woken(l', j) == Woken(l, j) + (if l.pc == Wake(j) then 1 else 0))
    && Released(l') == Released(l) + (if !l.pc.Wake? && l'.pc.Wake? then 1 else 0)
  }

  /** The counts move exactly at the accesses they count. */
  lemma CountsMove(s: State, t: nat, j: nat)
    requires Sized(s) && t < |s.threads| && PcInv(t, s.threads[t])
    ensures Progress(s.threads[t], NextLocal(s, t), j) && PcInv(t, NextLocal(s, t))
  {
  }

  lemma PassesOnlyClearSlots(s: State, t: nat, j: nat)
    requires Sized(s) && t < |s.threads| && j < 4 && SlotInv(s, t, j) && PcInv(t, s.threads[t])
    ensures var l, l' := s.threads[t], NextLocal(s, t);
            ((l'.pc.Check? && j < l'.pc.j) || (l'.pc.Reinit? && l'.pc.j <= j)) && 4 * t + j + 1 < |s.threads|
            ==> Notified(s.threads[4 * t + j + 1]) == l'.episode + 1 && l'.episode == l.episode
  {
  }

  lemma SlotKept(s: State, t: nat, i: nat, j: nat)
    requires Inv(s) && t < |s.threads| && i < |s.threads| && j < 4
    ensures Sized(Step(s, t)) && |Step(s, t).threads| == |s.threads| && SlotInv(Step(s, t), i, j)
  {
    assert SlotInv(s, i, j) && PcInv(t, s.threads[t]);
    SlotAfter(s, t, i, j);
    ThreadsAfter(s, t);
    CountsMove(s, t, j);
    var c := 4 * i + j + 1;
    if t == c && c < |s.threads| {
      ReleasedMeansAllArrived(s, c, i);
    } else if t == i {
      PassesOnlyClearSlots(s, t, j);
    }
    hide Step, NextLocal;
  }

  lemma WakeKept(s: State, t: nat, i: nat, j: nat)
    requires Inv(s) && t < |s.threads| && i < |s.threads| && j < 2
    ensures Sized(Step(s, t)) && |Step(s, t).threads| == |s.threads| && WakeInv(Step(s, t), i, j)
  {
    assert WakeInv(s, i, j) && PcInv(t, s.threads[t]);
    ThreadsAfter(s, t);
    CountsMove(s, t, j);
    var c := 2 * i + j + 1;
    SlotAfter(s, t, 0, 0);
    if c < |s.threads| {
      SenseAfter(s, t, i, j);
      ReleasedMeansAllArrived(s, i, c);
    }
  }

  lemma NextKeepsInv(s: State, s': State)
    requires Inv(s) && Next(s, s')
    ensures Inv(s')
  {
    hide SlotInv, WakeInv, PcInv, Step;
    var t :| 0 <= t < |s.threads| && s' == Step(s, t);
    SlotKept(s, t, 0, 0);
    forall i, j | 0 <= i < |s.threads| && 0 <= j < 4 ensures SlotInv(s', i, j) { SlotKept(s, t, i, j); }
    forall i, j | 0 <= i < |s.threads| && 0 <= j < 2 ensures WakeInv(s', i, j) { WakeKept(s, t, i, j); }
    ThreadsAfter(s, t);
    CountsMove(s, t, 0);
  }

  lemma InitKeepsInv(s: State)
    requires Init(s)
    ensures Inv(s)
  {
    forall i, j | 0 <= i < |s.threads| && 0 <= j < 4 ensures SlotInv(s, i, j) {
      assert s.threads[i] == Local(Idle, true, 0);
    }
  }

  lemma {:induction false} RunsKeepInv(run: seq<State>, i: nat)
    requires IsRun(run) && i < |run|
    ensures Inv(run[i])
  {
    hide Inv, Init;
    if i == 0 {
      InitKeepsInv(run[0]);
    } else {
      RunsKeepInv(run, i - 1);
      assert Next(run[i - 1], run[i - 1 + 1]);
      NextKeepsInv(run[i - 1], run[i]);
    }
  }

  /** No thread has left an episode that some thread has not entered. */
  lemma NobodyLeavesEarly(run: seq<State>, i: nat, t: nat, u: nat, episode: nat)
    requires IsRun(run) && i < |run| && t < |run[i].threads| && u < |run[i].threads|
    requires run[i].threads[t].episode > episode
    ensures Entered(run[i].threads[u], episode)
  {
    RunsKeepInv(run, i);
    ReleasedMeansAllArrived(run[i], t, u);
  }
}
