/** One replica's side of the protocol as the object the handlers update, tied to the steps of
    module Cluster. */
module RotationNode {
  import opened Prelude
  import opened Cluster

  /** Node m after hearing peer b's answer. */
  function AfterOutcome(n: Node, m: nat, b: nat, a: Answer, count: nat): Node
    requires n.part.Some?
  {
    var n1 := Recorded(n, b, a);
    match Resolve(n1, m, a, count)
    case Commits => Finish(n1, true)
    case RollsBack => Finish(n1, false)
    case Waits => n1
  }

  /** Node n after the switch of round r reaches it. */
  function AfterSwitch(n: Node, r: nat): Node {
    if n.part == Some(Part(Some(r), Prepared)) then
      Activated(n, r, {}, Part(Some(r), Switched)).(waits := n.waits + {r})
    else if n.part == Some(Part(Some(r), Switched)) then n.(waits := n.waits + {r})
    else n
  }

  /** Node n restarted: the persisted generation decides; everything else is forgotten. */
  function AfterRestart(n: Node): Node {
    n.(coord := None, waits := {}, asked := None, part := if n.prev then Some(Part(None, Switched)) else None)
  }

  class Member {
    const id: nat
    const count: nat                        // all members, this one included
    var gen: int
    var hasPrev: bool
    var part: Option<Part>
    var coord: Option<nat>
    var waits: set<nat>
    var statusReplies: Option<map<nat, Answer>>
    var have: set<Block>
    var prior: set<Block>
    ghost var of: nat

    ghost function View(): (n: Node)
      reads this
    {
      Node(gen, hasPrev, part, coord, waits, statusReplies, have, prior, of)
    }

    constructor (id: nat, count: nat, gen: int)
      ensures this.id == id && this.count == count
      ensures View() == Node(gen, false, None, None, {}, None, {}, {}, 0)
    {
      this.id, this.count, this.gen := id, count, gen;
      hasPrev, part, coord, waits, statusReplies := false, None, None, {}, None;
      have, prior, of := {}, {}, 0;
    }

    /** Engine.Rollback, seen from the protocol. */
    method Rollback()
      modifies this`gen, this`hasPrev, this`have, this`prior
      ensures View() == Return(old(View()))
    {
      if hasPrev {
        gen, have := gen - 1, prior;
        prior := {};
        hasPrev := false;
      }
    }

    /** finish: a round of None applies to whatever rotation is in progress. */
    method FinishRound(round: Option<nat>, commit: bool)
      modifies this
      ensures View() ==
        var n := old(View());
        if n.part.Some? && (round.None? || n.part.value.round == round) then Finish(n, commit) else n
    {
      if part.None? || (round.Some? && part.value.round != round) { return; }
      var st := part.value;
      part := None;
      if commit && st.phase == Switched {
        hasPrev, prior := false, {};
      } else {
        Rollback();
      }
    }

    method OnPrepare(r: nat) returns (ok: bool)
      modifies this`part
      ensures ok <==> AcceptsPrepare(old(View()), r)
      ensures View() == if ok then old(View()).(part := Some(Part(Some(r), Prepared))) else old(View())
    {
      if part == Some(Part(Some(r), Prepared)) { return true; }
      if part.Some? || hasPrev { return false; }
      part := Some(Part(Some(r), Prepared));
      return true;
    }

    method OnSwitch(r: nat) returns (ok: bool)
      modifies this
      ensures ok <==> old(part).Some? && old(part).value.round == Some(r)
      ensures View() == AfterSwitch(old(View()), r)
    {
      if part.None? || part.value.round != Some(r) { return false; }
      if part.value.phase == Prepared {
        prior, have := have, {};
        gen, hasPrev, of := gen + 1, true, r;
        part := Some(Part(Some(r), Switched));
      }
      waits := waits + {r};
      return true;
    }

    /** onStatus: the wire answer cannot tell a prepared node from one in doubt. */
    method OnStatus() returns (inDoubt: bool, gen': int)
      ensures forall asker: Node :: inDoubt == StatusOf(View(), asker).inDoubt && gen' == StatusOf(View(), asker).gen
    {
      return part.Some? || hasPrev, gen;
    }

    method OnOutcome(b: nat, a: Answer)
      requires part.Some? && part.value.phase == Switched && coord.None?
      modifies this
      ensures View() == AfterOutcome(old(View()), id, b, a, count)
    {
      if statusReplies.Some? { statusReplies := Some(statusReplies.value[b := a]); }
      var allInDoubt := count > 1 && statusReplies.Some?;
      var j := 0;
      while allInDoubt && j < count
        invariant 0 <= j <= count
        invariant allInDoubt ==> count > 1 && statusReplies.Some?
        invariant allInDoubt ==> forall k :: 0 <= k < j && k != id ==>
          k in statusReplies.value && statusReplies.value[k].inDoubt && statusReplies.value[k].gen == gen
        invariant !allInDoubt ==> !AllInDoubt(View(), id, count)
      {
        var replies := statusReplies.value;
        if j != id && (j !in replies || !replies[j].inDoubt || replies[j].gen != gen) { allInDoubt := false; }
        j := j + 1;
      }
      assert allInDoubt <==> AllInDoubt(View(), id, count);
      if !a.inDoubt && a.gen >= gen {
        FinishRound(None, true);
      } else if !a.inDoubt || allInDoubt {
        FinishRound(None, false);
      }
    }

    /** Starts asking the other members what became of the round. */
    method AskOthers()
      modifies this`statusReplies
      ensures View() == old(View()).(asked := Some(map[]))
    {
      statusReplies := Some(map[]);
    }

    method Restart()
      modifies this
      ensures View() == AfterRestart(old(View()))
    {
      coord, waits, statusReplies := None, {}, None;
      part := if hasPrev then Some(Part(None, Switched)) else None;
    }
  }

  /** The handlers above are what the state machine's steps do to the node they run on. */
  lemma HandlersAreSteps(s: State, a: Action)
    requires Enabled(s, a)
    ensures a.OnOutcome? ==>
      Next(s, a).nodes[a.m] == AfterOutcome(s.nodes[a.m], a.m, a.b, StatusOf(s.nodes[a.b], s.nodes[a.m]), |s.nodes|)
    ensures a.OnDecision? ==>
      var n := s.nodes[a.m];
      Next(s, a).nodes[a.m] ==
        if n.part.Some? && n.part.value.round == Some(a.r) then Finish(n, s.rounds[a.r].decision == Committed) else n
    ensures a.OnPrepare? ==>
      var n := s.nodes[a.m];
      Next(s, a).nodes[a.m] ==
        if AcceptsPrepare(n, a.r) then n.(part := Some(Part(Some(a.r), Prepared))) else n
    ensures a.OnSwitch? ==> Next(s, a).nodes[a.m] == AfterSwitch(s.nodes[a.m], a.r)
    ensures a.Ask? ==> Next(s, a).nodes[a.m] == s.nodes[a.m].(asked := Some(map[]))
    ensures a.Abandon? ==> Next(s, a).nodes[a.m] == Finish(s.nodes[a.m], false)
    ensures a.Crash? ==> Next(s, a).nodes[a.m] == AfterRestart(s.nodes[a.m])
  {}

  /** The body of Compact's phase-1 loop after collect: merge the heads, see who is missing or
      behind, and count stable rounds. */
  method Evaluate(x: Round, n: Node, count: nat, heads: set<Block>, busy: bool) returns (x': Round)
    requires forall m: nat :: m in x.replies ==> m < count && m != x.coord
    ensures x' == Evaluated(x, n, count, heads, busy)
  {
    var union := x.union + heads;
    var grew := !(heads <= x.union);
    var missing, behind := false, false;
    var m := 0;
    while m < count
      invariant 0 <= m <= count
      invariant union == x.union + heads + set k, h | k in x.replies && k < m && h in x.replies[k].heads :: h
      invariant !missing && !behind && !grew ==>
        heads <= x.union && forall k :: 0 <= k < m && k != x.coord ==> Good(x, k)
      invariant missing || behind || grew ==>
        !(heads <= x.union) || exists k :: 0 <= k < m && k != x.coord && !Good(x, k)
      invariant !grew ==> union == x.union
    {
      ghost var wasFine := !missing && !behind && !grew;
      if m != x.coord {
        if m !in x.replies {
          missing := true;
        } else {
          grew := grew || !(x.replies[m].heads <= union);
          union := union + x.replies[m].heads;
          behind := behind || x.replies[m].missing || x.replies[m].busy;
        }
        assert wasFine && (missing || behind || grew) ==> !Good(x, m);
      }
      m := m + 1;
    }
    assert (set k, h | k in x.replies && k < count && h in x.replies[k].heads :: h)
        == set k, h | k in x.replies && h in x.replies[k].heads :: h;
    var selfBehind := Missing(n.have, union) || busy;
    x' := x.(collecting := false, union := union,
             stable := if !missing && !behind && !grew && !selfBehind then x.stable + 1 else 0);
  }
}
