/**
 What one call of chain.submit_block does, step by step: the block itself, then the orphans that were
 waiting for it, depth first and the oldest first among siblings.
 */
module Adoption {
  import opened Types
  import opened ChainState
  import opened Receiving

  /** Where adopting stands: the parents whose orphans are still to be looked for, the last one first, and the orphans
      of the one before that are still to be submitted. */
  datatype Walk = Walk(t: Tables, chain: seq<Block>, orphans: seq<Block>, waiting: seq<Digest>, children: seq<Block>)

  /** One orphan submitted. */
  datatype Turn = Turn(child: Block, result: SubmitResult, after: Walk)

  /** With no orphan left to submit, on to the next parent that has any. */
  function Settled(w: Walk): (v: Walk)
    ensures v.t == w.t && v.chain == w.chain && v.orphans == w.orphans
    ensures v.children == [] ==> v.waiting == []
    decreases |w.waiting|
  {
    if w.children != [] || w.waiting == [] then w
    else
      var n := |w.waiting| - 1;
      Settled(w.(waiting := w.waiting[..n], children := ChildrenOf(w.orphans, w.waiting[n])))
  }

  /** The next orphan is taken out of the pool and submitted, and the pool changes accordingly. */
  ghost predicate Turned(p: Params, now: nat, w: Walk, turn: Turn) {
    && w.children != [] && turn.child == w.children[0] && |w.t.active.main| > 0
    && var others, r, after := Without(w.orphans, turn.child.Id()), turn.result, turn.after;
      && Step(p, w.t, w.chain, others, turn.child, now, after.t, after.chain, r) && Inv(p, after.t, after.chain)
      && after.orphans == PoolAfter(others, turn.child, r.outcome)
      && after.children == w.children[1..]
      && after.waiting == if Adds(r.outcome) then w.waiting + [turn.child.Id()] else w.waiting
  }

  function At(w: Walk, turns: seq<Turn>, i: nat): Walk
    requires i <= |turns|
  {
    if i == 0 then w else turns[i - 1].after
  }

  ghost predicate Turns(p: Params, now: nat, w: Walk, turns: seq<Turn>) {
    forall i :: 0 <= i < |turns| ==> Turned(p, now, Settled(At(w, turns, i)), turns[i])
  }

  function ConnectedBy(turns: seq<Turn>): seq<Block> {
    if turns == [] then [] else ConnectedBy(turns[..|turns| - 1]) + turns[|turns| - 1].result.connected
  }

  function DisconnectedBy(turns: seq<Turn>): seq<Block> {
    if turns == [] then [] else DisconnectedBy(turns[..|turns| - 1]) + turns[|turns| - 1].result.disconnected
  }

  /** The result of the first block, its lists extended by those of the orphans. */
  function Summed(first: SubmitResult, turns: seq<Turn>): SubmitResult {
    first.(connected := first.connected + ConnectedBy(turns),
           disconnected := first.disconnected + DisconnectedBy(turns))
  }

  /** Having taken these turns from `w`, the walk goes on from `now`. */
  ghost predicate Reached(p: Params, clock: nat, w: Walk, turns: seq<Turn>, now: Walk) {
    Turns(p, clock, w, turns) && Settled(At(w, turns, |turns|)) == Settled(now)
  }

  lemma ReachedAtOnce(p: Params, clock: nat, w: Walk)
    ensures Reached(p, clock, w, [], w)
  {
  }

  lemma AtBefore(w: Walk, turns: seq<Turn>, turn: Turn, i: nat)
    requires i <= |turns|
    ensures At(w, turns + [turn], i) == At(w, turns, i)
  {
  }

  lemma SettledAlready(w: Walk)
    requires w.children != []
    ensures Settled(w) == w
  {
  }

  lemma MoreTurns(p: Params, clock: nat, w: Walk, turns: seq<Turn>, turn: Turn)
    requires Turns(p, clock, w, turns) && Turned(p, clock, Settled(At(w, turns, |turns|)), turn)
    ensures Turns(p, clock, w, turns + [turn])
  {
    hide Turned, Settled, At;
    var all := turns + [turn];
    forall i | 0 <= i < |all|
      ensures Turned(p, clock, Settled(At(w, all, i)), all[i])
    {
      AtBefore(w, turns, turn, i);
    }
  }

  lemma OneMoreTurn(p: Params, clock: nat, w: Walk, turns: seq<Turn>, now: Walk, turn: Turn)
    requires Reached(p, clock, w, turns, now) && now.children != [] && Turned(p, clock, now, turn)
    ensures Reached(p, clock, w, turns + [turn], turn.after)
  {
    hide Turned, Settled, Turns;
    SettledAlready(now);
    MoreTurns(p, clock, w, turns, turn);
  }

  lemma NextParent(p: Params, clock: nat, w: Walk, turns: seq<Turn>, now: Walk, rest: seq<Digest>, current: Digest)
    requires Reached(p, clock, w, turns, now) && now.children == [] && now.waiting == rest + [current]
    ensures Reached(p, clock, w, turns, now.(waiting := rest, children := ChildrenOf(now.orphans, current)))
  {
    hide Turns;
    assert now.waiting[..|rest|] == rest;
  }

  lemma SummedMore(first: SubmitResult, turns: seq<Turn>, turn: Turn)
    ensures Summed(first, turns + [turn]) == Summed(first, turns).(
              connected := Summed(first, turns).connected + turn.result.connected,
              disconnected := Summed(first, turns).disconnected + turn.result.disconnected)
  {
    assert (turns + [turn])[..|turns|] == turns;
  }

  lemma NothingSummed(first: SubmitResult)
    ensures Summed(first, []) == first
  {
    assert first.connected + [] == first.connected && first.disconnected + [] == first.disconnected;
  }

  /** The next orphan was submitted: one turn more. */
  lemma TakeTurn(p: Params, clock: nat, w: Walk, turns: seq<Turn>, here: Walk, first: SubmitResult,
                 soFar: SubmitResult, result: SubmitResult, after: Walk)
    returns (turn: Turn)
    requires Reached(p, clock, w, turns, here) && soFar == Summed(first, turns)
    requires here.children != [] && |here.t.active.main| > 0 && Inv(p, after.t, after.chain)
    requires var child := here.children[0];
      && Step(p, here.t, here.chain, Without(here.orphans, child.Id()), child, clock, after.t, after.chain, result)
      && after.orphans == PoolAfter(Without(here.orphans, child.Id()), child, result.outcome)
      && after.waiting == if Adds(result.outcome) then here.waiting + [child.Id()] else here.waiting
    requires after.children == here.children[1..]
    ensures Reached(p, clock, w, turns + [turn], after)
    ensures Summed(first, turns + [turn]) == soFar.(connected := soFar.connected + result.connected,
                                                    disconnected := soFar.disconnected + result.disconnected)
  {
    hide Step, Inv, PoolAfter, Without, Reached, Summed;
    turn := Turn(here.children[0], result, after);
    OneMoreTurn(p, clock, w, turns, here, turn);
    SummedMore(first, turns, turn);
  }

  lemma NoneMore(below: set<Digest>, rest: seq<Digest>, current: Digest)
    ensures below + SetOf<Digest>([]) + {current} == below + {current} && rest + [] == rest
  {
  }

  lemma OneMore(below: set<Digest>, rest: seq<Digest>, more: seq<Digest>, id: Digest, current: Digest)
    ensures below + SetOf(more) + {current} + {id} == below + SetOf(more + [id]) + {current}
    ensures rest + more + [id] == rest + (more + [id])
  {
  }

  lemma RestOf(children: seq<Block>, i: nat)
    requires i < |children|
    ensures children[i..] != [] && children[i..][0] == children[i] && children[i..][1..] == children[i + 1..]
  {
  }

  /** A whole call: the first block, the state after it, and the turns of the orphans. */
  datatype Run = Run(first: SubmitResult, t: Tables, chain: seq<Block>, turns: seq<Turn>)

  /** Where adopting starts. */
  ghost function Start(orphans: seq<Block>, b: Block, run: Run): Walk {
    var waiting := if Adds(run.first.outcome) then [b.Id()] else [];
    Walk(run.t, run.chain, PoolAfter(orphans, b, run.first.outcome), waiting, [])
  }

  ghost predicate IsRun(p: Params, t: Tables, chain: seq<Block>, orphans: seq<Block>, b: Block, now: nat, run: Run,
                        t': Tables, chain': seq<Block>, orphans': seq<Block>, r: SubmitResult)
  {
    && |t.active.main| > 0
    && Step(p, t, chain, orphans, b, now, run.t, run.chain, run.first) && Inv(p, run.t, run.chain)
    && Reached(p, now, Start(orphans, b, run), run.turns, Walk(t', chain', orphans', [], []))
    && r == Summed(run.first, run.turns)
  }

  /** What chain.submit_block does, from the state before to the state after. */
  ghost predicate Ran(p: Params, t: Tables, chain: seq<Block>, orphans: seq<Block>, b: Block, now: nat,
                      t': Tables, chain': seq<Block>, orphans': seq<Block>, r: SubmitResult)
  {
    exists run :: IsRun(p, t, chain, orphans, b, now, run, t', chain', orphans', r)
  }

  lemma ThatIsRun(p: Params, t: Tables, chain: seq<Block>, orphans: seq<Block>, b: Block, now: nat, run: Run,
                  t': Tables, chain': seq<Block>, orphans': seq<Block>, r: SubmitResult)
    requires IsRun(p, t, chain, orphans, b, now, run, t', chain', orphans', r)
    ensures Ran(p, t, chain, orphans, b, now, t', chain', orphans', r)
  {
    hide IsRun;
  }

  /** With no turn possible, none was taken. */
  lemma NoTurns(p: Params, clock: nat, w: Walk, turns: seq<Turn>, end: Walk)
    requires Reached(p, clock, w, turns, end) && Settled(w).children == []
    ensures turns == [] && end.t == w.t && end.chain == w.chain && end.orphans == w.orphans
  {
    hide Settled;
    assert turns != [] ==> Turned(p, clock, Settled(At(w, turns, 0)), turns[0]);
  }

  /** A block that adds nothing, or for which no orphan was waiting: only itself matters. */
  lemma RanAlone(p: Params, t: Tables, chain: seq<Block>, orphans: seq<Block>, b: Block, now: nat,
                 t': Tables, chain': seq<Block>, orphans': seq<Block>, r: SubmitResult)
    requires Ran(p, t, chain, orphans, b, now, t', chain', orphans', r)
    requires Childless(orphans, b.Id()) || !Adds(r.outcome)
    ensures |t.active.main| > 0 && Step(p, t, chain, orphans, b, now, t', chain', r) && Inv(p, t', chain')
    ensures orphans' == PoolAfter(orphans, b, r.outcome)
  {
    hide Inv, Step, Reached, Below, HangsBelow, Minus, Hold;
    var run :| IsRun(p, t, chain, orphans, b, now, run, t', chain', orphans', r);
    var w := Start(orphans, b, run);
    if Adds(r.outcome) {
      assert ChildrenOf(orphans, b.Id()) == [] by { NoChildren(orphans, b.Id()); }
      assert w.waiting[..0] == [];
    }
    NoTurns(p, now, w, run.turns, Walk(t', chain', orphans', [], []));
    NothingSummed(run.first);
  }

  lemma NoChildren(orphans: seq<Block>, id: Digest)
    requires Childless(orphans, id)
    ensures ChildrenOf(orphans, id) == []
  {
    SomethingIn(ChildrenOf(orphans, id));
  }
}
