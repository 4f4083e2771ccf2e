/**
  Runs of the frame allocator: blocks are handed out and given back in any order.
 */
module AllocatorRuns {
  import opened FrameAllocator
  import opened Wrappers

  datatype Op = Get | Free(block: int)

  // The allocator and the blocks that are handed out.
  datatype Pool = Pool(frames: Frames, out: set<int>)

  // Every block of `all` is free or handed out, and no block is both.
  ghost predicate Accounts(p: Pool, all: set<int>) {
    && p.frames.Valid()
    && (forall b {:trigger b in all} :: b in all <==> b in p.frames.free || b in p.out)
    && (forall b {:trigger b in p.out} :: b in p.out ==> b !in p.frames.free && 0 < b < |p.frames.refs|)
  }

  // A caller frees only what it was given.
  predicate Allowed(p: Pool, op: Op) {
    op.Free? ==> op.block in p.out
  }

  // None when the machine has stopped for want of memory.
  function Step(p: Pool, op: Op): Option<Pool>
    requires p.frames.Valid()
  {
    match op
    case Get => if p.frames.Exhausted() then None else Some(Pool(p.frames.Take(), p.out + {p.frames.free[0]}))
    case Free(b) => Some(Pool(p.frames.Give(b), p.out - {b}))
  }

  // What is handed out was not out before, and nothing is lost or doubled.
  lemma StepAccounts(p: Pool, op: Op, all: set<int>)
    requires Accounts(p, all) && Allowed(p, op) && Step(p, op).Some?
    ensures Accounts(Step(p, op).value, all)
    ensures op.Get? ==> p.frames.free[0] !in p.out && p.frames.free[0] in all
    ensures |p.frames.free| + |p.out| == |Step(p, op).value.frames.free| + |Step(p, op).value.out|
  {
    match op
    case Get =>
      TakeRest(p.frames);
      assert p.frames.free == [p.frames.free[0]] + p.frames.free[1..];
    case Free(b) =>
      GiveValid(p.frames, b);
  }

  ghost predicate RunsTo(p: Pool, ops: seq<Op>, q: Pool)
    decreases |ops|
  {
    if ops == [] then p == q
    else p.frames.Valid() && Allowed(p, ops[0]) && Step(p, ops[0]).Some? && RunsTo(Step(p, ops[0]).value, ops[1..], q)
  }

  lemma {:induction false} RunAccounts(p: Pool, ops: seq<Op>, q: Pool, all: set<int>)
    requires Accounts(p, all) && RunsTo(p, ops, q)
    ensures Accounts(q, all) && |p.frames.free| + |p.out| == |q.frames.free| + |q.out|
    decreases |ops|
  {
    if ops != [] {
      StepAccounts(p, ops[0], all);
      hide Accounts, Step;
      RunAccounts(Step(p, ops[0]).value, ops[1..], q, all);
    }
  }
}
