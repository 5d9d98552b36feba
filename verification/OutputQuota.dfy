/**
 The output quota two reader threads share: `_OutputQuota`, `_OutputCollector`.  Taking
 from the quota and extending the buffer are separate atomic steps, so the threads
 interleave between them.
 */
module OutputQuota {

  datatype Quota = Quota(limit: nat, used: nat, exceeded: bool)

  /** `take`: the quota after it, and the bytes allowed. */
  function Take(q: Quota, size: nat): (Quota, nat) {
    var remaining := q.limit - q.used;
    var least := if size < remaining then size else remaining;
    var allowed := if least < 0 then 0 else least;
    (q.(used := q.used + allowed, exceeded := q.exceeded || allowed < size), allowed)
  }

  class SharedQuota {
    const limit: nat
    var used: nat
    var exceeded: bool

    ghost function View(): Quota
      reads this
    {
      Quota(limit, used, exceeded)
    }

    constructor (limit: nat)
      ensures View() == Quota(limit, 0, false)
    {
      this.limit, used, exceeded := limit, 0, false;
    }

    method TakeBytes(size: nat) returns (allowed: nat)
      modifies this
      ensures (View(), allowed) == Take(old(View()), size)
      ensures allowed <= size
    {
      var remaining := limit - used;
      allowed := if size < remaining then size else if remaining < 0 then 0 else remaining;
      used := used + allowed;
      if allowed < size {
        exceeded := true;
      }
    }
  }

  class OutputCollector {
    const quota: SharedQuota
    var buffer: seq<bv8>

    constructor (quota: SharedQuota)
      ensures this.quota == quota && buffer == []
    {
      this.quota, buffer := quota, [];
    }

    /** One chunk, uninterrupted. */
    method Add(chunk: seq<bv8>)
      modifies this`buffer, quota
      ensures var (after, allowed) := Take(old(quota.View()), |chunk|);
        allowed <= |chunk| && quota.View() == after && buffer == old(buffer) + chunk[..allowed]
    {
      var allowed := quota.TakeBytes(|chunk|);
      buffer := buffer + chunk[..allowed];
    }
  }

  // ---------- the two threads ----------

  /** One reader: its stream so far, what it may still append, and its buffer. */
  datatype Reader = Reader(offered: seq<bv8>, taken: seq<bv8>, buffer: seq<bv8>)

  datatype World = World(quota: Quota, out: Reader, err: Reader)

  datatype Step = Offer(toOut: bool, chunk: seq<bv8>) | Extend(toOut: bool)

  function Pick(w: World, toOut: bool): Reader {
    if toOut then w.out else w.err
  }

  function Place(w: World, toOut: bool, r: Reader): World {
    if toOut then w.(out := r) else w.(err := r)
  }

  /** A reader takes from the quota only after it has appended what it took before. */
  predicate Enabled(w: World, step: Step) {
    step.Offer? ==> Pick(w, step.toOut).taken == []
  }

  lemma TakeBounded(q: Quota, size: nat)
    ensures Take(q, size).1 <= size
  {
  }

  function Apply(w: World, step: Step): World
    requires Enabled(w, step)
  {
    var r := Pick(w, step.toOut);
    match step
    case Offer(toOut, chunk) =>
      TakeBounded(w.quota, |chunk|);
      var (quota, allowed) := Take(w.quota, |chunk|);
      Place(w, toOut, Reader(r.offered + chunk, chunk[..allowed], r.buffer)).(quota := quota)
    case Extend(toOut) => Place(w, toOut, Reader(r.offered, [], r.buffer + r.taken))
  }

  // ---------- the invariant ----------

  function Kept(r: Reader): seq<bv8> {
    r.buffer + r.taken
  }

  function Offered(w: World): nat {
    |w.out.offered| + |w.err.offered|
  }

  function Least(a: nat, b: nat): nat {
    if a < b then a else b
  }

  predicate Accounted(w: World) {
    && Kept(w.out) <= w.out.offered && Kept(w.err) <= w.err.offered
    && w.quota.used == |Kept(w.out)| + |Kept(w.err)|
    && w.quota.used == Least(w.quota.limit, Offered(w))
    && (w.quota.exceeded <==> Offered(w) > w.quota.limit)
  }

  lemma PrefixGrows(kept: seq<bv8>, offered: seq<bv8>, chunk: seq<bv8>, allowed: nat)
    requires kept <= offered && allowed <= |chunk|
    requires |kept| == |offered| || allowed == 0
    ensures kept + chunk[..allowed] <= offered + chunk
  {
    if |kept| == |offered| {
      assert kept == offered;
    } else {
      assert kept + chunk[..0] == kept;
    }
  }

  lemma ApplyAccounts(w: World, step: Step)
    requires Accounted(w) && Enabled(w, step)
    ensures Accounted(Apply(w, step))
    ensures Apply(w, step).quota.limit == w.quota.limit
  {
    var r := Pick(w, step.toOut);
    match step
    case Offer(toOut, chunk) =>
      var allowed := Take(w.quota, |chunk|).1;
      assert Kept(r) == r.buffer;
      PrefixGrows(r.buffer, r.offered, chunk, allowed);
    case Extend(toOut) =>
      assert r.buffer + r.taken + [] == r.buffer + r.taken;
  }

  ghost predicate Follows(w: World, step: Step, v: World) {
    Enabled(w, step) && v == Apply(w, step)
  }

  ghost predicate Trace(worlds: seq<World>, steps: seq<Step>, limit: nat) {
    && |worlds| == |steps| + 1
    && worlds[0] == World(Quota(limit, 0, false), Reader([], [], []), Reader([], [], []))
    && forall k :: 0 <= k < |steps| ==> Follows(worlds[k], steps[k], worlds[k + 1])
  }

  lemma {:induction false} TraceAccounts(worlds: seq<World>, steps: seq<Step>, limit: nat, k: nat)
    requires Trace(worlds, steps, limit) && k <= |steps|
    ensures Accounted(worlds[k]) && worlds[k].quota.limit == limit
  {
    if k != 0 {
      TraceAccounts(worlds, steps, limit, k - 1);
      assert Follows(worlds[k - 1], steps[k - 1], worlds[k]);
      ApplyAccounts(worlds[k - 1], steps[k - 1]);
    }
  }

  /**
   For every interleaving of the two readers: each buffer is a prefix of its own stream,
   together they hold min(limit, offered) bytes once both have caught up, and the quota is
   marked exceeded exactly when more than the limit was offered.
   */
  lemma EveryInterleaving(worlds: seq<World>, steps: seq<Step>, limit: nat, k: nat)
    requires Trace(worlds, steps, limit) && k <= |steps|
    ensures var w := worlds[k];
      && w.out.buffer <= w.out.offered && w.err.buffer <= w.err.offered
      && |w.out.buffer| + |w.err.buffer| <= limit
      && (w.quota.exceeded <==> Offered(w) > limit)
      && (w.out.taken == [] && w.err.taken == [] ==> |w.out.buffer| + |w.err.buffer| == Least(limit, Offered(w)))
  {
    TraceAccounts(worlds, steps, limit, k);
    var w := worlds[k];
    assert w.out.buffer <= Kept(w.out) && w.err.buffer <= Kept(w.err);
  }
}
