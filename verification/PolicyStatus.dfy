/**
 Batched decision counters: decisions are recorded under a lock, taken all at once by a flush, and put
 back when a status write fails.  Times are whole seconds, zero being the zero time.
 */
module PolicyStatus {
  import opened Options

  datatype Outcome = Created | Duplicate | RateLimited | NotMatched | Failed | Disarmed

  datatype PolicyResult = PolicyResult(policy: string, outcome: Outcome, trigger: nat, capture: string)

  datatype Counters = Counters(matched: int, notMatched: int, duplicate: int, rateLimited: int, failed: int,
                               captures: int)

  const ZERO := Counters(0, 0, 0, 0, 0, 0)

  function Plus(a: Counters, b: Counters): Counters {
    Counters(a.matched + b.matched, a.notMatched + b.notMatched, a.duplicate + b.duplicate,
             a.rateLimited + b.rateLimited, a.failed + b.failed, a.captures + b.captures)
  }

  datatype Batch = Batch(counters: Counters, lastTrigger: nat, lastCapture: string)

  const EMPTY := Batch(ZERO, 0, "")

  datatype Status = Status(counters: Counters, lastTrigger: nat, lastCapture: string)

  function Max(a: nat, b: nat): nat { if a < b then b else a }

  function Merge(b: Batch, other: Batch): Batch {
    Batch(Plus(b.counters, other.counters), Max(b.lastTrigger, other.lastTrigger),
          if other.lastCapture != "" then other.lastCapture else b.lastCapture)
  }

  /** What one decision adds. */
  function Amount(o: Outcome): Counters {
    match o
    case Created => ZERO.(matched := 1, captures := 1)
    case Duplicate => ZERO.(duplicate := 1)
    case RateLimited => ZERO.(rateLimited := 1)
    case NotMatched => ZERO.(notMatched := 1)
    case Failed => ZERO.(failed := 1)
    case Disarmed => ZERO
  }

  function Recorded(b: Batch, r: PolicyResult): Batch {
    Batch(Plus(b.counters, Amount(r.outcome)), Max(b.lastTrigger, r.trigger),
          if r.outcome.Created? || r.outcome.Duplicate? then r.capture else b.lastCapture)
  }

  type Batches = map<string, Batch>

  function Pending(m: Batches, uid: string): Batch { if uid in m then m[uid] else EMPTY }

  function WithRecord(m: Batches, r: PolicyResult): Batches { m[r.policy := Recorded(Pending(m, r.policy), r)] }

  function WithRestored(m: Batches, uid: string, b: Batch): Batches {
    m[uid := if uid in m then Merge(b, m[uid]) else b]
  }

  /** The status a batch leads to. */
  function Applied(s: Status, b: Batch): Status {
    Status(Plus(s.counters, b.counters), Max(s.lastTrigger, b.lastTrigger),
           if b.lastCapture != "" then b.lastCapture else s.lastCapture)
  }

  datatype Effect = Lands | Fails | LandsUnconfirmed

  // ------------------------------------------------------------ the tracker

  class PolicyStatusTracker {
    var pending: Batches
    /** The API server's copy of each policy's status. */
    var stored: map<string, Status>

    constructor (stored: map<string, Status>)
      ensures pending == map[] && this.stored == stored
    {
      pending := map[];
      this.stored := stored;
    }

    static method Count(c: Counters, o: Outcome) returns (n: Counters)
      ensures n == Plus(c, Amount(o))
    {
      match o
      case Created => return c.(matched := c.matched + 1, captures := c.captures + 1);
      case Duplicate => return c.(duplicate := c.duplicate + 1);
      case RateLimited => return c.(rateLimited := c.rateLimited + 1);
      case NotMatched => return c.(notMatched := c.notMatched + 1);
      case Failed => return c.(failed := c.failed + 1);
      case Disarmed => return c;
    }

    static method Add(b: Batch, r: PolicyResult) returns (n: Batch)
      ensures n == Recorded(b, r)
    {
      var counters := Count(b.counters, r.outcome);
      n := b.(counters := counters);
      if r.outcome.Created? || r.outcome.Duplicate? { n := n.(lastCapture := r.capture); }
      if r.trigger > n.lastTrigger { n := n.(lastTrigger := r.trigger); }
    }

    method Record(r: PolicyResult)
      modifies this`pending
      ensures pending == if r.policy == "" then old(pending) else WithRecord(old(pending), r)
    {
      if r.policy == "" { return; }
      var batch := Add(if r.policy in pending then pending[r.policy] else EMPTY, r);
      pending := pending[r.policy := batch];
    }

    method Take() returns (batches: Batches)
      modifies this`pending
      ensures batches == old(pending) && pending == map[]
    {
      batches, pending := pending, map[];
    }

    method Restore(uid: string, batch: Option<Batch>)
      modifies this`pending
      ensures pending == if batch.None? then old(pending) else WithRestored(old(pending), uid, batch.value)
    {
      if batch.None? { return; }
      var b := batch.value;
      if uid in pending { b := Merge(b, pending[uid]); }
      pending := pending[uid := b];
    }

    /** Writes one policy's status; nothing is written when nothing moved. */
    method Apply(uid: string, batch: Option<Batch>, f: Effect) returns (ok: bool)
      requires uid in stored
      modifies this`stored
      ensures stored == old(stored)[uid := if f.Fails? then old(stored)[uid] else Applied(old(stored)[uid], Or(batch))]
      ensures ok <==> f.Lands? || Applied(old(stored)[uid], Or(batch)) == old(stored)[uid]
    {
      var desired := stored[uid];
      if batch.Some? { desired := Applied(desired, batch.value); }
      if desired == stored[uid] { return true; }
      if !f.Fails? { stored := stored[uid := desired]; }
      return f.Lands?;
    }

    /** One policy's turn in a flush: its batch is written, or put back. */
    method FlushOne(uid: string, batch: Option<Batch>, f: Effect)
      requires uid in stored && uid !in pending
      modifies this
      ensures stored.Keys == old(stored.Keys)
      ensures Settled(old(stored)[uid], Or(batch), stored[uid], Pending(pending, uid), f)
      ensures forall u :: u != uid ==>
                            Pending(pending, u) == Pending(old(pending), u) && (u in pending <==> u in old(pending))
      ensures forall u :: u in stored && u != uid ==> stored[u] == old(stored)[u]
    {
      var ok := Apply(uid, batch, f);
      if !ok { Restore(uid, batch); }
    }

    /** One flush with nothing recorded meanwhile: every listed policy's total is what it was, except that
        a write that landed unconfirmed leaves its batch counted and pending. */
    method Flush(policies: seq<string>, effects: map<string, Effect>)
      requires forall i :: 0 <= i < |policies| ==> policies[i] in stored && policies[i] in effects
      requires forall i, j :: 0 <= i < j < |policies| ==> policies[i] != policies[j]
      modifies this
      ensures stored.Keys == old(stored.Keys)
      ensures forall i :: 0 <= i < |policies| ==> var uid := policies[i];
        uid in stored && Settled(old(stored)[uid], Pending(old(pending), uid), stored[uid], Pending(pending, uid),
                                 effects[uid])
      ensures forall uid :: uid in old(stored) && uid !in policies ==>
                              stored[uid] == old(stored)[uid] && uid !in pending
    {
      ghost var before := pending;
      var batches := Take();
      for i := 0 to |policies|
        invariant stored.Keys == old(stored.Keys)
        invariant forall k :: 0 <= k < i ==> var uid := policies[k];
          uid in stored && Settled(old(stored)[uid], Pending(before, uid), stored[uid], Pending(pending, uid),
                                   effects[uid])
        invariant forall k :: i <= k < |policies| ==>
                                stored[policies[k]] == old(stored)[policies[k]] && policies[k] !in pending
        invariant forall uid :: uid in stored && uid !in policies ==> stored[uid] == old(stored)[uid]
        invariant forall uid :: uid !in policies ==> uid !in pending
      {
        var uid := policies[i];
        FlushOne(uid, if uid in batches then Some(batches[uid]) else None, effects[uid]);
      }
    }
  }

  function Or(b: Option<Batch>): Batch { if b.Some? then b.value else EMPTY }

  /** What a flush counts twice. */
  function Excess(taken: Batch, f: Effect): Counters { if f.LandsUnconfirmed? then taken.counters else ZERO }

  /** The later of two names, none being the empty one. */
  function Newer(a: string, b: string): string { if b != "" then b else a }

  /** Stored and pending together account for what was stored and taken. */
  predicate Settled(was: Status, taken: Batch, now: Status, left: Batch, f: Effect) {
    && Plus(now.counters, left.counters) == Plus(Plus(was.counters, taken.counters), Excess(taken, f))
    && Max(now.lastTrigger, left.lastTrigger) == Max(was.lastTrigger, taken.lastTrigger)
    && Newer(now.lastCapture, left.lastCapture) == Newer(was.lastCapture, taken.lastCapture)
  }
}
