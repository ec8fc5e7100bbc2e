/** A counter guarded by check-then-increment with no lock in between: the check reads the counter and reserves a
    slot, the increment comes later whatever the counter says by then. Both the retry worker's delivery attempts
    and the one-time-code attempts are such counters. */
module StaleCounter {
  import opened Common

  /** `holders` are the slots that have checked and not yet incremented; `slots` are all that could. */
  datatype Counter = Counter(count: int, holders: set<Uuid>, slots: set<Uuid>)

  predicate Checks(c: Counter, d: Counter, limit: int, slot: Uuid) {
    slot in c.slots && slot !in c.holders && c.count < limit && d == c.(holders := c.holders + {slot})
  }

  predicate Increments(c: Counter, d: Counter, slot: Uuid) {
    slot in c.holders && d == c.(count := c.count + 1, holders := c.holders - {slot})
  }

  predicate GivesUp(c: Counter, d: Counter, slot: Uuid) {
    d == c.(holders := c.holders - {slot})
  }

  ghost predicate Next(c: Counter, d: Counter, limit: int) {
    d == c || exists slot :: Checks(c, d, limit, slot) || Increments(c, d, slot) || GivesUp(c, d, slot)
  }

  ghost predicate Bounded(c: Counter, limit: int) {
    c.holders <= c.slots && c.count + |c.holders| <= limit - 1 + |c.slots|
  }

  lemma RemovalSize(a: set<Uuid>, x: Uuid)
    ensures |a - {x}| == |a| - if x in a then 1 else 0
  {
    if x !in a {
      assert a - {x} == a;
    }
  }

  /** With k slots the counter never exceeds limit - 1 + k. */
  lemma NextKeepsBound(c: Counter, d: Counter, limit: int)
    requires Bounded(c, limit) && Next(c, d, limit)
    ensures Bounded(d, limit) && d.count <= limit - 1 + |d.slots|
  {
    if d != c {
      var slot :| Checks(c, d, limit, slot) || Increments(c, d, slot) || GivesUp(c, d, slot);
      if Checks(c, d, limit, slot) {
        SubsetSize(d.holders, d.slots);
      } else {
        RemovalSize(c.holders, slot);
      }
    }
  }
}
