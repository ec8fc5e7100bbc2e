/** Values shared by every component of the model.

    Identifiers, digests and clock readings are opaque to the logic, so they are plain numbers:
    an identifier is compared for equality only, a clock reading counts milliseconds. */
module Common {
  datatype Option<+T> = None | Some(value: T)

  datatype Result<+T, +E> = Ok(value: T) | Err(error: E)

  type Uuid = nat
  type Digest = nat
  type Time = int

  const SECOND: Time := 1000
  const MINUTE: Time := 60 * SECOND
  const HOUR: Time := 60 * MINUTE
  const DAY: Time := 24 * HOUR

  lemma {:induction false} SubsetSize(a: set<nat>, b: set<nat>)
    requires a <= b
    ensures |a| <= |b|
  {
    if a != {} {
      var x :| x in a;
      SubsetSize(a - {x}, b - {x});
    }
  }

  /** A finite set of numbers leaves some number out. */
  lemma {:induction false} FreshNumber(used: set<nat>) returns (n: nat)
    ensures n !in used
    ensures forall m :: m in used ==> m < n
  {
    if used == {} {
      n := 0;
    } else {
      var m :| m in used;
      var k := FreshNumber(used - {m});
      n := if k > m then k else m + 1;
      forall x | x in used ensures x < n {
        if x != m {
          assert x in used - {m};
        }
      }
    }
  }
}
