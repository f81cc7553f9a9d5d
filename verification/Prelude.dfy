/** Small shared datatypes, and the supply of unused identifiers. */
module Prelude {

  datatype Option<+T> = None | Some(value: T) {
    function GetOr(other: T): T {
      if Some? then value else other
    }
  }

  datatype Result<+T, +E> = Ok(value: T) | Err(error: E)

  /** Length of the longest string in a finite set. */
  ghost function LongestLength(used: set<string>): (n: nat)
    ensures forall s :: s in used ==> |s| <= n
  {
    if used == {} then 0
    else
      var s :| s in used;
      var rest := LongestLength(used - {s});
      assert forall x :: x in used ==> x == s || x in used - {s};
      if |s| > rest then |s| else rest
  }

  /** A string outside a finite set: random tokens and UUIDs always have a fresh value to take. */
  ghost function Unused(used: set<string>): (s: string)
    ensures s !in used
  {
    var n := LongestLength(used) + 1;
    seq(n, _ => 'x')
  }
}
