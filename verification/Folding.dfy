/** Case folding over the orbits of a simple-fold table: the matcher walks a
    character's orbit, the path resolver reduces it to its least member. */
module Folding {

  const RUNE_SELF: int := 0x80

  /** Every orbit is a cycle of at most four characters. */
  ghost predicate ShortCycles(next: int -> int) {
    forall a :: next(a) == a || next(next(a)) == a || next(next(next(a))) == a || next(next(next(next(a)))) == a
  }

  function Orbit(next: int -> int, a: int): set<int> {
    {a, next(a), next(next(a)), next(next(next(a)))}
  }

  function Lower(a: int): int { if 'A' as int <= a <= 'Z' as int then a + ('a' as int - 'A' as int) else a }

  /** Below 0x80 the table folds letters and nothing else. */
  ghost predicate FoldsAscii(next: int -> int) {
    forall a, b :: a < 0x80 && b < 0x80 ==>
      (b in Orbit(next, a) <==> a == b || (65 <= a <= 90 && b == a + 32) || (97 <= a <= 122 && b == a - 32))
  }

  lemma OneOrbit(next: int -> int, a: int, b: int)
    requires ShortCycles(next) && b in Orbit(next, a)
    ensures Orbit(next, a) == Orbit(next, b)
  {
    var a1, a2, a3 := next(a), next(next(a)), next(next(next(a)));
    assert a1 == a || a2 == a || a3 == a || next(a3) == a;
  }

  method FoldEqual(next: int -> int, a: int, b: int) returns (same: bool)
    requires ShortCycles(next) && FoldsAscii(next)
    ensures same <==> b in Orbit(next, a)
  {
    if a == b {
      return true;
    }
    if a < RUNE_SELF && b < RUNE_SELF {
      return Lower(a) == Lower(b);
    }
    var r := next(a);
    ghost var seen := {a};
    ghost var turn := 1;
    while r != a
      invariant 1 <= turn <= 4
      invariant r == (if turn == 1 then next(a) else if turn == 2 then next(next(a)) else if turn == 3 then next(next(next(a))) else a)
      invariant b !in seen
      invariant seen == (if turn == 1 then {a} else if turn == 2 then {a, next(a)} else if turn == 3 then {a, next(a), next(next(a))} else Orbit(next, a))
      decreases 4 - turn
    {
      if r == b {
        return true;
      }
      seen := seen + {r};
      turn := turn + 1;
      r := next(r);
    }
    assert Orbit(next, a) == seen;
    return false;
  }

  method FoldRune(next: int -> int, r: int) returns (lo: int)
    requires ShortCycles(next)
    ensures lo in Orbit(next, r) && forall x :: x in Orbit(next, r) ==> lo <= x
  {
    lo := r;
    var f := next(r);
    ghost var seen := {r};
    ghost var turn := 1;
    while f != r
      invariant 1 <= turn <= 4
      invariant f == (if turn == 1 then next(r) else if turn == 2 then next(next(r)) else if turn == 3 then next(next(next(r))) else r)
      invariant seen == (if turn == 1 then {r} else if turn == 2 then {r, next(r)} else if turn == 3 then {r, next(r), next(next(r))} else Orbit(next, r))
      invariant lo in seen && forall x :: x in seen ==> lo <= x
      decreases 4 - turn
    {
      if f < lo {
        lo := f;
      }
      seen := seen + {f};
      turn := turn + 1;
      f := next(f);
    }
    assert Orbit(next, r) == seen;
  }

  ghost predicate IsLeast(lo: int, orbit: set<int>) { lo in orbit && forall x :: x in orbit ==> lo <= x }

  /** The matcher and the resolver state one equivalence: two characters are in
      one orbit exactly when the least members of their orbits are the same. */
  lemma FoldsAgree(next: int -> int, a: int, b: int, la: int, lb: int)
    requires ShortCycles(next) && IsLeast(la, Orbit(next, a)) && IsLeast(lb, Orbit(next, b))
    ensures b in Orbit(next, a) <==> la == lb
  {
    if b in Orbit(next, a) {
      OneOrbit(next, a, b);
    } else if la == lb {
      OneOrbit(next, a, la);
      OneOrbit(next, b, la);
    }
  }
}
