/**
 * Fresh identifiers. The source draws every record id from `randomUUID()`; the model issues
 * them from a counter instead, so that "the id is fresh" is a theorem rather than a hope.
 */
module Ids {
  import opened Strings

  /** The identifier handed out when the counter stands at `n`. */
  function IdOf(n: nat): string {
    NatToString(n)
  }

  /** Every identifier handed out before the counter reached `n`. */
  function IssuedIds(n: nat): set<string> {
    set k: nat | k < n :: IdOf(k)
  }

  /** The next identifier has never been handed out, and handing it out grows the issued set by exactly it. */
  lemma FreshId(n: nat)
    ensures IdOf(n) !in IssuedIds(n)
    ensures IssuedIds(n + 1) == IssuedIds(n) + {IdOf(n)}
  {
    forall k: nat | k < n
      ensures IdOf(k) != IdOf(n)
    {
      NatToStringInjective(k, n);
    }
  }

  /** Issued identifiers are non-empty and hold none of the characters that delimit URI or path parts. */
  lemma IdShape(n: nat)
    ensures IdOf(n) != ""
    ensures '/' !in IdOf(n) && '.' !in IdOf(n) && '?' !in IdOf(n) && '#' !in IdOf(n)
  {
  }

  lemma IssuedGrows(n: nat, m: nat)
    requires n <= m
    ensures IssuedIds(n) <= IssuedIds(m)
  {
  }
}
