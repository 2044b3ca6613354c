/** Positions inside a managed ledger, in ledger-then-entry order. */
module Positions {
  import opened Base

  /** A cursor position: cursors normalise the partition to -1, so only these
      two fields decide order and equality. A flat `u64` entry `e` is `Pos(0, e)`:
      same order, same successor. */
  datatype Pos = Pos(ledger: nat, entry: nat) {
    predicate Lt(q: Pos) {
      ledger < q.ledger || (ledger == q.ledger && entry < q.entry)
    }

    predicate Le(q: Pos) {
      this == q || Lt(q)
    }

    function Succ(): Option<Pos> {
      if entry + 1 < U64_LIMIT then Some(Pos(ledger, entry + 1)) else None
    }
  }

  function Min(p: Pos, q: Pos): Pos {
    if q.Lt(p) then q else p
  }

  function Max(p: Pos, q: Pos): Pos {
    if p.Lt(q) then q else p
  }
}
