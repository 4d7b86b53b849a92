/** Table t_block_parser_info for the parser's own parser type: one row for each block number. */
module BlockTable {
  import opened Uint64
  import opened Chain

  datatype BlockRow = BlockRow(hash: Hash, parent: Hash)

  type BlockTable = map<uint64, BlockRow>

  predicate IsMaximum(s: set<int>, m: int) {
    m in s && forall k :: k in s ==> k <= m
  }

  lemma {:induction false} MaximumExists(s: set<int>) returns (m: int)
    requires s != {}
    ensures IsMaximum(s, m)
    decreases |s|
  {
    assert exists x :: x in s by {
      if forall x :: x !in s { assert false; }
    }
    m :| m in s;
    var rest := s - {m};
    assert forall k :: k in s ==> k == m || k in rest;
    if rest != {} {
      var n := MaximumExists(rest);
      m := if n < m then m else n;
    }
  }

  /** The number of the row that ORDER BY block_number DESC puts first. */
  function Highest(rows: BlockTable): (m: uint64)
    requires rows.Keys != {}
    ensures m in rows && forall k :: k in rows ==> k <= m
  {
    assert exists m :: IsMaximum(rows.Keys, m) by { var m := MaximumExists(rows.Keys); }
    var m :| IsMaximum(rows.Keys, m);
    m
  }

  function Upsert(rows: BlockTable, number: uint64, row: BlockRow): BlockTable {
    rows[number := row]
  }

  /** Deletes every row with a number below the bound. */
  function Prune(rows: BlockTable, bound: nat): BlockTable {
    map n | n in rows && bound <= n :: rows[n]
  }
}
