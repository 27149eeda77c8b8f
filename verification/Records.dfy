/** The log record that both engines write. */
module Records {
  import opened Keys
  import opened Entries

  /** A log record: a put, or with a tombstone a remove. Replay never looks at the timestamp. */
  datatype Rec = Rec(key: Key, cell: Cell, ts: nat)

  function RecSize(r: Rec): nat {
    21 + |r.key| + (if r.cell.Live? then |r.cell.value| else 0)
  }
}
