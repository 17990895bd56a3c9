/**
 * The executor service: the one ledger the process holds (behind a lock in the
 * source, a plain object here) and the snapshot file `state.json` it persists to.
 */
module Executor {
  import opened Base
  import opened Ledger
  import opened Transactions

  /** What `state.json` can hold, as far as parsing it back into a `State` can tell. */
  datatype JsonText =
    | StateDocument(balances: Balances)  // an object whose `balances` field is the map
    | EmptyObject                        // the text "{}", used when the file cannot be read
    | Garbage                            // any other text that does not parse as a `State`

  /** The start of the panic message of a failed save; the source appends the I/O error to it. */
  const SAVE_FAILED: string := "Failed to save state"

  /** Serialising a `State` to JSON; for a string-to-`u64` map it cannot fail. */
  function Serialize(b: Balances): (t: JsonText)
    ensures Deserialize(t) == Some(b)
  {
    StateDocument(b)
  }

  /**
   * Parsing JSON text as a `State`: only a document with a `balances` field parses;
   * "{}" lacks that field and fails like any malformed text.
   */
  function Deserialize(t: JsonText): (r: Option<Balances>)
    ensures r.Some? <==> t.StateDocument?
    ensures t == EmptyObject ==> r == None
  {
    match t
    case StateDocument(b) => Some(b)
    case EmptyObject => None
    case Garbage => None
  }

  /** Reading the file; a missing file (`None`) reads as the text "{}". */
  function ReadSnapshot(disk: Option<JsonText>): JsonText {
    if disk.Some? then disk.value else EmptyObject
  }

  /**
   * The balances `load_state` installs for a given file: the stored map when the file
   * parses, the genesis allocation when it is missing or does not parse.
   */
  function Restored(disk: Option<JsonText>): (b: Balances)
    ensures disk == None ==> b == Genesis()
    ensures disk.Some? && disk.value.StateDocument? ==> b == disk.value.balances
    ensures disk.Some? && !disk.value.StateDocument? ==> b == Genesis()
  {
    var parsed := Deserialize(ReadSnapshot(disk));
    if parsed.Some? then parsed.value else Genesis()
  }

  /** Saving a map and loading it back gives that same map. */
  lemma SnapshotRoundTrip(b: Balances)
    ensures Restored(Some(Serialize(b))) == b
  {
  }

  class Executor {
    /** The ledger behind the global lock. */
    var state: State
    /** The contents of `state.json`; `None` when the file does not exist. */
    var disk: Option<JsonText>
    /** Whether writing `state.json` succeeds in this environment. */
    const writable: bool

    /** The process start: the lazily created global holds `State::new()`. */
    constructor (disk: Option<JsonText>, writable: bool)
      ensures fresh(state) && state.balances == Genesis()
      ensures this.disk == disk && this.writable == writable
    {
      state := new State.New();
      this.disk := disk;
      this.writable := writable;
    }

    /**
     * `save_state`: writes the serialised map to the file. A failed write panics with
     * "Failed to save state"; the model keeps the file as it was then.
     */
    method SaveState(s: State) returns (r: Exit<()>)
      modifies this`disk
      ensures writable ==> r == Returned(()) && disk == Some(Serialize(s.balances))
      ensures !writable ==> r == Panicked(SAVE_FAILED) && disk == old(disk)
    {
      if writable {
        disk := Some(Serialize(s.balances));
        r := Returned(());
      } else {
        r := Panicked(SAVE_FAILED);
      }
    }

    /**
     * `execute_transaction`: applies the transfer to the held ledger and returns its
     * result; only a successful transfer is saved, so a failed one leaves the file as it
     * was. After a returned success the file restores exactly the in-memory map.
     */
    method ExecuteTransaction(tx: Transaction) returns (r: Exit<bool>)
      requires NoOverflow(state.balances, tx.sender, tx.receiver, tx.amount)
      modifies this`disk, state
      ensures state == old(state)
      ensures var t := Transfer(old(state.balances), tx.sender, tx.receiver, tx.amount);
        && state.balances == t.1
        && r == (if t.0 && !writable then Panicked(SAVE_FAILED) else Returned(t.0))
        && disk == (if t.0 && writable then Some(Serialize(t.1)) else old(disk))
      ensures r == Returned(true) ==> Restored(disk) == state.balances
    {
      var success := state.ApplyTransaction(tx.sender, tx.receiver, tx.amount);
      if success {
        var saved := SaveState(state);
        if saved.Panicked? {
          return Panicked(saved.message);
        }
      }
      r := Returned(success);
    }

    /**
     * `load_state`: replaces the whole held ledger by the one the file restores, so
     * loading twice from the same file leaves the same balances.
     */
    method LoadState()
      modifies this`state
      ensures fresh(state) && state.balances == Restored(disk)
    {
      var parsed := Deserialize(ReadSnapshot(disk));
      var loaded: State;
      if parsed.Some? {
        loaded := new State.FromBalances(parsed.value);
      } else {
        loaded := new State.New();
      }
      state := loaded;
    }
  }
}
