/**
 * The account ledger of the executor: a map from account name to `u64` balance,
 * seeded with a genesis allocation and changed in place by checked transfers.
 */
module Ledger {
  import opened Base

  type Balances = map<string, u64>

  /** The balance the ledger reads for `account`; an account it has never seen counts as 0. */
  function BalanceOf(m: Balances, account: string): u64 {
    if account in m then m[account] else 0
  }

  /** The genesis allocation: alice holds 100 and bob holds 50. */
  function Genesis(): (m: Balances)
    ensures m.Keys == {"alice", "bob"} && m["alice"] == 100 && m["bob"] == 50
  {
    map["alice" := 100, "bob" := 50]
  }

  /**
   * The receiver's `+=` does not leave `u64`. The source does not check this; the model
   * asks it of its callers. A failing transfer and a self-transfer never add anything.
   */
  predicate NoOverflow(m: Balances, sender: string, receiver: string, amount: u64) {
    amount <= BalanceOf(m, sender) && sender != receiver ==>
      BalanceOf(m, receiver) as int + amount as int < U64_LIMIT
  }

  /**
   * The transfer rule as a function of the old balance map: whether it succeeds and the
   * map afterwards. It succeeds exactly when the sender holds at least `amount`.
   */
  function Transfer(m: Balances, sender: string, receiver: string, amount: u64): (r: (bool, Balances))
    requires NoOverflow(m, sender, receiver, amount)
    ensures r.0 <==> amount <= BalanceOf(m, sender)
    ensures !r.0 ==> r.1 == m
    ensures r.0 ==> r.1.Keys == m.Keys + {sender, receiver}
    ensures r.0 && sender != receiver ==>
      r.1[sender] as int == BalanceOf(m, sender) as int - amount as int &&
      r.1[receiver] as int == BalanceOf(m, receiver) as int + amount as int
    ensures r.0 && sender == receiver ==> r.1[sender] == BalanceOf(m, sender)
    ensures forall k :: k in m && k != sender && k != receiver ==> k in r.1 && r.1[k] == m[k]
  {
    if BalanceOf(m, sender) < amount then
      (false, m)
    else
      var debited := m[sender := BalanceOf(m, sender) - amount];
      (true, debited[receiver := BalanceOf(debited, receiver) + amount])
  }

  /** The total supply: the sum of all balances. */
  ghost function Total(m: Balances): int
    decreases |m|
  {
    if m == map[] then 0
    else
      var k :| k in m;
      assert |m - {k}| < |m| by { assert (m - {k}).Keys == m.Keys - {k}; }
      m[k] as int + Total(m - {k})
  }

  /** Any key may be taken out first when summing. */
  lemma {:induction false} TotalRemove(m: Balances, k: string)
    requires k in m
    ensures Total(m) == m[k] as int + Total(m - {k})
    decreases |m|
  {
    var j :| j in m && Total(m) == m[j] as int + Total(m - {j});
    if j != k {
      assert (m - {j}).Keys == m.Keys - {j};
      assert (m - {k}).Keys == m.Keys - {k};
      TotalRemove(m - {j}, k);
      TotalRemove(m - {k}, j);
      assert m - {j} - {k} == m - {k} - {j};
    }
  }

  /** Setting one key changes the total by the difference of the new and old balance. */
  lemma {:induction false} TotalUpdate(m: Balances, k: string, v: u64)
    ensures Total(m[k := v]) == Total(m) - BalanceOf(m, k) as int + v as int
  {
    TotalRemove(m[k := v], k);
    if k in m {
      TotalRemove(m, k);
      assert m[k := v] - {k} == m - {k};
    } else {
      assert m[k := v] - {k} == m;
    }
  }

  /** A transfer, successful or not, keeps the total supply. */
  lemma TransferConserves(m: Balances, sender: string, receiver: string, amount: u64)
    requires NoOverflow(m, sender, receiver, amount)
    ensures Total(Transfer(m, sender, receiver, amount).1) == Total(m)
  {
    if amount <= BalanceOf(m, sender) {
      DebitCreditConserves(m, sender, receiver, amount);
    }
  }

  /** Debiting one entry and crediting another by the same amount keeps the total. */
  lemma DebitCreditConserves(m: Balances, sender: string, receiver: string, amount: u64)
    requires amount <= BalanceOf(m, sender) && NoOverflow(m, sender, receiver, amount)
    ensures var debited := m[sender := BalanceOf(m, sender) - amount];
      Total(debited[receiver := BalanceOf(debited, receiver) + amount]) == Total(m)
  {
    var debited := m[sender := BalanceOf(m, sender) - amount];
    TotalUpdate(m, sender, BalanceOf(m, sender) - amount);
    TotalUpdate(debited, receiver, BalanceOf(debited, receiver) + amount);
  }

  /**
   * A zero-amount transfer always succeeds and adds both names with no change in value:
   * an absent sender or receiver now holds 0.
   */
  lemma ZeroTransferAddsKeys(m: Balances, sender: string, receiver: string)
    ensures var r := Transfer(m, sender, receiver, 0);
      r.0 && r.1.Keys == m.Keys + {sender, receiver} &&
      forall k :: k in r.1 ==> r.1[k] == BalanceOf(m, k)
  {
  }

  /**
   * From genesis, alice sends bob 30 and the ledger holds {alice: 70, bob: 80}; alice then
   * tries to send 1000, which fails and leaves that map as it was.
   */
  lemma GenesisScenario()
    ensures Transfer(Genesis(), "alice", "bob", 30) == (true, map["alice" := 70, "bob" := 80])
    ensures Transfer(map["alice" := 70, "bob" := 80], "alice", "bob", 1000) ==
      (false, map["alice" := 70, "bob" := 80])
  {
    var after := Transfer(Genesis(), "alice", "bob", 30).1;
    assert after.Keys == {"alice", "bob"};
    assert after == map["alice" := 70, "bob" := 80];
  }

  /** The ledger object the executor holds: its one field is changed in place by transfers. */
  class State {
    var balances: Balances

    /** `State::new`: the map built by two successive inserts. */
    constructor New()
      ensures balances == Genesis()
    {
      var b: Balances := map[];
      b := b["alice" := 100];
      b := b["bob" := 50];
      balances := b;
    }

    /** A state rebuilt from the balances of a parsed snapshot. */
    constructor FromBalances(b: Balances)
      ensures balances == b
    {
      balances := b;
    }

    /**
     * `apply_transaction`: reads the sender's balance (0 when absent), refuses when it is
     * below `amount`, and otherwise debits the sender and credits the receiver through
     * their entries, each inserted as 0 first when absent.
     */
    method ApplyTransaction(sender: string, receiver: string, amount: u64) returns (ok: bool)
      requires NoOverflow(balances, sender, receiver, amount)
      modifies this
      ensures (ok, balances) == Transfer(old(balances), sender, receiver, amount)
    {
      ghost var before := balances;
      var senderBalance := if sender in balances then balances[sender] else 0;
      if senderBalance < amount {
        return false;
      }
      if sender !in balances {
        balances := balances[sender := 0];
      }
      balances := balances[sender := balances[sender] - amount];
      ghost var debited := balances;
      assert debited == before[sender := BalanceOf(before, sender) - amount];
      if receiver !in balances {
        balances := balances[receiver := 0];
      }
      balances := balances[receiver := balances[receiver] + amount];
      assert balances == debited[receiver := BalanceOf(debited, receiver) + amount];
      ok := true;
    }
  }
}
