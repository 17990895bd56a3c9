/** The transaction record: an immutable (sender, receiver, amount) triple. */
module Transactions {
  import opened Base

  datatype Transaction = Transaction(sender: string, receiver: string, amount: u64)

  /**
   * `Transaction::new`: copies its three arguments into a record. It validates nothing:
   * every argument triple, including a zero amount, empty names and a sender that is also
   * the receiver, gives a record holding exactly those values.
   */
  function New(sender: string, receiver: string, amount: u64): (t: Transaction)
    ensures t.sender == sender && t.receiver == receiver && t.amount == amount
  {
    Transaction(sender, receiver, amount)
  }

  /** Two calls of `New` give the same record exactly when their arguments agree. */
  lemma NewInjective(s1: string, r1: string, a1: u64, s2: string, r2: string, a2: u64)
    ensures New(s1, r1, a1) == New(s2, r2, a2) <==> s1 == s2 && r1 == r2 && a1 == a2
  {
  }
}
