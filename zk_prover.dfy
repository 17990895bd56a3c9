/**
 * The transfer circuit: a rank-1 constraint system over the BLS12-381 scalar field with
 * three private and two public variables, the witness the prover builds from `u64`
 * balances, and the public inputs the verifier recomputes.
 */
module ZkProver {
  import opened Base

  /** The order of the BLS12-381 scalar field (a prime above 2^254). */
  const R: int := 0x73eda753299d7d483339d80809a1d80553bda402fffe5bfeffffffff00000001

  /** A field element, as its canonical representative. */
  type Fr = x: int | 0 <= x < R

  const INSUFFICIENT_FUNDS: string := "Saldo insuficiente para a transação"
  const RECEIVER_OVERFLOW: string := "Erro ao adicionar saldo ao destinatário"

  /** `Fr::from(u64)`: a `u64` is its own representative, since `R` exceeds 2^64. */
  function FromU64(v: u64): (f: Fr)
    ensures f as int == v as int
  {
    v as int
  }

  lemma FromU64Injective(a: u64, b: u64)
    ensures FromU64(a) == FromU64(b) <==> a == b
  {
  }

  /** The five assignments of the circuit; `None` is an assignment the prover lacks. */
  datatype TransactionCircuit = TransactionCircuit(
    senderBalance: Option<Fr>,
    amount: Option<Fr>,
    receiverBalance: Option<Fr>,
    newSenderBalance: Option<Fr>,
    newReceiverBalance: Option<Fr>)

  datatype SynthesisError = AssignmentMissing

  /** A variable of the constraint system; input 0 is the constant one. */
  datatype Variable = Input(index: nat) | Aux(index: nat)

  const One: Variable := Input(0)

  /**
   * A linear combination: coefficient and variable pairs. `lc + v` adds coefficient 1 and
   * `lc - v` coefficient -1 (the field element R - 1).
   */
  type LinearCombination = seq<(int, Variable)>

  /** `a * b = c`, read modulo `R`. */
  datatype Constraint = Constraint(a: LinearCombination, b: LinearCombination, c: LinearCombination)

  /** The variable is allocated in the assignment. */
  predicate Allocates(v: Variable, inputs: seq<Fr>, aux: seq<Fr>) {
    match v
    case Input(i) => i < |inputs|
    case Aux(i) => i < |aux|
  }

  /** Every variable of `lc` is allocated in the assignment. */
  predicate InScope(lc: LinearCombination, inputs: seq<Fr>, aux: seq<Fr>) {
    forall k :: 0 <= k < |lc| ==> Allocates(lc[k].1, inputs, aux)
  }

  function Value(v: Variable, inputs: seq<Fr>, aux: seq<Fr>): int
    requires Allocates(v, inputs, aux)
  {
    match v
    case Input(i) => inputs[i]
    case Aux(i) => aux[i]
  }

  /** The value of a linear combination, before reduction modulo `R`. */
  function Eval(lc: LinearCombination, inputs: seq<Fr>, aux: seq<Fr>): int
    requires InScope(lc, inputs, aux)
  {
    if lc == [] then 0
    else
      assert InScope(lc[1..], inputs, aux) by {
        forall k | 0 <= k < |lc[1..]| ensures Allocates(lc[1..][k].1, inputs, aux) {
          assert lc[1..][k] == lc[k + 1];
        }
      }
      lc[0].0 * Value(lc[0].1, inputs, aux) + Eval(lc[1..], inputs, aux)
  }

  /** A two-term combination is the sum of its two scaled values. */
  lemma EvalPair(c1: int, v1: Variable, c2: int, v2: Variable, inputs: seq<Fr>, aux: seq<Fr>)
    requires Allocates(v1, inputs, aux) && Allocates(v2, inputs, aux)
    ensures InScope([(c1, v1), (c2, v2)], inputs, aux)
    ensures Eval([(c1, v1), (c2, v2)], inputs, aux) ==
      c1 * Value(v1, inputs, aux) + c2 * Value(v2, inputs, aux)
  {
    var lc := [(c1, v1), (c2, v2)];
    assert lc[1..] == [(c2, v2)];
    assert Eval([(c2, v2)], inputs, aux) == c2 * Value(v2, inputs, aux) by {
      assert [(c2, v2)][1..] == [];
    }
  }

  /** A one-term combination `lc + v` is the value of `v`. */
  lemma EvalSingle(v: Variable, inputs: seq<Fr>, aux: seq<Fr>)
    requires Allocates(v, inputs, aux)
    ensures InScope([(1, v)], inputs, aux)
    ensures Eval([(1, v)], inputs, aux) == Value(v, inputs, aux)
  {
    assert [(1, v)][1..] == [];
  }

  /** The assignment satisfies the constraint: `a * b` and `c` agree in the field. */
  predicate Satisfied(k: Constraint, inputs: seq<Fr>, aux: seq<Fr>) {
    && InScope(k.a, inputs, aux) && InScope(k.b, inputs, aux) && InScope(k.c, inputs, aux)
    && (Eval(k.a, inputs, aux) * Eval(k.b, inputs, aux) - Eval(k.c, inputs, aux)) % R == 0
  }

  predicate AllSatisfied(ks: seq<Constraint>, inputs: seq<Fr>, aux: seq<Fr>) {
    forall k :: 0 <= k < |ks| ==> Satisfied(ks[k], inputs, aux)
  }

  /**
   * The two constraints `synthesize` enforces, for private variables allocated from aux
   * index `a` (sender, amount, receiver) and public ones from input index `i`.
   */
  function TransferConstraints(a: nat, i: nat): (ks: seq<Constraint>)
    ensures |ks| == 2
  {
    [ Constraint([(1, Aux(a)), (-1, Aux(a + 1))], [(1, One)], [(1, Input(i))]),
      Constraint([(1, Aux(a + 2)), (1, Aux(a + 1))], [(1, One)], [(1, Input(i + 1))]) ]
  }

  /** The statement the circuit proves: both new balances follow from the old ones in `Fr`. */
  predicate TransferRelation(sender: Fr, amount: Fr, receiver: Fr, newSender: Fr, newReceiver: Fr) {
    && (sender - amount - newSender) % R == 0
    && (receiver + amount - newReceiver) % R == 0
  }

  /**
   * The constraints, over an assignment that extends any earlier one by the three private
   * and two public values, hold exactly when the transfer relation does.
   */
  lemma ConstraintsIffRelation(inputs0: seq<Fr>, aux0: seq<Fr>,
                               sender: Fr, amount: Fr, receiver: Fr, newSender: Fr, newReceiver: Fr)
    requires |inputs0| > 0 && inputs0[0] == 1
    ensures var inputs := inputs0 + [newSender, newReceiver];
      var aux := aux0 + [sender, amount, receiver];
      AllSatisfied(TransferConstraints(|aux0|, |inputs0|), inputs, aux) <==>
        TransferRelation(sender, amount, receiver, newSender, newReceiver)
  {
    var inputs := inputs0 + [newSender, newReceiver];
    var aux := aux0 + [sender, amount, receiver];
    var ks := TransferConstraints(|aux0|, |inputs0|);
    assert inputs[0] == 1 && inputs[|inputs0|] == newSender && inputs[|inputs0| + 1] == newReceiver;
    assert aux[|aux0|] == sender && aux[|aux0| + 1] == amount && aux[|aux0| + 2] == receiver;
    EvalPair(1, Aux(|aux0|), -1, Aux(|aux0| + 1), inputs, aux);
    EvalPair(1, Aux(|aux0| + 2), 1, Aux(|aux0| + 1), inputs, aux);
    EvalSingle(One, inputs, aux);
    EvalSingle(Input(|inputs0|), inputs, aux);
    EvalSingle(Input(|inputs0| + 1), inputs, aux);
    assert Satisfied(ks[0], inputs, aux) <==> (sender - amount - newSender) % R == 0;
    assert Satisfied(ks[1], inputs, aux) <==> (receiver + amount - newReceiver) % R == 0;
    assert AllSatisfied(ks, inputs, aux) <==> Satisfied(ks[0], inputs, aux) && Satisfied(ks[1], inputs, aux);
  }

  /** The assignments in allocation order. */
  function Assignments(c: TransactionCircuit): (s: seq<Option<Fr>>)
    ensures |s| == 5
  {
    [c.senderBalance, c.amount, c.receiverBalance, c.newSenderBalance, c.newReceiverBalance]
  }

  /** The values allocated before the first missing assignment stops synthesis. */
  function Allocated(values: seq<Option<Fr>>): (r: seq<Fr>)
    ensures |r| <= |values|
    ensures forall k :: 0 <= k < |r| ==> values[k] == Some(r[k])
    ensures |r| < |values| ==> values[|r|] == None
  {
    if values == [] || values[0].None? then [] else [values[0].value] + Allocated(values[1..])
  }

  /** The allocated prefix ends at the first missing assignment. */
  lemma AllocatedUpTo(values: seq<Option<Fr>>, n: nat)
    requires n < |values| && values[n].None?
    requires forall k :: 0 <= k < n ==> values[k].Some?
    ensures |Allocated(values)| == n
  {
  }

  /** Synthesis allocates everything exactly when no assignment is missing. */
  lemma AllocatedAllIffComplete(values: seq<Option<Fr>>)
    ensures |Allocated(values)| == |values| <==> forall k :: 0 <= k < |values| ==> values[k].Some?
  {
  }

  /** The allocated prefix of a circuit, spelled out for each first missing assignment. */
  lemma AllocatedCases(c: TransactionCircuit)
    ensures var vals := Allocated(Assignments(c));
      if c.senderBalance.None? then vals == []
      else if c.amount.None? then vals == [c.senderBalance.value]
      else if c.receiverBalance.None? then vals == [c.senderBalance.value, c.amount.value]
      else if c.newSenderBalance.None? then vals == [c.senderBalance.value, c.amount.value, c.receiverBalance.value]
      else if c.newReceiverBalance.None? then
        vals == [c.senderBalance.value, c.amount.value, c.receiverBalance.value, c.newSenderBalance.value]
      else
        vals == [c.senderBalance.value, c.amount.value, c.receiverBalance.value, c.newSenderBalance.value,
          c.newReceiverBalance.value]
  {
    var values := Assignments(c);
    if c.senderBalance.None? {
      AllocatedUpTo(values, 0);
    } else if c.amount.None? {
      AllocatedUpTo(values, 1);
    } else if c.receiverBalance.None? {
      AllocatedUpTo(values, 2);
    } else if c.newSenderBalance.None? {
      AllocatedUpTo(values, 3);
    } else if c.newReceiverBalance.None? {
      AllocatedUpTo(values, 4);
    } else {
      AllocatedAllIffComplete(values);
    }
  }

  /** A constraint system in proving mode: the assignment so far and the constraints. */
  class ProvingSystem {
    /** Public values; entry 0 is the constant one. */
    var inputs: seq<Fr>
    /** Private values. */
    var aux: seq<Fr>
    var constraints: seq<Constraint>

    constructor ()
      ensures inputs == [1] && aux == [] && constraints == []
    {
      inputs := [1];
      aux := [];
      constraints := [];
    }

    /** `alloc`: evaluates the assignment and appends it as a private variable. */
    method Alloc(value: Option<Fr>) returns (r: Result<Variable, SynthesisError>)
      modifies this
      ensures inputs == old(inputs) && constraints == old(constraints)
      ensures value.None? ==> r == Err(AssignmentMissing) && aux == old(aux)
      ensures value.Some? ==> r == Ok(Aux(|old(aux)|)) && aux == old(aux) + [value.value]
    {
      if value.None? {
        return Err(AssignmentMissing);
      }
      r := Ok(Aux(|aux|));
      aux := aux + [value.value];
    }

    /** `alloc_input`: evaluates the assignment and appends it as a public variable. */
    method AllocInput(value: Option<Fr>) returns (r: Result<Variable, SynthesisError>)
      modifies this
      ensures aux == old(aux) && constraints == old(constraints)
      ensures value.None? ==> r == Err(AssignmentMissing) && inputs == old(inputs)
      ensures value.Some? ==> r == Ok(Input(|old(inputs)|)) && inputs == old(inputs) + [value.value]
    {
      if value.None? {
        return Err(AssignmentMissing);
      }
      r := Ok(Input(|inputs|));
      inputs := inputs + [value.value];
    }

    /** `enforce`: records `a * b = c`. */
    method Enforce(a: LinearCombination, b: LinearCombination, c: LinearCombination)
      modifies this
      ensures inputs == old(inputs) && aux == old(aux)
      ensures constraints == old(constraints) + [Constraint(a, b, c)]
    {
      constraints := constraints + [Constraint(a, b, c)];
    }
  }

  /**
   * `synthesize`: allocates sender, amount and receiver privately and the two new balances
   * publicly, in that order, then enforces the two transfer constraints. The first missing
   * assignment returns `AssignmentMissing`, with the values before it allocated and no
   * constraint enforced.
   */
  method Synthesize(circuit: TransactionCircuit, cs: ProvingSystem) returns (r: Result<(), SynthesisError>)
    modifies cs
    ensures var vals := Allocated(Assignments(circuit));
      var split := if |vals| < 3 then |vals| else 3;
      && cs.aux == old(cs.aux) + vals[..split]
      && cs.inputs == old(cs.inputs) + vals[split..]
      && (r.Ok? <==> |vals| == 5)
      && (r.Err? ==> r.error == AssignmentMissing && cs.constraints == old(cs.constraints))
      && (r.Ok? ==> cs.constraints == old(cs.constraints) + TransferConstraints(|old(cs.aux)|, |old(cs.inputs)|))
  {
    AllocatedCases(circuit);
    var sender := cs.Alloc(circuit.senderBalance);
    if sender.Err? {
      return Err(sender.error);
    }
    var amount := cs.Alloc(circuit.amount);
    if amount.Err? {
      return Err(amount.error);
    }
    var receiver := cs.Alloc(circuit.receiverBalance);
    if receiver.Err? {
      return Err(receiver.error);
    }
    var newSender := cs.AllocInput(circuit.newSenderBalance);
    if newSender.Err? {
      return Err(newSender.error);
    }
    var newReceiver := cs.AllocInput(circuit.newReceiverBalance);
    if newReceiver.Err? {
      return Err(newReceiver.error);
    }
    cs.Enforce([(1, sender.value), (-1, amount.value)], [(1, One)], [(1, newSender.value)]);
    cs.Enforce([(1, receiver.value), (1, amount.value)], [(1, One)], [(1, newReceiver.value)]);
    r := Ok(());
  }

  /**
   * The witness `generate_proof` builds: the sender's balance minus the amount and the
   * receiver's plus the amount, each checked in `u64`; either check failing panics.
   */
  function GenerateWitness(sender: u64, amount: u64, receiver: u64): (r: Exit<TransactionCircuit>)
    ensures r.Returned? <==> amount <= sender && receiver as int + amount as int < U64_LIMIT
    ensures amount > sender ==> r == Panicked(INSUFFICIENT_FUNDS)
    ensures amount <= sender && receiver as int + amount as int >= U64_LIMIT ==> r == Panicked(RECEIVER_OVERFLOW)
    ensures r.Returned? ==>
      r.value == TransactionCircuit(Some(sender as int), Some(amount as int), Some(receiver as int),
        Some(sender as int - amount as int), Some(receiver as int + amount as int))
  {
    if sender < amount then Panicked(INSUFFICIENT_FUNDS)
    else if receiver as int + amount as int >= U64_LIMIT then Panicked(RECEIVER_OVERFLOW)
    else
      var newSender := sender - amount;
      var newReceiver := receiver + amount;
      Returned(TransactionCircuit(Some(FromU64(sender)), Some(FromU64(amount)), Some(FromU64(receiver)),
        Some(FromU64(newSender)), Some(FromU64(newReceiver))))
  }

  /** The prover's witness has every assignment, so its synthesis allocates all five. */
  lemma WitnessIsComplete(sender: u64, amount: u64, receiver: u64)
    requires GenerateWitness(sender, amount, receiver).Returned?
    ensures |Allocated(Assignments(GenerateWitness(sender, amount, receiver).value))| == 5
  {
    AllocatedAllIffComplete(Assignments(GenerateWitness(sender, amount, receiver).value));
  }

  /**
   * The prover's witness, synthesised into any proving system that holds the constant one,
   * satisfies both transfer constraints.
   */
  lemma WitnessSatisfiesConstraints(sender: u64, amount: u64, receiver: u64, inputs0: seq<Fr>, aux0: seq<Fr>)
    requires GenerateWitness(sender, amount, receiver).Returned?
    requires |inputs0| > 0 && inputs0[0] == 1
    ensures var c := GenerateWitness(sender, amount, receiver).value;
      AllSatisfied(TransferConstraints(|aux0|, |inputs0|),
        inputs0 + [c.newSenderBalance.value, c.newReceiverBalance.value],
        aux0 + [c.senderBalance.value, c.amount.value, c.receiverBalance.value])
  {
    var c := GenerateWitness(sender, amount, receiver).value;
    ConstraintsIffRelation(inputs0, aux0, c.senderBalance.value, c.amount.value, c.receiverBalance.value,
      c.newSenderBalance.value, c.newReceiverBalance.value);
  }

  /**
   * The public inputs `verify_proof` recomputes: the two new balances, sender first. The
   * same checked arithmetic as the prover's runs first and panics in the same cases.
   */
  function PublicInputs(sender: u64, amount: u64, receiver: u64): (r: Exit<seq<Fr>>)
    ensures r.Returned? ==> |r.value| == 2
  {
    if sender < amount then Panicked(INSUFFICIENT_FUNDS)
    else if receiver as int + amount as int >= U64_LIMIT then Panicked(RECEIVER_OVERFLOW)
    else
      var newSender := sender - amount;
      var newReceiver := receiver + amount;
      Returned([FromU64(newSender), FromU64(newReceiver)])
  }

  /**
   * The verifier's public inputs are exactly the prover's public assignments, in the order
   * `synthesize` allocates them; the two panic on the same arguments with the same message.
   */
  lemma PublicInputsMatchWitness(sender: u64, amount: u64, receiver: u64)
    ensures PublicInputs(sender, amount, receiver).Panicked? <==> GenerateWitness(sender, amount, receiver).Panicked?
    ensures PublicInputs(sender, amount, receiver).Panicked? ==>
      PublicInputs(sender, amount, receiver).message == GenerateWitness(sender, amount, receiver).message
    ensures GenerateWitness(sender, amount, receiver).Returned? ==>
      PublicInputs(sender, amount, receiver).value ==
        Allocated(Assignments(GenerateWitness(sender, amount, receiver).value))[3..]
  {
    var w := GenerateWitness(sender, amount, receiver);
    if w.Returned? {
      var vals := Allocated(Assignments(w.value));
      WitnessIsComplete(sender, amount, receiver);
      assert vals[3..] == [vals[3], vals[4]];
    }
  }

  datatype VerificationError = InvalidVerifyingKey | InvalidProof

  /**
   * `verify_proof`, with the groth16 pairing check as the parameter `backend` applied to the
   * public inputs: a backend error is reported as `false`.
   */
  function VerifyProof(backend: seq<Fr> -> Result<(), VerificationError>, sender: u64, amount: u64, receiver: u64): (r: Exit<bool>)
    ensures r.Returned? <==> amount <= sender && receiver as int + amount as int < U64_LIMIT
    ensures r.Returned? ==> (r.value <==> backend([FromU64(sender - amount), FromU64(receiver + amount)]).Ok?)
  {
    var inputs := PublicInputs(sender, amount, receiver);
    if inputs.Panicked? then Panicked(inputs.message)
    else
      match backend(inputs.value)
      case Ok(_) => Returned(true)
      case Err(_) => Returned(false)
  }

  /**
   * As written, the relation has no range check: a sender holding less than the amount can
   * still "send" it, with the new sender balance wrapping to the large field element
   * sender - amount + R, which is no `u64`.
   */
  lemma RelationAdmitsOverdraft(sender: u64, amount: u64, receiver: u64)
    requires sender < amount
    ensures sender as int - amount as int + R >= U64_LIMIT
    ensures TransferRelation(FromU64(sender), FromU64(amount), FromU64(receiver),
      sender as int - amount as int + R, receiver as int + amount as int)
  {
  }

  /** The statement with all five values also required to be `u64` values. */
  predicate RangeCheckedRelation(sender: Fr, amount: Fr, receiver: Fr, newSender: Fr, newReceiver: Fr) {
    && TransferRelation(sender, amount, receiver, newSender, newReceiver)
    && sender < U64_LIMIT && amount < U64_LIMIT && receiver < U64_LIMIT
    && newSender < U64_LIMIT && newReceiver < U64_LIMIT
  }

  /**
   * For any field elements, the range-checked relation holds exactly for the honest
   * transfer: the three private values are `u64` values, the sender can pay, the receiver
   * does not overflow, and the new balances are the difference and the sum.
   */
  lemma RangeCheckedIffSufficient(sender: Fr, amount: Fr, receiver: Fr, newSender: Fr, newReceiver: Fr)
    ensures RangeCheckedRelation(sender, amount, receiver, newSender, newReceiver) <==>
      && sender < U64_LIMIT && amount < U64_LIMIT && receiver < U64_LIMIT
      && amount <= sender && receiver + amount < U64_LIMIT
      && newSender == sender - amount && newReceiver == receiver + amount
  {
    var d := sender - amount - newSender;
    var e := receiver + amount - newReceiver;
    if RangeCheckedRelation(sender, amount, receiver, newSender, newReceiver) {
      assert -2 * U64_LIMIT < d < U64_LIMIT && d % R == 0;
      ModZeroInSmallRange(d);
      assert -U64_LIMIT < e < 2 * U64_LIMIT && e % R == 0;
      ModZeroInSmallRange(e);
    }
  }

  /** A multiple of `R` strictly between -R and R is 0. */
  lemma ModZeroInSmallRange(x: int)
    requires -R < x < R && x % R == 0
    ensures x == 0
  {
    assert x == R * (x / R);
    assert -1 < x / R < 1;
  }

  /** The prover's witness satisfies the range-checked relation, not only the bare one. */
  lemma WitnessIsRangeChecked(sender: u64, amount: u64, receiver: u64)
    requires GenerateWitness(sender, amount, receiver).Returned?
    ensures var c := GenerateWitness(sender, amount, receiver).value;
      RangeCheckedRelation(c.senderBalance.value, c.amount.value, c.receiverBalance.value,
        c.newSenderBalance.value, c.newReceiverBalance.value)
  {
  }
}
