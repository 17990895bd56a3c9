/**
 * The on-chain instruction: check that an account was passed, check the proof, decode the
 * account's state, replace that state by the proof bytes and save it back. The proof
 * verifier is the parameter `verify`.
 */
module Processor {
  import opened Base
  import opened StateAccounts

  /**
   * The result of the instruction when an account is present, and the first account's data
   * afterwards. The proof is checked before the data is decoded, so a rejected proof is
   * reported whatever the data holds; nothing is written unless both checks pass.
   */
  function Outcome(verify: seq<byte> -> bool, proof: seq<byte>, data: seq<byte>): (r: (Result<(), ProgramError>, seq<byte>))
    ensures |r.1| == |data|
    ensures !verify(proof) ==> r == (Err(InvalidInstructionData), data)
    ensures verify(proof) && Decode(data).Err? ==> r == (Err(InvalidAccountData), data)
    ensures r.0.Ok? <==> verify(proof) && Decode(data).Ok? && 4 + |proof| <= |data|
    ensures r.0.Ok? ==>
      r.1[..4 + |proof|] == Encode(StateAccount(proof)) && r.1[4 + |proof|..] == data[4 + |proof|..]
  {
    if !verify(proof) then (Err(InvalidInstructionData), data)
    else
      match Decode(data)
      case Err(e) => (Err(e), data)
      case Ok(account) => SaveEffect(account.(state := proof), data)
  }

  /**
   * A successful instruction leaves an account that loads again exactly when the proof has
   * the length of the state it replaced, and then it loads as the proof. A shorter proof
   * leaves old bytes behind the new encoding, so every later load of the account fails.
   */
  lemma SuccessReloadsIffSameLength(verify: seq<byte> -> bool, proof: seq<byte>, data: seq<byte>)
    requires Outcome(verify, proof, data).0.Ok?
    ensures var after := Outcome(verify, proof, data).1;
      && (Decode(after).Ok? <==> |proof| == |Decode(data).value.state|)
      && (Decode(after).Ok? ==> Decode(after).value.state == proof)
  {
    SavedReloadsIffExactFit(StateAccount(proof), data);
  }

  /**
   * The stored state does not depend on what it replaces: two accounts of the same length
   * that both decode end with the same bytes after a successful instruction with a proof of
   * their state's length.
   */
  lemma PreviousStateDiscarded(verify: seq<byte> -> bool, proof: seq<byte>, data1: seq<byte>, data2: seq<byte>)
    requires Outcome(verify, proof, data1).0.Ok? && Outcome(verify, proof, data2).0.Ok?
    requires |data1| == |data2| == 4 + |proof|
    ensures Outcome(verify, proof, data1).1 == Outcome(verify, proof, data2).1 == Encode(StateAccount(proof))
  {
    assert Outcome(verify, proof, data1).1 == Outcome(verify, proof, data1).1[..4 + |proof|];
    assert Outcome(verify, proof, data2).1 == Outcome(verify, proof, data2).1[..4 + |proof|];
  }

  /**
   * A proof longer than the state it would replace cannot be saved: the instruction fails
   * with a Borsh I/O error even though the proof verifies and the account decodes. Either the
   * buffer runs out, or the proof is too long for a `u32` length at all.
   */
  lemma LongerProofFails(verify: seq<byte> -> bool, proof: seq<byte>, data: seq<byte>)
    requires verify(proof) && Decode(data).Ok? && |proof| > |Decode(data).value.state|
    ensures Outcome(verify, proof, data).0 ==
      Err(BorshIoError(if |proof| < U32_LIMIT then WriteZero else InvalidData))
  {
    var account := Decode(data).value;
    assert account.(state := proof) == StateAccount(proof);
  }

  /**
   * `process_instruction`: only the first account is read or written; an empty account
   * list is `InvalidArgument` with no effect.
   */
  method ProcessInstruction(verify: seq<byte> -> bool, accounts: seq<AccountInfo>, proof: seq<byte>)
    returns (r: Result<(), ProgramError>)
    modifies if accounts == [] then {} else {accounts[0].data}
    ensures accounts == [] ==> r == Err(InvalidArgument)
    ensures accounts != [] ==> (r, accounts[0].data[..]) == Outcome(verify, proof, old(accounts[0].data[..]))
  {
    if accounts == [] {
      return Err(InvalidArgument);
    }
    var account := accounts[0];
    if !verify(proof) {
      return Err(InvalidInstructionData);
    }
    var loaded := Load(account);
    if loaded.Err? {
      return Err(loaded.error);
    }
    var stateAccount := loaded.value.(state := proof);
    var saved := Save(stateAccount, account);
    if saved.Err? {
      return Err(saved.error);
    }
    r := Ok(());
  }
}
