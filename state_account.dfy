/**
 * The on-chain state account: a byte vector stored Borsh-encoded (a little-endian `u32`
 * length, then the bytes) at the start of the account's fixed-size data buffer.
 */
module StateAccounts {
  import opened Base

  /** How an I/O failure of the Borsh writer is classified. */
  datatype IoErrorKind =
    | InvalidData   // the vector is too long for a `u32` length prefix
    | WriteZero     // the buffer ended before the whole encoding was written

  /** The program errors of the Solana runtime that this program returns. */
  datatype ProgramError =
    | InvalidArgument
    | InvalidInstructionData
    | InvalidAccountData
    | BorshIoError(kind: IoErrorKind)

  /** An account as this program sees it: its data buffer, whose length never changes. */
  class AccountInfo {
    const data: array<byte>

    constructor (data: array<byte>)
      ensures this.data == data
    {
      this.data := data;
    }
  }

  datatype StateAccount = StateAccount(state: seq<byte>)

  /** The four little-endian bytes of a `u32`. */
  function Le32(n: nat): (b: seq<byte>)
    requires n < U32_LIMIT
    ensures |b| == 4 && Le32Value(b) == n
  {
    var q1 := n / 256;
    var q2 := q1 / 256;
    var q3 := q2 / 256;
    assert n == q1 * 256 + n % 256 && q1 == q2 * 256 + q1 % 256 && q2 == q3 * 256 + q2 % 256;
    [(n % 256) as byte, (q1 % 256) as byte, (q2 % 256) as byte, q3 as byte]
  }

  /** The `u32` that four little-endian bytes spell. */
  function Le32Value(b: seq<byte>): (n: nat)
    requires |b| == 4
    ensures n < U32_LIMIT
  {
    b[0] as nat + 256 * b[1] as nat + 65536 * b[2] as nat + 16777216 * b[3] as nat
  }

  /** Every four bytes are the encoding of the value they spell. */
  lemma Le32OfValue(b: seq<byte>)
    requires |b| == 4
    ensures Le32(Le32Value(b)) == b
  {
    var n := Le32Value(b);
    assert n / 256 == b[1] as int + 256 * b[2] as int + 65536 * b[3] as int;
    assert n / 256 / 256 == b[2] as int + 256 * b[3] as int;
    assert n / 256 / 256 / 256 == b[3] as int;
  }

  /** The Borsh encoding of the account: the state's length as a `u32`, then the state. */
  function Encode(a: StateAccount): (b: seq<byte>)
    requires |a.state| < U32_LIMIT
    ensures |b| == 4 + |a.state|
    ensures Decode(b) == Ok(a)
  {
    var b := Le32(|a.state|) + a.state;
    assert b[..4] == Le32(|a.state|) && b[4..] == a.state;
    b
  }

  /**
   * `try_from_slice`: reads the length prefix and that many bytes, and fails unless that
   * consumes the whole input; every failure is reported as `InvalidAccountData`.
   */
  function Decode(data: seq<byte>): (r: Result<StateAccount, ProgramError>)
    ensures r.Ok? <==> |data| >= 4 && Le32Value(data[..4]) == |data| - 4
    ensures r.Ok? ==> r.value.state == data[4..] && |r.value.state| < U32_LIMIT
    ensures r.Err? ==> r.error == InvalidAccountData
  {
    if |data| < 4 then Err(InvalidAccountData)
    else
      var len := Le32Value(data[..4]);
      if |data| - 4 < len then Err(InvalidAccountData)       // the bytes run out
      else if |data| - 4 > len then Err(InvalidAccountData)  // bytes are left over
      else Ok(StateAccount(data[4..]))
  }

  /** A decodable buffer is exactly one encoding: that of the account it decodes to. */
  lemma DecodeIsEncoding(data: seq<byte>)
    requires Decode(data).Ok?
    ensures |Decode(data).value.state| < U32_LIMIT && data == Encode(Decode(data).value)
  {
    Le32OfValue(data[..4]);
    assert data == data[..4] + data[4..];
  }

  /** An encoding followed by any further bytes does not decode. */
  lemma TrailingBytesRejected(a: StateAccount, extra: seq<byte>)
    requires |a.state| < U32_LIMIT && extra != []
    ensures Decode(Encode(a) + extra) == Err(InvalidAccountData)
  {
    var e := Encode(a);
    assert (e + extra)[..4] == e[..4];
  }

  /** `StateAccount::load`: decodes the account's whole data buffer. */
  function Load(account: AccountInfo): (r: Result<StateAccount, ProgramError>)
    reads account.data
    ensures r.Ok? ==> |r.value.state| < U32_LIMIT && Encode(r.value) == account.data[..]
    ensures r.Err? ==> r.error == InvalidAccountData
  {
    var r := Decode(account.data[..]);
    if r.Ok? then (DecodeIsEncoding(account.data[..]); r) else r
  }

  /**
   * The effect of `save` on a buffer: the result and the buffer afterwards. A state too long
   * for a `u32` length fails before anything is written. Otherwise the encoding is copied to
   * the front of the buffer; when it does not fit, the part that fits is written and the
   * write fails.
   */
  function SaveEffect(a: StateAccount, buf: seq<byte>): (r: (Result<(), ProgramError>, seq<byte>))
    ensures |r.1| == |buf|
    ensures r.0.Ok? <==> |a.state| < U32_LIMIT && 4 + |a.state| <= |buf|
    ensures r.0.Ok? ==> r.1[..4 + |a.state|] == Encode(a) && r.1[4 + |a.state|..] == buf[4 + |a.state|..]
    ensures |a.state| >= U32_LIMIT ==> r == (Err(BorshIoError(InvalidData)), buf)
    ensures |a.state| < U32_LIMIT && 4 + |a.state| > |buf| ==>
      r == (Err(BorshIoError(WriteZero)), Encode(a)[..|buf|])
  {
    if |a.state| >= U32_LIMIT then (Err(BorshIoError(InvalidData)), buf)
    else
      var enc := Encode(a);
      if |enc| <= |buf| then
        var after := enc + buf[|enc|..];
        assert after[..|enc|] == enc && after[|enc|..] == buf[|enc|..];
        (Ok(()), after)
      else (Err(BorshIoError(WriteZero)), enc[..|buf|])
  }

  /**
   * After a successful save the buffer decodes to the saved account exactly when the
   * encoding fills it; a shorter encoding leaves old bytes behind it, which decoding refuses.
   */
  lemma SavedReloadsIffExactFit(a: StateAccount, buf: seq<byte>)
    requires SaveEffect(a, buf).0.Ok?
    ensures Decode(SaveEffect(a, buf).1).Ok? <==> |buf| == 4 + |a.state|
    ensures Decode(SaveEffect(a, buf).1).Ok? ==> Decode(SaveEffect(a, buf).1).value == a
  {
    var after := SaveEffect(a, buf).1;
    var n := 4 + |a.state|;
    assert after[..4] == Encode(a)[..4] by {
      assert after[..4] == after[..n][..4];
    }
    assert Le32Value(Encode(a)[..4]) == |a.state|;
    if |buf| == n {
      assert after == Encode(a);
    }
  }

  /**
   * `StateAccount::save`: serialises the account into the account's data buffer in place.
   * The buffer keeps its length.
   */
  method Save(a: StateAccount, account: AccountInfo) returns (r: Result<(), ProgramError>)
    modifies account.data
    ensures (r, account.data[..]) == SaveEffect(a, old(account.data[..]))
  {
    if |a.state| >= U32_LIMIT {
      return Err(BorshIoError(InvalidData));
    }
    var enc := Le32(|a.state|) + a.state;
    var written := if |enc| <= account.data.Length then |enc| else account.data.Length;
    forall k | 0 <= k < written {
      account.data[k] := enc[k];
    }
    if written < |enc| {
      assert account.data[..] == enc[..written];
      return Err(BorshIoError(WriteZero));
    }
    assert account.data[..] == enc + old(account.data[..])[|enc|..];
    r := Ok(());
  }
}
