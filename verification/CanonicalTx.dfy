/** TransactionBuilder of crates/solana/src/lib.rs: the fixed-width canonical bytes. Strings are
    their UTF-8 bytes; the clock reading and the hash are arguments. */
module CanonicalTx {
  import opened Wrappers
  import opened Bytes

  datatype Order = Order(isSol: bool, amount: U64, destination: Bytes, token: Bytes, blockhash: Option<Bytes>, fee: U64)

  function Min(a: nat, b: nat): nat {
    if a < b then a else b
  }

  /** Truncated to 32 bytes, or filled up with NUL bytes. */
  function Slot(s: Bytes): (r: Bytes)
    ensures |r| == 32
  {
    s[..Min(|s|, 32)] + Zeros(32 - Min(|s|, 32))
  }

  function BlockhashSlot(h: Hash, blockhash: Option<Bytes>): (r: Bytes)
    ensures |r| == 32
  {
    if blockhash.Some? then h(blockhash.value) else Zeros(32)
  }

  /** The eight fields, in order, ahead of each other. */
  function Layout(h: Hash, o: Order, now: U64): (r: Bytes)
    ensures |r| == 153
  {
    Zeros(32) + ([if o.isSol then 0 else 1] + (BigEndian(o.amount, 8) + (Slot(o.destination) + (Slot(o.token)
    + (BlockhashSlot(h, o.blockhash) + (BigEndian(o.fee, 8) + BigEndian(now, 8)))))))
  }

  class TransactionBuilder {
    var walletId: Bytes
    var destination: Bytes
    var token: Bytes
    var amount: U64
    var blockhash: Option<Bytes>
    var priorityFee: U64
    var isSolTransfer: bool

    function Contents(): Order
      reads this
    {
      Order(isSolTransfer, amount, destination, token, blockhash, priorityFee)
    }

    constructor SolTransfer(walletId: Bytes, destination: Bytes, amount: U64)
      ensures Contents() == Order(true, amount, destination, [83, 79, 76], None, 0) && this.walletId == walletId
    {
      this.walletId, this.destination, this.amount := walletId, destination, amount;
      token, blockhash, priorityFee, isSolTransfer := [83, 79, 76], None, 0, true;
    }

    constructor TokenTransfer(walletId: Bytes, token: Bytes, destination: Bytes, amount: U64)
      ensures Contents() == Order(false, amount, destination, token, None, 0) && this.walletId == walletId
    {
      this.walletId, this.destination, this.amount, this.token := walletId, destination, amount, token;
      blockhash, priorityFee, isSolTransfer := None, 0, false;
    }

    method SetBlockhash(blockhash: Bytes)
      modifies this
      ensures Contents() == old(Contents()).(blockhash := Some(blockhash)) && walletId == old(walletId)
    {
      this.blockhash := Some(blockhash);
    }

    method SetPriorityFee(fee: U64)
      modifies this
      ensures Contents() == old(Contents()).(fee := fee) && walletId == old(walletId)
    {
      priorityFee := fee;
    }

    method Build(h: Hash, now: U64) returns (txBytes: Bytes)
      ensures txBytes == Layout(h, Contents(), now) && |txBytes| == 153
    {
      txBytes := Zeros(32);
      var txType: Byte := if isSolTransfer then 0 else 1;
      txBytes := txBytes + [txType];
      txBytes := txBytes + BigEndian(amount, 8);
      var destSlot := PadInto(destination);
      txBytes := txBytes + destSlot;
      var tokenSlot := PadInto(token);
      txBytes := txBytes + tokenSlot;
      var bhSlot: Bytes := Zeros(32);
      if blockhash.Some? {
        bhSlot := h(blockhash.value);
      }
      txBytes := txBytes + bhSlot;
      txBytes := txBytes + BigEndian(priorityFee, 8);
      txBytes := txBytes + BigEndian(now, 8);
      Reassociate([txType], BigEndian(amount, 8), destSlot, tokenSlot, bhSlot, BigEndian(priorityFee, 8), BigEndian(now, 8));
    }
  }

  lemma Reassociate(a: Bytes, b: Bytes, c: Bytes, d: Bytes, e: Bytes, f: Bytes, g: Bytes)
    ensures Zeros(32) + a + b + c + d + e + f + g == Zeros(32) + (a + (b + (c + (d + (e + (f + g))))))
  {
  }

  /** A zeroed 32-byte array, then the leading bytes copied over it. */
  method PadInto(s: Bytes) returns (padded: Bytes)
    ensures padded == Slot(s)
  {
    padded := Zeros(32);
    var len := Min(|s|, 32);
    var i := 0;
    while i < len
      invariant 0 <= i <= len
      invariant padded == s[..i] + Zeros(32 - i)
    {
      padded := padded[i := s[i]];
      i := i + 1;
    }
  }

  // --------------------------------------------------------------- decoder

  /** Drop the trailing NUL bytes. */
  function Trim(b: Bytes): (r: Bytes)
    ensures |r| <= |b|
  {
    if |b| > 0 && b[|b| - 1] == 0 then Trim(b[..|b| - 1]) else b
  }

  /** At most 32 bytes, the last one not NUL: what a slot can carry. */
  predicate FitsSlot(s: Bytes) {
    |s| <= 32 && (|s| > 0 ==> s[|s| - 1] != 0)
  }

  lemma {:induction false} TrimZeros(s: Bytes, n: nat)
    requires |s| > 0 ==> s[|s| - 1] != 0
    ensures Trim(s + Zeros(n)) == s
  {
    if n == 0 {
      assert s + Zeros(0) == s;
    } else {
      assert (s + Zeros(n))[..|s| + n - 1] == s + Zeros(n - 1);
      TrimZeros(s, n - 1);
    }
  }

  lemma {:induction false} TrimmedEnd(b: Bytes)
    ensures |Trim(b)| > 0 ==> Trim(b)[|Trim(b)| - 1] != 0
  {
    if |b| == 0 || b[|b| - 1] != 0 {
    } else {
      TrimmedEnd(b[..|b| - 1]);
    }
  }

  /** A slot gives back exactly the strings that fit it. */
  lemma SlotRoundTripIff(s: Bytes)
    ensures Trim(Slot(s)) == s <==> FitsSlot(s)
  {
    TrimmedEnd(Slot(s));
    if FitsSlot(s) {
      assert s[..|s|] == s;
      TrimZeros(s, 32 - |s|);
    }
  }

  datatype Decoded = Decoded(isSol: bool, amount: nat, destination: Bytes, token: Bytes, blockhashSlot: Bytes,
                             fee: nat, timestamp: nat)

  function Decode(b: Bytes): Decoded
    requires |b| == 153
  {
    Decoded(b[32] == 0, FromBigEndian(b[33..41]), Trim(b[41..73]), Trim(b[73..105]), b[105..137],
            FromBigEndian(b[137..145]), FromBigEndian(b[145..153]))
  }

  lemma FieldsAt(z: Bytes, a: Bytes, b: Bytes, c: Bytes, d: Bytes, e: Bytes, f: Bytes, g: Bytes)
    requires |z| == 32 && |a| == 1 && |b| == 8 && |c| == 32 && |d| == 32 && |e| == 32 && |f| == 8 && |g| == 8
    ensures var r := z + (a + (b + (c + (d + (e + (f + g))))));
            && |r| == 153 && r[32] == a[0] && r[33..41] == b && r[41..73] == c && r[73..105] == d && r[105..137] == e
            && r[137..145] == f && r[145..153] == g
  {
  }

  /** Every byte of the layout: 32 zeros, the type, the amount, destination and token cut to 32 bytes or
      filled up with zeros, the hash of the blockhash or zeros, the fee and the time. */
  lemma LayoutBytes(h: Hash, o: Order, now: U64)
    ensures var r := Layout(h, o, now);
            && r[..32] == Zeros(32) && r[32] == (if o.isSol then 0 else 1) && r[33..41] == BigEndian(o.amount, 8)
            && (forall i :: 0 <= i < 32 ==> r[41 + i] == if i < |o.destination| then o.destination[i] else 0)
            && (forall i :: 0 <= i < 32 ==> r[73 + i] == if i < |o.token| then o.token[i] else 0)
            && r[105..137] == (if o.blockhash.Some? then h(o.blockhash.value) else Zeros(32))
            && r[137..145] == BigEndian(o.fee, 8) && r[145..153] == BigEndian(now, 8)
  {
    hide BigEndian, Slot;
    FieldsAt(Zeros(32), [if o.isSol then 0 else 1], BigEndian(o.amount, 8), Slot(o.destination), Slot(o.token),
             BlockhashSlot(h, o.blockhash), BigEndian(o.fee, 8), BigEndian(now, 8));
    SlotBytes(o.destination);
    SlotBytes(o.token);
    var r := Layout(h, o, now);
    assert forall i :: 0 <= i < 32 ==> r[41 + i] == r[41..73][i];
    assert forall i :: 0 <= i < 32 ==> r[73 + i] == r[73..105][i];
  }

  lemma SlotBytes(s: Bytes)
    ensures forall i :: 0 <= i < 32 ==> Slot(s)[i] == if i < |s| then s[i] else 0
  {
  }

  /** The fixed-offset decoder recovers every field, the two strings up to what their slots hold. */
  lemma DecodeLayout(h: Hash, o: Order, now: U64)
    ensures Decode(Layout(h, o, now))
         == Decoded(o.isSol, o.amount, Trim(Slot(o.destination)), Trim(Slot(o.token)),
                    if o.blockhash.Some? then h(o.blockhash.value) else Zeros(32), o.fee, now)
  {
    hide Slot, Trim, FromBigEndian, BigEndian;
    EightBytesHoldU64();
    BigEndianRoundTrip(o.amount, 8);
    BigEndianRoundTrip(o.fee, 8);
    BigEndianRoundTrip(now, 8);
    FieldsAt(Zeros(32), [if o.isSol then 0 else 1], BigEndian(o.amount, 8), Slot(o.destination), Slot(o.token),
             BlockhashSlot(h, o.blockhash), BigEndian(o.fee, 8), BigEndian(now, 8));
  }

  /** Exactly the orders whose strings fit are recovered in full. */
  lemma DecodeIsFaithfulIff(h: Hash, o: Order, now: U64)
    ensures var d := Decode(Layout(h, o, now));
            && d.isSol == o.isSol && d.amount == o.amount && d.fee == o.fee && d.timestamp == now
            && (d.destination == o.destination && d.token == o.token <==> FitsSlot(o.destination) && FitsSlot(o.token))
  {
    hide Layout, Decode, Slot, Trim;
    DecodeLayout(h, o, now);
    SlotRoundTripIff(o.destination);
    SlotRoundTripIff(o.token);
  }

  /** At one clock reading, two orders whose strings fit have the same canonical bytes exactly when
      every field and the blockhash slot agree. */
  lemma CanonicalBytesBind(h: Hash, a: Order, b: Order, now: U64)
    requires FitsSlot(a.destination) && FitsSlot(a.token) && FitsSlot(b.destination) && FitsSlot(b.token)
    ensures Layout(h, a, now) == Layout(h, b, now) <==>
      && a.isSol == b.isSol && a.amount == b.amount && a.fee == b.fee
      && a.destination == b.destination && a.token == b.token
      && (if a.blockhash.Some? then h(a.blockhash.value) else Zeros(32))
         == (if b.blockhash.Some? then h(b.blockhash.value) else Zeros(32))
  {
    hide Decode, Slot, Trim, BigEndian;
    DecodeLayout(h, a, now);
    DecodeLayout(h, b, now);
    SlotRoundTripIff(a.destination);
    SlotRoundTripIff(a.token);
    SlotRoundTripIff(b.destination);
    SlotRoundTripIff(b.token);
  }
}
