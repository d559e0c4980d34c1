/** SolanaTransactionBuilder of services/api/core/transaction_builder.go: simulation, and the bytes
    that are hashed into the submitted transaction. Strings are their UTF-8 bytes; the formatted
    clock reading and the hash are arguments. */
module SimulatedTx {
  import opened Wrappers
  import opened Bytes
  import Decimal
  import ZkProof

  const MAX_FEE: int := 0x7FFF_FFFF_FFFF_FFFF

  /** A value of the int64 type. */
  type I64 = v: int | -MAX_FEE - 1 <= v <= MAX_FEE

  /** A UTC time in RFC 3339 form with seconds, such as 2024-01-31T12:00:00Z. */
  type Stamp = b: Bytes | |b| == 20 witness Zeros(20)

  datatype Fields = Fields(walletId: Bytes, token: Bytes, amount: Bytes, destination: Bytes, blockhash: Bytes, fee: I64)

  /** The strings as they are fed to the hasher, one right behind the other. */
  function Joined(f: Fields): Bytes {
    f.walletId + (f.token + (f.amount + (f.destination + f.blockhash)))
  }

  function Preimage(f: Fields, now: Stamp): Bytes {
    ZkProof.Ascii("vaultforge-tx-v1") + (Joined(f) + (LittleEndian(ZkProof.Low64(f.fee), 8) + now))
  }

  /** `v >> (8 * i)` on a signed integer: rounds down. */
  function SignedShift(v: int, i: nat): int
    decreases i
  {
    if i == 0 then v else SignedShift(v / 256, i - 1)
  }

  function Chars(b: Bytes): (r: string)
    ensures |r| == |b| && forall i :: 0 <= i < |b| ==> r[i] as int == b[i]
  {
    seq(|b|, i requires 0 <= i < |b| => b[i] as char)
  }

  datatype Simulation = Denied | Allowed(txBytes: Digest)

  class SolanaTransactionBuilder {
    const walletId: Bytes
    const token: Bytes
    const amount: Bytes
    const destination: Bytes
    var blockhash: Bytes
    var priorityFee: I64

    function Contents(): Fields
      reads this
    {
      Fields(walletId, token, amount, destination, blockhash, priorityFee)
    }

    constructor (walletId: Bytes, token: Bytes, amount: Bytes, destination: Bytes)
      ensures Contents() == Fields(walletId, token, amount, destination, [], 0)
    {
      this.walletId, this.token, this.amount, this.destination := walletId, token, amount, destination;
      blockhash, priorityFee := [], 0;
    }

    method SetBlockhash(blockhash: Bytes)
      modifies this
      ensures Contents() == old(Contents()).(blockhash := blockhash)
    {
      this.blockhash := blockhash;
    }

    method SetPriorityFee(fee: I64)
      modifies this
      ensures Contents() == old(Contents()).(fee := fee)
    {
      priorityFee := fee;
    }

    /** Refused with an error when the amount is no int64, denied when it is not positive. */
    method Simulate(h: Hash, now: Stamp) returns (r: Result<Simulation, Decimal.ParseIntError>)
      ensures match Decimal.ParseInt64(Chars(amount))
              case Err(e) => r == Err(e)
              case Ok(v) => r == Ok(if v <= 0 then Denied else Allowed(h(Preimage(Contents(), now))))
    {
      var amountVal := Decimal.ParseInt64(Chars(amount));
      if amountVal.Err? {
        return Err(amountVal.error);
      }
      if amountVal.value <= 0 {
        return Ok(Denied);
      }
      var txBytes := Build(h, now);
      r := Ok(Allowed(txBytes));
    }

    method Build(h: Hash, now: Stamp) returns (txBytes: Digest)
      ensures txBytes == h(Preimage(Contents(), now))
      ensures txBytes == h(ZkProof.Ascii("vaultforge-tx-v1") + walletId + token + amount + destination + blockhash
                           + LittleEndian(priorityFee % U64_LIMIT, 8) + now)
    {
      var hashed := ZkProof.Ascii("vaultforge-tx-v1");
      hashed := hashed + walletId;
      hashed := hashed + token;
      hashed := hashed + amount;
      hashed := hashed + destination;
      if blockhash != [] {
        hashed := hashed + blockhash;
      }
      var buf := new Byte[8];
      var i := 0;
      while i < 8
        invariant 0 <= i <= 8
        invariant forall k :: 0 <= k < i ==> buf[k] == LittleEndian(ZkProof.Low64(priorityFee), 8)[k]
      {
        SignedShiftBytes(priorityFee, i);
        buf[i] := SignedShift(priorityFee, i) % 256;
        i := i + 1;
      }
      assert buf[..] == LittleEndian(ZkProof.Low64(priorityFee), 8);
      hashed := hashed + buf[..];
      hashed := hashed + now;
      Reassociate(ZkProof.Ascii("vaultforge-tx-v1"), Contents(), buf[..], now);
      txBytes := h(hashed);
    }
  }

  lemma Reassociate(tag: Bytes, f: Fields, fee: Bytes, now: Bytes)
    ensures tag + f.walletId + f.token + f.amount + f.destination + f.blockhash + fee + now
         == tag + (Joined(f) + (fee + now))
    ensures f.blockhash == [] ==>
      tag + f.walletId + f.token + f.amount + f.destination + fee + now == tag + (Joined(f) + (fee + now))
  {
  }

  /** The hashed bytes: the five strings one behind the other, the fee's eight bytes in two's complement,
      least significant first, and the time. */
  lemma PreimageBytes(f: Fields, now: Stamp)
    ensures Preimage(f, now)
         == ZkProof.Ascii("vaultforge-tx-v1") + f.walletId + f.token + f.amount + f.destination + f.blockhash
            + LittleEndian(if f.fee < 0 then f.fee + 0x1_0000_0000_0000_0000 else f.fee, 8) + now
  {
    hide LittleEndian;
    Reassociate(ZkProof.Ascii("vaultforge-tx-v1"), f, LittleEndian(ZkProof.Low64(f.fee), 8), now);
    LowBitsOfFee(f.fee);
  }

  lemma LowBitsOfFee(fee: I64)
    ensures ZkProof.Low64(fee) == if fee < 0 then fee + 0x1_0000_0000_0000_0000 else fee
  {
  }

  lemma MultiplesAreFar(k: int, m: int)
    requires m >= 0
    ensures k >= 1 ==> k * m >= m
    ensures k <= -1 ==> k * m <= 0 - m
  {
    if k >= 1 {
      assert (k - 1) * m >= 0;
    } else if k <= -1 {
      assert (-k - 1) * m >= 0;
    }
  }

  lemma ModIsUnique(v: int, m: nat, q: int, r: nat)
    requires m > 0 && r < m && v == q * m + r
    ensures v % m == r
  {
    var q', r' := v / m, v % m;
    assert v == q' * m + r';
    assert (q - q') * m == r' - r;
    MultiplesAreFar(q - q', m);
  }

  lemma ModThenShift(v: int, c: nat)
    requires c > 0
    ensures (v % (256 * c)) % 256 == v % 256 && (v % (256 * c)) / 256 == (v / 256) % c
  {
    var q, r := v / 256, v % 256;
    var k, s := q / c, q % c;
    assert q == k * c + s;
    assert v == 256 * (k * c + s) + r;
    assert 256 * (k * c) == k * (256 * c);
    assert v == k * (256 * c) + (256 * s + r);
    assert s <= c - 1;
    assert 256 * s + r < 256 * c;
    ModIsUnique(v, 256 * c, k, 256 * s + r);
  }

  /** Two's complement: shifting the signed fee picks the bytes of its 64-bit pattern. */
  lemma {:induction false} ShiftedModulus(v: int, width: nat, i: nat)
    requires i < width
    ensures LittleEndian(v % Capacity(width), width)[i] == SignedShift(v, i) % 256
    decreases i
  {
    ModThenShift(v, Capacity(width - 1));
    if i == 0 {
    } else {
      ShiftedModulus(v / 256, width - 1, i - 1);
    }
  }

  lemma SignedShiftBytes(fee: I64, i: nat)
    requires i < 8
    ensures LittleEndian(ZkProof.Low64(fee), 8)[i] == SignedShift(fee, i) % 256
  {
    EightBytesHoldU64();
    ShiftedModulus(fee, 8, i);
  }

  lemma FeesEncodeApart(a: I64, b: I64)
    ensures LittleEndian(ZkProof.Low64(a), 8) == LittleEndian(ZkProof.Low64(b), 8) <==> a == b
  {
    U64EncodingsAreInjective(ZkProof.Low64(a), ZkProof.Low64(b));
  }

  lemma CutFromTheEnd(a: Bytes, a': Bytes, b: Bytes, b': Bytes)
    requires |b| == |b'|
    ensures a + b == a' + b' <==> a == a' && b == b'
  {
    if a + b == a' + b' {
      assert |a| == |a'|;
      assert (a + b)[..|a|] == a && (a' + b')[..|a'|] == a';
      assert (a + b)[|a|..] == b && (a' + b')[|a'|..] == b';
    }
  }

  lemma CutFromTheStart(a: Bytes, b: Bytes, b': Bytes)
    ensures a + b == a + b' <==> b == b'
  {
    assert (a + b)[|a|..] == b && (a + b')[|a|..] == b';
  }

  lemma JoinedInOrder(f: Fields)
    ensures Joined(f) == f.walletId + f.token + f.amount + f.destination + f.blockhash
  {
  }

  /** The hashed bytes determine the fee, the second and the joined strings, and nothing more: not
      where one string ends and the next begins. */
  lemma PreimageDetermines(f: Fields, now: Stamp, g: Fields, later: Stamp)
    ensures Preimage(f, now) == Preimage(g, later) <==>
      && f.walletId + f.token + f.amount + f.destination + f.blockhash
         == g.walletId + g.token + g.amount + g.destination + g.blockhash
      && f.fee == g.fee && now == later
  {
    JoinedInOrder(f);
    JoinedInOrder(g);
    var tag := ZkProof.Ascii("vaultforge-tx-v1");
    var a, b := LittleEndian(ZkProof.Low64(f.fee), 8), LittleEndian(ZkProof.Low64(g.fee), 8);
    CutFromTheStart(tag, Joined(f) + (a + now), Joined(g) + (b + later));
    CutFromTheEnd(Joined(f), Joined(g), a + now, b + later);
    CutFromTheEnd(a, b, now, later);
    FeesEncodeApart(f.fee, g.fee);
  }

  /** Changing a single field always changes the hashed bytes. */
  lemma OneFieldShows(f: Fields, g: Fields, now: Stamp)
    requires f != g
    requires || g == f.(walletId := g.walletId) || g == f.(token := g.token) || g == f.(amount := g.amount)
             || g == f.(destination := g.destination) || g == f.(blockhash := g.blockhash) || g == f.(fee := g.fee)
    ensures Preimage(f, now) != Preimage(g, now)
  {
    PreimageDetermines(f, now, g, now);
    JoinedInOrder(f);
    JoinedInOrder(g);
    if Joined(f) == Joined(g) && f.fee == g.fee {
      var a3, b3 := f.destination + f.blockhash, g.destination + g.blockhash;
      var a2, b2 := f.amount + a3, g.amount + b3;
      var a1, b1 := f.token + a2, g.token + b2;
      if f.walletId != g.walletId {
        CutFromTheEnd(f.walletId, g.walletId, a1, b1);
      } else {
        CutFromTheStart(f.walletId, a1, b1);
        if f.token != g.token {
          CutFromTheEnd(f.token, g.token, a2, b2);
        } else {
          CutFromTheStart(f.token, a2, b2);
          if f.amount != g.amount {
            CutFromTheEnd(f.amount, g.amount, a3, b3);
          } else {
            CutFromTheStart(f.amount, a3, b3);
            if f.destination != g.destination {
              CutFromTheEnd(f.destination, g.destination, f.blockhash, g.blockhash);
            } else {
              CutFromTheStart(f.destination, f.blockhash, g.blockhash);
            }
          }
        }
      }
    }
  }

  /** The simulated hash is the hash of the submitted bytes when both clock readings fall into one
      second, and otherwise only by a collision. */
  lemma SimulatedHashIsSubmittedIff(h: Hash, f: Fields, simulatedAt: Stamp, builtAt: Stamp)
    requires Preimage(f, simulatedAt) != Preimage(f, builtAt) ==> h(Preimage(f, simulatedAt)) != h(Preimage(f, builtAt))
    ensures h(Preimage(f, simulatedAt)) == h(Preimage(f, builtAt)) <==> simulatedAt == builtAt
  {
    PreimageDetermines(f, simulatedAt, f, builtAt);
  }
}
