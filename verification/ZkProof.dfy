/** The hash-based policy proof, written once in Rust (crates/zk/src/lib.rs) and once in Go
    (services/api/core/zk_verifier.go). The hash is abstract and blinding factors are inputs;
    strings are their UTF-8 bytes, and a proof is taken after decoding. */
module ZkProof {
  import opened Wrappers
  import opened Bytes
  import Decimal

  const ZERO: Digest := Zeros(32)

  datatype PublicInputs = PublicInputs(amount: U64, policyVersion: Bytes, intentId: Bytes, walletId: Bytes)

  datatype Triple = Triple(daily: Digest, amount: Digest, diff: Digest)

  datatype Proof = Proof(commitments: Triple, challenge: Digest, responses: Triple, public: PublicInputs)

  // -------------------------------------------------------- what is hashed

  function Ascii(s: string): (r: Bytes)
    ensures |r| == |s| && forall i :: 0 <= i < |s| && s[i] as int < 0x80 ==> r[i] == s[i] as int
  {
    seq(|s|, i requires 0 <= i < |s| => LowByte(s[i] as int))
  }

  /** The public strings as both sides feed them to the hasher: unseparated. */
  function Binding(p: PublicInputs): Bytes {
    p.policyVersion + p.intentId + p.walletId
  }

  function DomainOf(h: Hash, p: PublicInputs): Digest {
    h(Ascii("vaultforge-zk-domain-v1") + Binding(p))
  }

  function Commit(h: Hash, value: U64, blinding: Digest, domain: Digest): Digest {
    h(Ascii("vaultforge-zk-commit-v1") + domain + LittleEndian(value, 8) + blinding)
  }

  function Transcript(c: Triple, p: PublicInputs): Bytes {
    Ascii("vaultforge-zk-challenge-v1") + (c.daily + (c.amount + (c.diff + (LittleEndian(p.amount, 8) + Binding(p)))))
  }

  function ResponseCheck(h: Hash, commitment: Digest, challenge: Digest, domain: Digest): Digest {
    h(Ascii("vaultforge-zk-response-check-v1") + domain + challenge + commitment)
  }

  function Responses(h: Hash, c: Triple, challenge: Digest, domain: Digest): Triple {
    Triple(ResponseCheck(h, c.daily, challenge, domain),
           ResponseCheck(h, c.amount, challenge, domain),
           ResponseCheck(h, c.diff, challenge, domain))
  }

  // ------------------------------------------------------------ acceptance

  datatype VerifyError = Undecodable | ZeroAmount | EmptyIntentId

  /** Challenge and responses are the ones the transcript determines. */
  predicate Consistent(h: Hash, p: Proof) {
    && p.challenge == h(Transcript(p.commitments, p.public))
    && p.responses == Responses(h, p.commitments, p.challenge, DomainOf(h, p.public))
  }

  predicate AnyZero(t: Triple) {
    t.daily == ZERO || t.amount == ZERO || t.diff == ZERO
  }

  function Verdict(h: Hash, p: Proof): Result<bool, VerifyError> {
    if p.public.amount == 0 then Err(ZeroAmount)
    else if p.public.intentId == [] then Err(EmptyIntentId)
    else Ok(Consistent(h, p) && !AnyZero(p.commitments) && !AnyZero(p.responses))
  }

  method RustVerify(h: Hash, p: Proof) returns (r: Result<bool, VerifyError>)
    ensures r == Verdict(h, p)
  {
    if p.public.amount == 0 {
      return Err(ZeroAmount);
    }
    if |p.public.intentId| == 0 {
      return Err(EmptyIntentId);
    }
    var domain := DomainOf(h, p.public);
    var expected := h(Transcript(p.commitments, p.public));
    var same := ConstantTimeEq(p.challenge, expected);
    if !same {
      return Ok(false);
    }
    if p.commitments.daily == ZERO {
      return Ok(false);
    }
    if p.commitments.amount == ZERO {
      return Ok(false);
    }
    if p.commitments.diff == ZERO {
      return Ok(false);
    }
    if p.responses.daily == ZERO {
      return Ok(false);
    }
    if p.responses.amount == ZERO {
      return Ok(false);
    }
    if p.responses.diff == ZERO {
      return Ok(false);
    }
    same := ConstantTimeEq(p.responses.daily, ResponseCheck(h, p.commitments.daily, p.challenge, domain));
    if !same {
      return Ok(false);
    }
    same := ConstantTimeEq(p.responses.amount, ResponseCheck(h, p.commitments.amount, p.challenge, domain));
    if !same {
      return Ok(false);
    }
    same := ConstantTimeEq(p.responses.diff, ResponseCheck(h, p.commitments.diff, p.challenge, domain));
    r := Ok(same);
  }

  method AnyAllZero(t: Triple) returns (r: bool)
    ensures r <==> AnyZero(t)
  {
    r := IsAllZero(t.daily);
    if !r {
      r := IsAllZero(t.amount);
    }
    if !r {
      r := IsAllZero(t.diff);
    }
  }

  /** `None` is a nil, empty or undecodable proof. */
  method GoVerify(h: Hash, proof: Option<Proof>) returns (r: Result<bool, VerifyError>)
    ensures r == if proof.None? then Err(Undecodable) else Verdict(h, proof.value)
  {
    if proof.None? {
      return Err(Undecodable);
    }
    var p := proof.value;
    if p.public.amount == 0 {
      return Err(ZeroAmount);
    }
    if |p.public.intentId| == 0 {
      return Err(EmptyIntentId);
    }
    var domain := DomainOf(h, p.public);
    var amountBytes := ShiftLoopBytes(p.public.amount);
    var c := p.commitments;
    var expected := h(Ascii("vaultforge-zk-challenge-v1") + (c.daily + (c.amount + (c.diff + (amountBytes[..] + Binding(p.public))))));
    var same := BytesEqual(p.challenge, expected);
    if !same {
      return Ok(false);
    }
    var zero := AnyAllZero(p.commitments);
    if zero {
      return Ok(false);
    }
    zero := AnyAllZero(p.responses);
    if zero {
      return Ok(false);
    }
    same := BytesEqual(p.responses.daily, ResponseCheck(h, c.daily, p.challenge, domain));
    if !same {
      return Ok(false);
    }
    same := BytesEqual(p.responses.amount, ResponseCheck(h, c.amount, p.challenge, domain));
    if !same {
      return Ok(false);
    }
    same := BytesEqual(p.responses.diff, ResponseCheck(h, c.diff, p.challenge, domain));
    r := Ok(same);
  }

  /** The two verifiers answer alike on every decoded proof. */
  method VerifiersAgree(h: Hash, p: Proof) returns (rust: Result<bool, VerifyError>, go: Result<bool, VerifyError>)
    ensures rust == go == Verdict(h, p)
  {
    rust := RustVerify(h, p);
    go := GoVerify(h, Some(p));
  }

  // ----------------------------------------------------- acceptance in bytes

  /** The exact condition in bytes, the hash being the only function in it: the challenge hashes the
      three commitments in order, the amount and the public strings; each response hashes the domain,
      the challenge and its own commitment; nothing is all zero. */
  lemma AcceptedIff(h: Hash, p: Proof)
    ensures Verdict(h, p) == Err(ZeroAmount) <==> p.public.amount == 0
    ensures Verdict(h, p) == Err(EmptyIntentId) <==> p.public.amount > 0 && p.public.intentId == []
    ensures Verdict(h, p) == Ok(true) <==>
      && p.public.amount > 0 && p.public.intentId != []
      && var c, z, zero := p.commitments, p.responses, Zeros(32);
         var names := p.public.policyVersion + p.public.intentId + p.public.walletId;
         var domain := h(Ascii("vaultforge-zk-domain-v1") + names);
         var tag := Ascii("vaultforge-zk-response-check-v1");
         && p.challenge == h(Ascii("vaultforge-zk-challenge-v1") + c.daily + c.amount + c.diff
                             + LittleEndian(p.public.amount, 8) + names)
         && z.daily == h(tag + domain + p.challenge + c.daily)
         && z.amount == h(tag + domain + p.challenge + c.amount)
         && z.diff == h(tag + domain + p.challenge + c.diff)
         && c.daily != zero && c.amount != zero && c.diff != zero && z.daily != zero && z.amount != zero && z.diff != zero
  {
    hide Ascii, LittleEndian;
    TranscriptBytes(p.commitments, p.public);
  }

  lemma TranscriptBytes(c: Triple, p: PublicInputs)
    ensures Transcript(c, p) == Ascii("vaultforge-zk-challenge-v1") + c.daily + c.amount + c.diff
                                + LittleEndian(p.amount, 8) + (p.policyVersion + p.intentId + p.walletId)
  {
    hide Ascii, LittleEndian;
    SixParts(Ascii("vaultforge-zk-challenge-v1"), c.daily, c.amount, c.diff, LittleEndian(p.amount, 8),
             p.policyVersion + p.intentId + p.walletId);
  }

  lemma SixParts(a: Bytes, b: Bytes, c: Bytes, d: Bytes, e: Bytes, f: Bytes)
    ensures a + (b + (c + (d + (e + f)))) == a + b + c + d + e + f
  {
  }

  /** Where the parts of a response's or a commitment's hashed bytes are. */
  lemma PartsAt(tag: Bytes, domain: Digest, middle: Bytes, last: Digest)
    ensures var x, n := tag + domain + middle + last, |tag|;
            && |x| == n + 64 + |middle| && x[..n] == tag && x[n..n + 32] == domain
            && x[n + 32..n + 32 + |middle|] == middle && x[n + 32 + |middle|..] == last
  {
  }

  ghost predicate Collide(h: Hash, x: Bytes, y: Bytes) {
    x != y && h(x) == h(y)
  }

  /** A response is bound to its commitment: in an accepted proof two responses are equal exactly when
      their commitments are, unless the two byte strings named here collide. */
  lemma ResponsesBind(h: Hash, p: Proof)
    requires Verdict(h, p) == Ok(true)
    ensures var c, z := p.commitments, p.responses;
            var domain := h(Ascii("vaultforge-zk-domain-v1") + (p.public.policyVersion + p.public.intentId + p.public.walletId));
            var front := Ascii("vaultforge-zk-response-check-v1") + domain + p.challenge;
            && (Collide(h, front + c.daily, front + c.amount) || (z.daily == z.amount <==> c.daily == c.amount))
            && (Collide(h, front + c.daily, front + c.diff) || (z.daily == z.diff <==> c.daily == c.diff))
            && (Collide(h, front + c.amount, front + c.diff) || (z.amount == z.diff <==> c.amount == c.diff))
  {
    hide Ascii, LittleEndian, Verdict;
    AcceptedIff(h, p);
    var c := p.commitments;
    var domain := h(Ascii("vaultforge-zk-domain-v1") + (p.public.policyVersion + p.public.intentId + p.public.walletId));
    var front := Ascii("vaultforge-zk-response-check-v1") + domain + p.challenge;
    SameTail(front, c.daily, c.amount);
    SameTail(front, c.daily, c.diff);
    SameTail(front, c.amount, c.diff);
  }

  lemma SameTail(front: Bytes, a: Bytes, b: Bytes)
    ensures front + a == front + b <==> a == b
  {
    if front + a == front + b {
      SplitAt(front, front, a, b);
    }
  }

  // --------------------------------------------------------------- provers

  datatype ProveError = InvalidAmount | AboveDailyLimit | AboveWalletLimit

  datatype Blinding = Blinding(daily: Digest, amount: Digest, diff: Digest)

  /** The proof both provers assemble once their guards have passed. */
  function Assemble(h: Hash, daily: U64, public: PublicInputs, b: Blinding): Proof
    requires public.amount <= daily
  {
    var domain := DomainOf(h, public);
    var c := Triple(Commit(h, daily, b.daily, domain), Commit(h, public.amount, b.amount, domain),
                    Commit(h, daily - public.amount, b.diff, domain));
    var challenge := h(Transcript(c, public));
    Proof(c, challenge, Responses(h, c, challenge, domain), public)
  }

  /** The assembled proof in bytes: a commitment hashes the domain, the eight bytes of its value and its
      blinding factor; the difference is committed to beside limit and amount. */
  lemma AssembledBytes(h: Hash, daily: U64, public: PublicInputs, b: Blinding)
    requires public.amount <= daily
    ensures var names := public.policyVersion + public.intentId + public.walletId;
            var domain := h(Ascii("vaultforge-zk-domain-v1") + names);
            var tag, check := Ascii("vaultforge-zk-commit-v1"), Ascii("vaultforge-zk-response-check-v1");
            var c1 := h(tag + domain + LittleEndian(daily, 8) + b.daily);
            var c2 := h(tag + domain + LittleEndian(public.amount, 8) + b.amount);
            var c3 := h(tag + domain + LittleEndian(daily - public.amount, 8) + b.diff);
            var challenge := h(Ascii("vaultforge-zk-challenge-v1") + c1 + c2 + c3 + LittleEndian(public.amount, 8) + names);
            Assemble(h, daily, public, b)
            == Proof(Triple(c1, c2, c3), challenge,
                     Triple(h(check + domain + challenge + c1), h(check + domain + challenge + c2),
                            h(check + domain + challenge + c3)), public)
  {
    hide Ascii, LittleEndian, Transcript;
    TranscriptBytes(Assemble(h, daily, public, b).commitments, public);
  }

  /** A commitment has one opening: two values, blinding factors and domains with one commitment are the
      same, unless the two byte strings collide. */
  lemma OneOpening(h: Hash, v: U64, b: Digest, domain: Digest, v': U64, b': Digest, domain': Digest)
    ensures var tag := Ascii("vaultforge-zk-commit-v1");
            || Collide(h, tag + domain + LittleEndian(v, 8) + b, tag + domain' + LittleEndian(v', 8) + b')
            || (Commit(h, v, b, domain) == Commit(h, v', b', domain') <==> v == v' && b == b' && domain == domain')
  {
    hide Ascii, LittleEndian;
    var tag := Ascii("vaultforge-zk-commit-v1");
    PartsAt(tag, domain, LittleEndian(v, 8), b);
    PartsAt(tag, domain', LittleEndian(v', 8), b');
    U64EncodingsAreInjective(v, v');
  }

  method RustProve(h: Hash, daily: U64, perWallet: U64, public: PublicInputs, b: Blinding)
    returns (r: Result<Proof, ProveError>)
    ensures r.Ok? <==> 0 < public.amount <= daily && public.amount <= perWallet
    ensures r == Err(InvalidAmount) <==> public.amount == 0
    ensures r == Err(AboveDailyLimit) <==> public.amount > daily
    ensures r == Err(AboveWalletLimit) <==> 0 < public.amount <= daily && public.amount > perWallet
    ensures r.Ok? ==> r.value == Assemble(h, daily, public, b)
  {
    if public.amount == 0 {
      return Err(InvalidAmount);
    }
    if public.amount > daily {
      return Err(AboveDailyLimit);
    }
    if public.amount > perWallet {
      return Err(AboveWalletLimit);
    }
    var diff := daily - public.amount;
    var domain := DomainOf(h, public);
    var c := Triple(Commit(h, daily, b.daily, domain), Commit(h, public.amount, b.amount, domain),
                    Commit(h, diff, b.diff, domain));
    var challenge := h(Transcript(c, public));
    r := Ok(Proof(c, challenge, Responses(h, c, challenge, domain), public));
  }

  /** What `Uint64` and the `uint64` conversion keep of an integer. */
  function Low64(v: int): U64 {
    v % U64_LIMIT
  }

  /** The guard of the Go prover on the stored amount string. */
  predicate CanGenerate(amount: string, dailyLimit: int) {
    && Decimal.ParseBig(amount).Some?
    && Decimal.ParseBig(amount).value > 0
    && Low64(Decimal.ParseBig(amount).value) <= Low64(dailyLimit)
  }

  method GoProve(h: Hash, amount: string, dailyLimit: Option<int>, policyVersion: Bytes, intentId: Bytes,
                 walletId: Bytes, b: Blinding) returns (r: Result<Proof, ProveError>)
    ensures var limit := if dailyLimit.Some? then dailyLimit.value else 100000;
            var v := Decimal.ParseBig(amount);
            && (r.Ok? <==> CanGenerate(amount, limit))
            && (r == Err(InvalidAmount) <==> v.None? || v.value <= 0)
            && (r == Err(AboveDailyLimit) <==> v.Some? && v.value > 0 && v.value % U64_LIMIT > limit % U64_LIMIT)
            && (r.Ok? ==>
                 r.value == Assemble(h, limit % U64_LIMIT,
                                     PublicInputs(v.value % U64_LIMIT, policyVersion, intentId, walletId), b))
  {
    hide Ascii, LittleEndian, Transcript, Responses, DomainOf;
    var parsed := Decimal.ParseBig(amount);
    if parsed.None? || parsed.value <= 0 {
      return Err(InvalidAmount);
    }
    var limit := if dailyLimit.Some? then dailyLimit.value else 100000;
    var amountU: U64, limitU: U64 := Low64(parsed.value), Low64(limit);
    if amountU > limitU {
      return Err(AboveDailyLimit);
    }
    var diff: U64 := limitU - amountU;
    var public := PublicInputs(amountU, policyVersion, intentId, walletId);
    var domain := DomainOf(h, public);
    var dailyBytes := ShiftLoopBytes(limitU);
    var amountBytes := ShiftLoopBytes(amountU);
    var diffBytes := ShiftLoopBytes(diff);
    var tag := Ascii("vaultforge-zk-commit-v1") + domain;
    var c := Triple(h(tag + dailyBytes[..] + b.daily), h(tag + amountBytes[..] + b.amount),
                    h(tag + diffBytes[..] + b.diff));
    var challenge := h(Transcript(c, public));
    r := Ok(Proof(c, challenge, Responses(h, c, challenge, domain), public));
  }

  /** For the amounts that fit 64 bits the Go guard is the comparison its name promises. */
  lemma GuardComparesAmounts(amount: nat, dailyLimit: nat)
    requires amount <= Decimal.MAX_INT64 && dailyLimit <= Decimal.MAX_INT64
    ensures CanGenerate(Decimal.AmountToString(amount), dailyLimit) <==> 0 < amount <= dailyLimit
  {
    Decimal.StoredAmountsReadBack(amount);
  }

  /** A proof from either prover is accepted by both verifiers exactly when the intent id is not
      empty, the amount not zero, and none of its six commitments and responses hashed to zero. */
  lemma AssembledProofsVerifyIff(h: Hash, daily: U64, public: PublicInputs, b: Blinding)
    requires public.amount <= daily
    ensures var p := Assemble(h, daily, public, b);
            Verdict(h, p) == Ok(true) <==>
              public.amount > 0 && public.intentId != [] && !AnyZero(p.commitments) && !AnyZero(p.responses)
  {
    assert Consistent(h, Assemble(h, daily, public, b));
  }

  ghost predicate NeverZero(h: Hash) {
    forall x :: h(x) != ZERO
  }

  lemma Completeness(h: Hash, daily: U64, public: PublicInputs, b: Blinding)
    requires NeverZero(h) && 0 < public.amount <= daily && public.intentId != []
    ensures Verdict(h, Assemble(h, daily, public, b)) == Ok(true)
  {
    AssembledProofsVerifyIff(h, daily, public, b);
  }

  // --------------------------------------------------------------- binding

  /** The transcript determines everything in it except where one public string ends and the next begins. */
  lemma TranscriptDetermines(c: Triple, p: PublicInputs, c': Triple, p': PublicInputs)
    ensures Transcript(c, p) == Transcript(c', p') <==> c == c' && p.amount == p'.amount && Binding(p) == Binding(p')
  {
    if Transcript(c, p) == Transcript(c', p') {
      var a5, b5 := LittleEndian(p.amount, 8) + Binding(p), LittleEndian(p'.amount, 8) + Binding(p');
      var a4, b4 := c.diff + a5, c'.diff + b5;
      var a3, b3 := c.amount + a4, c'.amount + b4;
      var a2, b2 := c.daily + a3, c'.daily + b3;
      var tag := Ascii("vaultforge-zk-challenge-v1");
      SplitAt(tag, tag, a2, b2);
      SplitAt(c.daily, c'.daily, a3, b3);
      SplitAt(c.amount, c'.amount, a4, b4);
      SplitAt(c.diff, c'.diff, a5, b5);
      SplitAt(LittleEndian(p.amount, 8), LittleEndian(p'.amount, 8), Binding(p), Binding(p'));
      U64EncodingsAreInjective(p.amount, p'.amount);
    }
  }

  /** The challenges of the two proofs come from different transcripts with one digest. */
  predicate ChallengeCollision(h: Hash, p: Proof, q: Proof) {
    var x, y := Transcript(p.commitments, p.public), Transcript(q.commitments, q.public);
    x != y && h(x) == h(y)
  }

  /** Given an accepted proof and no collision between the two transcripts, a second proof with the
      same challenge is accepted exactly when it says the same: same commitments, amount, responses
      and concatenated strings, however these are cut, with an intent id that is not empty. */
  lemma ChallengeBinds(h: Hash, p: Proof, q: Proof)
    requires Verdict(h, p) == Ok(true) && p.challenge == q.challenge && !ChallengeCollision(h, p, q)
    ensures Verdict(h, q) == Ok(true) <==>
      && p.commitments == q.commitments && p.responses == q.responses
      && p.public.amount == q.public.amount && Binding(p.public) == Binding(q.public)
      && q.public.intentId != []
  {
    TranscriptDetermines(p.commitments, p.public, q.commitments, q.public);
    if Binding(p.public) == Binding(q.public) {
      assert DomainOf(h, p.public) == DomainOf(h, q.public);
    }
  }

  /** Changing only the amount of an accepted proof, to any other, is always noticed. */
  lemma ChangedAmountIsRejected(h: Hash, p: Proof, amount: U64)
    requires Verdict(h, p) == Ok(true) && amount != p.public.amount
    requires !ChallengeCollision(h, p, p.(public := p.public.(amount := amount)))
    ensures var q := p.(public := p.public.(amount := amount));
            Verdict(h, q) == if amount == 0 then Err(ZeroAmount) else Ok(false)
  {
    ChallengeBinds(h, p, p.(public := p.public.(amount := amount)));
  }
}
