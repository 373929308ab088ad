/** OpenTimestamps proofs: splicing a calendar's tail onto a pending sequence, and verifying a
    proof offline and against a chain of block headers. */
module OpenTimestamps {
  import opened Results

  type Bytes = seq<bv8>

  const SHA256_SIZE := 32

  datatype HashKind = Sha256 | Ripemd160 | Sha1 | Keccak256

  datatype Operation = Append(arg: Bytes) | Prepend(arg: Bytes) | Reverse | Hash(kind: HashKind)

  datatype Attestation = Attestation(blockHeight: nat, calendarUrl: string)

  datatype Instruction = Operate(op: Operation) | Attest(att: Attestation)

  type Sequence = seq<Instruction>

  datatype ProofFile = ProofFile(digest: Bytes, sequences: seq<Sequence>)

  /** The hash functions are a parameter of everything below. */
  type Hasher = (HashKind, Bytes) -> Bytes

  function Reversed(x: Bytes): Bytes {
    if x == [] then [] else Reversed(x[1..]) + [x[0]]
  }

  function Apply(h: Hasher, op: Operation, x: Bytes): Bytes {
    match op
    case Append(arg) => x + arg
    case Prepend(arg) => arg + x
    case Reverse => Reversed(x)
    case Hash(kind) => h(kind, x)
  }

  /** The library's fold: operations apply in order, and the first attestation ends it. */
  function Compute(h: Hasher, s: Sequence, x: Bytes): Bytes {
    if s == [] || s[0].Attest? then x else Compute(h, s[1..], Apply(h, s[0].op, x))
  }

  function GetAttestation(s: Sequence): Attestation {
    if s == [] || s[|s| - 1].Operate? then Attestation(0, "") else s[|s| - 1].att
  }

  predicate IsAttested(s: Sequence) {
    GetAttestation(s).blockHeight > 0
  }

  /** The sequences Upgrade works on. */
  predicate IsPending(s: Sequence) {
    GetAttestation(s).blockHeight == 0 && GetAttestation(s).calendarUrl != ""
  }

  /** What the parser guarantees: operations, then one attestation. */
  predicate WellFormed(s: Sequence) {
    |s| > 0 && s[|s| - 1].Attest? && forall i :: 0 <= i < |s| - 1 ==> s[i].Operate?
  }

  /** What appending, prepending and reversing do to a message, byte by byte. */
  lemma OperationsMean(h: Hasher, arg: Bytes, x: Bytes, k: nat)
    requires k < |x|
    ensures Apply(h, Append(arg), x)[..|x|] == x && Apply(h, Append(arg), x)[|x|..] == arg
    ensures Apply(h, Prepend(arg), x)[..|arg|] == arg && Apply(h, Prepend(arg), x)[|arg|..] == x
    ensures |Apply(h, Reverse, x)| == |x| && Apply(h, Reverse, x)[k] == x[|x| - 1 - k]
    ensures forall kind :: Apply(h, Hash(kind), x) == h(kind, x)
  {
    ReversedAt(x, k);
  }

  lemma {:induction false} ReversedAt(x: Bytes, k: nat)
    requires k < |x|
    ensures |Reversed(x)| == |x| && Reversed(x)[k] == x[|x| - 1 - k]
  {
    if |x| > 1 {
      ReversedAt(x[1..], if k < |x| - 1 then k else 0);
    }
  }

  /** Operations apply one after the other, each to what those before it computed. */
  lemma {:induction false} ComputeInOrder(h: Hasher, s: Sequence, op: Operation, x: Bytes)
    requires forall i :: 0 <= i < |s| ==> s[i].Operate?
    ensures Compute(h, s + [Operate(op)], x) == Apply(h, op, Compute(h, s, x))
  {
    var last := [Operate(op)];
    assert last[0] == Operate(op) && last[1..] == [];
    ComputeAfter(h, s, last, x);
  }

  /** A sequence is pending when it ends in a promise of a calendar, and attested when it ends in a
      block height; it is never both. */
  lemma PendingOrAttested(s: Sequence)
    ensures IsPending(s) <==>
              |s| > 0 && s[|s| - 1].Attest? && s[|s| - 1].att.blockHeight == 0 && s[|s| - 1].att.calendarUrl != ""
    ensures IsAttested(s) <==> |s| > 0 && s[|s| - 1].Attest? && s[|s| - 1].att.blockHeight > 0
    ensures IsAttested(s) ==> Height(s) == s[|s| - 1].att.blockHeight
    ensures !(IsPending(s) && IsAttested(s))
  {
  }

  function Splice(s: Sequence, tail: Sequence): Sequence
    requires |s| > 0
  {
    s[..|s| - 1] + tail
  }

  // ---------- upgrading ----------

  lemma {:induction false} ComputeAfter(h: Hasher, ops: Sequence, tail: Sequence, x: Bytes)
    requires forall i :: 0 <= i < |ops| ==> ops[i].Operate?
    ensures Compute(h, ops + tail, x) == Compute(h, tail, Compute(h, ops, x))
    decreases |ops|
  {
    var joined := ops + tail;
    if ops == [] {
      assert joined == tail;
    } else {
      var rest := ops[1..];
      assert joined[0] == ops[0] && joined[1..] == rest + tail;
      ComputeAfter(h, rest, tail, Apply(h, ops[0].op, x));
    }
  }

  /** A spliced sequence computes from the digest what the tail computes from the commitment
      the pending sequence stood for. */
  lemma {:induction false} SpliceComputes(h: Hasher, s: Sequence, tail: Sequence, x: Bytes)
    requires WellFormed(s)
    ensures Compute(h, Splice(s, tail), x) == Compute(h, tail, Compute(h, s, x))
  {
    var ops, end := s[..|s| - 1], [s[|s| - 1]];
    var commitment := Compute(h, ops, x);
    ComputeAfter(h, ops, tail, x);
    assert Compute(h, s, x) == commitment by {
      ComputeAfter(h, ops, end, x);
      assert s == ops + end;
      assert end[0].Attest?;
    }
    assert Splice(s, tail) == ops + tail;
  }

  /** With an attestation before the end the tail would never be reached. */
  lemma {:induction false} EarlyAttestationHidesTail(h: Hasher, s: Sequence, tail: Sequence, x: Bytes, i: nat)
    requires i < |s| - 1 && s[i].Attest?
    ensures Compute(h, Splice(s, tail), x) == Compute(h, s, x)
    decreases |s|
  {
    assert Splice(s, tail)[0] == s[0];
    if s[0].Operate? {
      assert Splice(s, tail)[1..] == Splice(s[1..], tail);
      EarlyAttestationHidesTail(h, s[1..], tail, Apply(h, s[0].op, x), i - 1);
    }
  }

  datatype CalendarAnswer = NotMined | Unusable | Tail(tail: Sequence)

  type Calendar = (string, Bytes) -> CalendarAnswer

  datatype UpgradeError = ProofNotReady | SubmissionFailed

  /** The calendar that promised is asked about the commitment the sequence stands for. */
  function AnswerFor(h: Hasher, calendar: Calendar, digest: Bytes, s: Sequence): CalendarAnswer {
    calendar(GetAttestation(s).calendarUrl, Compute(h, s, digest))
  }

  /** Sequence by sequence: a pending one got a tail for its own commitment and was spliced, any
      other was left alone. */
  ghost predicate UpgradedUpTo(h: Hasher, calendar: Calendar, file: ProofFile, out: seq<Sequence>, n: nat) {
    && |out| == |file.sequences|
    && n <= |out|
    && (forall i :: 0 <= i < n ==>
          if IsPending(file.sequences[i])
          then && AnswerFor(h, calendar, file.digest, file.sequences[i]).Tail?
               && out[i] == Splice(file.sequences[i], AnswerFor(h, calendar, file.digest, file.sequences[i]).tail)
          else out[i] == file.sequences[i])
    && (forall i :: n <= i < |out| ==> out[i] == file.sequences[i])
  }

  /** The first pending sequence whose calendar has no tail for it is the i-th. */
  ghost predicate FirstWithoutTail(h: Hasher, calendar: Calendar, file: ProofFile, i: nat) {
    && i < |file.sequences| && IsPending(file.sequences[i])
    && !calendar(GetAttestation(file.sequences[i]).calendarUrl, Compute(h, file.sequences[i], file.digest)).Tail?
    && forall j :: 0 <= j < i && IsPending(file.sequences[j]) ==>
         calendar(GetAttestation(file.sequences[j]).calendarUrl, Compute(h, file.sequences[j], file.digest)).Tail?
  }

  lemma FirstIsUnique(h: Hasher, calendar: Calendar, file: ProofFile, i: nat)
    requires FirstWithoutTail(h, calendar, file, i)
    ensures forall j: nat :: FirstWithoutTail(h, calendar, file, j) ==> j == i
  {
  }

  /** Client.Upgrade on a parsed file. It succeeds exactly when something is pending and every
      pending sequence gets a tail for its own commitment; otherwise the first calendar that has
      none decides. */
  method Upgrade(h: Hasher, calendar: Calendar, file: ProofFile) returns (r: Result<ProofFile, UpgradeError>)
    ensures r.Success? ==> r.value.digest == file.digest
                           && UpgradedUpTo(h, calendar, file, r.value.sequences, |file.sequences|)
    ensures r.Success? <==>
              && (exists i :: 0 <= i < |file.sequences| && IsPending(file.sequences[i]))
              && (forall i :: 0 <= i < |file.sequences| && IsPending(file.sequences[i]) ==>
                    calendar(GetAttestation(file.sequences[i]).calendarUrl,
                             Compute(h, file.sequences[i], file.digest)).Tail?)
    ensures r == Failure(SubmissionFailed) <==>
              exists i: nat :: FirstWithoutTail(h, calendar, file, i)
                          && calendar(GetAttestation(file.sequences[i]).calendarUrl,
                                      Compute(h, file.sequences[i], file.digest)).Unusable?
    ensures r == Failure(ProofNotReady) <==>
              || (forall i :: 0 <= i < |file.sequences| ==> !IsPending(file.sequences[i]))
              || exists i: nat :: FirstWithoutTail(h, calendar, file, i)
                             && calendar(GetAttestation(file.sequences[i]).calendarUrl,
                                         Compute(h, file.sequences[i], file.digest)).NotMined?
  {
    var sequences := file.sequences;
    var upgraded := false;
    for i := 0 to |sequences|
      invariant UpgradedUpTo(h, calendar, file, sequences, i)
      invariant upgraded <==> exists j :: 0 <= j < i && IsPending(file.sequences[j])
    {
      var seq_i := sequences[i];
      var att := GetAttestation(seq_i);
      if !(att.blockHeight > 0 || att.calendarUrl == "") {
        var commitment := Compute(h, seq_i, file.digest);
        if !calendar(att.calendarUrl, commitment).Tail? {
          FirstIsUnique(h, calendar, file, i);
        }
        match calendar(att.calendarUrl, commitment)
        case NotMined =>
          return Failure(ProofNotReady);
        case Unusable =>
          return Failure(SubmissionFailed);
        case Tail(tail) =>
          sequences := sequences[i := seq_i[..|seq_i| - 1] + tail];
          upgraded := true;
      }
    }
    r := if upgraded then Success(file.(sequences := sequences)) else Failure(ProofNotReady);
  }

  /** A calendar that promises nothing false: each attested tail it hands out for a commitment
      computes, from that commitment, the root of the block at the height it attests. */
  ghost predicate Faithful(h: Hasher, calendar: Calendar, roots: nat -> Bytes) {
    forall url, commitment :: calendar(url, commitment).Tail? && IsAttested(calendar(url, commitment).tail) ==>
      Compute(h, calendar(url, commitment).tail, commitment) == roots(Height(calendar(url, commitment).tail))
  }

  /** With faithful calendars an upgraded sequence that is attested commits the file's digest to
      the block it names. */
  lemma UpgradeAnchors(h: Hasher, calendar: Calendar, roots: nat -> Bytes, file: ProofFile, out: seq<Sequence>, i: nat)
    requires Faithful(h, calendar, roots) && UpgradedUpTo(h, calendar, file, out, |file.sequences|)
    requires i < |out| && WellFormed(file.sequences[i]) && IsPending(file.sequences[i]) && IsAttested(out[i])
    ensures Compute(h, out[i], file.digest) == roots(Height(out[i]))
  {
    var s := file.sequences[i];
    var commitment := Compute(h, s, file.digest);
    assert calendar(GetAttestation(s).calendarUrl, commitment).Tail?;
    var tail := calendar(GetAttestation(s).calendarUrl, commitment).tail;
    SpliceEndsLikeTail(s, tail);
    SpliceComputes(h, s, tail, file.digest);
    assert out[i] == Splice(s, tail);
  }

  /** A successful upgrade means what the old proof meant: every sequence still starts from the
      same digest, those not pending are the same, and each spliced one computes what its
      calendar's tail computes from the old commitment. */
  lemma UpgradePreservesMeaning(h: Hasher, calendar: Calendar, file: ProofFile, out: seq<Sequence>, i: nat)
    requires UpgradedUpTo(h, calendar, file, out, |file.sequences|) && i < |out|
    requires WellFormed(file.sequences[i])
    ensures var s := file.sequences[i];
            if IsPending(s)
            then Compute(h, out[i], file.digest)
                 == Compute(h, AnswerFor(h, calendar, file.digest, s).tail, Compute(h, s, file.digest))
            else out[i] == s
  {
    if IsPending(file.sequences[i]) {
      SpliceComputes(h, file.sequences[i], AnswerFor(h, calendar, file.digest, file.sequences[i]).tail, file.digest);
    }
  }

  /** Upgrade does not look at how a tail ends. The result is wholly confirmed in Bitcoin exactly
      when every tail ends in a Bitcoin attestation and nothing was left that is not pending and
      not confirmed; a calendar that hands over to another one leaves the sequence pending. */
  lemma ConfirmedIffTailsAttested(h: Hasher, calendar: Calendar, file: ProofFile, out: seq<Sequence>)
    requires UpgradedUpTo(h, calendar, file, out, |file.sequences|)
    requires forall i :: 0 <= i < |file.sequences| ==> WellFormed(file.sequences[i])
    ensures (forall i :: 0 <= i < |out| ==> IsAttested(out[i])) <==>
            (forall i :: 0 <= i < |out| ==>
               if IsPending(file.sequences[i])
               then IsAttested(AnswerFor(h, calendar, file.digest, file.sequences[i]).tail)
               else IsAttested(file.sequences[i]))
  {
    forall i | 0 <= i < |out|
      ensures IsAttested(out[i]) <==>
              if IsPending(file.sequences[i])
              then IsAttested(AnswerFor(h, calendar, file.digest, file.sequences[i]).tail)
              else IsAttested(file.sequences[i])
    {
      if IsPending(file.sequences[i]) {
        SpliceEndsLikeTail(file.sequences[i], AnswerFor(h, calendar, file.digest, file.sequences[i]).tail);
      }
    }
  }

  lemma SpliceEndsLikeTail(s: Sequence, tail: Sequence)
    requires WellFormed(s)
    ensures GetAttestation(Splice(s, tail)) == GetAttestation(tail)
  {
    if tail == [] {
      assert Splice(s, tail) == s[..|s| - 1];
    } else {
      assert Splice(s, tail)[|Splice(s, tail)| - 1] == tail[|tail| - 1];
    }
  }

  // ---------- verifying ----------

  /** GetBitcoinAttestedSequences. */
  function Attested(sequences: seq<Sequence>): seq<Sequence> {
    if sequences == [] then []
    else (if IsAttested(sequences[0]) then [sequences[0]] else []) + Attested(sequences[1..])
  }

  lemma {:induction false} AttestedExact(sequences: seq<Sequence>, s: Sequence)
    ensures s in Attested(sequences) <==> s in sequences && IsAttested(s)
  {
    if sequences != [] {
      AttestedExact(sequences[1..], s);
      assert s in sequences <==> s == sequences[0] || s in sequences[1..];
    }
  }

  /** ... in the order of the file, and as often as they stand in it. */
  lemma {:induction false} AttestedInOrder(xs: seq<Sequence>, s: Sequence)
    ensures Attested(xs + [s]) == if IsAttested(s) then Attested(xs) + [s] else Attested(xs)
  {
    if xs == [] {
      assert xs + [s] == [s] && [s][1..] == [];
    } else {
      var more, rest := xs + [s], xs[1..];
      assert more[0] == xs[0] && more[1..] == rest + [s];
      AttestedInOrder(rest, s);
    }
  }

  lemma AttestedAreThose(sequences: seq<Sequence>)
    ensures forall s :: s in Attested(sequences) <==> s in sequences && IsAttested(s)
  {
    forall s ensures s in Attested(sequences) <==> s in sequences && IsAttested(s) {
      AttestedExact(sequences, s);
    }
  }

  lemma AttestedHaveHeights(sequences: seq<Sequence>)
    ensures forall k :: 0 <= k < |Attested(sequences)| ==> Height(Attested(sequences)[k]) > 0
  {
    forall k | 0 <= k < |Attested(sequences)| ensures Height(Attested(sequences)[k]) > 0 {
      AttestedExact(sequences, Attested(sequences)[k]);
    }
  }

  function Height(s: Sequence): nat {
    GetAttestation(s).blockHeight
  }

  datatype VerifyError = BadDigestSize | InvalidProof | DigestMismatch | NotBitcoinAttested | ChainMismatch

  datatype Verification = Verification(blockHeight: nat, timestamp: Option<int>, chainChecked: bool, chainErr: bool)

  /** The transaction embedded in a sequence, as the library finds it. */
  type Embedding = (Sequence, Bytes) -> bool

  predicate Sound(h: Hasher, embeds: Embedding, hash: Bytes, s: Sequence) {
    embeds(s, hash) && |Compute(h, s, hash)| == SHA256_SIZE
  }

  /** The lowest height among the first n confirmed sequences. */
  ghost predicate LowestHeight(confirmed: seq<Sequence>, n: int, height: nat)
    requires n <= |confirmed|
  {
    && (exists k :: 0 <= k < n && Height(confirmed[k]) == height)
    && (forall k :: 0 <= k < n ==> height <= Height(confirmed[k]))
  }

  predicate AllSound(h: Hasher, embeds: Embedding, hash: Bytes, confirmed: seq<Sequence>, n: int)
    requires n <= |confirmed|
  {
    forall k :: 0 <= k < n ==> Sound(h, embeds, hash, confirmed[k])
  }

  /** The proof is for this digest, is attested, and every attested sequence is sound. */
  ghost predicate OfflineValid(h: Hasher, embeds: Embedding, parsed: Option<ProofFile>, hash: Bytes) {
    && |hash| == SHA256_SIZE && parsed.Some? && parsed.value.digest == hash
    && Attested(parsed.value.sequences) != []
    && AllSound(h, embeds, hash, Attested(parsed.value.sequences), |Attested(parsed.value.sequences)|)
  }

  /** VerifyProof: offline. `parsed` is None when the proof does not parse. */
  method VerifyProof(h: Hasher, embeds: Embedding, parsed: Option<ProofFile>, hash: Bytes)
    returns (r: Result<Verification, VerifyError>)
    ensures r.Success? <==> OfflineValid(h, embeds, parsed, hash)
    ensures r.Success? ==>
              && r.value == Verification(r.value.blockHeight, None, false, false)
              && LowestHeight(Attested(parsed.value.sequences), |Attested(parsed.value.sequences)|, r.value.blockHeight)
    ensures r == Failure(DigestMismatch) <==>
              |hash| == SHA256_SIZE && parsed.Some? && parsed.value.digest != hash
    ensures r == Failure(NotBitcoinAttested) <==>
              && |hash| == SHA256_SIZE && parsed.Some? && parsed.value.digest == hash
              && Attested(parsed.value.sequences) == []
    ensures r == Failure(BadDigestSize) <==> |hash| != 32
    ensures r.Failure? ==> r.error != ChainMismatch
    ensures r == Failure(InvalidProof) <==>
              && |hash| == SHA256_SIZE
              && (parsed.None?
                  || (&& parsed.value.digest == hash
                      && exists s :: s in parsed.value.sequences && IsAttested(s)
                                     && !(embeds(s, hash) && |Compute(h, s, hash)| == 32)))
  {
    if parsed.Some? {
      AttestedAreThose(parsed.value.sequences);
    }
    if |hash| != SHA256_SIZE {
      return Failure(BadDigestSize);
    }
    if parsed.None? {
      return Failure(InvalidProof);
    }
    if parsed.value.digest != hash {
      return Failure(DigestMismatch);
    }
    var confirmed := Attested(parsed.value.sequences);
    if |confirmed| == 0 {
      return Failure(NotBitcoinAttested);
    }
    AttestedHaveHeights(parsed.value.sequences);
    var minHeight := 0;
    for k := 0 to |confirmed|
      invariant minHeight == 0 <==> k == 0
      invariant k > 0 ==> LowestHeight(confirmed, k, minHeight)
      invariant AllSound(h, embeds, hash, confirmed, k)
    {
      var height := Height(confirmed[k]);
      var root := Compute(h, confirmed[k], hash);
      if !embeds(confirmed[k], hash) || |root| != SHA256_SIZE {
        return Failure(InvalidProof);
      }
      if minHeight == 0 || height < minHeight {
        minHeight := height;
      }
    }
    r := Success(Verification(minHeight, None, false, false));
  }

  /** A block-header source's answer to the k-th request, for the block at a given height. */
  datatype HeaderReply = Unfetchable | Header(merkleRoot: Bytes, timestamp: int)

  type Chain = (nat, nat) -> HeaderReply

  function Reply(chain: Chain, confirmed: seq<Sequence>, k: nat): HeaderReply
    requires k < |confirmed|
  {
    chain(k, Height(confirmed[k]))
  }

  predicate Fetched(chain: Chain, confirmed: seq<Sequence>, k: int) {
    0 <= k < |confirmed| && Reply(chain, confirmed, k).Header?
  }

  predicate Matches(h: Hasher, chain: Chain, hash: Bytes, confirmed: seq<Sequence>, k: int) {
    Fetched(chain, confirmed, k) && Reply(chain, confirmed, k).merkleRoot == Compute(h, confirmed[k], hash)
  }

  /** Some fetched block has another root than the proof commits to. */
  ghost predicate Contradicted(h: Hasher, chain: Chain, hash: Bytes, confirmed: seq<Sequence>) {
    exists k :: Fetched(chain, confirmed, k) && !Matches(h, chain, hash, confirmed, k)
  }

  ghost predicate NothingFetched(chain: Chain, confirmed: seq<Sequence>) {
    forall k :: !Fetched(chain, confirmed, k)
  }

  /** The lowest height among the first n sequences whose block was fetched, with the time of
      the first such block. */
  ghost predicate LowestFetched(chain: Chain, confirmed: seq<Sequence>, n: int, height: nat, ts: int) {
    && (exists k :: 0 <= k < n && Fetched(chain, confirmed, k)
                    && Height(confirmed[k]) == height && Reply(chain, confirmed, k).timestamp == ts
                    && forall j :: 0 <= j < k && Fetched(chain, confirmed, j) ==> height < Height(confirmed[j]))
    && (forall k :: 0 <= k < n && Fetched(chain, confirmed, k) ==> height <= Height(confirmed[k]))
  }

  datatype ChainOutcome = Lowest(height: nat, timestamp: int) | Mismatch | Unavailable | NothingAttested

  method VerifyAgainstChain(h: Hasher, chain: Chain, file: ProofFile, hash: Bytes) returns (r: ChainOutcome)
    ensures var confirmed := Attested(file.sequences);
            && (r.Mismatch? <==> Contradicted(h, chain, hash, confirmed))
            && (r.NothingAttested? <==> confirmed == [])
            && (r.Unavailable? <==> confirmed != [] && NothingFetched(chain, confirmed))
            && (r.Lowest? ==> LowestFetched(chain, confirmed, |confirmed|, r.height, r.timestamp))
  {
    var confirmed := Attested(file.sequences);
    AttestedHaveHeights(file.sequences);
    var minHeight, bestTS := 0, 0;
    for k := 0 to |confirmed|
      invariant minHeight == 0 <==> forall j :: 0 <= j < k ==> !Fetched(chain, confirmed, j)
      invariant minHeight > 0 ==> LowestFetched(chain, confirmed, k, minHeight, bestTS)
      invariant forall j :: 0 <= j < k && Fetched(chain, confirmed, j) ==> Matches(h, chain, hash, confirmed, j)
    {
      var height := Height(confirmed[k]);
      match chain(k, height)
      case Unfetchable =>
        assert !Fetched(chain, confirmed, k);
      case Header(merkleRoot, timestamp) =>
        assert Fetched(chain, confirmed, k);
        if merkleRoot != Compute(h, confirmed[k], hash) {
          assert !Matches(h, chain, hash, confirmed, k);
          return Mismatch;
        }
        if minHeight == 0 || height < minHeight {
          minHeight, bestTS := height, timestamp;
        }
    }
    if minHeight == 0 {
      r := if |confirmed| > 0 then Unavailable else NothingAttested;
    } else {
      r := Lowest(minHeight, bestTS);
    }
  }

  /** Verifier.Verify: offline first, then against the chain when there is one. Success with the
      chain checked means every fetchable block has the committed root; the height is the lowest
      fetched one, never below the offline height and equal to it when every block was fetched.
      An unreachable chain leaves the offline result standing. */
  method Verify(h: Hasher, embeds: Embedding, chain: Option<Chain>, parsed: Option<ProofFile>, hash: Bytes)
    returns (r: Result<Verification, VerifyError>)
    ensures r.Success? ==> OfflineValid(h, embeds, parsed, hash)
    ensures r == Failure(BadDigestSize) <==> |hash| != 32
    ensures r == Failure(DigestMismatch) <==> |hash| == 32 && parsed.Some? && parsed.value.digest != hash
    ensures r == Failure(NotBitcoinAttested) <==>
              && |hash| == 32 && parsed.Some? && parsed.value.digest == hash
              && Attested(parsed.value.sequences) == []
    ensures r == Failure(InvalidProof) <==>
              && |hash| == 32
              && (parsed.None?
                  || (&& parsed.value.digest == hash
                      && exists s :: s in parsed.value.sequences && IsAttested(s)
                                     && !(embeds(s, hash) && |Compute(h, s, hash)| == 32)))
    ensures OfflineValid(h, embeds, parsed, hash) ==>
              var confirmed := Attested(parsed.value.sequences);
              && (r.Failure? <==> chain.Some? && Contradicted(h, chain.value, hash, confirmed))
              && (r.Failure? ==> r.error == ChainMismatch)
              && (r.Success? ==> (r.value.chainChecked <==> chain.Some? && !NothingFetched(chain.value, confirmed)))
              && (r.Success? && r.value.chainChecked ==>
                    && r.value.timestamp.Some?
                    && LowestFetched(chain.value, confirmed, |confirmed|, r.value.blockHeight, r.value.timestamp.value)
                    && (forall height: nat :: LowestHeight(confirmed, |confirmed|, height) ==>
                          height <= r.value.blockHeight)
                    && ((forall k :: 0 <= k < |confirmed| ==> Fetched(chain.value, confirmed, k)) ==>
                          LowestHeight(confirmed, |confirmed|, r.value.blockHeight)))
              && (r.Success? && !r.value.chainChecked ==>
                    && LowestHeight(confirmed, |confirmed|, r.value.blockHeight)
                    && r.value == Verification(r.value.blockHeight, None, false, chain.Some?))
  {
    r := VerifyProof(h, embeds, parsed, hash);
    if r.Failure? || chain.None? {
      return;
    }
    var outcome := VerifyAgainstChain(h, chain.value, parsed.value, hash);
    match outcome
    case Unavailable =>
      r := Success(r.value.(chainErr := true));
    case Mismatch =>
      r := Failure(ChainMismatch);
    case NothingAttested =>
      r := Failure(NotBitcoinAttested);
    case Lowest(height, timestamp) =>
      r := Success(r.value.(blockHeight := height, timestamp := Some(timestamp), chainChecked := true));
  }

  /** The headers a chain hands out are those of the real blocks. */
  ghost predicate TrueChain(chain: Chain, roots: nat -> Bytes) {
    forall k, height :: chain(k, height).Header? ==> chain(k, height).merkleRoot == roots(height)
  }

  /** Upgrading with faithful calendars never makes a proof that the chain contradicts: if the
      confirmed sequences it had are true, so are all it has now, and verification against the
      chain finds no mismatch. */
  lemma UpgradeIsNotContradicted(h: Hasher, calendar: Calendar, roots: nat -> Bytes, chain: Chain,
                                 file: ProofFile, out: seq<Sequence>)
    requires Faithful(h, calendar, roots) && TrueChain(chain, roots)
    requires UpgradedUpTo(h, calendar, file, out, |file.sequences|)
    requires forall i :: 0 <= i < |file.sequences| ==> WellFormed(file.sequences[i])
    requires forall i :: 0 <= i < |file.sequences| && IsAttested(file.sequences[i]) ==>
               Compute(h, file.sequences[i], file.digest) == roots(Height(file.sequences[i]))
    ensures !Contradicted(h, chain, file.digest, Attested(out))
  {
    var confirmed := Attested(out);
    forall k | Fetched(chain, confirmed, k) ensures Matches(h, chain, file.digest, confirmed, k) {
      AttestedExact(out, confirmed[k]);
      var i :| 0 <= i < |out| && out[i] == confirmed[k];
      if IsPending(file.sequences[i]) {
        UpgradeAnchors(h, calendar, roots, file, out, i);
      }
      assert chain(k, Height(confirmed[k])).Header?;
    }
  }
}
