/**
 * The prepare/execute protocol of pkg/transfer/service.go over the cache and an
 * abstract ledger. The three prepare endpoints differ only in how they obtain the
 * prepared transfer from the ledger; that answer is a parameter here, and so is the
 * user store's.
 */
module TransferService {
  import opened Wrappers
  import opened TransferCache

  datatype User = User(partyId: string, keyFingerprint: string)

  datatype ExecuteRequest = ExecuteRequest(transferId: string, signedBy: string, signature: string)

  datatype ServiceError =
    | UserUnknown
    | LookupFailed
    | PrepareRejected
    | TooManyPending
    | FingerprintMismatch
    | TransferMissing
    | TransferGone
    | InvalidSignature
    | LedgerRejected

  /** What is sent to the ledger for a claimed entry. */
  datatype Submission = Submission(entry: PreparedTransfer, signedBy: string, signature: seq<int>, claimedAt: int)

  function HexDigit(c: char): (d: int) {
    if '0' <= c <= '9' then c as int - '0' as int
    else if 'a' <= c <= 'f' then c as int - 'a' as int + 10
    else if 'A' <= c <= 'F' then c as int - 'A' as int + 10
    else -1
  }

  function DecodeHex(s: string): (r: Option<seq<int>>)
    ensures r.Some? ==> |s| == 2 * |r.value| && forall b :: b in r.value ==> 0 <= b < 256
  {
    if |s| == 0 then Some([])
    else if |s| == 1 || HexDigit(s[0]) < 0 || HexDigit(s[1]) < 0 then None
    else
      match DecodeHex(s[2..])
      case None => None
      case Some(rest) => Some([16 * HexDigit(s[0]) + HexDigit(s[1])] + rest)
  }

  predicate AllHex(s: string) {
    forall k :: 0 <= k < |s| ==> HexDigit(s[k]) >= 0
  }

  lemma AllHexSplits(s: string)
    requires |s| >= 2
    ensures AllHex(s) <==> HexDigit(s[0]) >= 0 && HexDigit(s[1]) >= 0 && AllHex(s[2..])
  {
    assert forall k :: 2 <= k < |s| ==> s[k] == s[2..][k - 2];
  }

  lemma {:induction false} HexAccepted(s: string)
    ensures DecodeHex(s).Some? <==> |s| % 2 == 0 && AllHex(s)
  {
    if |s| < 2 {
    } else {
      AllHexSplits(s);
      HexAccepted(s[2..]);
    }
  }

  function ByteOf(high: char, low: char): (b: int) {
    16 * HexDigit(high) + HexDigit(low)
  }

  lemma {:induction false} HexByte(s: string, i: nat, n: nat)
    requires DecodeHex(s).Some? && n == 2 * i && n < |s|
    ensures n + 1 < |s| && DecodeHex(s).value[i] == ByteOf(s[n], s[n + 1])
  {
    if i == 0 {
    } else {
      HexByte(s[2..], i - 1, n - 2);
    }
  }

  function TrimHexPrefix(s: string): (r: string) {
    if "0x" <= s then s[2..] else s
  }

  /** Execute up to the submission: the cache afterwards, and the submission to make or the error. */
  function Claim(cfg: Config, entries: Entries, lookup: Result<User, ServiceError>, req: ExecuteRequest, now: int)
    : (r: (Entries, Result<Submission, ServiceError>))
  {
    if lookup.Err? then (entries, Err(lookup.error))
    else if lookup.value.keyFingerprint != req.signedBy then (entries, Err(FingerprintMismatch))
    else
      var (after, outcome) := Apply(cfg, entries, Take(req.transferId, now));
      match outcome
      case Taken(entry) =>
        (match DecodeHex(TrimHexPrefix(req.signature))
         case None => (after, Err(InvalidSignature))
         case Some(bytes) => (after, Ok(Submission(entry, req.signedBy, bytes, now))))
      case Expired => (after, Err(TransferGone))
      case _ => (after, Err(TransferMissing))
  }

  class TransferService {
    const cache: PreparedTransferCache
    var ledger: seq<Submission>

    constructor (cache: PreparedTransferCache)
      ensures this.cache == cache && ledger == []
    {
      this.cache, ledger := cache, [];
    }

    /** The common end of Prepare, PrepareAccept and PrepareWithdraw. */
    method Prepare(prepared: Result<PreparedTransfer, ServiceError>, now: int)
      returns (r: Result<PreparedTransfer, ServiceError>)
      modifies cache
      ensures prepared.Err? ==> r == prepared && cache.entries == old(cache.entries)
      ensures prepared.Ok? ==>
          var (after, outcome) := Apply(cache.cfg, old(cache.entries), Put(prepared.value, now));
          cache.entries == after && r == if outcome.Stored? then Ok(outcome.entry) else Err(TooManyPending)
    {
      if prepared.Err? {
        return prepared;
      }
      var put := cache.Put(prepared.value, now);
      r := if put.Ok? then Ok(put.value) else Err(TooManyPending);
    }

    /** `accepts` is the ledger's answer to the submission, if one is made. */
    method Execute(lookup: Result<User, ServiceError>, req: ExecuteRequest, now: int, accepts: bool)
      returns (r: Result<(), ServiceError>)
      modifies this, cache
      ensures cache.entries == Claim(cache.cfg, old(cache.entries), lookup, req, now).0
      ensures match Claim(cache.cfg, old(cache.entries), lookup, req, now).1
              case Err(error) => r == Err(error) && ledger == old(ledger)
              case Ok(submission) =>
                r == (if accepts then Ok(()) else Err(LedgerRejected)) && ledger == old(ledger) + [submission]
    {
      if lookup.Err? {
        return Err(lookup.error);
      }
      if lookup.value.keyFingerprint != req.signedBy {
        return Err(FingerprintMismatch);
      }
      var taken := cache.GetAndDelete(req.transferId, now);
      if taken.Err? {
        return Err(if taken.error == TransferExpired then TransferGone else TransferMissing);
      }
      var decoded := DecodeHex(TrimHexPrefix(req.signature));
      if decoded.None? {
        return Err(InvalidSignature);
      }
      ledger := ledger + [Submission(taken.value, req.signedBy, decoded.value, now)];
      r := if accepts then Ok(()) else Err(LedgerRejected);
    }

    method ExecuteAccept(lookup: Result<User, ServiceError>, req: ExecuteRequest, now: int, accepts: bool)
      returns (r: Result<(), ServiceError>)
      modifies this, cache
      ensures cache.entries == Claim(cache.cfg, old(cache.entries), lookup, req, now).0
      ensures match Claim(cache.cfg, old(cache.entries), lookup, req, now).1
              case Err(error) => r == Err(error) && ledger == old(ledger)
              case Ok(submission) =>
                r == (if accepts then Ok(()) else Err(LedgerRejected)) && ledger == old(ledger) + [submission]
    {
      r := Execute(lookup, req, now, accepts);
    }
  }

  /**
   * Execute touches the cache exactly when a known user presents their own key's
   * fingerprint for an id that is cached; then it removes that entry and no other.
   */
  lemma CacheTouchedIff(cfg: Config, entries: Entries, lookup: Result<User, ServiceError>, req: ExecuteRequest, now: int)
    ensures var after := Claim(cfg, entries, lookup, req, now).0;
            && (after != entries <==>
                  lookup.Ok? && lookup.value.keyFingerprint == req.signedBy && req.transferId in entries)
            && (after != entries ==> after == entries - {req.transferId})
  {
    assert req.transferId in entries ==> req.transferId !in entries - {req.transferId};
  }

  /** What a successful claim submits: the cached entry, with the request's fingerprint and signature bytes. */
  lemma ClaimSucceedsIff(cfg: Config, entries: Entries, lookup: Result<User, ServiceError>, req: ExecuteRequest, now: int)
    ensures var r, bytes := Claim(cfg, entries, lookup, req, now).1, DecodeHex(TrimHexPrefix(req.signature));
            && (r.Ok? <==>
                  && lookup.Ok? && lookup.value.keyFingerprint == req.signedBy && bytes.Some?
                  && req.transferId in entries && now <= entries[req.transferId].expiresAt)
            && (r.Ok? ==> r.value == Submission(entries[req.transferId], req.signedBy, bytes.value, now))
  {
  }

  // ----- signatures, and the answer to every request

  /** `c` is the hex digit of value d, in either case. */
  ghost predicate IsHexDigit(c: char, d: nat) {
    d < 16 && (c == "0123456789abcdef"[d] || c == "0123456789ABCDEF"[d])
  }

  lemma HexDigitIs(c: char)
    ensures HexDigit(c) >= 0 ==> IsHexDigit(c, HexDigit(c))
    ensures forall d: nat :: IsHexDigit(c, d) ==> HexDigit(c) == d
  {
  }

  ghost predicate SomeHexDigit(c: char) {
    exists d: nat :: IsHexDigit(c, d)
  }

  /** Hex digits, two for each byte. */
  ghost predicate IsHex(h: string) {
    |h| % 2 == 0 && forall i :: 0 <= i < |h| ==> SomeHexDigit(h[i])
  }

  lemma IsHexIff(h: string)
    ensures IsHex(h) <==> |h| % 2 == 0 && AllHex(h)
  {
    forall i | 0 <= i < |h| ensures HexDigit(h[i]) >= 0 <==> SomeHexDigit(h[i]) {
      HexDigitIs(h[i]);
    }
  }

  /** Hex digits, possibly with "0x" in front. */
  ghost predicate Signature(text: string, h: string) {
    IsHex(h) && (text == h || text == "0x" + h)
  }

  lemma PrefixTrimmed(text: string, h: string)
    requires Signature(text, h)
    ensures TrimHexPrefix(text) == h && DecodeHex(h).Some?
  {
    IsHexIff(h);
    HexAccepted(h);
    if text != h {
      assert text[0] == '0' && text[1] == 'x' && text[2..] == h;
    }
  }

  /** What is decoded after the prefix is trimmed decodes from a signature in the above sense. */
  lemma SignatureIff(text: string)
    ensures DecodeHex(TrimHexPrefix(text)).Some? <==> exists h :: Signature(text, h)
  {
    var h := TrimHexPrefix(text);
    HexAccepted(h);
    IsHexIff(h);
    if "0x" <= text {
      assert text == "0x" + text[2..];
    }
    if DecodeHex(h).Some? {
      assert Signature(text, h);
    }
    if g :| Signature(text, g) {
      PrefixTrimmed(text, g);
    }
  }

  /** A signature with "0x" in front is claimed with like one without, and byte i is that of digits 2i and 2i + 1. */
  lemma PrefixIgnored(
      cfg: Config, entries: Entries, lookup: Result<User, ServiceError>, req: ExecuteRequest, now: int, h: string)
    requires req.signature == h && IsHex(h)
    ensures var r := Claim(cfg, entries, lookup, req, now).1;
            && Claim(cfg, entries, lookup, req.(signature := "0x" + h), now) == Claim(cfg, entries, lookup, req, now)
            && (r.Ok? ==> Bytes(h, r.value.signature))
  {
    PrefixTrimmed(h, h);
    PrefixTrimmed("0x" + h, h);
    HexBytes(h);
    ClaimSucceedsIff(cfg, entries, lookup, req, now);
  }

  ghost predicate IsByteOf(high: char, low: char, b: int) {
    exists d: nat, e: nat :: IsHexDigit(high, d) && IsHexDigit(low, e) && b == 16 * d + e
  }

  /** The bytes are those of the digits, high half first. */
  ghost predicate Bytes(h: string, bytes: seq<int>) {
    |h| == 2 * |bytes| && forall i :: 0 <= i < |bytes| ==> IsByteOf(h[2 * i], h[2 * i + 1], bytes[i])
  }

  lemma HexBytes(h: string)
    requires DecodeHex(h).Some?
    ensures Bytes(h, DecodeHex(h).value)
  {
    var bytes := DecodeHex(h).value;
    HexAccepted(h);
    forall i | 0 <= i < |bytes| ensures IsByteOf(h[2 * i], h[2 * i + 1], bytes[i]) {
      HexByte(h, i, 2 * i);
      HexDigitIs(h[2 * i]);
      HexDigitIs(h[2 * i + 1]);
    }
  }

  /** Hex decodes exactly when its length is even and every character is a digit, two to a byte, high half first. */
  lemma HexDecodesIff(h: string)
    ensures DecodeHex(h).Some? <==> IsHex(h)
    ensures DecodeHex(h).Some? ==> Bytes(h, DecodeHex(h).value)
  {
    HexAccepted(h);
    IsHexIff(h);
    if DecodeHex(h).Some? {
      HexBytes(h);
    }
  }

  /** Which error a known user's request gets, or None when it is submitted: the first check that fails decides. */
  ghost function Refusal(entries: Entries, user: User, req: ExecuteRequest, now: int): (e: Option<ServiceError>) {
    if user.keyFingerprint != req.signedBy then Some(FingerprintMismatch)
    else if req.transferId !in entries then Some(TransferMissing)
    else if now > entries[req.transferId].expiresAt then Some(TransferGone)
    else if forall h :: !Signature(req.signature, h) then Some(InvalidSignature)
    else None
  }

  /** Each error has exactly its condition, and an unknown user's is the lookup's own. */
  lemma RefusedIff(cfg: Config, entries: Entries, lookup: Result<User, ServiceError>, req: ExecuteRequest, now: int)
    ensures var r := Claim(cfg, entries, lookup, req, now).1;
            match lookup
            case Err(error) => r == Err(error)
            case Ok(user) =>
              match Refusal(entries, user, req, now)
              case None => r.Ok?
              case Some(error) => r == Err(error)
  {
    SignatureIff(req.signature);
  }

  /** At an entry cached until 100: the signature 0x30 is the byte 48 at time 50, and too late at time 101. */
  lemma SignedInTime(cfg: Config, t: PreparedTransfer, user: User)
    requires t.id == "t1" && t.expiresAt == 100
    ensures var req := ExecuteRequest("t1", user.keyFingerprint, "0x30");
            && Claim(cfg, map["t1" := t], Ok(user), req, 50) == (map[], Ok(Submission(t, user.keyFingerprint, [48], 50)))
            && Claim(cfg, map["t1" := t], Ok(user), req, 101) == (map[], Err(TransferGone))
            && Claim(cfg, map[], Ok(user), req, 50) == (map[], Err(TransferMissing))
  {
    var h := "30";
    assert "0x30"[2..] == h && |h[2..]| == 0;
    assert DecodeHex(h[2..]) == Some([]);
    assert DecodeHex(h) == Some([48] + []) && [48] + [] == [48];
    assert TrimHexPrefix("0x30") == h;
    assert map["t1" := t] - {"t1"} == map[];
  }

  /** Whatever the user requests, what is submitted was prepared for the user's own party. */
  ghost predicate SubmitsOwn(cfg: Config, entries: Entries, user: User) {
    forall req, now :: var r := Claim(cfg, entries, Ok(user), req, now).1; r.Ok? ==> r.value.entry.partyId == user.partyId
  }

  /**
   * Execute compares the key's fingerprint and never the entry's party: it submits only what
   * was prepared for the user's own party, if and only if nothing else is cached.
   */
  lemma SubmitsOwnIff(cfg: Config, entries: Entries, user: User)
    ensures SubmitsOwn(cfg, entries, user) <==> forall id :: id in entries ==> entries[id].partyId == user.partyId
  {
    if SubmitsOwn(cfg, entries, user) {
      forall id | id in entries ensures entries[id].partyId == user.partyId {
        ClaimedByAnyUser(cfg, entries, user, id);
      }
    } else {
      var req, now :| var r := Claim(cfg, entries, Ok(user), req, now).1; r.Ok? && r.value.entry.partyId != user.partyId;
      ClaimSucceedsIff(cfg, entries, Ok(user), req, now);
    }
  }

  /** Up to its expiry, a cached entry is claimed by whichever user names its id. */
  lemma ClaimedByAnyUser(cfg: Config, entries: Entries, user: User, id: string)
    requires id in entries
    ensures var req := ExecuteRequest(id, user.keyFingerprint, "");
            var r := Claim(cfg, entries, Ok(user), req, entries[id].expiresAt).1;
            r.Ok? && r.value.entry == entries[id]
  {
    ClaimSucceedsIff(cfg, entries, Ok(user), ExecuteRequest(id, user.keyFingerprint, ""), entries[id].expiresAt);
  }

  // ----- concurrent requests

  /**
   * Claiming an entry is atomic under the cache's lock; between claiming and
   * submitting, any number of other requests and sweeps may run.
   */
  datatype Step =
    | PrepareStep(transfer: PreparedTransfer, now: int)
    | ClaimStep(lookup: Result<User, ServiceError>, req: ExecuteRequest, now: int)
    | SubmitStep(i: nat)
    | AbandonStep(i: nat)
    | SweepStep(now: int)

  /** `prepared` and `discarded` count, by id, successful prepares and entries that ended without a submission. */
  datatype State = State(
    entries: Entries, inFlight: seq<Submission>, ledger: seq<Submission>,
    prepared: multiset<string>, discarded: multiset<string>)

  function Init(): (s: State) {
    State(map[], [], [], multiset{}, multiset{})
  }

  predicate Enabled(s: State, step: Step) {
    (step.SubmitStep? || step.AbandonStep?) ==> step.i < |s.inFlight|
  }

  function Removed(before: Entries, after: Entries): (ids: set<string>) {
    before.Keys - after.Keys
  }

  function AfterClaim(s: State, after: Entries, r: Result<Submission, ServiceError>): (t: State) {
    if r.Ok? then s.(entries := after, inFlight := s.inFlight + [r.value])
    else s.(entries := after, discarded := s.discarded + multiset(Removed(s.entries, after)))
  }

  function Next(cfg: Config, s: State, step: Step): (t: State)
    requires Enabled(s, step)
  {
    match step
    case PrepareStep(transfer, now) =>
      var (after, outcome) := Apply(cfg, s.entries, Put(transfer, now));
      if outcome.Stored? then
        s.(entries := after, prepared := s.prepared + multiset{transfer.id},
           discarded := s.discarded + if transfer.id in s.entries then multiset{transfer.id} else multiset{})
      else s
    case ClaimStep(lookup, req, now) =>
      var (after, r) := Claim(cfg, s.entries, lookup, req, now);
      AfterClaim(s, after, r)
    case SubmitStep(i) =>
      s.(inFlight := s.inFlight[..i] + s.inFlight[i + 1..], ledger := s.ledger + [s.inFlight[i]])
    case AbandonStep(i) =>
      s.(inFlight := s.inFlight[..i] + s.inFlight[i + 1..],
         discarded := s.discarded + multiset{s.inFlight[i].entry.id})
    case SweepStep(now) =>
      var after := Apply(cfg, s.entries, Sweep(now)).0;
      s.(entries := after, discarded := s.discarded + multiset(Removed(s.entries, after)))
  }

  /** Execute is a claim and, if that succeeds, the submission of what was claimed: together they do what it does. */
  lemma ExecuteSteps(cfg: Config, s: State, lookup: Result<User, ServiceError>, req: ExecuteRequest, now: int)
    ensures var (after, r) := Claim(cfg, s.entries, lookup, req, now);
            var claimed := Next(cfg, s, ClaimStep(lookup, req, now));
            match r
            case Err(_) => claimed.entries == after && claimed.inFlight == s.inFlight && claimed.ledger == s.ledger
            case Ok(submission) =>
              var done := Next(cfg, claimed, SubmitStep(|s.inFlight|));
              && claimed.ledger == s.ledger && done.ledger == s.ledger + [submission]
              && done.entries == after && done.inFlight == s.inFlight && done.discarded == s.discarded
  {
    var claimed := Next(cfg, s, ClaimStep(lookup, req, now));
    if Claim(cfg, s.entries, lookup, req, now).1.Ok? {
      var n := |s.inFlight|;
      assert claimed.inFlight[..n] + claimed.inFlight[n + 1..] == s.inFlight;
    }
  }

  /** A prepare is the cache's put, counted when it succeeds; a sweep is the cache's sweep. */
  lemma CacheSteps(cfg: Config, s: State, transfer: PreparedTransfer, now: int)
    ensures var (after, outcome) := Apply(cfg, s.entries, Put(transfer, now));
            var t := Next(cfg, s, PrepareStep(transfer, now));
            t.entries == after && t.inFlight == s.inFlight && t.ledger == s.ledger
            && t.prepared == (if outcome.Stored? then s.prepared + multiset{transfer.id} else s.prepared)
    ensures var t := Next(cfg, s, SweepStep(now));
            t.entries == Live(s.entries, now) && t.inFlight == s.inFlight && t.ledger == s.ledger && t.prepared == s.prepared
  {
  }

  function Count(subs: seq<Submission>, id: string): (n: nat) {
    if subs == [] then 0 else (if subs[0].entry.id == id then 1 else 0) + Count(subs[1..], id)
  }

  lemma {:induction false} CountConcat(a: seq<Submission>, b: seq<Submission>, id: string)
    ensures Count(a + b, id) == Count(a, id) + Count(b, id)
  {
    if a == [] {
      assert a + b == b;
    } else {
      assert (a + b)[1..] == a[1..] + b;
      CountConcat(a[1..], b, id);
    }
  }

  lemma {:induction false} CountRemove(subs: seq<Submission>, i: nat, id: string)
    requires i < |subs|
    ensures Count(subs, id) == Count(subs[..i] + subs[i + 1..], id) + Count([subs[i]], id)
  {
    assert subs == subs[..i] + [subs[i]] + subs[i + 1..];
    CountConcat(subs[..i] + [subs[i]], subs[i + 1..], id);
    CountConcat(subs[..i], [subs[i]], id);
    CountConcat(subs[..i], subs[i + 1..], id);
  }

  function Cached(entries: Entries, id: string): (n: nat) {
    if id in entries then 1 else 0
  }

  /** Every successful prepare is accounted for exactly once. */
  ghost predicate Conserved(s: State, id: string) {
    s.prepared[id] == Cached(s.entries, id) + Count(s.inFlight, id) + Count(s.ledger, id) + s.discarded[id]
  }

  /** Claimed before its expiry. */
  ghost predicate Fresh(sub: Submission) {
    sub.claimedAt <= sub.entry.expiresAt
  }

  ghost predicate Inv(s: State) {
    && WellKeyed(s.entries)
    && (forall id :: Conserved(s, id))
    && (forall sub :: sub in s.inFlight ==> Fresh(sub))
    && (forall sub :: sub in s.ledger ==> Fresh(sub))
  }

  lemma PrepareConserves(cfg: Config, s: State, transfer: PreparedTransfer, now: int, id: string)
    requires WellKeyed(s.entries) && Conserved(s, id)
    ensures Conserved(Next(cfg, s, PrepareStep(transfer, now)), id)
  {
  }

  /** A claim takes at most one entry, and a submission carries the entry it took. */
  ghost predicate Takes(entries: Entries, after: Entries, r: Result<Submission, ServiceError>) {
    && (after == entries || exists id :: id in entries && after == entries - {id})
    && (r.Ok? ==> Fresh(r.value) && r.value.entry.id in entries && after == entries - {r.value.entry.id})
  }

  lemma ClaimTakes(cfg: Config, entries: Entries, lookup: Result<User, ServiceError>, req: ExecuteRequest, now: int)
    requires WellKeyed(entries)
    ensures var (after, r) := Claim(cfg, entries, lookup, req, now); Takes(entries, after, r)
  {
    var (after, r) := Claim(cfg, entries, lookup, req, now);
    CacheTouchedIff(cfg, entries, lookup, req, now);
    ClaimSucceedsIff(cfg, entries, lookup, req, now);
  }

  lemma TakingConserves(s: State, after: Entries, r: Result<Submission, ServiceError>, id: string)
    requires WellKeyed(s.entries) && Conserved(s, id) && Takes(s.entries, after, r)
    ensures Conserved(AfterClaim(s, after, r), id)
  {
    if r.Ok? {
      CountConcat(s.inFlight, [r.value], id);
    }
  }

  lemma ClaimKeepsInv(cfg: Config, s: State, lookup: Result<User, ServiceError>, req: ExecuteRequest, now: int)
    requires Inv(s)
    ensures Inv(Next(cfg, s, ClaimStep(lookup, req, now)))
  {
    var (after, r) := Claim(cfg, s.entries, lookup, req, now);
    ClaimTakes(cfg, s.entries, lookup, req, now);
    TakingKeepsInv(s, after, r);
  }

  lemma TakingKeepsInv(s: State, after: Entries, r: Result<Submission, ServiceError>)
    requires Inv(s) && Takes(s.entries, after, r)
    ensures Inv(AfterClaim(s, after, r))
  {
    forall id ensures Conserved(AfterClaim(s, after, r), id) {
      assert Conserved(s, id);
      TakingConserves(s, after, r, id);
    }
  }

  lemma StepConserves(cfg: Config, s: State, step: Step, id: string)
    requires WellKeyed(s.entries) && Conserved(s, id) && Enabled(s, step) && !step.ClaimStep?
    ensures Conserved(Next(cfg, s, step), id)
  {
    match step
    case PrepareStep(transfer, now) => PrepareConserves(cfg, s, transfer, now, id);
    case SubmitStep(i) => SubmitConserves(cfg, s, i, id);
    case AbandonStep(i) => CountRemove(s.inFlight, i, id);
    case SweepStep(now) => SweepConserves(cfg, s, now, id);
  }

  lemma SubmitConserves(cfg: Config, s: State, i: nat, id: string)
    requires Conserved(s, id) && i < |s.inFlight|
    ensures Conserved(Next(cfg, s, SubmitStep(i)), id)
  {
    CountRemove(s.inFlight, i, id);
    CountConcat(s.ledger, [s.inFlight[i]], id);
  }

  lemma SweepConserves(cfg: Config, s: State, now: int, id: string)
    requires Conserved(s, id)
    ensures Conserved(Next(cfg, s, SweepStep(now)), id)
  {
  }

  lemma StepKeepsInv(cfg: Config, s: State, step: Step)
    requires Inv(s) && Enabled(s, step)
    ensures Inv(Next(cfg, s, step))
  {
    if step.ClaimStep? {
      ClaimKeepsInv(cfg, s, step.lookup, step.req, step.now);
    } else {
      forall id ensures Conserved(Next(cfg, s, step), id) {
        assert Conserved(s, id);
        StepConserves(cfg, s, step, id);
      }
    }
  }

  predicate Legal(cfg: Config, s: State, run: seq<Step>)
    decreases |run|
  {
    run == [] || (Enabled(s, run[0]) && Legal(cfg, Next(cfg, s, run[0]), run[1..]))
  }

  function Run(cfg: Config, s: State, run: seq<Step>): (t: State)
    requires Legal(cfg, s, run)
    decreases |run|
  {
    if run == [] then s else Run(cfg, Next(cfg, s, run[0]), run[1..])
  }

  lemma {:induction false} RunKeepsInv(cfg: Config, s: State, run: seq<Step>)
    requires Inv(s) && Legal(cfg, s, run)
    ensures Inv(Run(cfg, s, run))
    decreases |run|
  {
    if run == [] {
    } else {
      StepKeepsInv(cfg, s, run[0]);
      RunKeepsInv(cfg, Next(cfg, s, run[0]), run[1..]);
    }
  }

  /**
   * In every interleaving: each successful prepare is still cached, being submitted,
   * submitted or discarded, exactly once; so an id is submitted at most as often as
   * it was prepared, and only entries claimed before their expiry are submitted.
   */
  lemma {:induction false} EveryPrepareAccountedFor(cfg: Config, run: seq<Step>, id: string)
    requires Legal(cfg, Init(), run)
    ensures var s := Run(cfg, Init(), run);
            && s.prepared[id] == Cached(s.entries, id) + Count(s.inFlight, id) + Count(s.ledger, id) + s.discarded[id]
            && Count(s.ledger, id) <= s.prepared[id]
            && forall sub :: sub in s.ledger ==> sub.claimedAt <= sub.entry.expiresAt
  {
    RunKeepsInv(cfg, Init(), run);
    assert Conserved(Run(cfg, Init(), run), id);
  }
}
