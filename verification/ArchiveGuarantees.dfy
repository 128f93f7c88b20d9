/** What an archive means: one meaning per accepted blob, and which damage is always noticed. */
module ArchiveGuarantees {
  import opened Words
  import opened Endian
  import opened LinearRegister
  import opened Crc
  import opened Archive

  predicate RequestInBounds(r: PersistedRequest) {
    |r.committed| <= MAX_TOKENS
  }

  /** The archives the format can carry. */
  predicate InBounds(a: StateArchive) {
    && a.version == FORMAT_VERSION
    && |a.requests| <= MAX_REQUESTS
    && forall i :: 0 <= i < |a.requests| ==> RequestInBounds(a.requests[i])
  }

  // ---------------------------------------------------------------------------
  // One request
  // ---------------------------------------------------------------------------

  lemma RequestLayout(r: PersistedRequest, rest: seq<byte>)
    ensures var s := RequestBytes(r) + rest;
            && |s| == 60 + 4 * |r.committed| + |rest|
            && s == PutAll(Fields(r), 8) + (s[56..])
            && s[56..60] == Le(|r.committed|, 4)
            && s[60..] == PutAll(r.committed, 4) + rest
            && s[60 + 4 * |r.committed|..] == rest
  {
    Pieces(PutAll(Fields(r), 8), Le(|r.committed|, 4), PutAll(r.committed, 4), rest);
  }

  lemma Pieces(a: seq<byte>, b: seq<byte>, c: seq<byte>, d: seq<byte>)
    ensures var s := (a + b + c) + d;
            && |s| == |a| + |b| + |c| + |d|
            && s == a + s[|a|..]
            && s[|a|..|a| + |b|] == b && s[|a| + |b|..] == c + d && s[|a| + |b| + |c|..] == d
  {
  }

  lemma ParseOfRequest(r: PersistedRequest, rest: seq<byte>)
    requires RequestInBounds(r)
    ensures ParseRequest(RequestBytes(r) + rest) == Ok(Parsed(r, rest))
  {
    var s := RequestBytes(r) + rest;
    RequestLayout(r, rest);
    RangeValues();
    FromLeOfLe(|r.committed|, 4);
    FieldsFit(r);
    GetAllOfPutAll(Fields(r), 8, s[56..]);
    GetAllOfPutAll(r.committed, 4, rest);
    assert FromFields(Fields(r), r.committed) == r;
  }

  lemma FieldsFit(r: PersistedRequest)
    ensures Fit(Fields(r), 8) && Fit(r.committed, 4)
  {
    RangeValues();
  }

  lemma RequestOfParse(s: seq<byte>, r: PersistedRequest, rest: seq<byte>)
    requires ParseRequest(s) == Ok(Parsed(r, rest))
    ensures RequestInBounds(r) && s == RequestBytes(r) + rest
  {
    var count := FromLe(s[56..60]);
    var end := 60 + 4 * count;
    assert Fields(r) == Words64(s, 7);
    PutAllOfGetAll(s, 8, 7);
    LeOfFromLe(s[56..60]);
    PutAllOfGetAll(s[60..], 4, count);
    assert s[60..][..4 * count] == s[60..end];
    assert s == s[..56] + s[56..60] + s[60..end] + s[end..];
  }

  // ---------------------------------------------------------------------------
  // A list of requests
  // ---------------------------------------------------------------------------

  lemma Regroup(x: seq<byte>, y: seq<byte>, z: seq<byte>)
    ensures x + (y + z) == (x + y) + z
  {
  }

  lemma {:induction false} ParseOfRequests(rs: seq<PersistedRequest>, rest: seq<byte>)
    requires forall i :: 0 <= i < |rs| ==> RequestInBounds(rs[i])
    ensures ParseRequests(RequestsBytes(rs) + rest, |rs|) == Ok(Parsed(rs, rest))
  {
    if |rs| == 0 {
      assert [] + rest == rest;
    } else {
      var after := RequestsBytes(rs[1..]) + rest;
      Regroup(RequestBytes(rs[0]), RequestsBytes(rs[1..]), rest);
      ParseOfRequest(rs[0], after);
      ParseOfRequests(rs[1..], rest);
      assert [rs[0]] + rs[1..] == rs;
    }
  }

  lemma {:induction false} RequestsOfParse(s: seq<byte>, n: nat, rs: seq<PersistedRequest>, rest: seq<byte>)
    requires ParseRequests(s, n) == Ok(Parsed(rs, rest))
    ensures |rs| == n && s == RequestsBytes(rs) + rest
    ensures forall i :: 0 <= i < |rs| ==> RequestInBounds(rs[i])
  {
    if n == 0 {
      assert [] + rest == rest;
    } else {
      var first := ParseRequest(s).value;
      var others := ParseRequests(first.rest, n - 1).value;
      RequestOfParse(s, first.value, first.rest);
      RequestsOfParse(first.rest, n - 1, others.value, others.rest);
      assert rs[1..] == others.value;
      Regroup(RequestBytes(rs[0]), RequestsBytes(rs[1..]), rest);
    }
  }

  // ---------------------------------------------------------------------------
  // A whole archive
  // ---------------------------------------------------------------------------

  /** The decoder without its checksum test. */
  function ParseArchive(s: seq<byte>): Result<Parsed<StateArchive>, ArchiveError>
    requires |s| >= 20
  {
    if s[0..4] != MAGIC then Err(Malformed)
    else if FromLe(s[4..8]) != FORMAT_VERSION then Err(UnknownProtocolVersion)
    else if FromLe(s[16..20]) > MAX_REQUESTS then Err(OutOfRange)
    else
      match ParseRequests(s[20..], FromLe(s[16..20]))
      case Err(e) => Err(e)
      case Ok(p) => Ok(Parsed(StateArchive(FORMAT_VERSION, Words64(s[8..], 1)[0], p.value), p.rest))
  }

  lemma DeserializeIsParse(blob: seq<byte>)
    requires |blob| >= 24 && ChecksumHolds(blob)
    ensures match ParseArchive(blob)
            case Ok(p) => DeserializeSpec(blob) == Ok(p.value)
            case Err(e) => DeserializeSpec(blob) == Err(e)
  {
  }

  lemma PrologueSlices(a: StateArchive, s: seq<byte>)
    requires Prologue(a) <= s
    ensures s[0..4] == MAGIC && s[4..8] == Le(a.version, 4) && s[8..16] == Le(a.epoch, 8)
    ensures s[16..20] == Le(|a.requests|, 4)
  {
    var h := Prologue(a);
    assert s[..20] == h;
    assert s[0..4] == h[0..4] == MAGIC;
    assert s[4..8] == h[4..8] == Le(a.version, 4);
    assert s[8..16] == h[8..16] == Le(a.epoch, 8);
    assert s[16..20] == h[16..20] == Le(|a.requests|, 4);
  }

  lemma EpochWord(s: seq<byte>)
    requires |s| >= 16
    ensures Words64(s[8..], 1)[0] == FromLe(s[8..16])
  {
    assert s[8..][..8] == s[8..16];
  }

  lemma PrologueWords(a: StateArchive, s: seq<byte>)
    requires InBounds(a) && Prologue(a) <= s
    ensures s[0..4] == MAGIC && FromLe(s[4..8]) == a.version
    ensures Words64(s[8..], 1)[0] == a.epoch && FromLe(s[16..20]) == |a.requests|
  {
    PrologueSlices(a, s);
    RangeValues();
    FromLeOfLe(a.version, 4);
    FromLeOfLe(a.epoch, 8);
    FromLeOfLe(|a.requests|, 4);
    EpochWord(s);
  }

  lemma ParseOfPayload(a: StateArchive, rest: seq<byte>)
    requires InBounds(a)
    ensures ParseArchive(Payload(a) + rest) == Ok(Parsed(a, rest))
  {
    var s := Payload(a) + rest;
    Regroup(Prologue(a), RequestsBytes(a.requests), rest);
    PrologueWords(a, s);
    assert s[20..] == RequestsBytes(a.requests) + rest;
    ParseOfRequests(a.requests, rest);
  }

  lemma PayloadOfParse(s: seq<byte>, a: StateArchive, rest: seq<byte>)
    requires |s| >= 20 && ParseArchive(s) == Ok(Parsed(a, rest))
    ensures InBounds(a) && s == Payload(a) + rest
  {
    RequestsOfParse(s[20..], FromLe(s[16..20]), a.requests, rest);
    PrologueOfWords(a, s);
    Regroup(Prologue(a), RequestsBytes(a.requests), rest);
    assert s == s[..20] + s[20..];
  }

  lemma PrologueOfWords(a: StateArchive, s: seq<byte>)
    requires |s| >= 20 && s[0..4] == MAGIC && FromLe(s[4..8]) == a.version
    requires Words64(s[8..], 1)[0] == a.epoch && FromLe(s[16..20]) == |a.requests|
    ensures Prologue(a) == s[..20]
  {
    EpochWord(s);
    LeOfFromLe(s[4..8]);
    LeOfFromLe(s[8..16]);
    LeOfFromLe(s[16..20]);
    FourParts(s);
  }

  lemma FourParts(s: seq<byte>)
    requires |s| >= 20
    ensures s[..20] == s[0..4] + s[4..8] + s[8..16] + s[16..20]
  {
  }

  /**
   * A blob is read as the archive a exactly when its checksum holds, a is within bounds, and the
   * blob starts with a's bytes. Nothing relates the end of those bytes to the end of the blob.
   */
  lemma AcceptsExactly(blob: seq<byte>, a: StateArchive)
    ensures DeserializeSpec(blob) == Ok(a) <==>
            |blob| >= 24 && ChecksumHolds(blob) && InBounds(a) && Payload(a) <= blob
  {
    if DeserializeSpec(blob) == Ok(a) {
      DeserializeIsParse(blob);
      PayloadOfParse(blob, a, ParseArchive(blob).value.rest);
    }
    if |blob| >= 24 && ChecksumHolds(blob) && InBounds(a) && Payload(a) <= blob {
      var rest := blob[|Payload(a)|..];
      assert blob == Payload(a) + rest;
      ParseOfPayload(a, rest);
      DeserializeIsParse(blob);
    }
  }

  // ---------------------------------------------------------------------------
  // Round trips
  // ---------------------------------------------------------------------------

  lemma SealHolds(payload: seq<byte>)
    ensures ChecksumHolds(Seal(payload))
  {
    var blob := Seal(payload);
    assert blob[|blob| - 4..] == Trailer(Checksum(payload)) && blob[..|blob| - 4] == payload;
    StoredTrailer(Checksum(payload));
  }

  /** An archive survives writing and reading exactly when it is within bounds. */
  lemma RoundTrip(a: StateArchive)
    ensures DeserializeSpec(Seal(Payload(a))) == Ok(a) <==> InBounds(a)
    ensures InBounds(a) <==>
              && a.version == 1 && |a.requests| <= 1000000
              && forall i :: 0 <= i < |a.requests| ==> |a.requests[i].committed| <= 1000000
  {
    SealHolds(Payload(a));
    AcceptsExactly(Seal(Payload(a)), a);
  }

  /**
   * Writing an accepted archive again gives back the very blob exactly when the blob's bytes end four
   * bytes before its end.
   */
  lemma RewriteIsIdentity(blob: seq<byte>, a: StateArchive)
    requires DeserializeSpec(blob) == Ok(a)
    ensures Seal(Payload(a)) == blob <==> |Payload(a)| == |blob| - 4
  {
    AcceptsExactly(blob, a);
    if |Payload(a)| == |blob| - 4 {
      assert blob[..|blob| - 4] == Payload(a);
      TrailerOfStored(blob[|blob| - 4..]);
      assert blob == Payload(a) + blob[|blob| - 4..];
    }
  }

  lemma TrailerOfStored(s: seq<byte>)
    requires |s| == 4
    ensures Trailer(Stored(s)) == s
  {
    BitsOfFour(s);
    var w := Stored(s);
    PackBits(s[0]);
    PackBits(s[1]);
    PackBits(s[2]);
    PackBits(s[3]);
    assert w[0..8] == ByteBits(s[0]) && w[8..16] == ByteBits(s[1]);
    assert w[16..24] == ByteBits(s[2]) && w[24..32] == ByteBits(s[3]);
  }

  lemma PackBits(b: byte)
    ensures PackByte(ByteBits(b)) == b
  {
    assert Power2(8) == 256;
    ValueOfDigits(b, 8);
  }

  /** Bytes after the archive's own are accepted once they are covered by the checksum. */
  lemma TrailingBytesAreAccepted(a: StateArchive, junk: seq<byte>)
    requires InBounds(a)
    ensures DeserializeSpec(Seal(Payload(a) + junk)) == Ok(a)
    ensures junk != [] ==> Seal(Payload(a) + junk) != Seal(Payload(a))
  {
    SealHolds(Payload(a) + junk);
    AcceptsExactly(Seal(Payload(a) + junk), a);
    assert |Seal(Payload(a) + junk)| == |Seal(Payload(a))| + |junk|;
  }

  // ---------------------------------------------------------------------------
  // Damage
  // ---------------------------------------------------------------------------

  /** No archive's bytes are the start of another's. */
  lemma PrefixFree(a: StateArchive, b: StateArchive)
    requires InBounds(a) && InBounds(b) && Payload(a) <= Payload(b)
    ensures a == b
  {
    var rest := Payload(b)[|Payload(a)|..];
    assert Payload(b) == Payload(a) + rest;
    ParseOfPayload(a, rest);
    ParseOfPayload(b, []);
    assert Payload(b) + [] == Payload(b);
  }

  /** Cutting more than the checksum off a written archive is always an error, even if a checksum happens to match. */
  lemma TruncationRejected(a: StateArchive, n: nat)
    requires InBounds(a) && n < |Payload(a)|
    ensures DeserializeSpec(Seal(Payload(a))[..n]).Err?
  {
    var cut := Seal(Payload(a))[..n];
    assert cut == Payload(a)[..n];
    if DeserializeSpec(cut).Ok? {
      var b := DeserializeSpec(cut).value;
      AcceptsExactly(cut, b);
      assert Payload(b) <= Payload(a);
      PrefixFree(b, a);
    }
  }

  /**
   * Cutting no more than the checksum off: the archive is still read exactly when what remains happens to end with a
   * valid checksum of its own, so with bytes of the archive that are read twice.
   */
  lemma CutIntoChecksumIff(a: StateArchive, n: nat)
    requires InBounds(a) && |Payload(a)| <= n <= |Payload(a)| + 4
    ensures var cut := Seal(Payload(a))[..n];
            DeserializeSpec(cut) == Ok(a) <==> n >= 24 && ChecksumHolds(cut)
  {
    var cut := Seal(Payload(a))[..n];
    assert cut[..|Payload(a)|] == Payload(a);
    AcceptsExactly(cut, a);
  }

  // --- archives that end in their own checksum ------------------------------------

  predicate HasToken(a: StateArchive) {
    |a.requests| > 0 && |a.requests[|a.requests| - 1].committed| > 0
  }

  function Last(a: StateArchive): PersistedRequest
    requires HasToken(a)
  {
    a.requests[|a.requests| - 1]
  }

  /** The same archive but for its very last token. */
  function WithLastToken(a: StateArchive, t: Token): (b: StateArchive)
    requires HasToken(a)
    ensures HasToken(b) && (InBounds(a) ==> InBounds(b))
  {
    var r := Last(a);
    a.(requests := a.requests[|a.requests| - 1 := r.(committed := r.committed[|r.committed| - 1 := t])])
  }

  /** Everything an archive writes before its last token. */
  function Front(a: StateArchive): seq<byte>
    requires HasToken(a)
  {
    var r := Last(a);
    Prologue(a) + RequestsBytes(a.requests[..|a.requests| - 1])
    + (PutAll(Fields(r), 8) + Le(|r.committed|, 4) + PutAll(r.committed[..|r.committed| - 1], 4))
  }

  lemma LastTokenEndsPayload(a: StateArchive)
    requires HasToken(a)
    ensures Payload(a) == Front(a) + Le(Last(a).committed[|Last(a).committed| - 1], 4)
    ensures |Front(a)| >= 20
  {
    hide Fields, Prologue, PutAll, RequestsBytes, Le;
    var r := Last(a);
    var n, t := |r.committed| - 1, r.committed[|r.committed| - 1];
    RequestsAppend(a.requests[..|a.requests| - 1], r);
    assert a.requests[..|a.requests| - 1] + [r] == a.requests;
    PutAllAppend(r.committed[..n], t, 4);
    assert r.committed[..n] + [t] == r.committed;
    RegroupedTail(Prologue(a), RequestsBytes(a.requests[..|a.requests| - 1]), PutAll(Fields(r), 8),
                  Le(|r.committed|, 4), PutAll(r.committed[..n], 4), Le(t, 4));
  }

  lemma RegroupedTail(h: seq<byte>, rs: seq<byte>, f: seq<byte>, n: seq<byte>, ts: seq<byte>, t: seq<byte>)
    ensures h + (rs + (f + n + (ts + t))) == (h + rs + (f + n + ts)) + t
  {
  }

  /** The last token that makes an archive end in the checksum of everything before it. */
  function OwnChecksum(a: StateArchive): (t: Token)
    requires HasToken(a)
    ensures Le(t, 4) == Trailer(Checksum(Front(a)))
  {
    var trailer := Trailer(Checksum(Front(a)));
    RangeValues();
    FromLeBound(trailer);
    LeOfFromLe(trailer);
    FromLe(trailer)
  }

  /**
   * Every archive with a last token has a sibling that differs in that token alone and is accepted with its checksum
   * cut off entirely: the last token is read as a token and as the checksum.
   */
  lemma TokenIsReadAsChecksum(a: StateArchive)
    requires InBounds(a) && HasToken(a)
    ensures var b := WithLastToken(a, OwnChecksum(a));
            InBounds(b) && DeserializeSpec(Payload(b)) == Ok(b)
  {
    hide Front;
    var b := WithLastToken(a, OwnChecksum(a));
    SameFront(a, OwnChecksum(a));
    LastTokenEndsPayload(b);
    SealHolds(Front(b));
    AcceptsExactly(Payload(b), b);
  }

  lemma SameFront(a: StateArchive, t: Token)
    requires HasToken(a)
    ensures Front(WithLastToken(a, t)) == Front(a) && Last(WithLastToken(a, t)).committed[|Last(a).committed| - 1] == t
    ensures |Last(WithLastToken(a, t)).committed| == |Last(a).committed|
  {
    hide RequestsBytes, PutAll;
    var b := WithLastToken(a, t);
    assert b.requests[..|b.requests| - 1] == a.requests[..|a.requests| - 1];
    assert Last(b).committed[..|Last(b).committed| - 1] == Last(a).committed[..|Last(a).committed| - 1];
  }

  lemma ChecksumIffResidue(blob: seq<byte>)
    requires |blob| >= 4
    ensures ChecksumHolds(blob) <==> Register(blob) == Residue()
  {
    var payload, trailer := blob[..|blob| - 4], blob[|blob| - 4..];
    assert payload + trailer == blob;
    SealedIffResidue(payload, trailer);
  }

  /**
   * Any change of a blob whose checksum holds, confined to 32 consecutive bits anywhere in it, payload
   * and checksum alike, is reported as corruption.
   */
  lemma BitBurstRejected(blob: seq<byte>, damaged: seq<byte>, k: nat)
    requires |blob| >= 24 && ChecksumHolds(blob)
    requires damaged != blob && AgreeOutside(Bits(blob), Bits(damaged), k, 32)
    ensures DeserializeSpec(damaged) == Err(Corrupt)
  {
    ChecksumIffResidue(blob);
    assert |damaged| == |blob|;
    ChecksumIffResidue(damaged);
    BitBurstDetected(blob, damaged, k);
  }

  /** In particular any change of a written archive within four consecutive bytes. */
  lemma ByteBurstRejected(a: StateArchive, damaged: seq<byte>, k: nat)
    requires damaged != Seal(Payload(a)) && AgreeOutside(Seal(Payload(a)), damaged, k, 4)
    ensures DeserializeSpec(damaged) == Err(Corrupt)
  {
    var blob := Seal(Payload(a));
    SealHolds(Payload(a));
    ByteWindow(blob, damaged, k);
    BitBurstRejected(blob, damaged, 8 * k);
  }
}
