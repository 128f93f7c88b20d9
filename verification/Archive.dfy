/** The versioned, checksummed archive of authoritative state. */
module Archive {
  import opened Words
  import opened Endian
  import opened Crc

  const MAX_REQUESTS := 1000000
  const MAX_TOKENS := 1000000
  const MAGIC: seq<byte> := [83, 70, 65, 82]
  const FORMAT_VERSION := 1

  datatype StateRef = StateRef(id: u64, generation: u64)

  datatype PersistedRequest = PersistedRequest(
    id: u64, sequence: u64, attempt: u64, epoch: u64, authGen: u64, authState: StateRef, committed: seq<Token>)

  datatype StateArchive = StateArchive(version: u32, epoch: u64, requests: seq<PersistedRequest>)

  datatype ArchiveError = TruncatedFrame | Corrupt | Malformed | UnknownProtocolVersion | OutOfRange

  // ---------------------------------------------------------------------------
  // Layout
  // ---------------------------------------------------------------------------

  function Fields(r: PersistedRequest): (s: seq<u64>)
    ensures |s| == 7
  {
    [r.id, r.sequence, r.attempt, r.epoch, r.authGen, r.authState.id, r.authState.generation]
  }

  function FromFields(s: seq<u64>, committed: seq<Token>): PersistedRequest
    requires |s| == 7
  {
    PersistedRequest(s[0], s[1], s[2], s[3], s[4], StateRef(s[5], s[6]), committed)
  }

  function RequestBytes(r: PersistedRequest): seq<byte> {
    PutAll(Fields(r), 8) + Le(|r.committed|, 4) + PutAll(r.committed, 4)
  }

  function RequestsBytes(rs: seq<PersistedRequest>): seq<byte> {
    if |rs| == 0 then [] else RequestBytes(rs[0]) + RequestsBytes(rs[1..])
  }

  function Prologue(a: StateArchive): (s: seq<byte>)
    ensures |s| == 20
  {
    MAGIC + Le(a.version, 4) + Le(a.epoch, 8) + Le(|a.requests|, 4)
  }

  function Payload(a: StateArchive): (s: seq<byte>)
    ensures |s| >= 20
  {
    Prologue(a) + RequestsBytes(a.requests)
  }

  /** A payload followed by its own checksum. */
  function Seal(payload: seq<byte>): seq<byte> {
    payload + Trailer(Checksum(payload))
  }

  // ---------------------------------------------------------------------------
  // Writing
  // ---------------------------------------------------------------------------

  class Writer {
    var out: seq<byte>

    constructor ()
      ensures out == []
    {
      out := [];
    }

    method U8(v: byte)
      modifies this
      ensures out == old(out) + [v]
    {
      out := out + [v];
    }

    method U32(v: nat)
      modifies this
      ensures out == old(out) + Le(v, 4)
    {
      out := Put(out, v, 4);
    }

    method U64(v: nat)
      modifies this
      ensures out == old(out) + Le(v, 8)
    {
      out := Put(out, v, 8);
    }
  }

  method WriteFields(w: Writer, r: PersistedRequest)
    modifies w
    ensures w.out == old(w.out) + PutAll(Fields(r), 8)
  {
    ghost var before, f := w.out, Fields(r);
    assert before + PutAll(f[..0], 8) == before;
    w.U64(r.id);
    FieldWritten(before, f, 0);
    w.U64(r.sequence);
    FieldWritten(before, f, 1);
    w.U64(r.attempt);
    FieldWritten(before, f, 2);
    w.U64(r.epoch);
    FieldWritten(before, f, 3);
    w.U64(r.authGen);
    FieldWritten(before, f, 4);
    w.U64(r.authState.id);
    FieldWritten(before, f, 5);
    w.U64(r.authState.generation);
    FieldWritten(before, f, 6);
    assert f[..7] == f;
  }

  lemma FieldWritten(before: seq<byte>, f: seq<nat>, k: nat)
    requires k < |f|
    ensures (before + PutAll(f[..k], 8)) + Le(f[k], 8) == before + PutAll(f[..k + 1], 8)
  {
    PutAllAppend(f[..k], f[k], 8);
    assert f[..k] + [f[k]] == f[..k + 1];
  }

  method WriteRequest(w: Writer, r: PersistedRequest)
    modifies w
    ensures w.out == old(w.out) + RequestBytes(r)
  {
    WriteFields(w, r);
    w.U32(|r.committed|);
    WriteTokens(w, r.committed);
    Regrouped(old(w.out), PutAll(Fields(r), 8), Le(|r.committed|, 4), PutAll(r.committed, 4));
  }

  lemma Regrouped(w: seq<byte>, x: seq<byte>, y: seq<byte>, z: seq<byte>)
    ensures ((w + x) + y) + z == w + (x + y + z)
  {
  }

  method WriteTokens(w: Writer, tokens: seq<Token>)
    modifies w
    ensures w.out == old(w.out) + PutAll(tokens, 4)
  {
    ghost var before := w.out;
    assert before + PutAll(tokens[..0], 4) == before;
    for i := 0 to |tokens|
      invariant w.out == before + PutAll(tokens[..i], 4)
    {
      w.U32(tokens[i]);
      TokenWritten(before, tokens, i);
    }
    assert tokens[..|tokens|] == tokens;
  }

  lemma TokenWritten(before: seq<byte>, tokens: seq<nat>, i: nat)
    requires i < |tokens|
    ensures (before + PutAll(tokens[..i], 4)) + Le(tokens[i], 4) == before + PutAll(tokens[..i + 1], 4)
  {
    PutAllAppend(tokens[..i], tokens[i], 4);
    assert tokens[..i] + [tokens[i]] == tokens[..i + 1];
  }

  method WriteRequests(w: Writer, rs: seq<PersistedRequest>)
    modifies w
    ensures w.out == old(w.out) + RequestsBytes(rs)
  {
    ghost var before := w.out;
    assert before + RequestsBytes(rs[..0]) == before;
    for i := 0 to |rs|
      invariant w.out == before + RequestsBytes(rs[..i])
    {
      WriteRequest(w, rs[i]);
      RequestWritten(before, rs, i);
    }
    assert rs[..|rs|] == rs;
  }

  lemma RequestWritten(before: seq<byte>, rs: seq<PersistedRequest>, i: nat)
    requires i < |rs|
    ensures (before + RequestsBytes(rs[..i])) + RequestBytes(rs[i]) == before + RequestsBytes(rs[..i + 1])
  {
    RequestsAppend(rs[..i], rs[i]);
    assert rs[..i] + [rs[i]] == rs[..i + 1];
  }

  method WritePrologue(w: Writer, a: StateArchive)
    requires w.out == []
    modifies w
    ensures w.out == Prologue(a)
  {
    w.U8(83);
    w.U8(70);
    w.U8(65);
    w.U8(82);
    assert w.out == MAGIC;
    w.U32(a.version);
    w.U64(a.epoch);
    w.U32(|a.requests|);
  }

  method SerializeArchive(a: StateArchive) returns (blob: seq<byte>)
    ensures blob == Seal(Payload(a))
  {
    var w := new Writer();
    WritePrologue(w, a);
    WriteRequests(w, a.requests);
    var crc := Crc32(w.out);
    blob := w.out + Trailer(crc);
  }

  lemma {:induction false} RequestsAppend(rs: seq<PersistedRequest>, r: PersistedRequest)
    ensures RequestsBytes(rs + [r]) == RequestsBytes(rs) + RequestBytes(r)
  {
    if |rs| == 0 {
      assert rs + [r] == [r];
      assert RequestsBytes([r]) == RequestBytes(r) + RequestsBytes([]);
    } else {
      assert (rs + [r])[1..] == rs[1..] + [r];
      RequestsAppend(rs[1..], r);
    }
  }

  // ---------------------------------------------------------------------------
  // Reading: what a parse means
  // ---------------------------------------------------------------------------

  /** A value read from the front of a byte string, and the bytes after it. */
  datatype Parsed<T> = Parsed(value: T, rest: seq<byte>)

  function ParseRequest(s: seq<byte>): Result<Parsed<PersistedRequest>, ArchiveError> {
    if |s| < 60 then Err(TruncatedFrame)
    else
      var count := FromLe(s[56..60]);
      if count > MAX_TOKENS then Err(OutOfRange)
      else if |s| < 60 + 4 * count then Err(TruncatedFrame)
      else
        Ok(Parsed(FromFields(Words64(s, 7), Words32(s[60..], count)), s[60 + 4 * count..]))
  }

  function Words64(s: seq<byte>, n: nat): (vs: seq<u64>)
    requires 8 * n <= |s|
    ensures |vs| == n
  {
    RangeValues();
    GetAllBelow(s, 8, n);
    GetAll(s, 8, n)
  }

  function Words32(s: seq<byte>, n: nat): (vs: seq<u32>)
    requires 4 * n <= |s|
    ensures |vs| == n
  {
    RangeValues();
    GetAllBelow(s, 4, n);
    GetAll(s, 4, n)
  }

  function ParseRequests(s: seq<byte>, n: nat): Result<Parsed<seq<PersistedRequest>>, ArchiveError> {
    if n == 0 then Ok(Parsed([], s))
    else
      match ParseRequest(s)
      case Err(e) => Err(e)
      case Ok(first) =>
        match ParseRequests(first.rest, n - 1)
        case Err(e) => Err(e)
        case Ok(others) => Ok(Parsed([first.value] + others.value, others.rest))
  }

  predicate ChecksumHolds(blob: seq<byte>)
    requires |blob| >= 4
  {
    Stored(blob[|blob| - 4..]) == Checksum(blob[..|blob| - 4])
  }

  function DeserializeSpec(blob: seq<byte>): Result<StateArchive, ArchiveError> {
    if |blob| < 24 then Err(TruncatedFrame)
    else if !ChecksumHolds(blob) then Err(Corrupt)
    else if blob[0..4] != MAGIC then Err(Malformed)
    else if FromLe(blob[4..8]) != FORMAT_VERSION then Err(UnknownProtocolVersion)
    else if FromLe(blob[16..20]) > MAX_REQUESTS then Err(OutOfRange)
    else
      match ParseRequests(blob[20..], FromLe(blob[16..20]))
      case Err(e) => Err(e)
      case Ok(p) => Ok(StateArchive(FORMAT_VERSION, Words64(blob[8..], 1)[0], p.value))
  }

  // ---------------------------------------------------------------------------
  // Reading: the loops
  // ---------------------------------------------------------------------------

  class Reader {
    const d: seq<byte>
    var pos: nat

    ghost predicate Valid()
      reads this
    {
      pos <= |d|
    }

    /** The bytes not read yet. */
    function Rest(): seq<byte>
      reads this
      requires Valid()
    {
      d[pos..]
    }

    constructor (d: seq<byte>)
      ensures Valid() && this.d == d && pos == 0
    {
      this.d := d;
      pos := 0;
    }

    method Word(width: nat) returns (ok: bool, v: nat)
      requires Valid()
      modifies this
      ensures Valid()
      ensures ok <==> width <= |old(Rest())|
      ensures ok ==> v == FromLe(old(Rest())[..width]) && Rest() == old(Rest())[width..]
      ensures !ok ==> pos == old(pos)
    {
      if pos + width > |d| {
        return false, 0;
      }
      assert d[pos..pos + width] == Rest()[..width];
      v := Get(d, pos, width);
      pos := pos + width;
      ok := true;
    }
  }

  /** Reads n words of one width into a list. */
  method ReadWords(r: Reader, width: nat, n: nat) returns (ok: bool, vs: seq<nat>)
    requires r.Valid() && width > 0
    modifies r
    ensures r.Valid()
    ensures ok <==> width * n <= |old(r.Rest())|
    ensures ok ==> vs == GetAll(old(r.Rest()), width, n) && r.Rest() == old(r.Rest())[width * n..]
  {
    vs := [];
    ghost var whole := r.Rest();
    ghost var read := 0;
    for i := 0 to n
      invariant r.Valid() && read == width * i <= |whole|
      invariant r.Rest() == whole[read..]
      invariant vs == GetAll(whole, width, i)
    {
      NextWord(width, i, n);
      var v;
      ok, v := r.Word(width);
      if !ok {
        return false, [];
      }
      GetAllAppend(whole, width, i);
      TakeAndDrop(whole, read, width);
      vs, read := vs + [v], read + width;
    }
    ok := true;
  }

  lemma TakeAndDrop<T>(s: seq<T>, i: nat, n: nat)
    requires i + n <= |s|
    ensures s[i..][..n] == s[i..i + n] && s[i..][n..] == s[i + n..]
  {
  }

  method ReadRequest(r: Reader) returns (p: Result<PersistedRequest, ArchiveError>)
    requires r.Valid()
    modifies r
    ensures r.Valid()
    ensures match ParseRequest(old(r.Rest()))
            case Ok(q) => p == Ok(q.value) && r.Rest() == q.rest
            case Err(e) => p == Err(e)
  {
    ghost var s := r.Rest();
    var ok, fields := ReadWords(r, 8, 7);
    if !ok {
      return Err(TruncatedFrame);
    }
    var count;
    ok, count := r.Word(4);
    if !ok {
      return Err(TruncatedFrame);
    }
    TakeAndDrop(s, 56, 4);
    if count > MAX_TOKENS {
      return Err(OutOfRange);
    }
    var tokens;
    ok, tokens := ReadWords(r, 4, count);
    if !ok {
      return Err(TruncatedFrame);
    }
    TakeAndDrop(s, 60, 4 * count);
    RangeValues();
    GetAllBelow(s, 8, 7);
    GetAllBelow(s[60..], 4, count);
    assert fields == Words64(s, 7) && tokens == Words32(s[60..], count);
    p := Ok(FromFields(fields, tokens));
  }

  method DeserializeArchive(blob: seq<byte>) returns (result: Result<StateArchive, ArchiveError>)
    ensures result == DeserializeSpec(blob)
  {
    if |blob| < 4 + 4 + 8 + 4 + 4 {
      return Err(TruncatedFrame);
    }
    var computed := Crc32(blob[..|blob| - 4]);
    if Stored(blob[|blob| - 4..]) != computed {
      return Err(Corrupt);
    }
    if blob[0] != 83 || blob[1] != 70 || blob[2] != 65 || blob[3] != 82 {
      assert blob[0..4][0] == blob[0] && blob[0..4][1] == blob[1] && blob[0..4][2] == blob[2]
          && blob[0..4][3] == blob[3];
      return Err(Malformed);
    }
    assert blob[0..4] == MAGIC;
    var r := new Reader(blob);
    r.pos := 4;
    TakeAndDrop(blob, 4, 4);
    TakeAndDrop(blob, 8, 8);
    TakeAndDrop(blob, 16, 4);
    var ok, version := r.Word(4);
    if version != FORMAT_VERSION {
      return Err(UnknownProtocolVersion);
    }
    var epoch, count;
    ok, epoch := r.Word(8);
    ok, count := r.Word(4);
    if count > MAX_REQUESTS {
      return Err(OutOfRange);
    }
    assert epoch == Words64(blob[8..], 1)[0];
    result := ReadRequests(r, count, Words64(blob[8..], 1)[0]);
  }

  method ReadRequests(r: Reader, count: nat, epoch: u64) returns (result: Result<StateArchive, ArchiveError>)
    requires r.Valid()
    modifies r
    ensures result == match ParseRequests(old(r.Rest()), count)
                      case Err(e) => Err(e)
                      case Ok(p) => Ok(StateArchive(FORMAT_VERSION, epoch, p.value))
  {
    var requests: seq<PersistedRequest> := [];
    PrependNothing(ParseRequests(r.Rest(), count));
    for i := 0 to count
      invariant r.Valid()
      invariant ParseRequests(old(r.Rest()), count) == Prepend(requests, ParseRequests(r.Rest(), count - i))
    {
      var p := ReadRequest(r);
      if p.Err? {
        return Err(p.error);
      }
      PrependTwice(requests, p.value, ParseRequests(r.Rest(), count - i - 1));
      requests := requests + [p.value];
    }
    assert requests + [] == requests;
    result := Ok(StateArchive(FORMAT_VERSION, epoch, requests));
  }

  function Prepend(rs: seq<PersistedRequest>, p: Result<Parsed<seq<PersistedRequest>>, ArchiveError>)
    : Result<Parsed<seq<PersistedRequest>>, ArchiveError>
  {
    match p
    case Err(e) => Err(e)
    case Ok(q) => Ok(Parsed(rs + q.value, q.rest))
  }

  lemma PrependNothing(p: Result<Parsed<seq<PersistedRequest>>, ArchiveError>)
    ensures Prepend([], p) == p
  {
    if p.Ok? {
      assert [] + p.value.value == p.value.value;
    }
  }

  lemma PrependTwice(rs: seq<PersistedRequest>, r: PersistedRequest,
      p: Result<Parsed<seq<PersistedRequest>>, ArchiveError>)
    ensures Prepend(rs, Prepend([r], p)) == Prepend(rs + [r], p)
  {
    if p.Ok? {
      assert rs + ([r] + p.value.value) == (rs + [r]) + p.value.value;
    }
  }
}
