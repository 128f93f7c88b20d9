/** The two binary formats byte by byte, as their documents lay them out. */
module Layouts {
  import opened Words
  import opened Endian
  import opened Crc
  import Archive
  import CrcNumbers
  import Wire

  /** At this position the string holds the number little-endian: byte k is its k-th digit to the base 256. */
  predicate Holds(p: seq<byte>, pos: nat, width: nat, v: nat) {
    && pos + width <= |p|
    && forall k :: 0 <= k < width ==> p[pos + k] == v / Range(k) % 256
  }

  // ---------------------------------------------------------------------------
  // Little-endian words
  // ---------------------------------------------------------------------------

  lemma {:induction false} LeDigit(v: nat, n: nat, k: nat)
    requires k < n
    ensures Le(v, n)[k] == v / Range(k) % 256
    decreases n
  {
    if k > 0 {
      LeDigit(v / 256, n - 1, k - 1);
      DivideTwice(v, Range(k - 1));
    } else {
      assert v / 1 == v;
    }
  }

  lemma DivideTwice(v: nat, r: nat)
    requires r > 0
    ensures v / 256 / r == v / (256 * r)
  {
    var q := v / 256 / r;
    var low, high := v % 256, v / 256 % r;
    assert v / 256 == r * q + high;
    assert v == 256 * (r * q + high) + low;
    Reassociate(r, q, high, low);
    QuotientIs(v, 256 * r, q, 256 * high + low);
  }

  lemma Reassociate(r: nat, q: nat, high: nat, low: nat)
    ensures 256 * (r * q + high) + low == (256 * r) * q + (256 * high + low)
  {
  }

  lemma QuotientIs(x: nat, d: nat, q: nat, rest: nat)
    requires x == d * q + rest && rest < d
    ensures x / d == q
  {
    var e, r := x / d, x % d;
    assert x == d * e + r;
    Spread(d, e, q);
    OnlyZero(d, e - q);
  }

  lemma OnlyZero(d: int, z: int)
    requires d > 0 && -d < d * z < d
    ensures z == 0
  {
    if z != 0 {
      AtLeastOnce(d, z);
    }
  }

  lemma AtLeastOnce(d: int, z: int)
    requires d > 0 && z != 0
    ensures d * z >= d || d * z <= -d
  {
    if z >= 1 {
      assert d * (z - 1) >= 0;
      Spread(d, z, 1);
    } else {
      assert d * (-1 - z) >= 0;
      Spread(d, -1, z);
    }
  }

  lemma Spread(d: int, x: int, y: int)
    ensures d * (x - y) == d * x - d * y
  {
  }

  /** A word written somewhere can be read off there. */
  lemma HoldsSlice(p: seq<byte>, pos: nat, width: nat, v: nat)
    requires pos + width <= |p| && p[pos..pos + width] == Le(v, width)
    ensures Holds(p, pos, width, v)
  {
    forall k | 0 <= k < width
      ensures p[pos + k] == v / Range(k) % 256
    {
      LeDigit(v, width, k);
      assert p[pos + k] == p[pos..pos + width][k];
    }
  }

  lemma {:induction false} PutAllAt(vs: seq<nat>, width: nat, i: nat)
    requires i < |vs|
    ensures width * i + width <= width * |vs|
    ensures PutAll(vs, width)[width * i..width * i + width] == Le(vs[i], width)
    decreases i
  {
    hide Le;
    WordsInside(width, i, |vs|);
    if i == 0 {
      assert PutAll(vs, width)[..width] == Le(vs[0], width);
    } else {
      PutAllAt(vs[1..], width, i - 1);
      var pos, rest := width * (i - 1), PutAll(vs[1..], width);
      OneFurther(width, i);
      WordBehind(Le(vs[0], width), rest, pos, width, Le(vs[i], width));
    }
  }

  lemma OneFurther(width: nat, i: nat)
    requires i > 0
    ensures width * i == width + width * (i - 1)
  {
  }

  lemma WordBehind(a: seq<byte>, b: seq<byte>, pos: nat, n: nat, word: seq<byte>)
    requires pos + n <= |b| && b[pos..pos + n] == word
    ensures (a + b)[|a| + pos..|a| + pos + n] == word
  {
    SliceBehind(a, b, pos, n);
  }

  lemma WordsInside(width: nat, i: nat, n: nat)
    requires i < n
    ensures width * i + width <= width * n
  {
    assert width * (n - i - 1) >= 0;
    Spread(width, n, i + 1);
    assert width * (i + 1) == width * i + width;
  }

  /** A slice of the second of two strings, seen in both together. */
  lemma SliceBehind(a: seq<byte>, b: seq<byte>, pos: nat, n: nat)
    requires pos + n <= |b|
    ensures (a + b)[|a| + pos..|a| + pos + n] == b[pos..pos + n]
  {
  }

  lemma Inner(p: seq<byte>, pos: nat, size: nat, at: nat, n: nat)
    requires pos + size <= |p| && at + n <= size
    ensures p[pos + at..pos + at + n] == p[pos..pos + size][at..at + n]
  {
    var q := p[pos..pos + size];
    var x, y := p[pos + at..pos + at + n], q[at..at + n];
    forall k | 0 <= k < n
      ensures x[k] == y[k]
    {
      assert y[k] == q[at + k] == p[pos + at + k];
    }
  }

  lemma SliceBefore(a: seq<byte>, b: seq<byte>, pos: nat, n: nat)
    requires pos + n <= |a|
    ensures (a + b)[pos..pos + n] == a[pos..pos + n]
  {
  }

  // ---------------------------------------------------------------------------
  // Messages and frames
  // ---------------------------------------------------------------------------

  /** The message header, its fields and its body, and the frame around them, with the limits spelled out. */
  lemma MessageLayout(m: Wire.Message)
    requires Wire.Encodable(m)
    ensures var p := Wire.Payload(m);
            && Holds(p, 0, 4, 1) && Holds(p, 4, 4, m.kind)
            && Holds(p, 8, 4, |m.u64s|) && Holds(p, 12, 4, |m.u32s|) && Holds(p, 16, 4, |m.body|)
            && (forall i :: 0 <= i < |m.u64s| ==> Holds(p, 20 + 8 * i, 8, m.u64s[i]))
            && (forall i :: 0 <= i < |m.u32s| ==> Holds(p, 20 + 8 * |m.u64s| + 4 * i, 4, m.u32s[i]))
            && |p| == 20 + 8 * |m.u64s| + 4 * |m.u32s| + |m.body|
            && p[20 + 8 * |m.u64s| + 4 * |m.u32s|..] == m.body
            && Holds(Wire.Frame(p), 0, 4, |p|) && Wire.Frame(p)[4..] == p
  {
    hide Holds, Wire.Header, Le, PutAll;
    var p := Wire.Payload(m);
    Wire.PayloadParts(m);
    Wire.HeaderSlices(m, p);
    HoldsSlice(p, 0, 4, 1);
    HoldsSlice(p, 4, 4, m.kind);
    HoldsSlice(p, 8, 4, |m.u64s|);
    HoldsSlice(p, 12, 4, |m.u32s|);
    HoldsSlice(p, 16, 4, |m.body|);
    LongFields(m);
    ShortFields(m);
    assert Wire.Frame(p)[0..4] == Le(|p|, 4);
    HoldsSlice(Wire.Frame(p), 0, 4, |p|);
  }

  lemma LongFields(m: Wire.Message)
    ensures forall i :: 0 <= i < |m.u64s| ==> Holds(Wire.Payload(m), 20 + 8 * i, 8, m.u64s[i])
  {
    hide Holds, Wire.Header, Le, PutAll;
    var p := Wire.Payload(m);
    var fields := PutAll(m.u64s, 8);
    Wire.PayloadParts(m);
    forall i | 0 <= i < |m.u64s|
      ensures Holds(p, 20 + 8 * i, 8, m.u64s[i])
    {
      PutAllAt(m.u64s, 8, i);
      SliceBefore(fields, PutAll(m.u32s, 4) + m.body, 8 * i, 8);
      assert p[20 + 8 * i..20 + 8 * i + 8] == p[20..][8 * i..8 * i + 8];
      HoldsSlice(p, 20 + 8 * i, 8, m.u64s[i]);
    }
  }

  lemma ShortFields(m: Wire.Message)
    ensures forall i :: 0 <= i < |m.u32s| ==> Holds(Wire.Payload(m), 20 + 8 * |m.u64s| + 4 * i, 4, m.u32s[i])
  {
    hide Holds, Wire.Header, Le, PutAll;
    var p, pos := Wire.Payload(m), 20 + 8 * |m.u64s|;
    Wire.PayloadParts(m);
    forall i | 0 <= i < |m.u32s|
      ensures Holds(p, pos + 4 * i, 4, m.u32s[i])
    {
      PutAllAt(m.u32s, 4, i);
      SliceBefore(PutAll(m.u32s, 4), m.body, 4 * i, 4);
      assert p[pos + 4 * i..pos + 4 * i + 4] == p[pos..][4 * i..4 * i + 4];
      HoldsSlice(p, pos + 4 * i, 4, m.u32s[i]);
    }
  }

  /** What crosses the wire, with every limit as a number. */
  lemma MessageLimits(m: Wire.Message, payload: seq<byte>)
    ensures Wire.EncodeSpec(m).Ok? <==>
            && m.version == 1 && m.kind != 0 && |m.u64s| <= 64 && |m.u32s| <= 64 && |m.body| <= 1048576
    ensures Wire.EncodeSpec(m) == Err(Wire.InvalidMessage) <==> m.version != 1 || m.kind == 0
    ensures Wire.EncodeSpec(m).Ok? ==> (Wire.DecodeSpec(Wire.Payload(m)) == Ok(m) <==> m.kind <= 11)
    ensures Wire.ExtractSpec(Wire.Frame(payload)) == Ok(payload) <==> 0 < |payload| <= 16777216
  {
    hide Wire.DecodeSpec, Wire.ExtractSpec, Wire.Payload, Wire.Frame;
    if Wire.EncodeSpec(m).Ok? {
      Wire.EncodedTypeSurvivesIffDeclared(m);
    }
    Wire.ExtractsExactlyTheFirstFrame(Wire.Frame(payload), payload);
  }

  // ---------------------------------------------------------------------------
  // Archives
  // ---------------------------------------------------------------------------

  /** Where the i-th request of an archive starts. */
  function RequestAt(rs: seq<Archive.PersistedRequest>, i: nat): nat
    requires i <= |rs|
  {
    if i == 0 then 20 else RequestAt(rs, i - 1) + 60 + 4 * |rs[i - 1].committed|
  }

  /** The fixed fields and the tokens of a request that starts at this position. */
  predicate HoldsRequest(p: seq<byte>, pos: nat, r: Archive.PersistedRequest) {
    && Holds(p, pos, 8, r.id) && Holds(p, pos + 8, 8, r.sequence) && Holds(p, pos + 16, 8, r.attempt)
    && Holds(p, pos + 24, 8, r.epoch) && Holds(p, pos + 32, 8, r.authGen)
    && Holds(p, pos + 40, 8, r.authState.id) && Holds(p, pos + 48, 8, r.authState.generation)
    && Holds(p, pos + 56, 4, |r.committed|)
    && forall j :: 0 <= j < |r.committed| ==> Holds(p, pos + 60 + 4 * j, 4, r.committed[j])
  }

  lemma RequestHeld(p: seq<byte>, pos: nat, r: Archive.PersistedRequest)
    requires pos + 60 + 4 * |r.committed| <= |p|
    requires p[pos..pos + 60 + 4 * |r.committed|] == Archive.RequestBytes(r)
    ensures HoldsRequest(p, pos, r)
  {
    hide Holds, Le, PutAll;
    var fields := PutAll(Archive.Fields(r), 8);
    var tail := PutAll(r.committed, 4);
    var b := Archive.RequestBytes(r);
    FieldHeld(p, pos, r, b, 0);
    FieldHeld(p, pos, r, b, 1);
    FieldHeld(p, pos, r, b, 2);
    FieldHeld(p, pos, r, b, 3);
    FieldHeld(p, pos, r, b, 4);
    FieldHeld(p, pos, r, b, 5);
    FieldHeld(p, pos, r, b, 6);
    assert b[56..60] == Le(|r.committed|, 4) && b[60..] == tail;
    Inner(p, pos, |b|, 56, 4);
    HoldsSlice(p, pos + 56, 4, |r.committed|);
    forall j | 0 <= j < |r.committed|
      ensures Holds(p, pos + 60 + 4 * j, 4, r.committed[j])
    {
      PutAllAt(r.committed, 4, j);
      Inner(p, pos, |b|, 60 + 4 * j, 4);
      assert b[60 + 4 * j..60 + 4 * j + 4] == b[60..][4 * j..4 * j + 4];
      HoldsSlice(p, pos + 60 + 4 * j, 4, r.committed[j]);
    }
  }

  lemma FieldHeld(p: seq<byte>, pos: nat, r: Archive.PersistedRequest, b: seq<byte>, f: nat)
    requires pos + 60 + 4 * |r.committed| <= |p| && f < 7 && b == Archive.RequestBytes(r)
    requires p[pos..pos + 60 + 4 * |r.committed|] == b
    ensures Holds(p, pos + 8 * f, 8, Archive.Fields(r)[f])
  {
    hide Holds, Le, PutAll, Archive.Fields;
    var fields := PutAll(Archive.Fields(r), 8);
    PutAllAt(Archive.Fields(r), 8, f);
    assert b[8 * f..8 * f + 8] == fields[8 * f..8 * f + 8];
    Inner(p, pos, |b|, 8 * f, 8);
    HoldsSlice(p, pos + 8 * f, 8, Archive.Fields(r)[f]);
  }

  lemma {:induction false} RequestSlices(rs: seq<Archive.PersistedRequest>, i: nat)
    requires i < |rs|
    ensures RequestAt(rs, i + 1) - 20 <= |Archive.RequestsBytes(rs)| && 20 <= RequestAt(rs, i)
    ensures Archive.RequestsBytes(rs)[RequestAt(rs, i) - 20..RequestAt(rs, i + 1) - 20] == Archive.RequestBytes(rs[i])
    decreases i
  {
    hide Archive.RequestBytes;
    RequestLength(rs[0]);
    var rest := Archive.RequestsBytes(rs[1..]);
    if i == 0 {
      assert (Archive.RequestBytes(rs[0]) + rest)[0..|Archive.RequestBytes(rs[0])|] == Archive.RequestBytes(rs[0]);
    } else {
      RequestSlices(rs[1..], i - 1);
      RequestAtShifts(rs, i);
      RequestAtShifts(rs, i + 1);
      var from, to := RequestAt(rs[1..], i - 1) - 20, RequestAt(rs[1..], i) - 20;
      SliceBehind(Archive.RequestBytes(rs[0]), rest, from, to - from);
    }
  }

  lemma RequestLength(r: Archive.PersistedRequest)
    ensures |Archive.RequestBytes(r)| == 60 + 4 * |r.committed|
  {
  }

  lemma {:induction false} RequestAtShifts(rs: seq<Archive.PersistedRequest>, i: nat)
    requires 0 < i <= |rs|
    ensures RequestAt(rs, i) == RequestAt(rs[1..], i - 1) + 60 + 4 * |rs[0].committed|
    decreases i
  {
    if i > 1 {
      RequestAtShifts(rs, i - 1);
    }
  }

  lemma {:induction false} RequestsLength(rs: seq<Archive.PersistedRequest>)
    ensures |Archive.RequestsBytes(rs)| == RequestAt(rs, |rs|) - 20
    decreases |rs|
  {
    hide Archive.RequestBytes;
    if |rs| > 0 {
      RequestLength(rs[0]);
      RequestsLength(rs[1..]);
      RequestAtShifts(rs, |rs|);
    }
  }

  /**
   * The whole archive: "SFAR", version, epoch, count, every request where the ones before it end, and the checksum.
   */
  lemma ArchiveLayout(a: Archive.StateArchive)
    ensures var p := Archive.Payload(a);
            && p[0..4] == [83, 70, 65, 82] && Holds(p, 4, 4, a.version) && Holds(p, 8, 8, a.epoch)
            && Holds(p, 16, 4, |a.requests|)
            && |p| == RequestAt(a.requests, |a.requests|)
            && (forall i :: 0 <= i < |a.requests| ==> HoldsRequest(p, RequestAt(a.requests, i), a.requests[i]))
            && Archive.Seal(p)[..|p|] == p && |Archive.Seal(p)| == |p| + 4
            && Holds(Archive.Seal(p), |p|, 4, Value(Checksum(p)))
  {
    hide Holds, HoldsRequest, Le, Archive.RequestsBytes, RequestAt, Checksum, Trailer;
    var p, body := Archive.Payload(a), Archive.RequestsBytes(a.requests);
    PrologueHeld(a, p);
    RequestsLength(a.requests);
    forall i | 0 <= i < |a.requests|
      ensures HoldsRequest(p, RequestAt(a.requests, i), a.requests[i])
    {
      RequestPlaced(a, i);
    }
    CrcNumbers.TrailerIsLittleEndian(Checksum(p));
    var s := Archive.Seal(p);
    assert s[|p|..|p| + 4] == Le(Value(Checksum(p)), 4);
    HoldsSlice(s, |p|, 4, Value(Checksum(p)));
  }

  lemma RequestPlaced(a: Archive.StateArchive, i: nat)
    requires i < |a.requests|
    ensures HoldsRequest(Archive.Payload(a), RequestAt(a.requests, i), a.requests[i])
  {
    hide HoldsRequest, Archive.RequestsBytes, Archive.RequestBytes, Archive.Prologue;
    var at, to := RequestAt(a.requests, i), RequestAt(a.requests, i + 1);
    RequestSlices(a.requests, i);
    SliceBehind(Archive.Prologue(a), Archive.RequestsBytes(a.requests), at - 20, to - at);
    RequestHeld(Archive.Payload(a), at, a.requests[i]);
  }

  lemma PrologueHeld(a: Archive.StateArchive, p: seq<byte>)
    requires Archive.Prologue(a) <= p
    ensures p[0..4] == [83, 70, 65, 82] && Holds(p, 4, 4, a.version) && Holds(p, 8, 8, a.epoch)
    ensures Holds(p, 16, 4, |a.requests|)
  {
    hide Holds, Le;
    var h := Archive.Prologue(a);
    assert p[..20] == h;
    assert p[0..4] == h[0..4] == [83, 70, 65, 82];
    assert p[4..8] == h[4..8] == Le(a.version, 4);
    assert p[8..16] == h[8..16] == Le(a.epoch, 8);
    assert p[16..20] == h[16..20] == Le(|a.requests|, 4);
    HoldsSlice(p, 4, 4, a.version);
    HoldsSlice(p, 8, 8, a.epoch);
    HoldsSlice(p, 16, 4, |a.requests|);
  }
}
