/** What each decoding error means, in terms of the bytes alone. */
module FormatErrors {
  import opened Words
  import opened Endian
  import opened Wire
  import Archive
  import ArchiveGuarantees

  /** A small number in four bytes. */
  lemma SmallWord(s: seq<byte>, v: byte)
    requires |s| == 4
    ensures FromLe(s) == v <==> s == [v, 0, 0, 0]
  {
    var high := FromLe(s[1..]);
    assert FromLe(s) == s[0] + 256 * high;
    assert high == s[1] + 256 * FromLe(s[2..]) && FromLe(s[2..]) == s[2] + 256 * FromLe(s[3..]);
    assert FromLe(s[3..]) == s[3] + 256 * FromLe([]);
    assert s == [s[0], s[1], s[2], s[3]];
  }

  // ---------------------------------------------------------------------------
  // Messages
  // ---------------------------------------------------------------------------

  /** A header that declares one of the eleven types and respects every limit. */
  predicate SoundHeader(p: seq<byte>)
    requires |p| >= 20
  {
    && p[0..4] == [1, 0, 0, 0] && 1 <= p[4] <= 11 && p[5..8] == [0, 0, 0]
    && FromLe(p[8..12]) <= 64 && FromLe(p[12..16]) <= 64 && FromLe(p[16..20]) <= 1048576
  }

  lemma DeclaredType(p: seq<byte>)
    requires |p| >= 20
    ensures 1 <= WordAt(p, 4) <= 11 <==> 1 <= p[4] <= 11 && p[5..8] == [0, 0, 0]
  {
    var s := p[4..8];
    assert s == [p[4]] + p[5..8];
    SmallWord(s, p[4]);
    if 1 <= WordAt(p, 4) <= 11 {
      SmallWord(s, WordAt(p, 4));
    }
  }

  /** With a sound header a payload is read, too short or too long by its length alone. */
  lemma ByLength(p: seq<byte>)
    requires |p| >= 20
    ensures var size := 20 + 8 * WordAt(p, 8) + 4 * WordAt(p, 12) + WordAt(p, 16);
            SoundHeader(p) ==>
              && (DecodeSpec(p).Ok? <==> |p| == size)
              && (DecodeSpec(p) == Err(TruncatedFrame) <==> |p| < size)
              && (DecodeSpec(p) == Err(Malformed) <==> |p| > size)
    ensures !SoundHeader(p) ==>
            DecodeSpec(p) in {Err(UnknownProtocolVersion), Err(UnknownMessageType), Err(OversizedFrame)}
  {
    SmallWord(p[0..4], 1);
    DeclaredType(p);
  }

  lemma SameSlice(p: seq<byte>, q: seq<byte>, i: nat, j: nat)
    requires |p| >= 20 && |q| >= 20 && p[..20] == q[..20] && i <= j <= 20
    ensures p[i..j] == q[i..j]
  {
    InFront(p, 20, i, j);
    InFront(q, 20, i, j);
  }

  lemma InFront(p: seq<byte>, n: nat, i: nat, j: nat)
    requires i <= j <= n <= |p|
    ensures p[..n][i..j] == p[i..j]
  {
  }

  lemma SameHeader(p: seq<byte>, q: seq<byte>)
    requires |p| >= 20 && |q| >= 20 && p[..20] == q[..20]
    ensures WordAt(p, 8) == WordAt(q, 8) && WordAt(p, 12) == WordAt(q, 12) && WordAt(p, 16) == WordAt(q, 16)
    ensures SoundHeader(p) <==> SoundHeader(q)
  {
    hide FromLe;
    SameSlice(p, q, 0, 4);
    SameSlice(p, q, 5, 8);
    SameSlice(p, q, 8, 12);
    SameSlice(p, q, 12, 16);
    SameSlice(p, q, 16, 20);
    assert p[..20][4] == q[..20][4];
  }

  /** Too short means that more bytes would have completed a message, too long that a whole message comes first. */
  lemma LengthErrors(p: seq<byte>)
    ensures DecodeSpec(p) == Err(TruncatedFrame) <==> |p| < 20 || exists m :: Valid(m) && p < Payload(m)
    ensures DecodeSpec(p) == Err(Malformed) <==> exists m :: Valid(m) && Payload(m) < p
  {
    hide DecodeSpec, Payload, SoundHeader, WordAt;
    if |p| >= 20 {
      ByLength(p);
      var size := 20 + 8 * WordAt(p, 8) + 4 * WordAt(p, 12) + WordAt(p, 16);
      if SoundHeader(p) {
        var whole := if |p| < size then p + seq(size - |p|, _ => 0) else p[..size];
        SameHeader(p, whole);
        ByLength(whole);
        var m := DecodeSpec(whole).value;
        PayloadOfDecode(whole, m);
        assert Payload(m) == whole;
      }
    }
    forall m | Valid(m) && (p < Payload(m) || Payload(m) < p)
      ensures |p| < 20 || DecodeSpec(p) == Err(if p < Payload(m) then TruncatedFrame else Malformed)
    {
      if |p| >= 20 {
        DecodeOfPayload(m);
        PayloadLength(m);
        SameHeader(p, Payload(m));
        ByLength(Payload(m));
      }
    }
    ShortIsTruncated(p);
    forall m | Valid(m) && Payload(m) < p
      ensures |p| >= 20
    {
      PayloadLength(m);
    }
  }

  lemma ShortIsTruncated(p: seq<byte>)
    ensures |p| < 20 ==> DecodeSpec(p) == Err(TruncatedFrame)
  {
  }

  lemma PayloadLength(m: Message)
    ensures |Payload(m)| >= 20
  {
  }

  /** The remaining errors, each read off its own bytes of the header, in the order they are looked for. */
  lemma HeaderErrors(p: seq<byte>)
    requires |p| >= 20
    ensures var versioned, typed := p[0..4] == [1, 0, 0, 0], 1 <= p[4] <= 11 && p[5..8] == [0, 0, 0];
            && (DecodeSpec(p) == Err(UnknownProtocolVersion) <==> !versioned)
            && (DecodeSpec(p) == Err(UnknownMessageType) <==> versioned && !typed)
            && (DecodeSpec(p) == Err(OversizedFrame) <==> versioned && typed && !SoundHeader(p))
  {
    SmallWord(p[0..4], 1);
    DeclaredType(p);
  }

  // ---------------------------------------------------------------------------
  // Frames
  // ---------------------------------------------------------------------------

  /** Too short means that more bytes would have completed a frame; the other two errors are about its length word. */
  lemma FrameErrors(s: seq<byte>)
    ensures ExtractSpec(s) == Err(TruncatedFrame) <==>
            |s| < 4 || exists payload :: Framable(payload) && s < Frame(payload)
    ensures ExtractSpec(s) == Err(ZeroLengthMessage) <==> [0, 0, 0, 0] <= s
    ensures ExtractSpec(s) == Err(OversizedFrame) <==> |s| >= 4 && FromLe(s[0..4]) > 16777216
  {
    hide Le, FromLe, Frame;
    RangeValues();
    if |s| >= 4 {
      var len := FromLe(s[0..4]);
      SmallWord(s[0..4], 0);
      assert [0, 0, 0, 0] <= s <==> s[0..4] == [0, 0, 0, 0];
      if |s| < 4 + len <= 4 + MAX_FRAME_SIZE {
        Unfinished(s);
      }
      forall payload | Framable(payload) && s < Frame(payload)
        ensures len == |payload| && |s| < 4 + len
      {
        FrameStarts(s, payload);
      }
    }
  }

  lemma FrameStarts(s: seq<byte>, payload: seq<byte>)
    requires |s| >= 4 && Framable(payload) && s < Frame(payload)
    ensures FromLe(s[0..4]) == |payload| && |s| < 4 + |payload|
  {
    hide Le, FromLe;
    RangeValues();
    assert s[0..4] == Frame(payload)[0..4] == Le(|payload|, 4);
    FromLeOfLe(|payload|, 4);
  }

  lemma Unfinished(s: seq<byte>)
    requires |s| >= 4 && |s| < 4 + FromLe(s[0..4]) <= 4 + MAX_FRAME_SIZE
    ensures exists payload :: Framable(payload) && s < Frame(payload)
  {
    hide Le, FromLe;
    var len := FromLe(s[0..4]);
    LeOfFromLe(s[0..4]);
    var payload := s[4..] + seq(len - (|s| - 4), _ => 0);
    assert Frame(payload) == s[0..4] + payload;
    assert s == s[0..4] + s[4..];
    assert Framable(payload) && s < Frame(payload);
  }

  // ---------------------------------------------------------------------------
  // Archives
  // ---------------------------------------------------------------------------

  /** After the requests rs the next one, of n, announces more tokens than an archive may hold. */
  predicate OverflowsAfter(s: seq<byte>, n: nat, rs: seq<Archive.PersistedRequest>) {
    var size := |Archive.RequestsBytes(rs)|;
    && |rs| < n && (forall i :: 0 <= i < |rs| ==> |rs[i].committed| <= 1000000)
    && Archive.RequestsBytes(rs) <= s
    && |s| >= size + 60 && FromLe(s[size + 56..size + 60]) > 1000000
  }

  lemma OverflowsLater(s: seq<byte>, n: nat, r: Archive.PersistedRequest, rest: seq<byte>,
      rs: seq<Archive.PersistedRequest>)
    requires n > 0 && s == Archive.RequestBytes(r) + rest && |r.committed| <= 1000000
    ensures OverflowsAfter(s, n, [r] + rs) <==> OverflowsAfter(rest, n - 1, rs)
  {
    hide Archive.RequestBytes;
    var head, tail := Archive.RequestBytes(r), Archive.RequestsBytes(rs);
    var all := [r] + rs;
    assert all[1..] == rs && Archive.RequestsBytes(all) == head + tail;
    var size := |tail|;
    assert s[|head|..] == rest;
    if |rest| >= size + 60 {
      assert s[|head| + size + 56..|head| + size + 60] == rest[size + 56..size + 60];
    }
    assert Archive.RequestsBytes(all) <= s <==> tail <= rest by {
      if tail <= rest {
        assert s[..|head| + size] == head + rest[..size];
      }
      if Archive.RequestsBytes(all) <= s {
        assert rest[..size] == s[|head|..|head| + size] == (head + tail)[|head|..];
      }
    }
    assert forall i :: 0 <= i < |rs| ==> rs[i] == all[i + 1];
    assert forall i :: 0 < i < |all| ==> all[i] == rs[i - 1];
  }

  lemma OneRequest(s: seq<byte>)
    ensures Archive.ParseRequest(s) == Err(Archive.OutOfRange) <==> |s| >= 60 && FromLe(s[56..60]) > 1000000
    ensures Archive.ParseRequest(s).Err? ==>
            Archive.ParseRequest(s).error in {Archive.OutOfRange, Archive.TruncatedFrame}
  {
  }

  lemma FirstOverflows(s: seq<byte>, n: nat)
    ensures OverflowsAfter(s, n, []) <==> n > 0 && |s| >= 60 && FromLe(s[56..60]) > 1000000
  {
  }

  lemma FirstIsRead(s: seq<byte>, n: nat, rs: seq<Archive.PersistedRequest>)
    requires rs != [] && OverflowsAfter(s, n, rs)
    ensures var head := Archive.RequestBytes(rs[0]);
            head <= s && Archive.ParseRequest(s) == Ok(Archive.Parsed(rs[0], s[|head|..]))
            && |rs[0].committed| <= 1000000
  {
    hide Archive.RequestBytes, Archive.ParseRequest;
    var head := Archive.RequestBytes(rs[0]);
    assert head <= Archive.RequestsBytes(rs) <= s;
    assert s == head + s[|head|..];
    ArchiveGuarantees.ParseOfRequest(rs[0], s[|head|..]);
  }

  /**
   * A list of requests cannot be read because one of them announces too many tokens, or else because it is cut short.
   */
  lemma {:induction false} RequestErrors(s: seq<byte>, n: nat)
    ensures Archive.ParseRequests(s, n) == Err(Archive.OutOfRange) <==> exists rs :: OverflowsAfter(s, n, rs)
    ensures Archive.ParseRequests(s, n).Err? ==>
            Archive.ParseRequests(s, n).error in {Archive.OutOfRange, Archive.TruncatedFrame}
    decreases n
  {
    hide OverflowsAfter, Archive.RequestBytes, Archive.ParseRequest;
    FirstOverflows(s, n);
    OneRequest(s);
    if rs :| OverflowsAfter(s, n, rs) {
      TooFew(s, n, rs);
      if rs == [] {
        assert OverflowsAfter(s, n, []);
      } else {
        FirstIsRead(s, n, rs);
        assert [rs[0]] + rs[1..] == rs;
        OverflowsLater(s, n, rs[0], Archive.ParseRequest(s).value.rest, rs[1..]);
      }
    }
    if n > 0 && Archive.ParseRequest(s).Ok? {
      var first, others := Archive.ParseRequest(s).value, n - 1;
      RequestErrors(first.rest, others);
      ArchiveGuarantees.RequestOfParse(s, first.value, first.rest);
      if rs :| OverflowsAfter(first.rest, others, rs) {
        OverflowsLater(s, n, first.value, first.rest, rs);
        assert OverflowsAfter(s, n, [first.value] + rs);
      }
    }
  }

  lemma TooFew(s: seq<byte>, n: nat, rs: seq<Archive.PersistedRequest>)
    requires OverflowsAfter(s, n, rs)
    ensures |rs| < n
  {
  }

  /**
   * Which error a blob that is no archive gets: each is decided by the bytes it names, in the order they are looked
   * at, and whatever none of them explains has ended too early.
   */
  lemma BlobErrors(blob: seq<byte>)
    ensures |blob| < 24 ==> Archive.DeserializeSpec(blob) == Err(Archive.TruncatedFrame)
    ensures |blob| >= 24 ==>
            var r, sealed, magic, version := Archive.DeserializeSpec(blob), Archive.ChecksumHolds(blob),
              blob[0..4] == [83, 70, 65, 82], blob[4..8] == [1, 0, 0, 0];
            var count := FromLe(blob[16..20]);
            var overflow := exists rs :: OverflowsAfter(blob[20..], count, rs);
            && (r == Err(Archive.Corrupt) <==> !sealed)
            && (r == Err(Archive.Malformed) <==> sealed && !magic)
            && (r == Err(Archive.UnknownProtocolVersion) <==> sealed && magic && !version)
            && (r == Err(Archive.OutOfRange) <==> sealed && magic && version && (count > 1000000 || overflow))
            && (r.Err? && r.error != Archive.TruncatedFrame ==>
                  r.error in {Archive.Corrupt, Archive.Malformed, Archive.UnknownProtocolVersion, Archive.OutOfRange})
  {
    hide OverflowsAfter, Archive.ParseRequests, Archive.ChecksumHolds;
    if |blob| >= 24 {
      SmallWord(blob[4..8], 1);
      RequestErrors(blob[20..], FromLe(blob[16..20]));
    }
  }
}
