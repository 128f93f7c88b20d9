/**
 * Little-endian, fixed-width integers. Shifting right by 8*i and masking with 0xFF is
 * division by 256^i and reduction modulo 256, which is how it is written here.
 */
module Endian {
  import opened Words

  /** 256^n, the number of values that n bytes can hold. */
  function Range(n: nat): (r: nat)
    ensures r > 0
  {
    if n == 0 then 1 else 256 * Range(n - 1)
  }

  /** The low n bytes of v, least significant first. */
  function Le(v: nat, n: nat): (s: seq<byte>)
    ensures |s| == n
  {
    if n == 0 then [] else [v % 256] + Le(v / 256, n - 1)
  }

  /** The value of a little-endian byte string. */
  function FromLe(s: seq<byte>): nat {
    if |s| == 0 then 0 else s[0] + 256 * FromLe(s[1..])
  }

  lemma {:induction false} FromLeBound(s: seq<byte>)
    ensures FromLe(s) < Range(|s|)
  {
    if |s| > 0 {
      FromLeBound(s[1..]);
    }
  }

  /** Reading back a written value gives the value, when it fits the width. */
  lemma {:induction false} FromLeOfLe(v: nat, n: nat)
    requires v < Range(n)
    ensures FromLe(Le(v, n)) == v
  {
    if n > 0 {
      FromLeOfLe(v / 256, n - 1);
      assert Le(v, n)[1..] == Le(v / 256, n - 1);
    }
  }

  /** Writing back a read value gives the bytes that were read. */
  lemma {:induction false} LeOfFromLe(s: seq<byte>)
    ensures Le(FromLe(s), |s|) == s
  {
    if |s| > 0 {
      var low, high := s[0], FromLe(s[1..]);
      LeOfFromLe(s[1..]);
      assert (low + 256 * high) % 256 == low && (low + 256 * high) / 256 == high;
      assert s == [s[0]] + s[1..];
    }
  }

  lemma RangeValues()
    ensures Range(4) == 0x1_0000_0000
    ensures Range(8) == 0x1_0000_0000_0000_0000
  {
    assert Range(2) == 0x1_0000;
    assert Range(4) == 256 * 256 * Range(2);
    assert Range(6) == 256 * 256 * Range(4);
    assert Range(8) == 256 * 256 * Range(6);
  }

  lemma {:induction false} LeSplit(v: nat, n: nat, i: nat)
    requires i < n
    ensures Le(v, n)[i] == (v / Range(i)) % 256
  {
    if i > 0 {
      LeSplit(v / 256, n - 1, i - 1);
      DivDiv(v, 256, Range(i - 1));
    }
  }

  lemma DivDiv(v: nat, a: nat, b: nat)
    requires a > 0 && b > 0
    ensures a * b > 0 && (v / a) / b == v / (a * b)
  {
    var q, r := v / a / b, v / a % b;
    assert a * b > 0;
    assert v == a * (b * q + r) + v % a;
    assert a * (b * q + r) == (a * b) * q + a * r;
    assert a * r <= a * (b - 1) by { MulMono(a, r, b - 1); }
    DivUnique(v, a * b, q, a * r + v % a);
  }

  lemma MulMono(a: nat, x: int, y: int)
    requires x <= y
    ensures a * x <= a * y
  {
  }

  lemma DivUnique(v: nat, a: nat, q: int, r: int)
    requires a > 0 && v == a * q + r && 0 <= r < a
    ensures v / a == q
  {
    var d: int := v / a - q;
    assert a * d == r - v % a;
    assert 0 <= a * d + a && a * d < a;
    assert d == 0;
  }

  /** Appends the low `width` bytes of v to a buffer, one push per byte. */
  method Put(buffer: seq<byte>, v: nat, width: nat) returns (out: seq<byte>)
    ensures out == buffer + Le(v, width)
  {
    out := buffer;
    for i := 0 to width
      invariant out == buffer + Le(v, width)[..i]
    {
      LeSplit(v, width, i);
      out := out + [(v / Range(i)) % 256];
    }
  }

  /** Assembles the `width` bytes at `pos`, adding each byte at its place value. */
  method Get(buffer: seq<byte>, pos: nat, width: nat) returns (v: nat)
    requires pos + width <= |buffer|
    ensures v == FromLe(buffer[pos..pos + width])
  {
    v := 0;
    for i := 0 to width
      invariant v == FromLe(buffer[pos..pos + i])
    {
      FromLeAppend(buffer[pos..pos + i], buffer[pos + i]);
      assert buffer[pos..pos + i] + [buffer[pos + i]] == buffer[pos..pos + i + 1];
      v := v + buffer[pos + i] * Range(i);
    }
  }

  lemma {:induction false} FromLeAppend(s: seq<byte>, b: byte)
    ensures FromLe(s + [b]) == FromLe(s) + b * Range(|s|)
  {
    if |s| == 0 {
      assert s + [b] == [b];
    } else {
      FromLeAppend(s[1..], b);
      assert (s + [b])[1..] == s[1..] + [b];
      AppendPlace(s[0], FromLe(s[1..]), b, Range(|s| - 1));
    }
  }

  lemma AppendPlace(low: int, high: int, top: int, place: int)
    ensures low + 256 * (high + top * place) == (low + 256 * high) + top * (256 * place)
  {
    assert 256 * (top * place) == top * (256 * place);
  }

  // ---------------------------------------------------------------------------
  // Vectors of equally wide words
  // ---------------------------------------------------------------------------

  ghost predicate Fit(vs: seq<nat>, width: nat) {
    forall i :: 0 <= i < |vs| ==> vs[i] < Range(width)
  }

  function PutAll(vs: seq<nat>, width: nat): (s: seq<byte>)
    ensures |s| == width * |vs|
  {
    if |vs| == 0 then [] else Le(vs[0], width) + PutAll(vs[1..], width)
  }

  function GetAll(s: seq<byte>, width: nat, n: nat): (vs: seq<nat>)
    requires |s| >= width * n
    ensures |vs| == n
  {
    if n == 0 then [] else
      assert width * n >= width;
      [FromLe(s[..width])] + GetAll(s[width..], width, n - 1)
  }

  lemma {:induction false} GetAllFits(s: seq<byte>, width: nat, n: nat)
    requires |s| >= width * n
    ensures Fit(GetAll(s, width, n), width)
  {
    if n > 0 {
      assert width * n >= width;
      FromLeBound(s[..width]);
      GetAllFits(s[width..], width, n - 1);
    }
  }

  lemma {:induction false} GetAllOfPutAll(vs: seq<nat>, width: nat, rest: seq<byte>)
    requires Fit(vs, width)
    ensures GetAll(PutAll(vs, width) + rest, width, |vs|) == vs
  {
    if |vs| > 0 {
      var s := PutAll(vs, width) + rest;
      FromLeOfLe(vs[0], width);
      assert s[..width] == Le(vs[0], width);
      assert s[width..] == PutAll(vs[1..], width) + rest;
      GetAllOfPutAll(vs[1..], width, rest);
    }
  }

  lemma {:induction false} PutAllOfGetAll(s: seq<byte>, width: nat, n: nat)
    requires |s| >= width * n
    ensures PutAll(GetAll(s, width, n), width) == s[..width * n]
  {
    if n > 0 {
      assert width * n == width + width * (n - 1);
      LeOfFromLe(s[..width]);
      PutAllOfGetAll(s[width..], width, n - 1);
      assert s[..width * n] == s[..width] + s[width..][..width * (n - 1)];
    }
  }

  lemma {:induction false} PutAllAppend(vs: seq<nat>, v: nat, width: nat)
    ensures PutAll(vs + [v], width) == PutAll(vs, width) + Le(v, width)
  {
    if |vs| == 0 {
      assert vs + [v] == [v];
      assert PutAll([v], width) == Le(v, width) + PutAll([], width);
    } else {
      assert (vs + [v])[1..] == vs[1..] + [v];
      PutAllAppend(vs[1..], v, width);
    }
  }

  lemma {:induction false} GetAllAppend(s: seq<byte>, width: nat, n: nat)
    requires |s| >= width * n + width
    ensures |s| >= width * (n + 1)
    ensures GetAll(s, width, n + 1) == GetAll(s, width, n) + [FromLe(s[width * n..width * n + width])]
  {
    NextWord(width, n, n + 1);
    if n == 0 {
      assert s[width * n..width * n + width] == s[..width];
    } else {
      NextWord(width, n - 1, n);
      GetAllAppend(s[width..], width, n - 1);
      SliceOfSlice(s, width, width * (n - 1), width);
      Cons(FromLe(s[..width]), GetAll(s[width..], width, n - 1), FromLe(s[width * n..width * n + width]));
    }
  }

  lemma Cons<T>(first: T, middle: seq<T>, last: T)
    ensures [first] + (middle + [last]) == ([first] + middle) + [last]
  {
  }

  lemma SliceOfSlice<T>(s: seq<T>, i: nat, j: nat, n: nat)
    requires i + j + n <= |s|
    ensures s[i..][j..j + n] == s[i + j..i + j + n]
  {
  }

  /** Appends every word of vs. */
  method PutWords(buffer: seq<byte>, vs: seq<nat>, width: nat) returns (out: seq<byte>)
    ensures out == buffer + PutAll(vs, width)
  {
    out := buffer;
    for i := 0 to |vs|
      invariant out == buffer + PutAll(vs[..i], width)
    {
      PutAllAppend(vs[..i], vs[i], width);
      assert vs[..i] + [vs[i]] == vs[..i + 1];
      out := Put(out, vs[i], width);
    }
    assert vs[..|vs|] == vs;
  }

  /** Reads n words at `pos`, stopping at the first one that would run past the end. */
  method GetWords(buffer: seq<byte>, pos: nat, width: nat, n: nat) returns (ok: bool, vs: seq<nat>)
    requires pos <= |buffer| && width > 0
    ensures ok <==> width * n <= |buffer| - pos
    ensures ok ==> vs == GetAll(buffer[pos..], width, n)
  {
    vs := [];
    ghost var rest := buffer[pos..];
    ghost var read := 0;
    var at := pos;
    for i := 0 to n
      invariant read == width * i && at == pos + read <= |buffer|
      invariant vs == GetAll(rest, width, i)
    {
      NextWord(width, i, n);
      if at + width > |buffer| {
        return false, [];
      }
      GetAllAppend(rest, width, i);
      assert rest[read..read + width] == buffer[at..at + width];
      var v := Get(buffer, at, width);
      vs, at, read := vs + [v], at + width, read + width;
    }
    ok := true;
  }

  lemma NextWord(width: nat, i: nat, n: nat)
    requires i < n
    ensures width * (i + 1) == width * i + width <= width * n
  {
    MulMono(width, i + 1, n);
  }

  /** Words written with the width they fit are words of that width. */
  lemma GetAllBelow(s: seq<byte>, width: nat, n: nat)
    requires |s| >= width * n
    ensures forall i :: 0 <= i < n ==> 0 <= GetAll(s, width, n)[i] < Range(width)
  {
    GetAllFits(s, width, n);
  }
}
