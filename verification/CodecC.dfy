/** The C codec's loops over its buffers, and that what they return is what Python returns. */
module CodecC {
  import opened Common
  import opened Bits
  import opened FieldNames
  import opened Codec
  import opened CodecLaws

  const FRAME_MAX := 32
  const KV_MAX := 64

  /** Field extraction into a 32-bit word, shifted left one bit at a time. */
  method GetBits(raw: seq<bv8>, offset: nat, width: nat) returns (v: nat)
    requires offset + width <= 8 * |raw| && width <= 32
    ensures v == ValueOf(Slice(BitsIn(raw), offset, width))
  {
    hide BitOf, BitsIn, ValueOf, Slice;
    ghost var part := Slice(BitsIn(raw), offset, width);
    v := 0;
    assert ValueOf(part[..0]) == 0 by {
      ReadNothing(part);
    }
    var i := offset;
    while i < offset + width
      invariant offset <= i <= offset + width && v == ValueOf(part[..i - offset])
    {
      ReadOneMore(raw, offset, width, i);
      v := 2 * v % WORD + Num(BitOf(raw[i / 8], i % 8));
      i := i + 1;
    }
    assert part[..width] == part;
  }

  lemma ReadNothing(part: seq<bool>)
    ensures ValueOf(part[..0]) == 0
  {
  }

  /** One more bit of a field, with nothing lost from the word. */
  lemma ReadOneMore(raw: seq<bv8>, offset: nat, width: nat, i: nat)
    requires offset <= i < offset + width <= 8 * |raw| && width <= 32
    ensures var part := Slice(BitsIn(raw), offset, width);
            var v := ValueOf(part[..i - offset]);
            2 * v % WORD == 2 * v && ValueOf(part[..i + 1 - offset]) == 2 * v + Num(BitOf(raw[i / 8], i % 8))
  {
    hide BitOf, Pow2;
    var part, k := Slice(BitsIn(raw), offset, width), i - offset;
    assert part[k] == BitAt(raw, i);
    assert part[..k + 1][..k] == part[..k];
    BitsOfValueOf(part[..k]);
    NoWrap(ValueOf(part[..k]), k);
  }

  lemma NoWrap(v: nat, n: nat)
    requires v < Pow2(n) && n < 32
    ensures 2 * v < WORD
  {
    Pow2Of32();
    Pow2Grows(n, 32);
  }

  /** Field placement: the 1 bits are ORed in. */
  method PutBits(buf: array<bv8>, offset: nat, width: nat, value: nat)
    requires offset + width <= 8 * buf.Length
    modifies buf
    ensures BitsIn(buf[..]) == OrInto(BitsIn(old(buf[..])), offset, BitsOf(value, width))
  {
    hide BitOf, Mask, Shift, Odd;
    var k := 0;
    ghost var was, bits := BitsIn(buf[..]), BitsOf(value, width);
    while k < width
      invariant 0 <= k <= width
      invariant BitsIn(buf[..]) == OrInto(was, offset, bits[..k])
    {
      BitsOfAt(value, width, k);
      ghost var now := buf[..];
      if Odd(Shift(value, width - 1 - k)) {
        var i := offset + k;
        SetBitSets(now, i);
        buf[i / 8] := buf[i / 8] | Mask(i % 8);
        assert buf[..] == SetBit(now, i);
      }
      OrOneMore(was, offset, bits, k);
      k := k + 1;
    }
    assert bits[..width] == bits;
  }

  lemma OrOneMore(frame: seq<bool>, offset: nat, bits: seq<bool>, k: nat)
    requires offset + |bits| <= |frame| && k < |bits|
    ensures var before := OrInto(frame, offset, bits[..k]);
            OrInto(frame, offset, bits[..k + 1]) == if bits[k] then before[offset + k := true] else before
  {
  }

  /** Fills `out` with the fields that lie within the frame. */
  method Decode(table: seq<CField>, raw: seq<bv8>, out: array<Kv>) returns (n: nat)
    requires |table| <= KV_MAX == out.Length && forall i :: 0 <= i < |table| ==> table[i].width <= 32
    modifies out
    ensures n <= out.Length && out[..n] == CDecoded(table, BitsIn(raw))
  {
    hide BitsIn, Slice, ValueOf;
    n := 0;
    var i := 0;
    while i < |table|
      invariant 0 <= i <= |table| && n <= i
      invariant out[..n] == CDecoded(table[..i], BitsIn(raw))
    {
      var f := table[i];
      assert table[..i + 1][..i] == table[..i];
      if f.offset + f.width <= 8 * |raw| {
        var v := GetBits(raw, f.offset, f.width);
        out[n] := Kv(f.name, v, true);
        n := n + 1;
      }
      i := i + 1;
    }
    assert table[..i] == table;
  }

  datatype Code = Ok | NoFunction | WidthError | RangeError | DefaultError | FrameError

  function CodeOf(why: Failure): Code {
    match why
    case BeyondFrame => FrameError
    case NoValue => DefaultError
    case TooWide => WidthError
    case NotAllowed => RangeError
  }

  /** The first entry of a name. */
  method Find(kvs: seq<Kv>, name: Name) returns (v: Option<nat>)
    ensures v == Lookup(kvs, name)
  {
    var j := 0;
    assert kvs[0..] == kvs;
    while j < |kvs|
      invariant 0 <= j <= |kvs| && Lookup(kvs, name) == Lookup(kvs[j..], name)
    {
      if kvs[j].name == name {
        return Some(kvs[j].value);
      }
      assert kvs[j..][1..] == kvs[j + 1..];
      j := j + 1;
    }
    return None;
  }

  /** The checks of one field, in the order the source makes them. */
  method ChooseField(f: CField, kvs: seq<Kv>, total: nat) returns (c: Choice)
    ensures c == CChoose(f, kvs, total)
  {
    hide Pow2, Lookup, MaskAllows;
    if f.offset + f.width > total {
      return Bad(BeyondFrame);
    }
    var found := Find(kvs, f.name);
    var v;
    if found.None? {
      if !f.hasDefault {
        return Bad(NoValue);
      }
      v := f.def;
    } else {
      v := found.value;
    }
    if f.width < 32 && v > Pow2(f.width) - 1 {
      return Bad(TooWide);
    }
    if f.hasValid && !MaskAllows(f.mask, v) {
      return Bad(NotAllowed);
    }
    return Value(v);
  }

  /** A control frame into `out`, or an error code. */
  method Encode(table: seq<CField>, kvs: seq<Kv>, frameBytes: nat, out: array<bv8>) returns (code: Code, length: nat)
    requires out.Length == FRAME_MAX
    modifies out
    ensures table == [] ==> code == NoFunction
    ensures table != [] && !(1 <= frameBytes <= FRAME_MAX) ==> code == FrameError
    ensures table != [] && 1 <= frameBytes <= FRAME_MAX ==>
              match CBuild(table, kvs, 8 * frameBytes)
              case Fail(why, _) => code == CodeOf(why)
              case Frame(bits) => code == Ok && length == frameBytes && BitsIn(out[..frameBytes]) == bits
    ensures code == Ok ==> out[frameBytes..] == old(out[frameBytes..])
  {
    code, length := Ok, 0;
    if table == [] {
      return NoFunction, 0;
    }
    if frameBytes == 0 || frameBytes > FRAME_MAX {
      return FrameError, 0;
    }
    code := Fill(table, kvs, frameBytes, out);
    if code == Ok {
      length := frameBytes;
    }
  }

  /** Zeroes the frame and places every field. */
  method Fill(table: seq<CField>, kvs: seq<Kv>, frameBytes: nat, out: array<bv8>) returns (code: Code)
    requires frameBytes <= out.Length
    modifies out
    ensures match CBuild(table, kvs, 8 * frameBytes)
            case Fail(why, _) => code == CodeOf(why)
            case Frame(bits) => code == Ok && BitsIn(out[..frameBytes]) == bits
    ensures out[frameBytes..] == old(out[frameBytes..])
  {
    hide BitsIn, CBuild, CChoose, OrInto, BitsOf;
    var k := 0;
    while k < frameBytes
      invariant 0 <= k <= frameBytes && out[frameBytes..] == old(out[frameBytes..])
      invariant forall j :: 0 <= j < k ==> out[j] == 0
    {
      out[k] := 0;
      k := k + 1;
    }
    ZeroBytesAreZeros(out[..frameBytes]);
    CBuildNothing(kvs, 8 * frameBytes);
    assert table[..0] == [];
    var i := 0;
    while i < |table|
      invariant 0 <= i <= |table| && out[frameBytes..] == old(out[frameBytes..])
      invariant CBuild(table[..i], kvs, 8 * frameBytes) == Frame(BitsIn(out[..frameBytes]))
    {
      var f := table[i];
      CBuildOneMore(table, kvs, 8 * frameBytes, i);
      var c := ChooseField(f, kvs, 8 * frameBytes);
      if c.Bad? {
        CFailsEarly(table, kvs, 8 * frameBytes, i);
        return CodeOf(c.why);
      }
      ghost var was, rest := out[..frameBytes], out[frameBytes..];
      assert out[..] == was + rest;
      PutBits(out, f.offset, f.width, c.v);
      OrInFront(was, rest, out[..], f.offset, BitsOf(c.v, f.width));
      i := i + 1;
    }
    assert table[..i] == table;
    return Ok;
  }

  /** ORing bits into the front of a buffer leaves the rest alone. */
  lemma OrInFront(front: seq<bv8>, rest: seq<bv8>, after: seq<bv8>, offset: nat, bits: seq<bool>)
    requires offset + |bits| <= 8 * |front| && |after| == |front| + |rest|
    requires BitsIn(after) == OrInto(BitsIn(front + rest), offset, bits)
    ensures BitsIn(after[..|front|]) == OrInto(BitsIn(front), offset, bits)
    ensures after[|front|..] == rest
  {
    hide BitOf;
    var n, whole := |front|, front + rest;
    assert whole[..n] == front && whole[n..] == rest;
    BitsOfPrefix(after, n);
    BitsOfPrefix(whole, n);
    BitsOfSuffix(after, n);
    BitsOfSuffix(whole, n);
    assert BitsIn(after)[8 * n..] == BitsIn(whole)[8 * n..];
    BytesByBits(after[n..], rest);
  }

  lemma BitsOfSuffix(bytes: seq<bv8>, n: nat)
    requires n <= |bytes|
    ensures BitsIn(bytes[n..]) == BitsIn(bytes)[8 * n..]
  {
    hide BitOf;
    forall j | 0 <= j < 8 * (|bytes| - n)
      ensures BitAt(bytes[n..], j) == BitsIn(bytes)[8 * n..][j]
    {
      assert (8 * n + j) / 8 == n + j / 8 && (8 * n + j) % 8 == j % 8;
    }
  }

  lemma CBuildNothing(kvs: seq<Kv>, total: nat)
    ensures CBuild([], kvs, total) == Frame(Zeros(total))
  {
  }

  lemma CBuildOneMore(table: seq<CField>, kvs: seq<Kv>, total: nat, i: nat)
    requires i < |table| && CBuild(table[..i], kvs, total).Frame?
    ensures CChoose(table[i], kvs, total).Value? ==>
              table[i].offset + table[i].width <= total
              && CBuild(table[..i + 1], kvs, total)
                 == Frame(OrInto(CBuild(table[..i], kvs, total).bits, table[i].offset,
                                 BitsOf(CChoose(table[i], kvs, total).v, table[i].width)))
  {
    hide OrInto, BitsOf;
    assert table[..i + 1][..i] == table[..i];
  }

  lemma {:induction false} CFailsEarly(table: seq<CField>, kvs: seq<Kv>, total: nat, i: nat)
    requires i < |table| && CBuild(table[..i], kvs, total).Frame? && CChoose(table[i], kvs, total).Bad?
    ensures CBuild(table, kvs, total) == Fail(CChoose(table[i], kvs, total).why, i)
    decreases |table|
  {
    hide CChoose, OrInto;
    var n := |table| - 1;
    if i < n {
      assert table[..n][..i] == table[..i];
      CFailsEarly(table[..n], kvs, total, i);
    }
  }
}
