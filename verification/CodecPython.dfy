/** The Python codec's loops, each proved to build what the tables say. */
module CodecPython {
  import opened Common
  import opened Bits
  import opened FieldNames
  import opened Codec
  import opened CodecLaws

  /** Bytes to bits, most significant first. */
  method ToBits(data: seq<bv8>) returns (out: seq<bool>)
    ensures out == BitsIn(data)
  {
    hide BitOf;
    out := [];
    var i := 0;
    while i < |data|
      invariant 0 <= i <= |data| && |out| == 8 * i
      invariant forall j :: 0 <= j < 8 * i ==> out[j] == BitAt(data, j)
    {
      var k := 0;
      while k < 8
        invariant 0 <= k <= 8 && |out| == 8 * i + k
        invariant forall j :: 0 <= j < 8 * i + k ==> out[j] == BitAt(data, j)
      {
        assert (8 * i + k) / 8 == i && (8 * i + k) % 8 == k;
        out := out + [BitOf(data[i], k)];
        k := k + 1;
      }
      i := i + 1;
    }
  }

  /** The bits of a slice, read as a number. */
  method GetField(bits: seq<bool>, offset: nat, width: nat) returns (v: nat)
    requires offset + width <= |bits|
    ensures v == ValueOf(Slice(bits, offset, width))
  {
    var part := Slice(bits, offset, width);
    v := 0;
    var i := 0;
    while i < |part|
      invariant 0 <= i <= |part| && v == ValueOf(part[..i])
    {
      assert part[..i + 1][..i] == part[..i];
      v := 2 * v + Num(part[i]);
      i := i + 1;
    }
    assert part[..i] == part;
  }

  /** Bits to bytes; a last byte that is not full is padded with zeros. */
  method Pack(bits: seq<bool>) returns (out: array<bv8>)
    ensures fresh(out) && out.Length == (|bits| + 7) / 8
    ensures BitsIn(out[..]) == bits + Zeros(8 * out.Length - |bits|)
  {
    hide BitOf, Mask, BitsIn, Zeros;
    out := new bv8[(|bits| + 7) / 8](_ => 0);
    ZeroBytesAreZeros(out[..]);
    assert bits[..0] + Zeros(8 * out.Length) == Zeros(8 * out.Length);
    var i := 0;
    while i < |bits|
      invariant 0 <= i <= |bits| && fresh(out)
      invariant BitsIn(out[..]) == bits[..i] + Zeros(8 * out.Length - i)
    {
      PackOneMore(bits, i, out[..]);
      if bits[i] {
        ghost var was := out[..];
        out[i / 8] := out[i / 8] | Mask(i % 8);
        assert out[..] == SetBit(was, i);
      }
      i := i + 1;
    }
  }

  lemma PackOneMore(bits: seq<bool>, i: nat, bytes: seq<bv8>)
    requires i < |bits| <= 8 * |bytes| && BitsIn(bytes) == bits[..i] + Zeros(8 * |bytes| - i)
    ensures BitsIn(if bits[i] then SetBit(bytes, i) else bytes) == bits[..i + 1] + Zeros(8 * |bytes| - i - 1)
  {
    hide SetBit, BitsIn;
    if bits[i] {
      SetBitSets(bytes, i);
    }
  }

  /** A state frame to its placed fields that lie within it. */
  method Decode(entries: seq<Entry>, raw: seq<bv8>) returns (out: Values)
    ensures out == Decoded(PlacedOf(entries), BitsIn(raw))
  {
    hide Slice, ValueOf, BitsIn, Decoded, PlacedOf;
    var bits := ToBits(raw);
    out := map[];
    DecodedNothing(bits);
    assert entries[..0] == [];
    var i := 0;
    while i < |entries|
      invariant 0 <= i <= |entries| && out == Decoded(PlacedOf(entries[..i]), bits)
    {
      PlacedOneMore(entries, i);
      if entries[i].Placed? {
        DecodedOneMore(PlacedOf(entries[..i]), entries[i].field, bits);
      }
      if entries[i].Placed? && entries[i].field.Fits(|bits|) {
        var f := entries[i].field;
        var v := GetField(bits, f.offset, f.width);
        out := out[f.name := v];
      }
      i := i + 1;
    }
    assert entries[..i] == entries;
  }

  lemma PlacedOneMore(entries: seq<Entry>, i: nat)
    requires i < |entries|
    ensures PlacedOf(entries[..i + 1]) ==
            if entries[i].Placed? then PlacedOf(entries[..i]) + [entries[i].field] else PlacedOf(entries[..i])
  {
    assert entries[..i + 1][..i] == entries[..i];
  }

  lemma DecodedNothing(bits: seq<bool>)
    ensures Decoded(PlacedOf([]), bits) == map[]
  {
  }

  lemma DecodedOneMore(fields: seq<Field>, f: Field, bits: seq<bool>)
    ensures Decoded(fields + [f], bits) ==
            if f.Fits(|bits|) then Decoded(fields, bits)[f.name := FieldValue(f, bits)] else Decoded(fields, bits)
  {
    assert (fields + [f])[..|fields|] == fields;
  }

  /** Width first, then the curated constraint. */
  method CheckValue(width: nat, val: int, valid: Option<Valid>) returns (bad: Option<Failure>)
    ensures bad == Some(TooWide) <==> !(0 <= val < Pow2(width))
    ensures bad == None <==> 0 <= val < Pow2(width) && (valid.Some? ==> InValid(val, valid.value))
    ensures bad.Some? ==> bad.value in {TooWide, NotAllowed}
  {
    if !(0 <= val <= Pow2(width) - 1) {
      return Some(TooWide);
    }
    if valid.Some? && !InValid(val, valid.value) {
      return Some(NotAllowed);
    }
    return None;
  }

  lemma BuildOneMore(fields: seq<Field>, values: Values, total: nat, i: nat)
    requires i < |fields| && Build(fields[..i], values, total).Frame?
    ensures Choose(fields[i], values, total).Value? ==>
              fields[i].End() <= total
              && Build(fields[..i + 1], values, total)
                 == Frame(Overwrite(Build(fields[..i], values, total).bits, fields[i].offset,
                                    BitsOf(Choose(fields[i], values, total).v, fields[i].width)))
  {
    hide Overwrite, BitsOf;
    assert fields[..i + 1][..i] == fields[..i];
  }

  /** The source's ValueErrors. */
  datatype Problem = Unresolved | InField(why: Failure, at: nat)

  datatype Encoded = Bytes(bytes: seq<bv8>) | Refused(problem: Problem)

  function Total(fields: seq<Field>, frameBytes: Option<nat>): nat {
    match frameBytes
    case Some(n) => if n != 0 then 8 * n else MaxEnd(fields)
    case None => MaxEnd(fields)
  }

  /** A control frame: every placed field written, or the first reason not to. */
  method Encode(entries: seq<Entry>, values: Values, frameBytes: Option<nat>) returns (result: Encoded)
    ensures result == Refused(Unresolved) <==> Missing(entries, values)
    ensures result == Refused(Unresolved) <==>
              exists i :: 0 <= i < |entries| && entries[i].Unplaced? && entries[i].name !in values
    ensures !Missing(entries, values) ==>
              var fields := PlacedOf(entries);
              match Build(fields, values, Total(fields, frameBytes))
              case Fail(why, at) => result == Refused(InField(why, at))
              case Frame(bits) => result.Bytes? && |result.bytes| == (|bits| + 7) / 8
                                  && BitsIn(result.bytes) == bits + Zeros(8 * |result.bytes| - |bits|)
  {
    hide Build, Overwrite, BitsOf, Pow2, BitOf, InValid, Given;
    if Missing(entries, values) {
      return Refused(Unresolved);
    }
    var placed := PlacedOf(entries);
    var total := Total(placed, frameBytes);
    var frame := Zeros(total);
    var i := 0;
    BuildNothing(values, total);
    assert placed[..0] == [];
    while i < |placed|
      invariant 0 <= i <= |placed| && Build(placed[..i], values, total) == Frame(frame)
    {
      var f := placed[i];
      BuildOneMore(placed, values, total, i);
      if f.End() > total {
        FailsEarly(placed, values, total, i);
        return Refused(InField(BeyondFrame, i));
      }
      var val := Given(f, values);
      if val.None? {
        FailsEarly(placed, values, total, i);
        return Refused(InField(NoValue, i));
      }
      var bad := CheckValue(f.width, val.value, f.valid);
      if bad.Some? {
        FailsEarly(placed, values, total, i);
        return Refused(InField(bad.value, i));
      }
      frame := Overwrite(frame, f.offset, BitsOf(val.value, f.width));
      i := i + 1;
    }
    assert placed[..i] == placed;
    var out := Pack(frame);
    return Bytes(out[..]);
  }

  lemma BuildNothing(values: Values, total: nat)
    ensures Build([], values, total) == Frame(Zeros(total))
  {
  }

  /** A failure at field `i` is the outcome, whatever follows. */
  lemma {:induction false} FailsEarly(fields: seq<Field>, values: Values, total: nat, i: nat)
    requires i < |fields| && Build(fields[..i], values, total).Frame? && Choose(fields[i], values, total).Bad?
    ensures Build(fields, values, total) == Fail(Choose(fields[i], values, total).why, i)
    decreases |fields|
  {
    hide Choose, Overwrite;
    var n := |fields| - 1;
    if i < n {
      assert fields[..n][..i] == fields[..i];
      FailsEarly(fields[..n], values, total, i);
    }
  }
}
