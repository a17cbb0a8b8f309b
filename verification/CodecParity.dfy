/** Both codecs run side by side. */
module CodecParity {
  import opened Common
  import opened Bits
  import opened FieldNames
  import opened Codec
  import opened CodecLaws
  import opened CodecPython
  import C = CodecC

  /** The same bytes, or the same class of error. */
  predicate Agrees(py: Encoded, code: C.Code, frame: seq<bv8>) {
    match py
    case Bytes(bytes) => code == C.Ok && frame == bytes
    case Refused(InField(why, _)) => code == C.CodeOf(why)
    case Refused(Unresolved) => false
  }

  /** For the same table and values C and Python agree exactly when the table has a field (C refuses an
      empty one, Python sends zeros) and, in a frame of 1 to 32 bytes, no bit set by one field is cleared
      by a later one, or, out of that range, a field is beyond Python's frame too. Disjoint tables never
      clear a bit. */
  method EncodeBoth(fields: seq<Field>, table: seq<CField>, values: Values, kvs: seq<Kv>, frameBytes: nat)
    returns (py: Encoded, code: C.Code, frame: seq<bv8>)
    requires SameTable(fields, table) && SameValues(values, kvs)
    ensures match Build(fields, values, Total(fields, Some(frameBytes)))
            case Fail(why, at) => py == Refused(InField(why, at))
            case Frame(bits) => py.Bytes? && |py.bytes| == (|bits| + 7) / 8
                                && BitsIn(py.bytes) == bits + Zeros(8 * |py.bytes| - |bits|)
    ensures table == [] ==> code == C.NoFunction
    ensures table != [] && InLength(frameBytes) ==>
              match CBuild(table, kvs, 8 * frameBytes)
              case Fail(why, _) => code == C.CodeOf(why)
              case Frame(bits) => code == C.Ok && BitsIn(frame) == bits
    ensures table != [] && !InLength(frameBytes) ==> code == C.FrameError
    ensures var b := Build(fields, values, Total(fields, Some(frameBytes)));
            Agrees(py, code, frame) <==>
              table != [] && if InLength(frameBytes) then b.Fail? || NothingCleared(fields, values, 8 * frameBytes)
                             else b.Fail? && b.why == BeyondFrame
    ensures Disjoint(fields) && InLength(frameBytes) ==> (Agrees(py, code, frame) <==> table != [])
  {
    hide BitsIn, Build, CBuild, SameField, SameValues, Disjoint, NothingCleared;
    var entries := AllPlaced(fields);
    PlacedBack(fields);
    py := Encode(entries, values, Some(frameBytes));
    var out := new bv8[C.FRAME_MAX];
    var length;
    code, length := C.Encode(table, kvs, frameBytes, out);
    frame := out[..if code == C.Ok && length <= C.FRAME_MAX then length else 0];
    if table == [] {
      NoFieldsNoFailure(values, Total(fields, Some(frameBytes)));
    } else if InLength(frameBytes) {
      FailAlike(fields, table, values, kvs, 8 * frameBytes);
      AgreeExactly(fields, table, values, kvs, 8 * frameBytes);
      if Disjoint(fields) {
        CBuildsTheSame(fields, table, values, kvs, 8 * frameBytes);
      }
      if py.Bytes? {
        var bits := Build(fields, values, 8 * frameBytes).bits;
        assert bits + Zeros(0) == bits;
        if BitsIn(frame) == BitsIn(py.bytes) {
          BytesByBits(py.bytes, frame);
        }
      }
    }
  }

  predicate InLength(frameBytes: nat) {
    1 <= frameBytes <= C.FRAME_MAX
  }

  lemma NoFieldsNoFailure(values: Values, total: nat)
    ensures Build([], values, total).Frame?
  {
  }

  /** A state frame reads the same in both. */
  method DecodeBoth(fields: seq<Field>, table: seq<CField>, raw: seq<bv8>) returns (py: Values, kvs: seq<Kv>)
    requires SameTable(fields, table) && |table| <= C.KV_MAX
    ensures py == Decoded(fields, BitsIn(raw)) && kvs == CDecoded(table, BitsIn(raw))
    ensures AsValues(kvs) == py
  {
    hide BitsIn, Decoded, CDecoded;
    PlacedBack(fields);
    py := Decode(AllPlaced(fields), raw);
    var out := new Kv[C.KV_MAX](_ => Kv(AirDistribution, 0, false));
    forall i | 0 <= i < |table|
      ensures table[i].width <= 32
    {
      assert SameField(fields[i], table[i]);
    }
    var n := C.Decode(table, raw, out);
    kvs := out[..n];
    CDecodesTheSame(fields, table, BitsIn(raw));
  }

  /** Encoded and read back: every field holds the value given or its default, and all other bits are 0. */
  method RoundTrip(fields: seq<Field>, values: Values, frameBytes: nat) returns (sent: Encoded, back: Values)
    requires Disjoint(fields) && UniqueNames(fields) && frameBytes > 0
    ensures match Build(fields, values, 8 * frameBytes)
            case Fail(why, at) => sent == Refused(InField(why, at))
            case Frame(bits) => sent.Bytes? && |sent.bytes| == frameBytes && BitsIn(sent.bytes) == bits
    ensures sent.Bytes? <==> forall i :: 0 <= i < |fields| ==> Choose(fields[i], values, 8 * frameBytes).Value?
    ensures sent.Bytes? ==> back == Decoded(fields, BitsIn(sent.bytes))
    ensures sent.Bytes? ==>
              forall i :: 0 <= i < |fields| ==>
                fields[i].name in back && Given(fields[i], values) == Some(back[fields[i].name])
    ensures sent.Bytes? ==> forall j :: 0 <= j < 8 * frameBytes && BitAt(sent.bytes, j) ==> InSome(fields, j)
  {
    hide BitOf, Build, Choose, Given, Decoded, InSome, Disjoint, UniqueNames;
    var entries, total := AllPlaced(fields), 8 * frameBytes;
    PlacedBack(fields);
    sent := Encode(entries, values, Some(frameBytes));
    FailsAtFirst(fields, values, total);
    back := map[];
    if sent.Bytes? {
      back := Decode(entries, sent.bytes);
      var bits := Build(fields, values, total).bits;
      assert BitsIn(sent.bytes) == bits;
      EncodedSpells(fields, values, total);
      forall i | 0 <= i < |fields|
        ensures fields[i].name in back && Given(fields[i], values) == Some(back[fields[i].name])
      {
        DecodeEncode(fields, values, total, i);
      }
      forall j | 0 <= j < total && BitAt(sent.bytes, j)
        ensures InSome(fields, j)
      {
        assert bits[j];
      }
    }
  }
}
