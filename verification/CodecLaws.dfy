/** What an encoded frame holds, that the C form builds the same one, and that decoding undoes it. */
module CodecLaws {
  import opened Common
  import opened Bits
  import opened FieldNames
  import opened Codec

  // ----- The outcome of encoding ---------------------------------------------------------------

  /** Encoding fails exactly at the first field that has no acceptable value, and for its reason. */
  lemma {:induction false} FailsAtFirst(fields: seq<Field>, values: Values, total: nat)
    ensures var b := Build(fields, values, total);
            match b
            case Fail(why, at) =>
              && at < |fields| && Choose(fields[at], values, total) == Bad(why)
              && forall i :: 0 <= i < at ==> Choose(fields[i], values, total).Value?
            case Frame(_) => forall i :: 0 <= i < |fields| ==> Choose(fields[i], values, total).Value?
    decreases |fields|
  {
    hide Choose, Overwrite;
    if fields != [] {
      FailsAtFirst(fields[..|fields| - 1], values, total);
    }
  }

  /** A field takes the value given, or its default, exactly if it lies in the frame, there is one, it fits the
      width and is allowed; else the reason is the first of these that fails. */
  lemma ChosenExactly(f: Field, values: Values, total: nat)
    ensures var c := Choose(f, values, total);
            var given := if f.name in values then Some(values[f.name]) else f.default;
            var placed, fits := f.offset + f.width <= total, given.Some? && 0 <= given.value < Pow2(f.width);
            && (c.Value? <==> placed && fits && (f.valid.Some? ==> InValid(given.value, f.valid.value)))
            && (c.Value? ==> c.v == given.value)
            && (c == Bad(BeyondFrame) <==> !placed)
            && (c == Bad(NoValue) <==> placed && given.None?)
            && (c == Bad(TooWide) <==> placed && given.Some? && !fits)
  {
    hide InValid, Pow2;
  }

  /** The furthest end is reached by a field and passed by none. */
  lemma {:induction false} MaxEndIs(fields: seq<Field>)
    ensures forall f :: f in fields ==> f.offset + f.width <= MaxEnd(fields)
    ensures MaxEnd(fields) > 0 ==> exists f :: f in fields && f.offset + f.width == MaxEnd(fields)
  {
    if fields != [] {
      MaxEndIs(fields[1..]);
      assert forall f :: f in fields <==> f == fields[0] || f in fields[1..];
      assert fields[0].End() == MaxEnd(fields) ==> fields[0] in fields;
    }
  }

  /** Each field's bits spell its value, and no other bit is set. */
  ghost predicate Spells(fields: seq<Field>, values: Values, total: nat, bits: seq<bool>) {
    && |bits| == total
    && (forall i :: 0 <= i < |fields| ==>
          fields[i].Fits(total) && Choose(fields[i], values, total).Value?
          && Slice(bits, fields[i].offset, fields[i].width) == BitsOf(Choose(fields[i], values, total).v, fields[i].width))
    && (forall j :: 0 <= j < total && bits[j] ==> InSome(fields, j))
  }

  lemma OverwriteReads(frame: seq<bool>, offset: nat, bits: seq<bool>)
    requires offset + |bits| <= |frame|
    ensures Slice(Overwrite(frame, offset, bits), offset, |bits|) == bits
    ensures forall j :: 0 <= j < |frame| && !(offset <= j < offset + |bits|) ==> Overwrite(frame, offset, bits)[j] == frame[j]
  {
  }

  lemma OverwriteElsewhere(frame: seq<bool>, offset: nat, bits: seq<bool>, o: nat, w: nat)
    requires offset + |bits| <= |frame| && o + w <= |frame| && (o + w <= offset || offset + |bits| <= o)
    ensures Slice(Overwrite(frame, offset, bits), o, w) == Slice(frame, o, w)
  {
  }

  lemma ChosenFits(f: Field, values: Values, total: nat)
    requires Choose(f, values, total).Value?
    ensures f.Fits(total) && Choose(f, values, total).v < Pow2(f.width)
    ensures Given(f, values) == Some(Choose(f, values, total).v)
  {
  }

  lemma FrontDisjoint(fields: seq<Field>, front: seq<Field>, f: Field)
    requires fields == front + [f] && Disjoint(fields)
    ensures Disjoint(front) && forall i :: 0 <= i < |front| ==> Apart(front[i], f)
  {
    assert fields[|front|] == f;
    assert forall i :: 0 <= i < |front| ==> fields[i] == front[i];
  }

  /** With disjoint fields an encoded frame holds every value where its field is. */
  lemma {:induction false} EncodedSpells(fields: seq<Field>, values: Values, total: nat)
    requires Disjoint(fields) && Build(fields, values, total).Frame?
    ensures Spells(fields, values, total, Build(fields, values, total).bits)
    decreases |fields|
  {
    hide Choose, Overwrite, Disjoint, BitsOf, Pow2;
    if fields != [] {
      var n := |fields| - 1;
      var front, f := fields[..n], fields[n];
      assert front + [f] == fields;
      FrontDisjoint(fields, front, f);
      EncodedSpells(front, values, total);
      ChosenFits(f, values, total);
      SpellsOneMore(front, f, values, total, Build(front, values, total).bits);
    }
  }

  lemma SpellsOneMore(front: seq<Field>, f: Field, values: Values, total: nat, bits: seq<bool>)
    requires Spells(front, values, total, bits) && forall i :: 0 <= i < |front| ==> Apart(front[i], f)
    requires f.Fits(total) && Choose(f, values, total).Value?
    ensures Spells(front + [f], values, total, Overwrite(bits, f.offset, BitsOf(Choose(f, values, total).v, f.width)))
  {
    hide Choose, Overwrite, BitsOf, Slice, Covers;
    var spelled := BitsOf(Choose(f, values, total).v, f.width);
    var after, fields := Overwrite(bits, f.offset, spelled), front + [f];
    OverwriteReads(bits, f.offset, spelled);
    forall i | 0 <= i < |front|
      ensures Slice(after, front[i].offset, front[i].width) == Slice(bits, front[i].offset, front[i].width)
    {
      assert Apart(front[i], f);
      OverwriteElsewhere(bits, f.offset, spelled, front[i].offset, front[i].width);
    }
    forall j | 0 <= j < total && after[j]
      ensures InSome(fields, j)
    {
      InSomeMore(front, f, j);
    }
  }

  lemma InSomeMore(front: seq<Field>, f: Field, j: nat)
    ensures InSome(front + [f], j) <==> InSome(front, j) || f.offset <= j < f.End()
  {
    var fields := front + [f];
    assert fields[|front|] == f;
    if f.offset <= j < f.End() {
      assert Covers(fields[|front|], j);
    }
    if InSome(front, j) {
      var i :| 0 <= i < |front| && Covers(front[i], j);
      assert Covers(fields[i], j);
    }
    if InSome(fields, j) {
      var i :| 0 <= i < |fields| && Covers(fields[i], j);
      if i < |front| {
        assert Covers(front[i], j);
      }
    }
  }

  // ----- C builds the same frame ---------------------------------------------------------------

  lemma MaskWidth(v: nat, width: nat)
    requires v < WORD && 1 <= width <= 32
    ensures (width < 32 && v > Pow2(width) - 1) <==> v >= Pow2(width)
  {
    Pow2Of32();
  }

  lemma {:induction false} LookupWord(kvs: seq<Kv>, name: Name)
    requires forall i :: 0 <= i < |kvs| ==> kvs[i].value < WORD
    ensures Lookup(kvs, name).Some? ==> Lookup(kvs, name).value < WORD
  {
    if kvs != [] && kvs[0].name != name {
      LookupWord(kvs[1..], name);
    }
  }

  lemma SameChoice(f: Field, c: CField, values: Values, kvs: seq<Kv>, total: nat)
    requires SameField(f, c) && SameValues(values, kvs)
    ensures CChoose(c, kvs, total) == Choose(f, values, total)
  {
    hide Pow2, Shift;
    LookupWord(kvs, c.name);
    assert Lookup(kvs, c.name) == if c.name in values then Some(values[c.name]) else None;
    if CGiven(c, kvs).Some? {
      var v := CGiven(c, kvs).value;
      assert v < WORD;
      MaskWidth(v, c.width);
      assert c.hasValid ==> (InValid(v, f.valid.value) <==> MaskAllows(c.mask, v));
    }
  }

  lemma SamePlace(f: Field, c: CField)
    requires SameField(f, c)
    ensures f.offset == c.offset && f.width == c.width && f.name == c.name
  {
  }

  /** Field `i` has a 1 for bit `p` of the frame. */
  predicate Sets(fields: seq<Field>, values: Values, total: nat, i: nat, p: nat)
    requires i < |fields|
  {
    Covers(fields[i], p) && Choose(fields[i], values, total).Value?
    && BitsOf(Choose(fields[i], values, total).v, fields[i].width)[p - fields[i].offset]
  }

  predicate SomeSets(fields: seq<Field>, values: Values, total: nat, p: nat) {
    exists i :: 0 <= i < |fields| && Sets(fields, values, total, i, p)
  }

  /** The last field over bit `p` has a 1 for it. */
  predicate LastSets(fields: seq<Field>, values: Values, total: nat, p: nat)
    decreases |fields|
  {
    fields != []
    && var n := |fields| - 1;
    if Covers(fields[n], p) then Sets(fields, values, total, n, p) else LastSets(fields[..n], values, total, p)
  }

  lemma SomeSetsOneMore(fields: seq<Field>, values: Values, total: nat, p: nat)
    requires fields != []
    ensures var n := |fields| - 1;
            SomeSets(fields, values, total, p) <==> SomeSets(fields[..n], values, total, p) || Sets(fields, values, total, n, p)
  {
    hide Choose, Covers, BitsOf;
    var n := |fields| - 1;
    forall i | 0 <= i < n
      ensures Sets(fields[..n], values, total, i, p) == Sets(fields, values, total, i, p)
    {
      assert fields[..n][i] == fields[i];
    }
    if SomeSets(fields[..n], values, total, p) {
      var i :| 0 <= i < n && Sets(fields[..n], values, total, i, p);
      assert Sets(fields, values, total, i, p);
    }
    if SomeSets(fields, values, total, p) && !Sets(fields, values, total, n, p) {
      var i :| 0 <= i < |fields| && Sets(fields, values, total, i, p);
      assert Sets(fields[..n], values, total, i, p);
    }
  }

  /** A bit of the overwritten frame is what the last field over it says. */
  lemma {:induction false} OverwrittenBit(fields: seq<Field>, values: Values, total: nat, p: nat)
    requires Build(fields, values, total).Frame? && p < total
    ensures Build(fields, values, total).bits[p] <==> LastSets(fields, values, total, p)
    decreases |fields|
  {
    hide Choose, BitsOf;
    if fields != [] {
      var n := |fields| - 1;
      OverwrittenBit(fields[..n], values, total, p);
      ChosenFits(fields[n], values, total);
    }
  }

  /** A bit of the ORed frame is set if any field says so. */
  lemma {:induction false} OredBit(fields: seq<Field>, table: seq<CField>, values: Values, kvs: seq<Kv>, total: nat, p: nat)
    requires SameTable(fields, table) && SameValues(values, kvs)
    requires CBuild(table, kvs, total).Frame? && p < total
    ensures CBuild(table, kvs, total).bits[p] <==> SomeSets(fields, values, total, p)
    decreases |fields|
  {
    hide Choose, CChoose, BitsOf, SameField, SameValues, SomeSets;
    if fields != [] {
      var n := |fields| - 1;
      OredBit(fields[..n], table[..n], values, kvs, total, p);
      SomeSetsOneMore(fields, values, total, p);
      SameChoice(fields[n], table[n], values, kvs, total);
      SamePlace(fields[n], table[n]);
    } else {
      NoneSets(values, total, p);
    }
  }

  lemma NoneSets(values: Values, total: nat, p: nat)
    ensures !SomeSets([], values, total, p)
  {
  }

  /** Both fail alike: overlaps play no part in it. */
  lemma {:induction false} FailAlike(fields: seq<Field>, table: seq<CField>, values: Values, kvs: seq<Kv>, total: nat)
    requires SameTable(fields, table) && SameValues(values, kvs)
    ensures var b, c := Build(fields, values, total), CBuild(table, kvs, total);
            (b.Fail? <==> c.Fail?) && (b.Fail? ==> b == c)
    decreases |fields|
  {
    hide SameField, SameValues, Choose, CChoose, Overwrite, OrInto;
    if fields != [] {
      var n := |fields| - 1;
      FailAlike(fields[..n], table[..n], values, kvs, total);
      SameChoice(fields[n], table[n], values, kvs, total);
    }
  }

  /** No bit is set by one field and cleared by the last one over it. */
  predicate NothingCleared(fields: seq<Field>, values: Values, total: nat) {
    forall p :: 0 <= p < total && SomeSets(fields, values, total, p) ==> LastSets(fields, values, total, p)
  }

  /** ORing into zeroed bytes and slice assignment build the same bits exactly if nothing is cleared;
      and they fail at the same field for the same reason. */
  lemma AgreeExactly(fields: seq<Field>, table: seq<CField>, values: Values, kvs: seq<Kv>, total: nat)
    requires SameTable(fields, table) && SameValues(values, kvs)
    ensures CBuild(table, kvs, total) == Build(fields, values, total) <==>
              Build(fields, values, total).Fail? || NothingCleared(fields, values, total)
  {
    hide SameTable, SameValues, SomeSets, LastSets, Build, CBuild;
    FailAlike(fields, table, values, kvs, total);
    var b, c := Build(fields, values, total), CBuild(table, kvs, total);
    if b.Frame? {
      forall p | 0 <= p < total
        ensures b.bits[p] <==> LastSets(fields, values, total, p)
        ensures c.bits[p] <==> SomeSets(fields, values, total, p)
        ensures LastSets(fields, values, total, p) ==> SomeSets(fields, values, total, p)
      {
        OverwrittenBit(fields, values, total, p);
        OredBit(fields, table, values, kvs, total, p);
        LastIsSome(fields, values, total, p);
      }
      if NothingCleared(fields, values, total) {
        assert b.bits == c.bits;
      }
    }
  }

  lemma {:induction false} LastIsSome(fields: seq<Field>, values: Values, total: nat, p: nat)
    ensures LastSets(fields, values, total, p) ==> SomeSets(fields, values, total, p)
    decreases |fields|
  {
    hide Choose, BitsOf, SomeSets;
    if fields != [] {
      LastIsSome(fields[..|fields| - 1], values, total, p);
      SomeSetsOneMore(fields, values, total, p);
    }
  }

  /** On disjoint fields nothing can be cleared. */
  lemma {:induction false} DisjointClearsNothing(fields: seq<Field>, values: Values, total: nat, p: nat)
    requires Disjoint(fields)
    ensures SomeSets(fields, values, total, p) ==> LastSets(fields, values, total, p)
    decreases |fields|
  {
    hide Choose, BitsOf, SomeSets, Disjoint;
    if fields != [] {
      var n := |fields| - 1;
      assert fields[..n] + [fields[n]] == fields;
      FrontDisjoint(fields, fields[..n], fields[n]);
      DisjointClearsNothing(fields[..n], values, total, p);
      SomeSetsOneMore(fields, values, total, p);
      if Covers(fields[n], p) {
        NoneBefore(fields[..n], fields[n], values, total, p);
      }
    } else {
      NoneSets(values, total, p);
    }
  }

  lemma NoneBefore(front: seq<Field>, f: Field, values: Values, total: nat, p: nat)
    requires Covers(f, p) && forall i :: 0 <= i < |front| ==> Apart(front[i], f)
    ensures !SomeSets(front, values, total, p)
  {
    hide Choose, BitsOf;
    forall i | 0 <= i < |front|
      ensures !Sets(front, values, total, i, p)
    {
      assert Apart(front[i], f);
    }
  }

  /** On disjoint tables the two forms build the same bits, or fail alike. */
  lemma CBuildsTheSame(fields: seq<Field>, table: seq<CField>, values: Values, kvs: seq<Kv>, total: nat)
    requires SameTable(fields, table) && SameValues(values, kvs) && Disjoint(fields)
    ensures CBuild(table, kvs, total) == Build(fields, values, total)
  {
    hide SameTable, SameValues, SomeSets, LastSets, Build, CBuild, Disjoint;
    AgreeExactly(fields, table, values, kvs, total);
    forall p | 0 <= p < total && SomeSets(fields, values, total, p)
      ensures LastSets(fields, values, total, p)
    {
      DisjointClearsNothing(fields, values, total, p);
    }
  }

  lemma TwoEntries(name: Name, other: Name, kvs: seq<Kv>)
    requires name != other && kvs == [Kv(name, 1, true), Kv(other, 0, true)]
    ensures SameValues(map[name := 1, other := 0], kvs)
  {
    forall n: Name
      ensures Lookup(kvs, n) == if n == name then Some(1) else if n == other then Some(0) else None
    {
      LookupTwo(kvs[0], kvs[1], n);
    }
  }

  lemma LookupTwo(a: Kv, b: Kv, n: Name)
    ensures Lookup([a, b], n) == if n == a.name then Some(a.value) else if n == b.name then Some(b.value) else None
  {
    assert [a, b][1..] == [b] && [b][1..] == [];
    assert Lookup([], n) == None;
    assert Lookup([b], n) == if n == b.name then Some(b.value) else None;
  }

  /** Overlapping fields break it: the second field's 0 clears a bit in Python and not in C. */
  lemma OverlapDiffers(name: Name, other: Name, fields: seq<Field>, table: seq<CField>, values: Values, kvs: seq<Kv>)
    requires name != other && fields == [Field(name, 0, 1, None, None), Field(other, 0, 1, None, None)]
    requires table == [CField(name, 0, 1, false, false, 0, 0), CField(other, 0, 1, false, false, 0, 0)]
    requires values == map[name := 1, other := 0] && kvs == [Kv(name, 1, true), Kv(other, 0, true)]
    ensures SameTable(fields, table) && SameValues(values, kvs)
    ensures CBuild(table, kvs, 8) != Build(fields, values, 8)
  {
    hide Build, CBuild, SomeSets, LastSets, SameValues, Choose, Sets;
    TwoEntries(name, other, kvs);
    FailsAtFirst(fields, values, 8);
    TakesBit(fields, values, 0, 1);
    TakesBit(fields, values, 1, 0);
    ClearedBit(fields, values, 8);
    AgreeExactly(fields, table, values, kvs, 8);
  }

  /** A one-bit field given a bit takes it. */
  lemma TakesBit(fields: seq<Field>, values: Values, i: nat, v: nat)
    requires i < |fields| && fields[i].offset == 0 && fields[i].width == 1 && fields[i].valid.None? && v < 2
    requires fields[i].name in values && values[fields[i].name] == v
    ensures Choose(fields[i], values, 8) == Value(v)
    ensures Sets(fields, values, 8, i, 0) <==> v == 1
  {
    assert Pow2(1) == 2;
    assert BitsOf(v, 1) == BitsOf(v / 2, 0) + [Odd(v)];
    assert BitsOf(v / 2, 0) == [];
  }

  lemma ClearedBit(fields: seq<Field>, values: Values, total: nat)
    requires |fields| == 2 && total > 0 && Covers(fields[1], 0)
    requires Sets(fields, values, total, 0, 0) && !Sets(fields, values, total, 1, 0)
    ensures !NothingCleared(fields, values, total)
  {
    hide Sets;
    assert SomeSets(fields, values, total, 0);
    assert !LastSets(fields, values, total, 0);
  }

  // ----- Decoding undoes encoding --------------------------------------------------------------

  lemma {:induction false} DecodedField(fields: seq<Field>, bits: seq<bool>, i: nat)
    requires i < |fields| && UniqueNames(fields) && fields[i].Fits(|bits|)
    ensures fields[i].name in Decoded(fields, bits)
    ensures Decoded(fields, bits)[fields[i].name] == FieldValue(fields[i], bits)
    decreases |fields|
  {
    hide FieldValue;
    var n := |fields| - 1;
    if i < n {
      assert fields[i].name != fields[n].name;
      DecodedField(fields[..n], bits, i);
    }
  }

  lemma {:induction false} DecodedNames(fields: seq<Field>, bits: seq<bool>)
    ensures forall name :: name in Decoded(fields, bits) <==>
              exists i :: 0 <= i < |fields| && fields[i].name == name && fields[i].Fits(|bits|)
    decreases |fields|
  {
    hide FieldValue;
    if fields != [] {
      var n := |fields| - 1;
      DecodedNames(fields[..n], bits);
      forall name
        ensures name in Decoded(fields, bits) <==>
                  exists i :: 0 <= i < |fields| && fields[i].name == name && fields[i].Fits(|bits|)
      {
        assert forall i :: 0 <= i < n ==> fields[..n][i] == fields[i];
      }
    }
  }

  /** Decoding an encoded frame gives back, for every field, the value given or its default. */
  lemma DecodeEncode(fields: seq<Field>, values: Values, total: nat, i: nat)
    requires Disjoint(fields) && UniqueNames(fields) && Build(fields, values, total).Frame? && i < |fields|
    ensures var decoded := Decoded(fields, Build(fields, values, total).bits);
            && fields[i].name in decoded
            && Given(fields[i], values) == Some(decoded[fields[i].name])
  {
    hide Choose, Build, Decoded, BitsOf, Pow2, Given, Disjoint, UniqueNames;
    var bits := Build(fields, values, total).bits;
    EncodedSpells(fields, values, total);
    DecodedField(fields, bits, i);
    ChosenFits(fields[i], values, total);
    ValueOfBitsOf(Choose(fields[i], values, total).v, fields[i].width);
  }

  /** A frame with nothing outside the fields and allowed values in them is what encoding its decoded
      values gives. */
  lemma EncodeDecode(fields: seq<Field>, bits: seq<bool>)
    requires Disjoint(fields) && UniqueNames(fields)
    requires forall i :: 0 <= i < |fields| ==> fields[i].Fits(|bits|)
    requires forall i :: 0 <= i < |fields| && fields[i].valid.Some? ==> InValid(FieldValue(fields[i], bits), fields[i].valid.value)
    requires forall j :: 0 <= j < |bits| && bits[j] ==> InSome(fields, j)
    ensures Build(fields, Decoded(fields, bits), |bits|) == Frame(bits)
  {
    hide Build, Decoded, Disjoint, UniqueNames, FieldValue, InValid, Pow2;
    var values := Decoded(fields, bits);
    forall i | 0 <= i < |fields|
      ensures Choose(fields[i], values, |bits|) == Value(FieldValue(fields[i], bits))
    {
      DecodedField(fields, bits, i);
      FieldValueRange(fields[i], bits);
    }
    FailsAtFirst(fields, values, |bits|);
    EncodedSpells(fields, values, |bits|);
    var built := Build(fields, values, |bits|).bits;
    forall i | 0 <= i < |fields|
      ensures SameSlice(fields[i], built, bits)
    {
      FieldValueRange(fields[i], bits);
    }
    SameSlices(fields, built, bits);
  }

  lemma FieldValueRange(f: Field, bits: seq<bool>)
    requires f.Fits(|bits|)
    ensures FieldValue(f, bits) < Pow2(f.width)
    ensures BitsOf(FieldValue(f, bits), f.width) == Slice(bits, f.offset, f.width)
  {
    BitsOfValueOf(Slice(bits, f.offset, f.width));
  }

  predicate SameSlice(f: Field, a: seq<bool>, b: seq<bool>)
    requires |a| == |b|
  {
    f.Fits(|a|) && Slice(a, f.offset, f.width) == Slice(b, f.offset, f.width)
  }

  lemma SameSlices(fields: seq<Field>, a: seq<bool>, b: seq<bool>)
    requires |a| == |b|
    requires forall i :: 0 <= i < |fields| ==> SameSlice(fields[i], a, b)
    requires forall j :: 0 <= j < |a| && (a[j] || b[j]) ==> InSome(fields, j)
    ensures a == b
  {
    forall j | 0 <= j < |a|
      ensures a[j] == b[j]
    {
      if a[j] || b[j] {
        var i :| 0 <= i < |fields| && Covers(fields[i], j);
        var o := fields[i].offset;
        assert SameSlice(fields[i], a, b);
        assert Slice(a, o, fields[i].width)[j - o] == Slice(b, o, fields[i].width)[j - o];
      }
    }
  }

  // ----- Short frames --------------------------------------------------------------------------

  function Fitting(fields: seq<Field>, total: nat): seq<Field>
    decreases |fields|
  {
    if fields == [] then []
    else
      Fitting(fields[..|fields| - 1], total)
        + if fields[|fields| - 1].Fits(total) then [fields[|fields| - 1]] else []
  }

  /** A truncated frame decodes to what the full one says of the fields that are left. */
  lemma {:induction false} TruncationRestricts(fields: seq<Field>, bits: seq<bool>, n: nat)
    requires n <= |bits|
    ensures Decoded(fields, bits[..n]) == Decoded(Fitting(fields, n), bits)
    decreases |fields|
  {
    hide ValueOf;
    if fields != [] {
      var k := |fields| - 1;
      var f := fields[k];
      TruncationRestricts(fields[..k], bits, n);
      if f.Fits(n) {
        assert Slice(bits[..n], f.offset, f.width) == Slice(bits, f.offset, f.width);
        assert Fitting(fields, n)[..|Fitting(fields, n)| - 1] == Fitting(fields[..k], n);
      } else {
        assert Fitting(fields, n) == Fitting(fields[..k], n);
      }
    }
  }

  /** The same in bytes: reading only the first `n`. */
  lemma ShortFrame(fields: seq<Field>, raw: seq<bv8>, n: nat)
    requires n <= |raw|
    ensures Decoded(fields, BitsIn(raw[..n])) == Decoded(Fitting(fields, 8 * n), BitsIn(raw))
  {
    hide BitsIn, Decoded, Fitting;
    BitsOfPrefix(raw, n);
    TruncationRestricts(fields, BitsIn(raw), 8 * n);
  }

  // ----- The `supplied` flag -------------------------------------------------------------------

  /** The same names and values, whatever their flags. */
  predicate SameButFlags(a: seq<Kv>, b: seq<Kv>) {
    |a| == |b| && forall i :: 0 <= i < |a| ==> a[i].name == b[i].name && a[i].value == b[i].value
  }

  lemma {:induction false} LookupIgnoresFlag(a: seq<Kv>, b: seq<Kv>, name: Name)
    requires SameButFlags(a, b)
    ensures Lookup(a, name) == Lookup(b, name)
    decreases |a|
  {
    if a != [] {
      LookupIgnoresFlag(a[1..], b[1..], name);
    }
  }

  /** An entry counts whether it is flagged as supplied or not. */
  lemma {:induction false} FlagIgnored(table: seq<CField>, a: seq<Kv>, b: seq<Kv>, total: nat)
    requires SameButFlags(a, b)
    ensures CBuild(table, a, total) == CBuild(table, b, total)
    decreases |table|
  {
    hide OrInto, BitsOf, SameButFlags;
    if table != [] {
      var n := |table| - 1;
      FlagIgnored(table[..n], a, b, total);
      LookupIgnoresFlag(a, b, table[n].name);
    }
  }

  /** A decoded list says of every entry that it is supplied, and has one for each field in the frame. */
  lemma {:induction false} DecodedSupplied(table: seq<CField>, bits: seq<bool>)
    ensures forall kv :: kv in CDecoded(table, bits) ==> kv.supplied && exists f :: f in table && f.name == kv.name
    ensures Heeded(CDecoded(table, bits)) == CDecoded(table, bits)
    decreases |table|
  {
    hide ValueOf, Slice;
    if table != [] {
      var n := |table| - 1;
      assert table == table[..n] + [table[n]];
      DecodedSupplied(table[..n], bits);
    }
    AllHeeded(CDecoded(table, bits));
  }

  lemma {:induction false} AllHeeded(kvs: seq<Kv>)
    requires forall kv :: kv in kvs ==> kv.supplied
    ensures Heeded(kvs) == kvs
  {
    if kvs != [] {
      assert kvs[0] in kvs && forall kv :: kv in kvs[1..] ==> kv in kvs;
      AllHeeded(kvs[1..]);
    }
  }

  /** The entries the flag marks as the caller's: what the header says an encoder heeds. */
  function Heeded(kvs: seq<Kv>): (heeded: seq<Kv>)
    ensures forall kv :: kv in heeded <==> kv in kvs && kv.supplied
  {
    if kvs == [] then []
    else if kvs[0].supplied then [kvs[0]] + Heeded(kvs[1..])
    else Heeded(kvs[1..])
  }

  /** The Python mapping of a C list: the first entry of a name counts. */
  function FirstOf(kvs: seq<Kv>): Values {
    if kvs == [] then map[] else FirstOf(kvs[1..])[kvs[0].name := kvs[0].value]
  }

  predicate Words(kvs: seq<Kv>) {
    forall kv :: kv in kvs ==> kv.value < WORD
  }

  lemma {:induction false} FirstOfSame(kvs: seq<Kv>)
    requires Words(kvs)
    ensures SameValues(FirstOf(kvs), kvs)
  {
    if kvs != [] {
      assert forall kv :: kv in kvs[1..] ==> kv in kvs;
      FirstOfSame(kvs[1..]);
      assert kvs[0] in kvs;
      forall i | 0 <= i < |kvs|
        ensures kvs[i].value < WORD
      {
        assert kvs[i] in kvs;
      }
    }
  }

  /** Lists that give every field the same build the same. */
  lemma {:induction false} SameGivenSameBuild(table: seq<CField>, a: seq<Kv>, b: seq<Kv>, total: nat)
    requires forall i :: 0 <= i < |table| ==> CGiven(table[i], a) == CGiven(table[i], b)
    ensures CBuild(table, a, total) == CBuild(table, b, total)
    decreases |table|
  {
    hide OrInto, BitsOf, CGiven, Pow2, MaskAllows;
    if table != [] {
      var n := |table| - 1;
      assert forall i :: 0 <= i < n ==> table[..n][i] == table[i];
      SameGivenSameBuild(table[..n], a, b, total);
    }
  }

  /** On a disjoint table a built frame tells what each field was given. */
  lemma FrameTellsGiven(fields: seq<Field>, table: seq<CField>, kvs: seq<Kv>, total: nat, i: nat)
    requires SameTable(fields, table) && Disjoint(fields) && Words(kvs) && i < |fields|
    requires CBuild(table, kvs, total).Frame?
    ensures fields[i].Fits(total)
    ensures CGiven(table[i], kvs) == Some(FieldValue(fields[i], CBuild(table, kvs, total).bits))
  {
    hide Build, CBuild, Choose, BitsOf, Pow2, Disjoint, SameField, SameValues, MaskAllows, Lookup;
    var values := FirstOf(kvs);
    FirstOfSame(kvs);
    CBuildsTheSame(fields, table, values, kvs, total);
    EncodedSpells(fields, values, total);
    ChosenFits(fields[i], values, total);
    ValueOfBitsOf(Choose(fields[i], values, total).v, fields[i].width);
    SameChoice(fields[i], table[i], values, kvs, total);
  }

  /** What the header promises of the flag, held against the code: a frame is the one built from the flagged
      entries alone exactly if no unflagged entry changes what a field is given. */
  lemma FlagHeededExactly(fields: seq<Field>, table: seq<CField>, kvs: seq<Kv>, total: nat)
    requires SameTable(fields, table) && Disjoint(fields) && Words(kvs)
    requires CBuild(table, kvs, total).Frame?
    ensures CBuild(table, kvs, total) == CBuild(table, Heeded(kvs), total) <==>
              forall i :: 0 <= i < |table| ==> CGiven(table[i], kvs) == CGiven(table[i], Heeded(kvs))
  {
    hide CBuild, SameField, Disjoint, CGiven, FieldValue;
    if CBuild(table, kvs, total) == CBuild(table, Heeded(kvs), total) {
      forall i | 0 <= i < |table|
        ensures CGiven(table[i], kvs) == CGiven(table[i], Heeded(kvs))
      {
        FrameTellsGiven(fields, table, kvs, total, i);
        FrameTellsGiven(fields, table, Heeded(kvs), total, i);
      }
    } else if forall i :: 0 <= i < |table| ==> CGiven(table[i], kvs) == CGiven(table[i], Heeded(kvs)) {
      SameGivenSameBuild(table, kvs, Heeded(kvs), total);
    }
  }

  /** And a refusal is the flagged entries' own exactly if those fail at the same field for the same
      reason, and at none before. */
  lemma FlagHeededRefusal(table: seq<CField>, kvs: seq<Kv>, total: nat)
    requires CBuild(table, kvs, total).Fail?
    ensures var r := CBuild(table, kvs, total);
            && r.at < |table|
            && (r == CBuild(table, Heeded(kvs), total) <==>
                  && CChoose(table[r.at], Heeded(kvs), total) == Bad(r.why)
                  && forall i :: 0 <= i < r.at ==> CChoose(table[i], Heeded(kvs), total).Value?)
  {
    hide CBuild, CChoose, Heeded;
    CFailsAtFirst(table, kvs, total);
    CFailsAtFirst(table, Heeded(kvs), total);
  }

  lemma {:induction false} CFailsAtFirst(table: seq<CField>, kvs: seq<Kv>, total: nat)
    ensures match CBuild(table, kvs, total)
            case Fail(why, at) =>
              && at < |table| && CChoose(table[at], kvs, total) == Bad(why)
              && forall i :: 0 <= i < at ==> CChoose(table[i], kvs, total).Value?
            case Frame(_) => forall i :: 0 <= i < |table| ==> CChoose(table[i], kvs, total).Value?
    decreases |table|
  {
    hide CChoose, OrInto, BitsOf;
    if table != [] {
      CFailsAtFirst(table[..|table| - 1], kvs, total);
    }
  }

  /** An entry that is not flagged displaces the default: the header promises 3, the code sends 5. */
  lemma UnflaggedDisplaces(name: Name, fields: seq<Field>, table: seq<CField>, kvs: seq<Kv>)
    requires fields == [Field(name, 0, 8, Some(3), None)] && table == [CField(name, 0, 8, true, false, 3, 0)]
    requires kvs == [Kv(name, 5, false)]
    ensures SameTable(fields, table) && Disjoint(fields) && Words(kvs)
    ensures CBuild(table, kvs, 8).Frame? && FieldValue(fields[0], CBuild(table, kvs, 8).bits) == 5
    ensures CBuild(table, Heeded(kvs), 8).Frame? && FieldValue(fields[0], CBuild(table, Heeded(kvs), 8).bits) == 3
  {
    hide CBuild, FieldValue;
    assert kvs[1..] == [] && Heeded(kvs) == [];
    assert Pow2(8) == 256;
    CFailsAtFirst(table, kvs, 8);
    CFailsAtFirst(table, Heeded(kvs), 8);
    FrameTellsGiven(fields, table, kvs, 8, 0);
    FrameTellsGiven(fields, table, Heeded(kvs), 8, 0);
  }

  // ----- Fields that are all placed ------------------------------------------------------------

  function AllPlaced(fields: seq<Field>): (entries: seq<Entry>)
    ensures |entries| == |fields| && forall i :: 0 <= i < |fields| ==> entries[i] == Placed(fields[i])
  {
    seq(|fields|, i requires 0 <= i < |fields| => Placed(fields[i]))
  }

  lemma {:induction false} PlacedBack(fields: seq<Field>)
    ensures PlacedOf(AllPlaced(fields)) == fields
    decreases |fields|
  {
    if fields != [] {
      var n := |fields| - 1;
      assert AllPlaced(fields)[..n] == AllPlaced(fields[..n]);
      PlacedBack(fields[..n]);
    }
  }

  // ----- The C list is the Python mapping ------------------------------------------------------

  function AsValues(kvs: seq<Kv>): Values
    decreases |kvs|
  {
    if kvs == [] then map[]
    else AsValues(kvs[..|kvs| - 1])[kvs[|kvs| - 1].name := kvs[|kvs| - 1].value]
  }

  lemma {:induction false} CDecodesTheSame(fields: seq<Field>, table: seq<CField>, bits: seq<bool>)
    requires SameTable(fields, table)
    ensures AsValues(CDecoded(table, bits)) == Decoded(fields, bits)
    decreases |fields|
  {
    hide SameField, ValueOf, Slice;
    if fields != [] {
      var n := |fields| - 1;
      CDecodesTheSame(fields[..n], table[..n], bits);
      SamePlace(fields[n], table[n]);
      var front, all := CDecoded(table[..n], bits), CDecoded(table, bits);
      if fields[n].Fits(|bits|) {
        assert all[..|all| - 1] == front;
      } else {
        assert all == front;
      }
    }
  }
}
