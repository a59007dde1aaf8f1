/** The schema validator: a table is accepted when its (name, dtype) pairs
    include every pair of one of a few reference schemas. */
module Schemas {
  import opened Base
  import opened Frames

  /** OHLC prices as 64-bit floats. */
  const IndicatorSchema: seq<Field> :=
    [("open", Float64), ("high", Float64), ("low", Float64), ("close", Float64)]

  /** OHLC plus a 64-bit float volume. */
  const IndicatorVolumeSchema: seq<Field> := IndicatorSchema + [("volume", Float64)]

  /** OHLC plus a 64-bit integer volume. */
  const IndicatorVolumeSchemaInt: seq<Field> := IndicatorSchema + [("volume", Int64)]

  /** Every pair of `expected` occurs in `schema` (subset of the item sets). */
  predicate Contains(schema: seq<Field>, expected: seq<Field>) {
    forall i :: 0 <= i < |expected| ==> expected[i] in schema
  }

  /** Some reference schema is contained in `schema`. */
  predicate SomeContained(schema: seq<Field>, expected: seq<seq<Field>>) {
    exists k :: 0 <= k < |expected| && Contains(schema, expected[k])
  }

  /** The references tried, in order, for a volume or non-volume indicator. */
  function ExpectedSchemas(includeVolume: bool): (es: seq<seq<Field>>)
    ensures includeVolume ==> es == [IndicatorVolumeSchema, IndicatorVolumeSchemaInt]
    ensures !includeVolume ==> es == [IndicatorSchema]
  {
    if includeVolume then [IndicatorVolumeSchema, IndicatorVolumeSchemaInt] else [IndicatorSchema]
  }

  /** The source's loop: try the references in order and stop at the first
      one contained in the schema. */
  method CheckSchemas(schema: seq<Field>, expected: seq<seq<Field>>) returns (good: bool)
    ensures good <==> SomeContained(schema, expected)
  {
    good := false;
    var k := 0;
    while k < |expected|
      invariant 0 <= k <= |expected|
      invariant !good
      invariant forall m :: 0 <= m < k ==> !Contains(schema, expected[m])
    {
      var sub := true;
      var i := 0;
      while i < |expected[k]|
        invariant 0 <= i <= |expected[k]|
        invariant sub <==> forall m :: 0 <= m < i ==> expected[k][m] in schema
      {
        if expected[k][i] !in schema {
          sub := false;
        }
        i := i + 1;
      }
      if sub {
        good := true;
        return;
      }
      k := k + 1;
    }
  }

  /** The OHLC columns are all present as Float64. */
  predicate HasOhlcFloats(schema: seq<Field>) {
    && ("open", Float64) in schema
    && ("high", Float64) in schema
    && ("low", Float64) in schema
    && ("close", Float64) in schema
  }

  /** `validate_indicator_schema`: Pass (returns None) or raises PolarsSchemaError.
      Volume is not required by default. */
  function ValidateIndicatorSchema(schema: seq<Field>, includeVolume: bool := false): (r: Outcome)
    ensures r == Pass || r == Fail(SchemaError)
    ensures !includeVolume ==> (r == Pass <==> HasOhlcFloats(schema))
    ensures includeVolume ==>
      (r == Pass <==> HasOhlcFloats(schema) && (("volume", Float64) in schema || ("volume", Int64) in schema))
  {
    var expected := ExpectedSchemas(includeVolume);
    assert Contains(schema, IndicatorSchema) <==> HasOhlcFloats(schema) by {
      if HasOhlcFloats(schema) {
        assert forall i :: 0 <= i < 4 ==> IndicatorSchema[i] in schema;
      }
      if Contains(schema, IndicatorSchema) {
        assert IndicatorSchema[0] in schema && IndicatorSchema[1] in schema;
        assert IndicatorSchema[2] in schema && IndicatorSchema[3] in schema;
      }
    }
    assert SomeContained(schema, expected) <==>
      if includeVolume then Contains(schema, IndicatorVolumeSchema) || Contains(schema, IndicatorVolumeSchemaInt)
      else Contains(schema, IndicatorSchema)
    by {
      if includeVolume {
        assert expected[0] == IndicatorVolumeSchema && expected[1] == IndicatorVolumeSchemaInt;
      } else {
        assert expected[0] == IndicatorSchema;
      }
    }
    VolumeSchemaSplit(schema, Float64);
    VolumeSchemaSplit(schema, Int64);
    if SomeContained(schema, expected) then Pass else Fail(SchemaError)
  }

  lemma {:induction false} VolumeSchemaSplit(schema: seq<Field>, d: DType)
    ensures Contains(schema, IndicatorSchema + [("volume", d)])
        <==> Contains(schema, IndicatorSchema) && ("volume", d) in schema
  {
    var v := IndicatorSchema + [("volume", d)];
    if Contains(schema, IndicatorSchema) && ("volume", d) in schema {
      forall i | 0 <= i < |v| ensures v[i] in schema {
        if i < 4 { assert v[i] == IndicatorSchema[i]; }
      }
    }
    if Contains(schema, v) {
      forall i | 0 <= i < 4 ensures IndicatorSchema[i] in schema {
        assert v[i] == IndicatorSchema[i];
      }
      assert v[4] == ("volume", d);
    }
  }

  /** The loop's early exit does not matter: any reordering of the references
      gives the same verdict. */
  lemma {:induction false} CheckOrderIrrelevant(schema: seq<Field>, expected: seq<seq<Field>>, reordered: seq<seq<Field>>)
    requires multiset(expected) == multiset(reordered)
    ensures SomeContained(schema, expected) <==> SomeContained(schema, reordered)
  {
    if SomeContained(schema, expected) {
      var k :| 0 <= k < |expected| && Contains(schema, expected[k]);
      assert expected[k] in multiset(reordered);
      var m :| 0 <= m < |reordered| && reordered[m] == expected[k];
    }
    if SomeContained(schema, reordered) {
      var k :| 0 <= k < |reordered| && Contains(schema, reordered[k]);
      assert reordered[k] in multiset(expected);
      var m :| 0 <= m < |expected| && expected[m] == reordered[k];
    }
  }

  /** Extra columns never cause a rejection: a schema whose pairs include
      those of an accepted one is accepted too. */
  lemma {:induction false} SupersetStaysAccepted(schema: seq<Field>, bigger: seq<Field>, includeVolume: bool)
    requires forall f :: f in schema ==> f in bigger
    requires ValidateIndicatorSchema(schema, includeVolume) == Pass
    ensures ValidateIndicatorSchema(bigger, includeVolume) == Pass
  {
  }

  /** Both volume references extend the OHLC one. */
  lemma {:induction false} VolumeAcceptedImpliesBaseAccepted(schema: seq<Field>)
    requires ValidateIndicatorSchema(schema, true) == Pass
    ensures ValidateIndicatorSchema(schema, false) == Pass
  {
  }

  /** A required OHLC column that is missing, or present with any dtype but
      Float64, is rejected alike: matching is on (name, dtype) pairs. */
  lemma {:induction false} OhlcColumnMismatchRejected(schema: seq<Field>, includeVolume: bool, name: string)
    requires name in ["open", "high", "low", "close"]
    requires forall i :: 0 <= i < |schema| && schema[i].0 == name ==> schema[i].1 != Float64
    ensures ValidateIndicatorSchema(schema, includeVolume) == Fail(SchemaError)
  {
  }

  /** With volume required, a volume column that is missing or of any dtype
      other than Float64 or Int64 is rejected. */
  lemma {:induction false} VolumeMismatchRejected(schema: seq<Field>)
    requires forall i :: 0 <= i < |schema| && schema[i].0 == "volume" ==> schema[i].1 != Float64 && schema[i].1 != Int64
    ensures ValidateIndicatorSchema(schema, true) == Fail(SchemaError)
  {
  }

  /** The schema cases exercised by the repository's schema tests. */
  lemma {:induction false} SchemaTestCases()
    ensures ValidateIndicatorSchema(IndicatorSchema, false) == Pass
    ensures ValidateIndicatorSchema(IndicatorVolumeSchemaInt, true) == Pass
    ensures ValidateIndicatorSchema([("high", Float64), ("low", Float64), ("close", Float64), ("volume", Int64)], false)
            == Fail(SchemaError)
    ensures ValidateIndicatorSchema(IndicatorSchema, true) == Fail(SchemaError)
  {
    assert IndicatorSchema[0] == ("open", Float64);
    assert IndicatorVolumeSchemaInt[4] == ("volume", Int64);
    OhlcColumnMismatchRejected([("high", Float64), ("low", Float64), ("close", Float64), ("volume", Int64)], false, "open");
    VolumeMismatchRejected(IndicatorSchema);
  }
}
