/** Parcel dimensions (waybill/domain/Dimensions.java): an immutable record of
    three optional lengths in centimetres, either all set and positive or all
    unset, with volume, volumetric weight and an oversize test. */
module Dimensions {
  import opened Wrappers
  import opened Decimal

  datatype Dimensions = Dimensions(length: Option<real>, width: Option<real>, height: Option<real>)

  datatype Side = Length | Width | Height

  /** The constructor's IllegalArgumentException, by cause; the message texts
      print the offending values. */
  datatype DimensionsError =
    | NotPositive(side: Side, value: real)
    | MixedNulls(length: Option<real>, width: Option<real>, height: Option<real>)

  /** ArithmeticException from a division by zero. */
  datatype ArithmeticError = DivisionByZero

  predicate PositiveOrUnset(v: Option<real>) {
    v.None? || v.value > 0.0
  }

  /** The invariant every constructed value satisfies. */
  predicate Valid(d: Dimensions) {
    PositiveOrUnset(d.length) && PositiveOrUnset(d.width) && PositiveOrUnset(d.height)
    && (d.length.None? <==> d.width.None?) && (d.width.None? <==> d.height.None?)
  }

  predicate IsSet(d: Dimensions) {
    d.length.Some?
  }

  /** The compact constructor, and `of`: each side is checked in turn for a
      non-positive value, then the nulls for all-or-none. */
  function Make(length: Option<real>, width: Option<real>, height: Option<real>): Result<Dimensions, DimensionsError>
  {
    if length.Some? && length.value <= 0.0 then Failure(NotPositive(Length, length.value))
    else if width.Some? && width.value <= 0.0 then Failure(NotPositive(Width, width.value))
    else if height.Some? && height.value <= 0.0 then Failure(NotPositive(Height, height.value))
    else
      var hasNull := length.None? || width.None? || height.None?;
      var hasNonNull := length.Some? || width.Some? || height.Some?;
      if hasNull && hasNonNull then Failure(MixedNulls(length, width, height))
      else Success(Dimensions(length, width, height))
  }

  /** Construction succeeds exactly on the values satisfying the invariant,
      and keeps them as given. */
  lemma MakeAcceptsExactlyValid(length: Option<real>, width: Option<real>, height: Option<real>)
    ensures Make(length, width, height).Success? <==> Valid(Dimensions(length, width, height))
    ensures Make(length, width, height).Success? ==> Make(length, width, height).value == Dimensions(length, width, height)
  {
  }

  /** A non-positive side is reported before any null mismatch, the first
      such side in the order length, width, height. */
  lemma MakeReportsFirstBadSide(length: Option<real>, width: Option<real>, height: Option<real>)
    requires !PositiveOrUnset(length) || !PositiveOrUnset(width) || !PositiveOrUnset(height)
    ensures var r := Make(length, width, height);
            r.Failure? && r.error.NotPositive?
            && (r.error.side == Length <==> !PositiveOrUnset(length))
            && (r.error.side == Width <==> PositiveOrUnset(length) && !PositiveOrUnset(width))
  {
  }

  /** All sides unset is a valid value, with no volume and no oversize. */
  lemma UnsetIsValid()
    ensures Make(None, None, None) == Success(Dimensions(None, None, None))
  {
  }

  /** `calculateVolume`: the product of the sides at two decimals, or none
      when unset. */
  function Volume(d: Dimensions): (v: Option<real>)
    requires Valid(d)
    ensures v.None? <==> !IsSet(d)
    ensures v.Some? ==> v.value >= 0.0
  {
    if d.length.None? then None
    else
      var exact := d.length.value * d.width.value * d.height.value;
      CentsIsNearest(exact);
      Some(Round2(exact))
  }

  /** The volume is the product of the sides to the nearest hundredth. */
  lemma VolumeIsRoundedProduct(d: Dimensions)
    requires Valid(d) && IsSet(d)
    ensures var p := d.length.value * d.width.value * d.height.value;
            p - 0.005 <= Volume(d).value <= p + 0.005
  {
    CentsIsNearest(d.length.value * d.width.value * d.height.value);
  }

  /** `calculateVolumetricWeight`: the volume divided by `divisor` at two
      decimals; unset dimensions give none before any division. */
  function VolumetricWeight(d: Dimensions, divisor: int): (r: Result<Option<real>, ArithmeticError>)
    requires Valid(d)
    ensures !IsSet(d) ==> r == Success(None)
    ensures IsSet(d) ==> (r.Failure? <==> divisor == 0)
  {
    match Volume(d)
    case None => Success(None)
    case Some(volume) =>
      if divisor == 0 then Failure(DivisionByZero)
      else Success(Some(Round2(volume / divisor as real)))
  }

  /** A larger positive divisor never gives a larger volumetric weight. */
  lemma VolumetricWeightAntitone(d: Dimensions, d1: int, d2: int)
    requires Valid(d) && IsSet(d) && 0 < d1 <= d2
    ensures VolumetricWeight(d, d2).value.value <= VolumetricWeight(d, d1).value.value
  {
    var v := Volume(d).value;
    var q1, q2 := v / d1 as real, v / d2 as real;
    assert q2 <= q1 by {
      assert q2 * d2 as real == v == q1 * d1 as real;
      assert q1 * d1 as real <= q1 * d2 as real;
    }
    Round2Monotone(q2, q1);
  }

  /** `exceedsMaxDimension`. */
  predicate ExceedsMaxDimension(d: Dimensions, maxDimension: real)
    requires Valid(d)
  {
    if d.length.None? then false
    else d.length.value > maxDimension || d.width.value > maxDimension || d.height.value > maxDimension
  }

  /** Unset dimensions never exceed; set ones exceed exactly when some side is
      strictly longer than the limit, so a side equal to it passes. */
  lemma ExceedsIffSomeSideLonger(d: Dimensions, maxDimension: real)
    requires Valid(d)
    ensures ExceedsMaxDimension(d, maxDimension)
        <==> exists v :: v in [d.length, d.width, d.height] && v.Some? && v.value > maxDimension
  {
    if ExceedsMaxDimension(d, maxDimension) {
      if d.length.value > maxDimension {
        assert d.length in [d.length, d.width, d.height];
      } else if d.width.value > maxDimension {
        assert d.width in [d.length, d.width, d.height];
      } else {
        assert d.height in [d.length, d.width, d.height];
      }
    }
  }

  /** A parcel that is too long for a limit is too long for every smaller
      limit. */
  lemma ExceedsAntitone(d: Dimensions, m1: real, m2: real)
    requires Valid(d) && m1 <= m2 && ExceedsMaxDimension(d, m2)
    ensures ExceedsMaxDimension(d, m1)
  {
  }
}
