/**
 * The string conversions of hestia's scalar serialization fields: each field
 * holds a typed value, renders it as text and replaces it with the value
 * read from text.
 *
 * TypedScalarField::update_value is not part of this model; it is taken to
 * store the new value. A conversion that throws leaves the value as it was.
 */
module ScalarField {
  import opened Wrappers
  import opened Decimal

  /** unsigned long on a 64-bit Linux target. */
  newtype U64 = x: int | 0 <= x < 0x1_0000_0000_0000_0000

  /** std::time_t: a signed 64-bit count of seconds. */
  newtype I64 = x: int | -0x8000_0000_0000_0000 <= x < 0x8000_0000_0000_0000

  const U64Max: nat := 0xFFFF_FFFF_FFFF_FFFF

  // ---------------------------------------------------------------------
  // Text forms
  // ---------------------------------------------------------------------

  /** BooleanField::value_as_string. */
  function BoolText(b: bool): string
  {
    if b then "true" else "false"
  }

  /** BooleanField::value_from_string: true exactly for the text "true". */
  function BoolFromText(s: string): bool
  {
    s == "true"
  }

  /** The two renderings are distinct, and reading a rendering gives the value back. */
  lemma BoolRoundTrip(b: bool)
    ensures BoolFromText(BoolText(b)) == b
    ensures BoolText(true) != BoolText(false)
  {
    assert "false"[0] != "true"[0];
  }

  /** UIntegerField::value_as_string: std::to_string of an unsigned long. */
  function UIntText(v: U64): string
  {
    NatToString(v as nat)
  }

  /** UIntegerField::value_from_string: std::stoul. */
  function UIntFromText(s: string): Result<U64, ParseError>
  {
    match ParseUnsigned(s, U64Max)
    case Success(v) => Success(v as U64)
    case Failure(e) => Failure(e)
  }

  /** Every unsigned long is read back from its text. */
  lemma UIntRoundTrip(v: U64)
    ensures UIntFromText(UIntText(v)) == Success(v)
  {
    ParseNatToString(v as nat, U64Max);
  }

  /** The text of an unsigned long is its decimal digits without leading zeros, so distinct values have distinct texts. */
  lemma UIntTextInjective(v: U64, w: U64)
    requires UIntText(v) == UIntText(w)
    ensures v == w
  {
    NatToStringInjective(v as nat, w as nat);
  }

  /** DateTimeField::value_as_string: std::to_string of a time_t, with a '-' for times before the epoch. */
  function TimeText(t: I64): string
  {
    if t < 0 then "-" + NatToString(-(t as int)) else NatToString(t as nat)
  }

  /** unsigned long long to time_t: the value modulo 2^64, read as signed. */
  function ToI64(v: nat): I64
    requires v <= U64Max
  {
    if v < 0x8000_0000_0000_0000 then v as I64 else (v - 0x1_0000_0000_0000_0000) as I64
  }

  /** DateTimeField::value_from_string: std::stoull, then the conversion to time_t. */
  function TimeFromText(s: string): Result<I64, ParseError>
  {
    match ParseUnsigned(s, U64Max)
    case Success(v) => Success(ToI64(v))
    case Failure(e) => Failure(e)
  }

  /**
   * Every time is read back from its text: a non-negative time directly,
   * a negative one because stoull negates modulo 2^64 and the conversion
   * to time_t undoes that.
   */
  lemma TimeRoundTrip(t: I64)
    ensures TimeFromText(TimeText(t)) == Success(t)
  {
    if t < 0 {
      ParseNegated(-(t as int), U64Max);
    } else {
      ParseNatToString(t as nat, U64Max);
    }
  }

  // ---------------------------------------------------------------------
  // The fields
  // ---------------------------------------------------------------------

  class StringField {
    const name: string
    var value: string

    constructor (name: string, defaultValue: string)
      ensures this.name == name && value == defaultValue
    {
      this.name := name;
      value := defaultValue;
    }

    function ValueAsString(): string
      reads this
    {
      value
    }

    /** Stores the text as it is, so ValueAsString gives it back. */
    method ValueFromString(s: string)
      modifies this
      ensures value == s
      ensures ValueAsString() == s
    {
      value := s;
    }
  }

  class BooleanField {
    const name: string
    var value: bool

    constructor (name: string, defaultValue: bool)
      ensures this.name == name && value == defaultValue
    {
      this.name := name;
      value := defaultValue;
    }

    function ValueAsString(): string
      reads this
    {
      BoolText(value)
    }

    method ValueFromString(s: string)
      modifies this
      ensures value <==> s == "true"
    {
      value := BoolFromText(s);
    }
  }

  class UIntegerField {
    const name: string
    var value: U64

    constructor (name: string, defaultValue: U64)
      ensures this.name == name && value == defaultValue
    {
      this.name := name;
      value := defaultValue;
    }

    function ValueAsString(): string
      reads this
    {
      UIntText(value)
    }

    /** Stores what stoul reads; when it throws, reports why and keeps the old value. */
    method ValueFromString(s: string) returns (r: Result<(), ParseError>)
      modifies this
      ensures UIntFromText(s).Success? ==> r.Success? && value == UIntFromText(s).value
      ensures UIntFromText(s).Failure? ==> r == Failure(UIntFromText(s).error) && value == old(value)
    {
      var parsed := UIntFromText(s);
      if parsed.Failure? {
        return Failure(parsed.error);
      }
      value := parsed.value;
      return Success(());
    }
  }

  class DateTimeField {
    const name: string
    var value: I64

    constructor (name: string, defaultValue: I64)
      ensures this.name == name && value == defaultValue
    {
      this.name := name;
      value := defaultValue;
    }

    function ValueAsString(): string
      reads this
    {
      TimeText(value)
    }

    method ValueFromString(s: string) returns (r: Result<(), ParseError>)
      modifies this
      ensures TimeFromText(s).Success? ==> r.Success? && value == TimeFromText(s).value
      ensures TimeFromText(s).Failure? ==> r == Failure(TimeFromText(s).error) && value == old(value)
    {
      var parsed := TimeFromText(s);
      if parsed.Failure? {
        return Failure(parsed.error);
      }
      value := parsed.value;
      return Success(());
    }
  }
}
