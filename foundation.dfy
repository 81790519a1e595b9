/**
 * The untyped object tree that Foundation's JSONSerialization produces when
 * it parses JSON text and accepts when it writes JSON text: NSString,
 * NSNumber, NSArray, NSDictionary with string keys, NSNull, and anything else
 * a caller might hand over as `Any`.
 *
 * An NSNumber reports the C type it boxes through `objCType`, a one-character
 * Objective-C type encoding. The decoder decides what a number is purely by
 * comparing that character with the encodings of three reference numbers, so
 * the model keeps the character and the boxed value, and no runtime
 * introspection.
 */
module Foundation {
  import opened Scalars

  /** Objective-C encodings of the C integer types: char, short, int, long, long long and their unsigned forms. */
  type IntegerTypeCode = c: char | c in "cCsSiIlLqQ" witness 'q'

  /** Objective-C encodings of the C floating-point types: float, double. */
  type FloatTypeCode = c: char | c in "fd" witness 'd'

  /** The value an NSNumber boxes, with the encoding of its C type. */
  datatype Number =
    | Integral(integerType: IntegerTypeCode, integer: int)
    | Floating(floatType: FloatTypeCode, double: Double)
  {
    /** `NSNumber.objCType`. */
    function ObjCType(): char {
      if Integral? then integerType else floatType
    }

    /** `NSNumber.boolValue`: any non-zero value reads as true. */
    function BoolValue(): bool {
      if Integral? then integer != 0 else !IsZero(double)
    }

    /**
     * `NSNumber.intValue` for a boxed integer: reduced to 64 bits. (Reading a
     * boxed floating-point value as an integer truncates it; the decoder never
     * does that, so the model leaves it undefined.)
     */
    function IntValue(): Int64
      requires Integral?
    {
      Wrap64(integer)
    }

    /**
     * `NSNumber.doubleValue` for a boxed floating-point value. (Converting a
     * boxed integer to a double rounds it; the decoder never does that.)
     */
    function DoubleValue(): Double
      requires Floating?
    {
      double
    }
  }

  /** `NSNumber(booleanLiteral: true).objCType`: a BOOL is boxed as a C char. */
  const BoolReferenceType: char := 'c'
  /** `NSNumber(value: 3).objCType`: Swift `Int` is boxed as a C long long. */
  const IntReferenceType: char := 'q'
  /** `NSNumber(value: 3.14).objCType`: Swift `Double` is boxed as a C double. */
  const DoubleReferenceType: char := 'd'

  /** The dynamic tree behind Swift's `Any`. */
  datatype Object =
    | NSString(text: string)
    | NSNumber(number: Number)
    | NSArray(items: seq<Object>)
    | NSDictionary(entries: map<string, Object>)
    | NSNull
      /** Any other object: a dictionary with non-string keys, a date, a custom class ... */
    | Unrecognised
}
