/**
 The part of PHP's value model the gateway relies on: strings are octet strings,
 configuration and form values are arrays keyed by strings whose entries may be
 null, reading a missing key gives null, and empty() treats null, '' and '0' as
 empty. Exceptions are modelled as a result that either returns or throws.
 */
module Php {
  import opened Basics

  /** True when every character stands for one octet, as in a PHP string. */
  predicate IsByteString(s: string)
  {
    forall i | 0 <= i < |s| :: s[i] as int < 256
  }

  /** A PHP string: a sequence of octets, one character per octet. */
  type PhpString = s: string | IsByteString(s)

  /** A scalar array entry: null or a string. */
  datatype Value = Null | Str(s: PhpString)

  /** A PHP array with string keys, such as a plugin configuration or submitted form values. */
  type Array = map<string, Value>

  /** `$array[$key]`: the entry, or null when the key is missing. */
  function Lookup(a: Array, key: string): Value
  {
    if key in a then a[key] else Null
  }

  /** PHP's string conversion of an entry, as the `.` operator applies it: null becomes ''. */
  function ToString(v: Value): PhpString
  {
    match v
    case Null => ""
    case Str(s) => s
  }

  /**
   PHP's empty(): true for null, '' and '0'; every other string is non-empty. On
   strings and null it agrees with the falsiness of the entry's string conversion.
   */
  predicate IsEmpty(v: Value)
    ensures IsEmpty(v) <==> ToString(v) == "" || ToString(v) == "0"
    ensures v.Str? && |v.s| >= 2 ==> !IsEmpty(v)
  {
    v == Null || v == Str("") || v == Str("0")
  }

  /** The `.` operator on two PHP strings. */
  function Concat(a: PhpString, b: PhpString): PhpString
  {
    a + b
  }

  /** The octets of a PHP string, in order. */
  function Octets(s: PhpString): (b: seq<uint8>)
    ensures |b| == |s|
    ensures forall i | 0 <= i < |s| :: b[i] == s[i] as int
  {
    seq(|s|, i requires 0 <= i < |s| => s[i] as int)
  }

  /** Octets distributes over concatenation. */
  lemma OctetsConcat(a: PhpString, b: PhpString)
    ensures Octets(Concat(a, b)) == Octets(a) + Octets(b)
  {
  }

  /** Octets loses nothing: different PHP strings have different octets. */
  lemma OctetsInjective(a: PhpString, b: PhpString)
    requires Octets(a) == Octets(b)
    ensures a == b
  {
    assert |a| == |b|;
    forall i | 0 <= i < |a|
      ensures a[i] == b[i]
    {
      assert a[i] as int == Octets(a)[i] == Octets(b)[i] == b[i] as int;
    }
  }

  /** A PHP function that returns a value or throws an exception with a message. */
  datatype Result<+T> = Returned(value: T) | Thrown(message: string)
}
