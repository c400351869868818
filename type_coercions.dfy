/**
 * Coercions that turn unsanitized configuration values into the type the
 * rest of the client expects: `toBoolean`, `toObject`, `toString` and
 * `downcastRef`. All of them are total: they accept every value.
 */
module TypeCoercions {
  import opened Wrappers
  import opened JsValues
  import opened JsStrings

  /** `Number(value)`, reduced to NaN, zero or non-zero. */
  function ToNumber(v: JsValue): (r: NumKind)
    ensures v.Undefined? || v.Null? || v.Bool? || v.Num? ==> (r == NonZero <==> Truthy(v))
    ensures v.Undefined? ==> r == NaN
  {
    match v
    case Undefined => NaN
    case Null => Zero
    case Bool(b) => if b then NonZero else Zero
    case Num(k, _) => k
    case Str(s) => StringToNumber(s)
    case Obj(_, _, k) => k
  }

  /** JavaScript truthiness, `Boolean(value)`. */
  predicate Truthy(v: JsValue) {
    match v
    case Undefined => false
    case Null => false
    case Bool(b) => b
    case Num(k, _) => k == NonZero
    case Str(s) => s != ""
    case Obj(_, _, _) => true
  }

  /** A string whose trimmed, lower-cased form is "false". */
  predicate FalseLike(s: string) {
    AsciiLower(Trim(s)) == "false"
  }

  /** `toBoolean` (type-coercions.js, lines 17-30). */
  function ToBoolean(v: JsValue): (r: bool)
    ensures !v.Str? ==> (r <==> ToNumber(v) == NonZero)
    ensures v.Str? ==> (r <==> !FalseLike(v.s) && ToNumber(v) != Zero)
  {
    if v.Str? && FalseLike(v.s) then false
    else if ToNumber(v) != NaN then ToNumber(v) == NonZero
    else v.Str?
  }

  /** The empty object literal `{}`, allocated with identity `id`. */
  function EmptyObject(id: nat): JsValue {
    Obj(id, Some("[object Object]"), NaN)
  }

  /**
   * `toObject` (type-coercions.js, lines 49-55). `freshId` is the identity the
   * engine gives the `{}` it allocates when the value is not an object.
   */
  function ToObject(v: JsValue, freshId: nat): (r: JsValue)
    ensures r.Obj?
  {
    if v.Obj? then v else EmptyObject(freshId)
  }

  /** Whether `typeof value.toString === 'function'` for a value that is truthy. */
  predicate HasToStringMethod(v: JsValue) {
    match v
    case Undefined => false
    case Null => false
    case Obj(_, t, _) => t.Some?
    case _ => true
  }

  /** What `value.toString()` returns, for a value whose `toString` is a function. */
  function CallToString(v: JsValue): string
    requires HasToStringMethod(v)
  {
    match v
    case Bool(b) => if b then "true" else "false"
    case Num(_, text) => text
    case Str(s) => s
    case Obj(_, t, _) => t.value
  }

  /** `toString` (type-coercions.js, lines 64-69). */
  function ToString(v: JsValue): (r: string)
    ensures !Truthy(v) ==> r == ""
    ensures r != "" ==> HasToStringMethod(v)
  {
    if Truthy(v) && HasToStringMethod(v) then CallToString(v) else ""
  }

  /** `downcastRef` (type-coercions.js, lines 89-91): `None` stands for `undefined`. */
  function DowncastRef<R>(ref: Option<R>): (r: Option<R>)
    ensures r == ref
  {
    ref
  }

  // ---- toBoolean ----

  /** The false-like strings are exactly the case variants of "false" once trimmed. */
  lemma FalseLikeSpelling(s: string)
    ensures FalseLike(s) <==>
      |Trim(s)| == 5 && forall i :: 0 <= i < 5 ==> Trim(s)[i] == "false"[i] || Trim(s)[i] == "FALSE"[i]
  {
    SpellsFalse(Trim(s));
  }

  /** A false-like string is not numeric. */
  lemma FalseLikeIsNaN(s: string)
    requires FalseLike(s)
    ensures StringToNumber(s) == NaN
  {
    var t := Trim(s);
    FalseLikeSpelling(s);
    assert t[0] == 'f' || t[0] == 'F';
    assert t != "Infinity" by { assert |t| != |"Infinity"|; }
    NonNumericStartIsNaN(t);
  }

  /** A case variant of "false" with nothing around it is false-like. */
  lemma CaseVariantIsFalseLike(t: string)
    requires |t| == 5 && forall i :: 0 <= i < 5 ==> t[i] == "false"[i] || t[i] == "FALSE"[i]
    ensures FalseLike(t)
  {
    assert t[0] == 'f' || t[0] == 'F';
    assert t[4] == 'e' || t[4] == 'E';
    TrimUnpadded(t);
    SpellsFalse(t);
  }

  /** Leading whitespace does not stop " false" being false-like. */
  lemma PaddedFalseIsFalseLike()
    ensures FalseLike(" false")
  {
    TrimSkipsLeadingWhitespace(" false");
    assert " false"[1..] == "false";
    CaseVariantIsFalseLike("false");
  }

  /** The documented examples: "false", "False", " false" and "FALSE" all coerce to false. */
  lemma DocumentedFalseStrings()
    ensures !ToBoolean(Str("false")) && !ToBoolean(Str("False"))
    ensures !ToBoolean(Str(" false")) && !ToBoolean(Str("FALSE"))
  {
    CaseVariantIsFalseLike("false");
    CaseVariantIsFalseLike("False");
    CaseVariantIsFalseLike("FALSE");
    PaddedFalseIsFalseLike();
  }

  /** Every false-like string coerces to false. */
  lemma FalseLikeToBoolean(s: string)
    requires FalseLike(s)
    ensures !ToBoolean(Str(s))
  {
  }

  /** A value with a numeric conversion coerces to false exactly when that number is zero. */
  lemma NumericToBoolean(v: JsValue)
    requires ToNumber(v) != NaN
    ensures ToBoolean(v) <==> ToNumber(v) == NonZero
  {
    if v.Str? && FalseLike(v.s) {
      FalseLikeIsNaN(v.s);
    }
  }

  /**
   * A value whose numeric conversion is NaN coerces to true exactly when it is
   * a string that is not false-like; a non-string with NaN coerces to false.
   */
  lemma NonNumericToBoolean(v: JsValue)
    requires ToNumber(v) == NaN
    ensures ToBoolean(v) <==> v.Str? && !FalseLike(v.s)
  {
  }

  /** `toBoolean` returns a boolean unchanged. */
  lemma ToBooleanOfBool(b: bool)
    ensures ToBoolean(Bool(b)) == b
  {
  }

  /**
   * On `undefined`, `null`, booleans and numbers `toBoolean` agrees with
   * JavaScript truthiness; strings and objects are where it departs from it.
   */
  lemma ToBooleanOfPrimitive(v: JsValue)
    requires v.Undefined? || v.Null? || v.Bool? || v.Num?
    ensures ToBoolean(v) == Truthy(v)
  {
  }

  /** A string of decimal digits coerces to false exactly when all its digits are `0`. */
  lemma NumeralToBoolean(u: string)
    requires u != [] && AllDigitsIn(u, 10)
    ensures ToBoolean(Str(u)) <==> !AllZeros(u)
  {
    NumeralToNumber(u);
    NumericToBoolean(Str(u));
  }

  /** `toBoolean` departs from truthiness on the string "0" and on the object `{}`. */
  lemma ToBooleanDepartsFromTruthiness()
    ensures Truthy(Str("0")) && !ToBoolean(Str("0"))
    ensures Truthy(EmptyObject(0)) && !ToBoolean(EmptyObject(0))
  {
    NumeralToBoolean("0");
  }

  // ---- toObject ----

  /** `toObject` returns its argument itself exactly when the argument is a non-null object. */
  lemma ToObjectKeepsObjects(v: JsValue, freshId: nat)
    ensures ToObject(v, freshId) == v <==> v.Obj?
  {
  }

  /** `null` and every primitive become a freshly allocated empty object. */
  lemma ToObjectOfNonObject(v: JsValue, freshId: nat)
    requires !v.Obj?
    ensures ToObject(v, freshId) == EmptyObject(freshId)
    ensures ToObject(v, freshId).id == freshId && ToNumber(ToObject(v, freshId)) == NaN
  {
  }

  /** Applying `toObject` twice gives the very object the first application gave. */
  lemma ToObjectIdempotent(v: JsValue, freshId: nat, otherId: nat)
    ensures ToObject(ToObject(v, freshId), otherId) == ToObject(v, freshId)
  {
  }

  // ---- toString ----

  /** Every falsy value (`undefined`, `null`, `false`, `0`, NaN, `''`) becomes `''`. */
  lemma FalsyToString(v: JsValue)
    requires !Truthy(v)
    ensures ToString(v) == ""
  {
  }

  /** A truthy value whose `toString` is a function becomes what that function returns. */
  lemma TruthyToString(v: JsValue)
    requires Truthy(v) && HasToStringMethod(v)
    ensures ToString(v) == CallToString(v)
  {
  }

  /** An object whose `toString` is not a function becomes `''`. */
  lemma ObjectWithoutToString(id: nat, numeric: NumKind)
    ensures ToString(Obj(id, None, numeric)) == ""
  {
  }

  /** A string comes back unchanged, the empty one included. */
  lemma ToStringOfString(s: string)
    ensures ToString(Str(s)) == s
  {
  }

  /** Booleans: `true` gives "true" but `false`, being falsy, gives `''`. */
  lemma ToStringOfBool(b: bool)
    ensures ToString(Bool(b)) == if b then "true" else ""
  {
  }

  /** "true" is not false-like, as its lower-cased form is "true". */
  lemma TrueIsNotFalseLike()
    ensures !FalseLike("true")
  {
    TrimUnpadded("true");
    SpellsFalse("true");
  }

  /** "true" is not a numeric literal. */
  lemma TrueIsNaN()
    ensures StringToNumber("true") == NaN
  {
    assert "true" != "Infinity" by { assert |"true"| != |"Infinity"|; }
    NonNumericStringIsNaN("true");
  }

  /** The string "true" is neither false-like nor numeric, so it coerces to `true`. */
  lemma TrueStringToBoolean()
    ensures ToBoolean(Str("true"))
  {
    TrueIsNotFalseLike();
    TrueIsNaN();
  }

  /** A boolean survives `toString` followed by `toBoolean`. */
  lemma BoolStringRoundTrip(b: bool)
    ensures ToBoolean(Str(ToString(Bool(b)))) == b
  {
    if b {
      assert ToString(Bool(b)) == "true";
      TrueStringToBoolean();
    } else {
      assert ToString(Bool(b)) == "";
      assert StringToNumber("") == Zero;
    }
  }
}
