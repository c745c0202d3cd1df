/**
 * The small toolbox in src/utils/native.js: the POSIX timestamp, the
 * own-property test and the numeric one-time code generator.
 */
module Native {
  import opened Js
  import opened Text

  /** `Math.floor(ms / 1000)`: the whole seconds of an epoch time in milliseconds. */
  function PosixTimestamp(epochMillis: int): (seconds: int)
    ensures seconds * 1000 <= epochMillis < seconds * 1000 + 1000
  {
    epochMillis / 1000
  }

  /** A JavaScript object: its own properties and the names it inherits. */
  datatype JsObject = JsObject(own: Object, inherited: set<string>)

  /** `name in obj`: own or inherited. */
  predicate HasProperty(obj: JsObject, name: string) {
    name in obj.own || name in obj.inherited
  }

  /** `Object.prototype.hasOwnProperty.call(obj, name)`. */
  function IsObjectPropExists(obj: JsObject, name: string): (r: bool)
    ensures r ==> HasProperty(obj, name)
    ensures name in obj.inherited && name !in obj.own ==> !r
    ensures r <==> name in obj.own
  {
    name in obj.own
  }

  /** The answer depends on the own properties only, never on what is inherited. */
  lemma OwnPropertyIgnoresPrototype(own: Object, inherited1: set<string>, inherited2: set<string>, name: string)
    ensures IsObjectPropExists(JsObject(own, inherited1), name) == IsObjectPropExists(JsObject(own, inherited2), name)
    ensures IsObjectPropExists(JsObject(own, inherited1), name) <==> name in own
  {
  }

  /**
   * Node's `crypto.randomInt(min, max)` throws a RangeError unless
   * `min < max` and `max - min < 2^48`; with `min = 0` and
   * `max = 10^length - 1` that admits lengths 1 to 14.
   */
  const RandomIntRange: nat := 0x1_0000_0000_0000
  const MaxCodeLength: nat := 14

  lemma CodeLengthBounds()
    ensures 0 < Pow10(1) - 1 < RandomIntRange
    ensures Pow10(MaxCodeLength) - 1 < RandomIntRange
    ensures Pow10(MaxCodeLength + 1) - 1 >= RandomIntRange
  {
    assert Pow10(1) == 10;
    assert Pow10(2) == 100;
    assert Pow10(3) == 1000;
    assert Pow10(4) == 10000;
    assert Pow10(5) == 100000;
    assert Pow10(6) == 1000000;
    assert Pow10(7) == 10000000;
    assert Pow10(8) == 100000000;
    assert Pow10(9) == 1000000000;
    assert Pow10(10) == 10000000000;
    assert Pow10(11) == 100000000000;
    assert Pow10(12) == 1000000000000;
    assert Pow10(13) == 10000000000000;
    assert Pow10(14) == 100000000000000;
    assert Pow10(15) == 1000000000000000;
  }

  /** True when `randomInt(0, 10^length - 1)` accepts its arguments. */
  predicate CodeLengthAccepted(length: int) {
    1 <= length <= MaxCodeLength
  }

  /**
   * `generateRandomCode(length)`: `randomInt(0, 10^length - 1)` rendered in
   * decimal and left-padded with zeros to `length`. The draw is the value
   * `randomInt` returned; `None` is the RangeError it throws.
   */
  function GenerateRandomCode(length: int, draw: int): (r: Option<string>)
    requires CodeLengthAccepted(length) ==> 0 <= draw < Pow10(length) - 1
    ensures r.Some? <==> CodeLengthAccepted(length)
    ensures r.Some? ==> |r.value| == length && AllDigits(r.value)
    ensures r.Some? ==> ValueOf(r.value) == draw
  {
    if !CodeLengthAccepted(length) then None
    else
      var digits := Decimal(draw);
      DecimalLength(draw, length);
      var code := PadStartZeros(digits, length);
      ValueOfDecimal(draw);
      ValueOfLeadingZeros(length - |digits|, digits);
      Some(code)
  }

  /** The all-nines code is never produced: `randomInt` excludes its upper bound. */
  lemma AllNinesNeverDrawn(length: int, draw: int)
    requires CodeLengthAccepted(length) && 0 <= draw < Pow10(length) - 1
    ensures GenerateRandomCode(length, draw) != Some(Nines(length))
  {
    ValueOfNines(length);
  }

  /** Distinct draws give distinct codes, so the code space has exactly 10^length - 1 members. */
  lemma CodeInjective(length: int, draw1: int, draw2: int)
    requires CodeLengthAccepted(length)
    requires 0 <= draw1 < Pow10(length) - 1 && 0 <= draw2 < Pow10(length) - 1
    requires GenerateRandomCode(length, draw1) == GenerateRandomCode(length, draw2)
    ensures draw1 == draw2
  {
  }
}
