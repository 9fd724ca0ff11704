/**
 * PHP values as the traversal engine sees them, and the two `isset`-style
 * lookups it performs on them: by offset (arrays and `ArrayAccess` objects)
 * and by property (any other object).
 */
module Values {

  datatype Option<T> = None | Some(value: T)

  /**
   * A PHP value.  Arrays come in two shapes: `VList` is an array whose keys
   * are exactly 0, 1, ..., n-1 in order (what `$carry[] = ...` builds), `VMap`
   * is any other array, keyed by the string form of its keys.  `VAccess` is an
   * object that implements `ArrayAccess`: its offsets are what
   * `offsetExists`/`offsetGet` see and `props` are its public properties.
   * `VObj` is any other object, with its public properties.
   */
  datatype Value =
    | VNull
    | VBool(b: bool)
    | VInt(i: int)
    | VStr(s: string)
    | VList(items: seq<Value>)
    | VMap(entries: map<string, Value>)
    | VAccess(offsets: map<string, Value>, props: map<string, Value>)
    | VObj(props: map<string, Value>)

  /** An array key or path segment: PHP keys are ints or strings. */
  datatype Key = KInt(n: int) | KStr(s: string)

  predicate IsDigit(c: char) {
    '0' <= c <= '9'
  }

  predicate AllDigits(s: string) {
    forall i :: 0 <= i < |s| ==> IsDigit(s[i])
  }

  function DigitChar(d: nat): (c: char)
    requires d < 10
    ensures IsDigit(c)
  {
    (('0' as int) + d) as char
  }

  function DigitValue(c: char): (d: nat)
    requires IsDigit(c)
    ensures d < 10 && DigitChar(d) == c
  {
    (c as int) - ('0' as int)
  }

  /** Decimal form of a natural number, as PHP's `(string)` cast writes it. */
  function NatToString(n: nat): (r: string)
    ensures |r| >= 1 && AllDigits(r)
    ensures r[0] == '0' ==> n == 0
  {
    if n < 10 then [DigitChar(n)] else NatToString(n / 10) + [DigitChar(n % 10)]
  }

  /**
   * PHP's `(string)` cast of an int: a numeric string that, without its sign,
   * names the int's magnitude again.
   */
  function IntToString(n: int): (r: string)
    ensures IsNumeric(r)
    ensures n >= 0 ==> ParseIndex(r) == Some(n)
    ensures n < 0 ==> |r| >= 2 && r[0] == '-' && ParseIndex(r[1..]) == Some(-n)
  {
    if n < 0 then
      var digits := NatToString(-n);
      ParseIndexOfNatToString(-n);
      DigitsAreNumeric(digits);
      assert ("-" + digits)[1..] == digits;
      "-" + digits
    else
      ParseIndexOfNatToString(n);
      DigitsAreNumeric(NatToString(n));
      NatToString(n)
  }

  /** The string a key stands for once PHP uses it as an array key or property name. */
  function KeyName(k: Key): string {
    match k
    case KInt(n) => IntToString(n)
    case KStr(s) => s
  }

  /** A string PHP normalises to a non-negative int key: digits, no leading zero. */
  predicate IsCanonicalIndex(s: string) {
    |s| >= 1 && AllDigits(s) && (s[0] == '0' ==> |s| == 1)
  }

  function DigitsValue(s: string): nat
    requires AllDigits(s)
  {
    if s == [] then 0 else DigitsValue(s[..|s| - 1]) * 10 + DigitValue(s[|s| - 1])
  }

  /** The list position a key name denotes, if any. */
  function ParseIndex(s: string): Option<nat> {
    if IsCanonicalIndex(s) then Some(DigitsValue(s)) else None
  }

  lemma {:induction false} DigitsValueOfNatToString(n: nat)
    ensures DigitsValue(NatToString(n)) == n
  {
    if n >= 10 {
      var p := NatToString(n / 10);
      DigitsValueOfNatToString(n / 10);
      assert (p + [DigitChar(n % 10)])[..|p|] == p;
    }
  }

  /** Every list position is found again under its decimal name. */
  lemma ParseIndexOfNatToString(n: nat)
    ensures ParseIndex(NatToString(n)) == Some(n)
  {
    DigitsValueOfNatToString(n);
  }

  lemma {:induction false} DigitsValuePositive(s: string)
    requires AllDigits(s) && |s| >= 1 && s[0] != '0'
    ensures DigitsValue(s) >= 1
  {
    if |s| > 1 {
      DigitsValuePositive(s[..|s| - 1]);
    }
  }

  /** Conversely, a name that denotes a position is exactly that position's decimal name. */
  lemma {:induction false} NatToStringOfParseIndex(s: string)
    requires ParseIndex(s).Some?
    ensures NatToString(ParseIndex(s).value) == s
  {
    var n := DigitsValue(s);
    if |s| > 1 {
      var p := s[..|s| - 1];
      assert IsCanonicalIndex(p);
      DigitsValuePositive(p);
      NatToStringOfParseIndex(p);
      var c := s[|s| - 1];
      assert n == DigitsValue(p) * 10 + DigitValue(c);
      assert n / 10 == DigitsValue(p) && n % 10 == DigitValue(c);
      assert s == p + [c];
    } else {
      assert s[..0] == [] && DigitsValue(s[..0]) == 0;
      assert n == DigitValue(s[0]);
      assert s == [s[0]];
    }
  }

  /** Digits with at most one decimal point and at least one digit. */
  predicate DecimalShape(t: string, seenDot: bool, seenDigit: bool): (b: bool)
    ensures b ==> seenDigit || exists i :: 0 <= i < |t| && IsDigit(t[i])
    ensures b ==> forall i :: 0 <= i < |t| ==> IsDigit(t[i]) || t[i] == '.'
    decreases |t|
  {
    if t == [] then seenDigit
    else if IsDigit(t[0]) then DecimalShape(t[1..], seenDot, true)
    else if t[0] == '.' && !seenDot then
      var b := DecimalShape(t[1..], true, seenDigit);
      assert b && !seenDigit ==> exists i :: 0 <= i < |t| && IsDigit(t[i]) by {
        if b && !seenDigit {
          var j :| 0 <= j < |t[1..]| && IsDigit(t[1..][j]);
          assert IsDigit(t[j + 1]);
        }
      }
      b
    else false
  }

  /**
   * `is_numeric($s)` for a string: an optional sign, then a decimal number.
   * A numeric string holds a digit and nothing but digits, points and a
   * leading sign.
   */
  predicate IsNumeric(s: string): (b: bool)
    ensures b ==> exists i :: 0 <= i < |s| && IsDigit(s[i])
    ensures b ==> forall i :: 0 <= i < |s| ==> IsDigit(s[i]) || s[i] == '.' || (i == 0 && (s[i] == '+' || s[i] == '-'))
  {
    if |s| > 0 && (s[0] == '+' || s[0] == '-') then
      var b := DecimalShape(s[1..], false, false);
      assert b ==> exists i :: 0 <= i < |s| && IsDigit(s[i]) by {
        if b {
          var j :| 0 <= j < |s[1..]| && IsDigit(s[1..][j]);
          assert IsDigit(s[j + 1]);
        }
      }
      assert b ==> forall i :: 1 <= i < |s| ==> IsDigit(s[i]) || s[i] == '.' by {
        if b {
          forall i | 1 <= i < |s| ensures IsDigit(s[i]) || s[i] == '.' {
            assert s[i] == s[1..][i - 1];
          }
        }
      }
      b
    else DecimalShape(s, false, false)
  }

  /** Every non-empty string of digits is numeric, leading zeros included. */
  lemma DigitsAreNumeric(s: string)
    requires |s| >= 1 && AllDigits(s)
    ensures IsNumeric(s)
  {
    DigitsStayDecimal(s[1..], false);
  }

  /** `is_numeric($key)` for an array key: every int key is numeric, and so is every key of digits. */
  predicate IsNumericKey(k: Key): (b: bool)
    ensures k.KInt? ==> b
    ensures k.KStr? && |k.s| >= 1 && AllDigits(k.s) ==> b
  {
    match k
    case KInt(_) => true
    case KStr(s) =>
      if |s| >= 1 && AllDigits(s) then DigitsAreNumeric(s); IsNumeric(s)
      else IsNumeric(s)
  }

  lemma {:induction false} DigitsStayDecimal(t: string, seenDot: bool)
    requires AllDigits(t)
    ensures DecimalShape(t, seenDot, true)
    decreases |t|
  {
    if |t| > 0 {
      DigitsStayDecimal(t[1..], seenDot);
    }
  }

  /** The decimal name of a list position is numeric, like the int key it stands for. */
  lemma PositionNameIsNumeric(n: nat)
    ensures IsNumeric(NatToString(n))
  {
    DigitsAreNumeric(NatToString(n));
  }

  /** `is_array($v) || $v instanceof \ArrayAccess` */
  predicate IsKeyed(v: Value) {
    v.VList? || v.VMap? || v.VAccess?
  }

  /** `is_object($v)` */
  predicate IsObject(v: Value) {
    v.VAccess? || v.VObj?
  }

  /** The value stored at an offset of an array or `ArrayAccess` object, null included. */
  function Offset(v: Value, name: string): Option<Value>
    requires IsKeyed(v)
  {
    match v
    case VList(xs) =>
      (match ParseIndex(name)
       case Some(i) => if i < |xs| then Some(xs[i]) else None
       case None => None)
    case VMap(m) => if name in m then Some(m[name]) else None
    case VAccess(m, _) => if name in m then Some(m[name]) else None
  }

  /**
   * `isset($v[$name])`: the offset exists and does not hold null.  For a list
   * that is a position, named in decimal, whose element is not null.
   */
  predicate HasOffset(v: Value, name: string): (b: bool)
    requires IsKeyed(v)
    ensures v.VList? ==>
              (b <==> ParseIndex(name).Some? && ParseIndex(name).value < |v.items| && v.items[ParseIndex(name).value] != VNull)
    ensures v.VMap? ==> (b <==> name in v.entries && v.entries[name] != VNull)
    ensures v.VAccess? ==> (b <==> name in v.offsets && v.offsets[name] != VNull)
  {
    Offset(v, name).Some? && Offset(v, name).value != VNull
  }

  /** `$v[$name]`, read once `HasOffset` holds. */
  function OffsetGet(v: Value, name: string): Value
    requires IsKeyed(v) && HasOffset(v, name)
  {
    Offset(v, name).value
  }

  /** The public property of an object, null included. */
  function Property(v: Value, name: string): Option<Value>
    requires IsObject(v)
  {
    if name in v.props then Some(v.props[name]) else None
  }

  /** `isset($v->{$name})`: the property exists and does not hold null. */
  predicate HasProperty(v: Value, name: string): (b: bool)
    requires IsObject(v)
    ensures b <==> name in v.props && v.props[name] != VNull
  {
    Property(v, name).Some? && Property(v, name).value != VNull
  }

  /** `$v->{$name}`, read once `HasProperty` holds. */
  function PropertyGet(v: Value, name: string): Value
    requires IsObject(v) && HasProperty(v, name)
  {
    Property(v, name).value
  }

  /**
   * One lookup step: offsets first, then properties, else nothing is found.
   * `None` covers "unset", "set to null" and "not a container" alike.
   */
  function Lookup(v: Value, k: Key): (r: Option<Value>)
    ensures r.Some? ==> r.value != VNull
    ensures r.Some? ==> IsKeyed(v) || IsObject(v)
  {
    var name := KeyName(k);
    if IsKeyed(v) then
      (if HasOffset(v, name) then Some(OffsetGet(v, name)) else None)
    else if IsObject(v) then
      (if HasProperty(v, name) then Some(PropertyGet(v, name)) else None)
    else None
  }

  /** The i-th element of a list is found under the decimal name of i, and only there. */
  lemma ListLookup(xs: seq<Value>, i: nat)
    requires i < |xs|
    ensures Lookup(VList(xs), KInt(i)) == (if xs[i] == VNull then None else Some(xs[i]))
    ensures Lookup(VList(xs), KStr(NatToString(i))) == Lookup(VList(xs), KInt(i))
  {
    ParseIndexOfNatToString(i);
  }

  /**
   * An `ArrayAccess` object is always read by offset: its properties never
   * matter, and it behaves exactly like an array with the same entries.
   */
  lemma ArrayAccessReadsOffsets(offsets: map<string, Value>, props: map<string, Value>, k: Key)
    ensures Lookup(VAccess(offsets, props), k) == Lookup(VMap(offsets), k)
    ensures Lookup(VAccess(offsets, props), k) == Lookup(VAccess(offsets, map[]), k)
  {
  }
}
