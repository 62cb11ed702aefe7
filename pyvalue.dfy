/** The small part of Python's value model that genPOI relies on: the
    NBT/JSON-shaped values a POI, a filter result and a player file hold,
    their truthiness, subscripting, int() and equality with an int, and the
    exceptions those operations raise. */
module PyValue {

  datatype Option<+T> = None | Some(value: T)

  datatype Result<+T, +E> = Ok(value: T) | Err(error: E) {
    predicate IsFailure() { Err? }

    function PropagateFailure<U>(): Result<U, E>
      requires Err?
    {
      Err(error)
    }

    function Extract(): T
      requires Ok?
    {
      value
    }
  }

  /** The exceptions the modelled code can raise (and, mostly, does not catch). */
  datatype Error =
    | KeyError      // missing dict key
    | IndexError    // sequence index out of range
    | TypeError     // operation not supported by the value's type
    | ValueError    // wrong tuple arity on unpacking, bad int() argument
    | NetworkError  // urllib2 failure other than a ValueError
    | CorruptChunk  // nbt.CorruptChunkError where nothing catches it

  /** A Python value as found in NBT data, JSON and filter results.
      Dict keys are strings; `Float` carries the exact real value. */
  datatype Value =
    | NoneV
    | Bool(b: bool)
    | Int(i: int)
    | Float(f: real)
    | Str(s: string)
    | Tuple(items: seq<Value>)
    | List(items: seq<Value>)
    | Dict(entries: map<string, Value>)

  /** A POI (tile entity, entity, player record or manual POI) is a dict. */
  type Poi = map<string, Value>

  /** Python's truth value: empty containers, "", 0, 0.0, False and None are false. */
  predicate Truthy(v: Value): (b: bool)
    ensures !b <==> v in {NoneV, Bool(false), Int(0), Float(0.0), Str(""), Tuple([]), List([]), Dict(map[])}
  {
    match v
    case NoneV => false
    case Bool(b) => b
    case Int(i) => i != 0
    case Float(f) => f != 0.0
    case Str(s) => s != ""
    case Tuple(items) => items != []
    case List(items) => items != []
    case Dict(m) => m != map[]
  }

  /** `v[key]` for a string key. */
  function Lookup(v: Value, key: string): (r: Result<Value, Error>)
    ensures r.Ok? <==> v.Dict? && key in v.entries
    ensures r.Ok? ==> r.value == v.entries[key]
    ensures r.Err? && v.Dict? ==> r.error == KeyError
    ensures r.Err? && !v.Dict? ==> r.error == TypeError
  {
    match v
    case Dict(m) => if key in m then Ok(m[key]) else Err(KeyError)
    case _ => Err(TypeError)
  }

  /** `v[i]` for a non-negative int index. A dict has only string keys, so an
      int subscript on it is a missing key. */
  function Index(v: Value, i: nat): (r: Result<Value, Error>)
    ensures r.Ok? <==> ((v.List? || v.Tuple?) && i < |v.items|) || (v.Str? && i < |v.s|)
    ensures r.Ok? && (v.List? || v.Tuple?) ==> r.value == v.items[i]
    ensures r.Ok? && v.Str? ==> r.value == Str([v.s[i]])
  {
    match v
    case List(items) => if i < |items| then Ok(items[i]) else Err(IndexError)
    case Tuple(items) => if i < |items| then Ok(items[i]) else Err(IndexError)
    case Str(s) => if i < |s| then Ok(Str([s[i]])) else Err(IndexError)
    case Dict(_) => Err(KeyError)
    case _ => Err(TypeError)
  }

  /** `t in s` for strings: is `t` a substring of `s`? */
  predicate HasSubstring(s: string, t: string)
    decreases |s|
  {
    if |t| > |s| then false
    else t == s[..|t|] || (s != [] && HasSubstring(s[1..], t))
  }

  lemma {:induction false} HasSubstringAt(s: string, t: string, k: nat)
    requires k + |t| <= |s| && s[k..k + |t|] == t
    ensures HasSubstring(s, t)
    decreases k
  {
    if k > 0 {
      assert s[1..][k - 1..k - 1 + |t|] == s[k..k + |t|];
      HasSubstringAt(s[1..], t, k - 1);
    } else {
      assert s[..|t|] == s[0..|t|];
    }
  }

  /** Truncation toward zero of a real, as Python's int() does for floats
      (Dafny's `Floor` rounds toward minus infinity). */
  function Truncate(f: real): (r: int)
    ensures f >= 0.0 ==> r as real <= f < r as real + 1.0
    ensures f < 0.0 ==> r as real - 1.0 < f <= r as real
  {
    if f >= 0.0 then f.Floor else -((-f).Floor)
  }

  /** Python's `int(v)`: ints are kept, floats truncated, booleans give 0
      or 1 and strings are parsed in base 10; anything else is a TypeError. */
  function ToInt(v: Value): (r: Result<int, Error>)
    ensures v.Int? ==> r == Ok(v.i)
    ensures v.Float? ==> r == Ok(Truncate(v.f))
    ensures v.Str? ==> r == ParseInt(v.s)
    ensures r.Ok? <==> v.Int? || v.Float? || v.Bool? || (v.Str? && ParseInt(v.s).Ok?)
    ensures r.Err? ==> r.error == (if v.Str? then ValueError else TypeError)
  {
    match v
    case Int(i) => Ok(i)
    case Float(f) => Ok(Truncate(f))
    case Bool(b) => Ok(if b then 1 else 0)
    case Str(s) => ParseInt(s)
    case _ => Err(TypeError)
  }

  predicate IsDigit(c: char)
  {
    '0' <= c <= '9'
  }

  predicate AllDigits(s: string)
  {
    forall i :: 0 <= i < |s| ==> IsDigit(s[i])
  }

  /** The value of a string of ASCII digits. */
  function DigitsValue(s: string): (n: nat)
    requires AllDigits(s)
  {
    if s == [] then 0 else DigitsValue(s[..|s| - 1]) * 10 + (s[|s| - 1] - '0') as nat
  }

  /** A digit string has value 0 exactly when all its digits are '0'. */
  lemma {:induction false} DigitsValueZero(s: string)
    requires AllDigits(s)
    ensures DigitsValue(s) == 0 <==> forall i :: 0 <= i < |s| ==> s[i] == '0'
  {
    if s != [] {
      var init := s[..|s| - 1];
      DigitsValueZero(init);
      assert forall i :: 0 <= i < |init| ==> init[i] == s[i];
    }
  }

  /** The decimal numeral of n, without leading zeros. */
  function Decimal(n: nat): (s: string)
    ensures |s| >= 1 && AllDigits(s)
    ensures |s| > 1 ==> s[0] != '0'
  {
    if n < 10 then [('0' as int + n) as char]
    else Decimal(n / 10) + [('0' as int + n % 10) as char]
  }

  lemma {:induction false} DecimalRoundTrip(n: nat)
    ensures DigitsValue(Decimal(n)) == n
  {
    if n >= 10 {
      var s := Decimal(n);
      assert s[..|s| - 1] == Decimal(n / 10);
      DecimalRoundTrip(n / 10);
    }
  }

  /** The other direction: a digit string without a leading zero is the
      numeral of its value. */
  lemma {:induction false} DigitsRoundTrip(s: string)
    requires s != [] && AllDigits(s) && (|s| > 1 ==> s[0] != '0')
    ensures Decimal(DigitsValue(s)) == s
  {
    var init := s[..|s| - 1];
    var c := (s[|s| - 1] - '0') as nat;
    if init != [] {
      assert init[0] == s[0];
      DigitsRoundTrip(init);
      var m := DigitsValue(init);
      assert Decimal(0) == "0";
      assert m >= 1;
      var n := m * 10 + c;
      assert n / 10 == m && n % 10 == c;
      assert s == init + [s[|s| - 1]];
    } else {
      assert s == [s[0]];
    }
  }

  lemma {:induction false} LeadingZero(s: string)
    requires AllDigits(s)
    ensures AllDigits("0" + s) && DigitsValue("0" + s) == DigitsValue(s)
  {
    if s != [] {
      var t := "0" + s;
      assert t[..|t| - 1] == "0" + s[..|s| - 1];
      LeadingZero(s[..|s| - 1]);
    }
  }

  /** The characters `int()` strips around a str: space, \t, \n, \v, \f and \r. */
  predicate IsSpace(c: char)
  {
    c == ' ' || c == '\t' || c == '\n' || c == '\r' || c as int == 11 || c as int == 12
  }

  predicate AllSpace(s: string)
  {
    forall i :: 0 <= i < |s| ==> IsSpace(s[i])
  }

  /** `s.lstrip()`: the suffix left after dropping the leading whitespace. */
  function StripLeft(s: string): (r: string)
    ensures |r| <= |s|
    ensures forall i :: 0 <= i < |s| - |r| ==> IsSpace(s[i])
    ensures r != [] ==> !IsSpace(r[0])
  {
    if s != [] && IsSpace(s[0]) then StripLeft(s[1..]) else s
  }

  /** What `lstrip()` keeps is a suffix of its input. */
  lemma {:induction false} StripLeftSuffix(s: string)
    ensures StripLeft(s) == s[|s| - |StripLeft(s)|..]
  {
    if s != [] && IsSpace(s[0]) {
      StripLeftSuffix(s[1..]);
    }
  }

  /** `s.rstrip()`: the prefix left after dropping the trailing whitespace. */
  function StripRight(s: string): (r: string)
    ensures |r| <= |s| && r == s[..|r|]
    ensures forall i :: |r| <= i < |s| ==> IsSpace(s[i])
    ensures r != [] ==> !IsSpace(r[|r| - 1])
  {
    if s != [] && IsSpace(s[|s| - 1]) then StripRight(s[..|s| - 1]) else s
  }

  /** `int(s)` for a str: surrounding whitespace, an optional sign, more
      whitespace after the sign, and a nonempty run of ASCII digits; anything
      else is a ValueError. Python 2 skips whitespace once before the sign and
      once more before the digits. */
  function ParseInt(s: string): (r: Result<int, Error>)
    ensures r.Err? ==> r.error == ValueError
  {
    ParseSigned(StripLeft(StripRight(s)))
  }

  /** What follows an optional sign and the whitespace after it. */
  function Unsigned(t: string): string
    requires t != []
  {
    if t[0] == '-' || t[0] == '+' then StripLeft(t[1..]) else t
  }

  /** A nonempty run of ASCII digits, or a ValueError. */
  function ParseDigits(d: string): Result<nat, Error>
  {
    if d != [] && AllDigits(d) then Ok(DigitsValue(d)) else Err(ValueError)
  }

  /** An optional sign, whitespace after a sign, then a nonempty run of
      ASCII digits. */
  function ParseSigned(t: string): (r: Result<int, Error>)
    ensures r.Err? ==> r.error == ValueError
  {
    if t == [] then Err(ValueError)
    else
      match ParseDigits(Unsigned(t))
      case Ok(v) => Ok(if t[0] == '-' then -(v as int) else v)
      case Err(e) => Err(e)
  }

  /** What ParseSigned accepts: a sign only in front, whitespace only after
      it, and digits elsewhere. */
  lemma SignedChars(t: string)
    requires ParseSigned(t).Ok?
    ensures forall i :: 0 <= i < |t| ==>
      IsDigit(t[i]) || (i == 0 && (t[0] == '-' || t[0] == '+')) || (i > 0 && IsSpace(t[i]))
  {
    if t[0] == '-' || t[0] == '+' {
      var u := t[1..];
      var d := StripLeft(u);
      StripLeftSuffix(u);
      assert AllDigits(d);
      forall i | 1 <= i < |t| ensures IsDigit(t[i]) || IsSpace(t[i]) {
        assert t[i] == u[i - 1];
        if i - 1 >= |u| - |d| {
          assert u[i - 1] == d[i - 1 - (|u| - |d|)];
        }
      }
    }
  }

  /** The numeral of an int, with a '-' when negative, as `str(n)` writes it. */
  function Signed(n: int): (s: string)
    ensures s != [] && !IsSpace(s[0]) && !IsSpace(s[|s| - 1])
  {
    if n < 0 then "-" + Decimal(-n) else Decimal(n)
  }

  lemma StripRightPadded(core: string, pad: string)
    requires AllSpace(pad) && core != [] && !IsSpace(core[|core| - 1])
    ensures StripRight(core + pad) == core
  {
    var s := core + pad;
    assert s[|core| - 1] == core[|core| - 1];
    assert forall i :: |core| <= i < |s| ==> s[i] == pad[i - |core|];
    var r := StripRight(s);
    assert |r| >= |core|;
    assert r == s[..|r|];
  }

  lemma StripLeftPadded(pad: string, core: string)
    requires AllSpace(pad) && core != [] && !IsSpace(core[0])
    ensures StripLeft(pad + core) == core
  {
    var s := pad + core;
    assert s[|pad|] == core[0];
    assert forall i :: 0 <= i < |pad| ==> s[i] == pad[i];
    var l := StripLeft(s);
    StripLeftSuffix(s);
    assert |l| >= |core|;
    assert l == s[|s| - |l|..];
  }

  lemma StripPadded(pad: string, core: string, pad': string)
    requires AllSpace(pad) && AllSpace(pad')
    requires core != [] && !IsSpace(core[0]) && !IsSpace(core[|core| - 1])
    ensures StripLeft(StripRight(pad + core + pad')) == core
  {
    assert (pad + core)[|pad + core| - 1] == core[|core| - 1];
    StripRightPadded(pad + core, pad');
    StripLeftPadded(pad, core);
  }

  lemma SignedRoundTrip(n: int)
    ensures ParseSigned(Signed(n)) == Ok(n)
  {
    var m := if n < 0 then -n else n;
    var d := Decimal(m);
    DecimalRoundTrip(m);
    assert IsDigit(d[0]) && !IsSpace(d[0]);
    assert ParseDigits(d) == Ok(m);
    if n < 0 {
      var t := "-" + d;
      assert t[1..] == d;
      assert Unsigned(t) == d;
    } else {
      assert Unsigned(d) == d;
    }
  }

  /** Whitespace between the sign and the digits is skipped: `int("- 5")`
      is -5 and `int("+ 5")` is 5. */
  lemma SpaceAfterSign(n: nat, pad: string)
    requires AllSpace(pad)
    ensures ParseInt("-" + pad + Decimal(n)) == Ok(-(n as int))
    ensures ParseInt("+" + pad + Decimal(n)) == Ok(n)
  {
    DecimalRoundTrip(n);
    SignedDigits('-', pad, Decimal(n));
    SignedDigits('+', pad, Decimal(n));
  }

  lemma SignedDigits(sign: char, pad: string, d: string)
    requires sign == '-' || sign == '+'
    requires AllSpace(pad) && d != [] && AllDigits(d)
    ensures ParseInt([sign] + pad + d) == Ok(if sign == '-' then -(DigitsValue(d) as int) else DigitsValue(d))
  {
    var u := pad + d;
    assert [sign] + pad + d == [sign] + u;
    assert u[|u| - 1] == d[|d| - 1];
    DigitsAfterSign(sign, pad, d);
    SignStripped(sign, u);
  }

  lemma DigitsAfterSign(sign: char, pad: string, d: string)
    requires sign == '-' || sign == '+'
    requires AllSpace(pad) && d != [] && AllDigits(d)
    ensures ParseSigned([sign] + (pad + d)) == Ok(if sign == '-' then -(DigitsValue(d) as int) else DigitsValue(d))
  {
    assert IsDigit(d[0]);
    StripLeftPadded(pad, d);
    SignDropped(sign, pad + d);
  }

  /** A sign in front of text ending in a digit survives the outer strip. */
  lemma SignStripped(sign: char, u: string)
    requires sign == '-' || sign == '+'
    requires u != [] && IsDigit(u[|u| - 1])
    ensures ParseInt([sign] + u) == ParseSigned([sign] + u)
  {
    EndKept(sign, u);
    SignKept(sign, u);
  }

  lemma EndKept(sign: char, u: string)
    requires u != [] && IsDigit(u[|u| - 1])
    ensures StripRight([sign] + u) == [sign] + u
  {
    var t := [sign] + u;
    assert t[|t| - 1] == u[|u| - 1];
  }

  lemma SignKept(sign: char, u: string)
    requires sign == '-' || sign == '+'
    ensures StripLeft([sign] + u) == [sign] + u
  {
    var t := [sign] + u;
    assert t[0] == sign;
  }

  lemma SignDropped(sign: char, u: string)
    requires sign == '-' || sign == '+'
    ensures Unsigned([sign] + u) == StripLeft(u)
  {
    var t := [sign] + u;
    assert t[1..] == u;
  }

  /** `int()` reads back what `str()` writes, whatever whitespace surrounds it. */
  lemma ParseIntRoundTrip(n: int, pad: string, pad': string)
    requires AllSpace(pad) && AllSpace(pad')
    ensures ParseInt(pad + Signed(n) + pad') == Ok(n)
  {
    StripPadded(pad, Signed(n), pad');
    SignedRoundTrip(n);
  }

  /** A str that `int()` accepts holds only whitespace, digits and signs. */
  lemma ParseIntChars(s: string)
    requires ParseInt(s).Ok?
    ensures forall i :: 0 <= i < |s| ==> IsSpace(s[i]) || IsDigit(s[i]) || s[i] == '-' || s[i] == '+'
  {
    var r := StripRight(s);
    var t := StripLeft(r);
    var a := |r| - |t|;
    StripLeftSuffix(r);
    assert ParseSigned(t).Ok?;
    SignedChars(t);
    forall i | 0 <= i < |s| ensures IsSpace(s[i]) || IsDigit(s[i]) || s[i] == '-' || s[i] == '+' {
      if i < a {
        assert s[i] == r[i] && IsSpace(r[i]);
      } else if i < |r| {
        assert s[i] == r[i] == t[i - a];
      }
    }
  }

  /** Python's `v == n` for an int `n`: True is 1, False is 0, and a float
      equals an int when their values agree; every other type is unequal. */
  predicate EqualsInt(v: Value, n: int): (b: bool)
    ensures b ==> ToInt(v) == Ok(n)
    ensures v.Int? || v.Bool? ==> (b <==> ToInt(v) == Ok(n))
    ensures !(v.Int? || v.Float? || v.Bool?) ==> !b
  {
    match v
    case Int(i) => i == n
    case Float(f) => f == n as real
    case Bool(b) => (if b then 1 else 0) == n
    case _ => false
  }

  /** Prefixes the items already gathered to the outcome of the rest of a scan. */
  function Prepend<T>(done: seq<T>, rest: Result<seq<T>, Error>): Result<seq<T>, Error>
  {
    if rest.Ok? then Ok(done + rest.value) else rest
  }

  lemma PrependNil<T>(r: Result<seq<T>, Error>)
    ensures Prepend([], r) == r
  {
    if r.Ok? {
      assert [] + r.value == r.value;
    }
  }

  lemma PrependPrepend<T>(a: seq<T>, b: seq<T>, r: Result<seq<T>, Error>)
    ensures Prepend(a, Prepend(b, r)) == Prepend(a + b, r)
  {
    if r.Ok? {
      assert a + (b + r.value) == (a + b) + r.value;
    }
  }
}
