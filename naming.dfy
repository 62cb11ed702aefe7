/** Marker-set naming: `sanitize` and `get_internal_name`
    (overviewer_core/aux_files/genPOI.py lines 33-41).

    The internal name appends the last four characters of `hex(hash(filter))`
    and of `hex(hash(regionset))` to the sanitized display name. The hash
    values themselves depend on the running interpreter, so they are
    parameters here; `hex` is modelled exactly. */
module Naming {

  /** The characters `sanitize` replaces, in the order it replaces them. */
  const UnsafeChars: seq<char> := [' ', '(', ')']

  /** What `sanitize` does to one character. */
  function SanitizeChar(c: char): char
  {
    if c in UnsafeChars then '_' else c
  }

  /** `s.replace(c, d)` for single characters. */
  function Replace(s: string, c: char, d: char): (r: string)
    ensures |r| == |s|
    ensures forall i :: 0 <= i < |s| ==> r[i] == (if s[i] == c then d else s[i])
  {
    if s == [] then [] else [if s[0] == c then d else s[0]] + Replace(s[1..], c, d)
  }

  /** The loop of `sanitize`: replace each character of `chars` by '_', one after another. */
  function ReplaceEach(name: string, chars: seq<char>): (r: string)
    ensures |r| == |name|
    ensures forall i :: 0 <= i < |name| ==> r[i] == (if name[i] in chars then '_' else name[i])
    decreases chars
  {
    if chars == [] then name
    else
      assert chars == [chars[0]] + chars[1..];
      ReplaceEach(Replace(name, chars[0], '_'), chars[1..])
  }

  function Sanitize(name: string): (r: string)
    ensures |r| == |name|
    ensures forall i :: 0 <= i < |name| ==> r[i] == SanitizeChar(name[i])
  {
    ReplaceEach(name, UnsafeChars)
  }

  lemma SanitizeIdempotent(name: string)
    ensures Sanitize(Sanitize(name)) == Sanitize(name)
  {
    var once := Sanitize(name);
    assert forall i :: 0 <= i < |once| ==> Sanitize(once)[i] == once[i];
  }

  /** Sanitizing is not injective: distinct display names can share an internal name. */
  lemma SanitizeCollides()
    ensures "a b" != "a_b" && Sanitize("a b") == Sanitize("a_b")
  {
    assert Sanitize("a b")[1] == '_';
    assert Sanitize("a_b") == "a_b";
  }

  const HexAlphabet: seq<char> := "0123456789abcdef"

  /** The lower-case hexadecimal digits of n, no leading zeros ("0" for zero). */
  function HexDigits(n: nat): (r: string)
    ensures |r| >= 1
    ensures forall i :: 0 <= i < |r| ==> r[i] in HexAlphabet
  {
    if n < 16 then [HexAlphabet[n]] else HexDigits(n / 16) + [HexAlphabet[n % 16]]
  }

  /** Python 2 `hex()` of a (machine-sized) int: "0x1f", "-0x1f". */
  function Hex(h: int): (r: string)
    ensures |r| >= 3
    ensures h >= 0 ==> r[..2] == "0x"
    ensures h < 0 ==> r[..3] == "-0x"
  {
    if h < 0 then "-0x" + HexDigits(-h) else "0x" + HexDigits(h)
  }

  /** Python `s[-4:]`: the last four characters, or all of s when shorter. */
  function Last4(s: string): (r: string)
    ensures |r| == if |s| < 4 then |s| else 4
    ensures r == s[|s| - |r|..]
  {
    if |s| <= 4 then s else s[|s| - 4..]
  }

  /** No character of s is one that `sanitize` replaces. */
  predicate IsSafe(s: string)
  {
    forall i :: 0 <= i < |s| ==> s[i] !in UnsafeChars
  }

  lemma SafeConcat(a: string, b: string)
    requires IsSafe(a) && IsSafe(b)
    ensures IsSafe(a + b)
  {
    forall i | 0 <= i < |a + b| ensures (a + b)[i] !in UnsafeChars {
      if i >= |a| { assert (a + b)[i] == b[i - |a|]; }
    }
  }

  lemma {:induction false} HexIsSafe(h: int)
    ensures IsSafe(Hex(h))
    ensures IsSafe(Last4(Hex(h)))
  {
    var d := HexDigits(if h < 0 then -h else h);
    var p := if h < 0 then "-0x" else "0x";
    assert Hex(h) == p + d;
    assert IsSafe(d) by {
      forall i | 0 <= i < |d| ensures d[i] !in UnsafeChars {
        assert d[i] in HexAlphabet;
      }
    }
    SafeConcat(p, d);
    Last4Safe(Hex(h));
  }

  lemma Last4Safe(s: string)
    requires IsSafe(s)
    ensures IsSafe(Last4(s))
  {
    var t := Last4(s);
    forall i | 0 <= i < |t| ensures t[i] !in UnsafeChars {
      assert t[i] == s[|s| - |t| + i];
    }
  }

  /** `get_internal_name(name, filt, rset)` given `hash(filt)` and `hash(rset)`. */
  function GetInternalName(name: string, filterHash: int, rsetHash: int): (r: string)
    ensures |name| + 7 <= |r| <= |name| + 9
  {
    Sanitize(name) + Last4(Hex(filterHash)) + "_" + Last4(Hex(rsetHash))
  }

  /** The internal name keeps the sanitised name as its prefix, followed by
      the last four characters of each hash's hex form joined by '_', and it
      contains no space or parenthesis. */
  lemma InternalNameShape(name: string, filterHash: int, rsetHash: int)
    ensures var r := GetInternalName(name, filterHash, rsetHash);
      && r[..|name|] == Sanitize(name)
      && r[|name|..] == Last4(Hex(filterHash)) + "_" + Last4(Hex(rsetHash))
      && IsSafe(r)
  {
    var suffix := Last4(Hex(filterHash)) + "_" + Last4(Hex(rsetHash));
    assert GetInternalName(name, filterHash, rsetHash) == Sanitize(name) + suffix;
    Split(Sanitize(name), suffix);
    InternalNameSafe(name, filterHash, rsetHash);
  }

  lemma Split(a: string, b: string)
    ensures (a + b)[..|a|] == a && (a + b)[|a|..] == b
  {
  }

  lemma InternalNameSafe(name: string, filterHash: int, rsetHash: int)
    ensures IsSafe(GetInternalName(name, filterHash, rsetHash))
  {
    var f := Last4(Hex(filterHash));
    var g := Last4(Hex(rsetHash));
    HexIsSafe(filterHash);
    HexIsSafe(rsetHash);
    assert IsSafe(Sanitize(name));
    SafeConcat(Sanitize(name), f);
    SafeConcat(Sanitize(name) + f, "_");
    SafeConcat(Sanitize(name) + f + "_", g);
  }
}
