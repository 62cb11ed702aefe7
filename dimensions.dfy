/** Dimension resolution at the start of `iter_player_pois`
    (overviewer_core/aux_files/genPOI.py lines 57-68): the regionset's type
    tag becomes the integer a player's stored `Dimension` is compared with. */
module Dimensions {
  import opened PyValue

  const MystPrefix: string := "DIM_MYST"

  /** A tag that `^DIM_MYST(\d+)$` matches with group `digits`: the prefix,
      a nonempty run of ASCII digits, and at most one trailing newline, which
      Python's `$` lets through. */
  predicate IsMystTag(tag: string, digits: string)
  {
    digits != [] && AllDigits(digits) &&
    (tag == MystPrefix + digits || tag == MystPrefix + digits + "\n")
  }

  /** `re.match(r"^DIM_MYST(\d+)$", tag)`: the group's value when it matches.
      Python's `$` also matches just before one trailing newline. */
  function MatchMyst(tag: string): (r: Option<nat>)
    ensures r.Some? ==> |tag| > |MystPrefix| && tag[..|MystPrefix|] == MystPrefix
    ensures r.Some? ==> exists d :: IsMystTag(tag, d) && r == Some(DigitsValue(d))
  {
    if |tag| <= |MystPrefix| || tag[..|MystPrefix|] != MystPrefix then None
    else
      var rest := tag[|MystPrefix|..];
      var digits := if rest[|rest| - 1] == '\n' then rest[..|rest| - 1] else rest;
      if digits != [] && AllDigits(digits) then
        assert tag == MystPrefix + rest;
        assert rest[|rest| - 1] == '\n' ==> rest == digits + "\n";
        assert IsMystTag(tag, digits);
        Some(DigitsValue(digits))
      else None
  }

  /** The dimension for a regionset type tag (`None` is the overworld); an
      unrecognised tag re-raises the KeyError of the dict lookup. */
  function ResolveDimension(tag: Option<string>): (r: Result<int, Error>)
    ensures tag.None? ==> r == Ok(0)
    ensures tag == Some("DIM-1") ==> r == Ok(-1)
    ensures tag == Some("DIM1") ==> r == Ok(1)
    ensures r.Err? ==> r.error == KeyError
    ensures r.Ok? && r.value < 0 ==> tag == Some("DIM-1") && r.value == -1
    ensures r.Ok? <==>
      tag.None? || tag == Some("DIM-1") || tag == Some("DIM1") || exists d :: IsMystTag(tag.value, d)
    ensures forall d :: tag.Some? && IsMystTag(tag.value, d) ==> r == Ok(DigitsValue(d))
  {
    match tag
    case None => Ok(0)
    case Some(t) =>
      MatchMystComplete(t);
      assert forall d :: IsMystTag(t, d) ==> t[..|MystPrefix|] == MystPrefix;
      if t == "DIM-1" then Ok(-1 as int)
      else if t == "DIM1" then Ok(1)
      else match MatchMyst(t)
        case Some(n) => Ok(n)
        case None => Err(KeyError)
  }

  /** Every DIM_MYST tag matches, with its digits' value. */
  lemma MatchMystComplete(tag: string)
    ensures forall d :: IsMystTag(tag, d) ==> MatchMyst(tag) == Some(DigitsValue(d))
  {
    forall d | IsMystTag(tag, d)
      ensures MatchMyst(tag) == Some(DigitsValue(d))
    {
      assert IsDigit(d[|d| - 1]);
      if tag == MystPrefix + d {
        assert tag[..|MystPrefix|] == MystPrefix && tag[|MystPrefix|..] == d;
      } else {
        var rest := d + "\n";
        assert tag == MystPrefix + rest;
        assert tag[..|MystPrefix|] == MystPrefix && tag[|MystPrefix|..] == rest;
        assert rest[..|rest| - 1] == d;
      }
    }
  }

  /** A DIM_MYST tag resolves to its digits' value. */
  lemma MystTag(digits: string)
    requires digits != [] && AllDigits(digits)
    ensures ResolveDimension(Some(MystPrefix + digits)) == Ok(DigitsValue(digits))
  {
    var t := MystPrefix + digits;
    assert t[..|MystPrefix|] == MystPrefix && t[|MystPrefix|..] == digits;
    assert IsDigit(digits[|digits| - 1]);
    assert MatchMyst(t) == Some(DigitsValue(digits));
    assert |t| > 5;
  }

  /** So does the same tag followed by one newline. */
  lemma MystTagNewline(digits: string)
    requires digits != [] && AllDigits(digits)
    ensures ResolveDimension(Some(MystPrefix + digits + "\n")) == Ok(DigitsValue(digits))
  {
    var rest := digits + "\n";
    var t := MystPrefix + rest;
    assert MystPrefix + digits + "\n" == t;
    assert t[..|MystPrefix|] == MystPrefix && t[|MystPrefix|..] == rest;
    assert rest[..|rest| - 1] == digits;
    assert MatchMyst(t) == Some(DigitsValue(digits));
    assert |t| > 5;
  }

  /** Every custom dimension number is reachable through its DIM_MYST tag. */
  lemma MystDimension(n: nat)
    ensures ResolveDimension(Some(MystPrefix + Decimal(n))) == Ok(n)
    ensures ResolveDimension(Some(MystPrefix + Decimal(n) + "\n")) == Ok(n)
  {
    DecimalRoundTrip(n);
    MystTag(Decimal(n));
    MystTagNewline(Decimal(n));
  }

  /** Leading zeros are accepted and ignored, as `int()` does. */
  lemma MystLeadingZero(n: nat)
    ensures ResolveDimension(Some(MystPrefix + ("0" + Decimal(n)))) == Ok(n)
  {
    LeadingZero(Decimal(n));
    DecimalRoundTrip(n);
    MystTag("0" + Decimal(n));
  }

  /** The resolved overworld is 0 only for the overworld tag or a DIM_MYST tag
      whose digits are all zeros. */
  lemma {:induction false} OverworldTags(tag: Option<string>)
    requires ResolveDimension(tag) == Ok(0)
    ensures tag.None? || exists d :: IsMystTag(tag.value, d) && forall i :: 0 <= i < |d| ==> d[i] == '0'
  {
    if tag.Some? {
      var d :| IsMystTag(tag.value, d) && MatchMyst(tag.value) == Some(DigitsValue(d));
      DigitsValueZero(d);
    }
  }
}
