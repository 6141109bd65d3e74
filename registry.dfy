/**
  The ASTERIX format registry: the closed set of format identifiers, the table of their
  canonical names, and the case-insensitive lookup `GetFormatNo` (asterixformat.cxx).
  A format identifier is the `unsigned int` index of its name in `_FormatName`.
 */
module Registry {
  import opened Wrappers

  /** The width of the C++ `unsigned int` that carries a format identifier. */
  type UInt32 = x: int | 0 <= x < 0x1_0000_0000

  /** ETotalFormats */
  const TotalFormats: nat := 11

  /** The format identifiers, declared in the order of the `_FormatName` table. */
  datatype FormatId =
    | ERaw | EPcap | ETxt | EKml | ETracks | EFinal | EXIDEF | EHDLC | EOradisRaw | EOradisPcap | EOut

  /** `_FormatName`: the canonical name of each format, indexed by its identifier. */
  const FormatNames: seq<string> := [
    "ASTERIX_RAW",
    "ASTERIX_PCAP",
    "ASTERIX_TXT",
    "ASTERIX_KML",
    "ASTERIX_TRACKS",
    "ASTERIX_FINAL",
    "ASTERIX_XIDEF",
    "ASTERIX_HDLC",
    "ASTERIX_ORADIS_RAW",
    "ASTERIX_ORADIS_PCAP",
    "ASTERIX_OUT"
  ]

  /** The numeric value of an identifier (its position in the name table). */
  function Index(f: FormatId): (i: nat)
    ensures i < TotalFormats
  {
    match f
    case ERaw => 0
    case EPcap => 1
    case ETxt => 2
    case EKml => 3
    case ETracks => 4
    case EFinal => 5
    case EXIDEF => 6
    case EHDLC => 7
    case EOradisRaw => 8
    case EOradisPcap => 9
    case EOut => 10
  }

  /** The identifier a raw `unsigned int` stands for; None outside the enumeration. */
  function FromIndex(i: int): (r: Option<FormatId>)
    ensures r.Some? <==> 0 <= i < TotalFormats
    ensures r.Some? ==> Index(r.value) == i
  {
    if i == 0 then Some(ERaw)
    else if i == 1 then Some(EPcap)
    else if i == 2 then Some(ETxt)
    else if i == 3 then Some(EKml)
    else if i == 4 then Some(ETracks)
    else if i == 5 then Some(EFinal)
    else if i == 6 then Some(EXIDEF)
    else if i == 7 then Some(EHDLC)
    else if i == 8 then Some(EOradisRaw)
    else if i == 9 then Some(EOradisPcap)
    else if i == 10 then Some(EOut)
    else None
  }

  lemma IndexRoundTrip(f: FormatId)
    ensures FromIndex(Index(f)) == Some(f)
  {
  }

  /** The canonical name of a format. */
  function Name(f: FormatId): string
  {
    FormatNames[Index(f)]
  }

  /** `tolower` of the C locale: only 'A'..'Z' change. */
  function ToLower(c: char): (l: char)
    ensures 'A' <= c <= 'Z' ==> 'a' <= l <= 'z' && l as int - c as int == 32
    ensures !('A' <= c <= 'Z') ==> l == c
  {
    if 'A' <= c <= 'Z' then (c as int + 32) as char else c
  }

  /** `toupper` of the C locale: only 'a'..'z' change. */
  function ToUpper(c: char): (u: char)
    ensures 'a' <= c <= 'z' ==> 'A' <= u <= 'Z' && c as int - u as int == 32
    ensures !('a' <= c <= 'z') ==> u == c
  {
    if 'a' <= c <= 'z' then (c as int - 32) as char else c
  }

  function LowerCase(s: string): (r: string)
    ensures |r| == |s| && forall i :: 0 <= i < |s| ==> r[i] == ToLower(s[i])
  {
    seq(|s|, i requires 0 <= i < |s| => ToLower(s[i]))
  }

  function UpperCase(s: string): (r: string)
    ensures |r| == |s| && forall i :: 0 <= i < |s| ==> r[i] == ToUpper(s[i])
  {
    seq(|s|, i requires 0 <= i < |s| => ToUpper(s[i]))
  }

  /**
    `strcasecmp(a, b) == 0`: same length and the same characters once both are lower-cased.
    A C string ends at its first NUL, so `a` and `b` are the characters before it.
   */
  predicate EqualsIgnoreCase(a: string, b: string)
    ensures EqualsIgnoreCase(a, b) <==> LowerCase(a) == LowerCase(b)
  {
    |a| == |b| && forall i :: 0 <= i < |a| ==> ToLower(a[i]) == ToLower(b[i])
  }

  /** Comparing ignoring case is an equivalence: it is what lets lookup ignore case. */
  lemma EqualsIgnoreCaseIsEquivalence(a: string, b: string, c: string)
    ensures EqualsIgnoreCase(a, a)
    ensures EqualsIgnoreCase(a, b) ==> EqualsIgnoreCase(b, a)
    ensures EqualsIgnoreCase(a, b) && EqualsIgnoreCase(b, c) ==> EqualsIgnoreCase(a, c)
  {
  }

  /** Any spelling of a name in upper or lower case compares equal to it. */
  lemma {:induction false} CaseVariantsEqual(s: string)
    ensures EqualsIgnoreCase(UpperCase(s), s)
    ensures EqualsIgnoreCase(LowerCase(s), s)
  {
    forall i | 0 <= i < |s|
      ensures ToLower(UpperCase(s)[i]) == ToLower(s[i])
      ensures ToLower(LowerCase(s)[i]) == ToLower(s[i])
    {
      var c := s[i];
      if 'a' <= c <= 'z' {
        assert UpperCase(s)[i] == (c as int - 32) as char;
      } else if 'A' <= c <= 'Z' {
        assert LowerCase(s)[i] == (c as int + 32) as char;
      }
    }
  }

  /** The eleven canonical names are pairwise distinct even ignoring case. */
  lemma {:induction false} NamesDistinct()
    ensures forall i, j :: 0 <= i < j < TotalFormats ==> !EqualsIgnoreCase(FormatNames[i], FormatNames[j])
  {
    forall i, j | 0 <= i < j < TotalFormats
      ensures !EqualsIgnoreCase(FormatNames[i], FormatNames[j])
    {
      // Every name starts with "ASTERIX_"; the ones of equal length already differ at position 8.
      var a, b := FormatNames[i], FormatNames[j];
      if |a| == |b| {
        assert ToLower(a[8]) != ToLower(b[8]);
      }
    }
  }

  /** The first table entry at or after `i` that `name` matches ignoring case. */
  function LookupFrom(name: string, i: nat): (r: Option<FormatId>)
    requires i <= TotalFormats
    ensures r.Some? ==> i <= Index(r.value) && EqualsIgnoreCase(name, Name(r.value))
    ensures r.Some? ==> forall j :: i <= j < Index(r.value) ==> !EqualsIgnoreCase(name, FormatNames[j])
    ensures r.None? ==> forall j :: i <= j < TotalFormats ==> !EqualsIgnoreCase(name, FormatNames[j])
    decreases TotalFormats - i
  {
    if i == TotalFormats then None
    else if EqualsIgnoreCase(name, FormatNames[i]) then FromIndex(i)
    else LookupFrom(name, i + 1)
  }

  /** The reference lookup: the format whose canonical name `name` spells, ignoring case. */
  function Lookup(name: string): Option<FormatId>
  {
    LookupFrom(name, 0)
  }

  /**
    `GetFormatNo`: scans the table in order and stops at the first name equal to `formatName`
    ignoring case. The C++ out-parameter `formatType` is passed in and returned as `newType`:
    it receives the index on success and is left as it was otherwise.
   */
  method GetFormatNo(formatName: string, formatType: UInt32) returns (found: bool, newType: UInt32)
    ensures found <==> exists i :: 0 <= i < TotalFormats && EqualsIgnoreCase(formatName, FormatNames[i])
    ensures found ==> newType < TotalFormats && EqualsIgnoreCase(formatName, FormatNames[newType])
    ensures found ==> forall j :: 0 <= j < newType ==> !EqualsIgnoreCase(formatName, FormatNames[j])
    ensures !found ==> newType == formatType
    ensures found == Lookup(formatName).Some? && (found ==> newType == Index(Lookup(formatName).value))
  {
    found := false;
    newType := formatType;
    var i: nat := 0;
    while i < TotalFormats && !found
      invariant i <= TotalFormats
      invariant !found ==> newType == formatType
      invariant !found ==> forall j :: 0 <= j < i ==> !EqualsIgnoreCase(formatName, FormatNames[j])
      invariant found ==> newType + 1 == i && EqualsIgnoreCase(formatName, FormatNames[newType])
      invariant found ==> forall j :: 0 <= j < newType ==> !EqualsIgnoreCase(formatName, FormatNames[j])
    {
      if EqualsIgnoreCase(formatName, FormatNames[i]) {
        found := true;
        newType := i;
      }
      i := i + 1;
    }
    LookupIsFirstMatch(formatName);
  }

  /** `Lookup` finds exactly the first table entry the name matches. */
  lemma LookupIsFirstMatch(name: string)
    ensures Lookup(name).Some? <==> exists i :: 0 <= i < TotalFormats && EqualsIgnoreCase(name, FormatNames[i])
    ensures Lookup(name).Some? ==>
      forall j :: 0 <= j < Index(Lookup(name).value) ==> !EqualsIgnoreCase(name, FormatNames[j])
  {
    var r := Lookup(name);
    if r.Some? {
      assert EqualsIgnoreCase(name, FormatNames[Index(r.value)]);
    }
  }

  /** Each canonical name, in any casing, maps back to its own identifier. */
  lemma CanonicalNameMapsBack(f: FormatId, s: string)
    requires EqualsIgnoreCase(s, Name(f))
    ensures Lookup(s) == Some(f)
  {
    NamesDistinct();
    assert EqualsIgnoreCase(s, FormatNames[Index(f)]);
    var g := Lookup(s).value;
    EqualsIgnoreCaseIsEquivalence(Name(g), s, Name(f));
    IndexRoundTrip(f);
  }

  /** Lookup gives the same answer for two spellings that differ only in case. */
  lemma {:induction false} LookupIgnoresCase(a: string, b: string)
    requires EqualsIgnoreCase(a, b)
    ensures Lookup(a) == Lookup(b)
  {
    match Lookup(a)
    case Some(f) =>
      EqualsIgnoreCaseIsEquivalence(b, a, Name(f));
      CanonicalNameMapsBack(f, b);
    case None =>
      match Lookup(b)
      case Some(g) =>
        EqualsIgnoreCaseIsEquivalence(a, b, Name(g));
        CanonicalNameMapsBack(g, a);
      case None =>
  }

  /** For every canonical name: lookup(name) == lookup(upper(name)) == lookup(lower(name)) == that format. */
  lemma CaseVariantsLookUp(f: FormatId)
    ensures Lookup(Name(f)) == Some(f)
    ensures Lookup(UpperCase(Name(f))) == Some(f)
    ensures Lookup(LowerCase(Name(f))) == Some(f)
  {
    CaseVariantsEqual(Name(f));
    CanonicalNameMapsBack(f, Name(f));
    CanonicalNameMapsBack(f, UpperCase(Name(f)));
    CanonicalNameMapsBack(f, LowerCase(Name(f)));
  }
}
