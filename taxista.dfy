/**
 * The `nazista` command (source file taxista.js): number variations with
 * and without the country code and the mobile ninth digit, the display
 * number, the special-number lookup and the percentage table.
 */
module Taxista {
  import opened Wrappers
  import opened JsString
  import opened SafeUtils
  import opened PercentRanges
  import opened Target

  /** `SPECIAL_NUMBERS` is empty in the source. */
  const SpecialNumbers: map<string, int> := map[]

  /** `LID_TO_PHONE_MAP` is empty in the source. */
  const LidToPhone: map<string, string> := map[]

  /** `TAXISTA_RANGES` */
  const TaxistaRanges: seq<PercentRange> := [
    PercentRange(0, 0, "Não é Nazista!", "hug-darker-than-black.mp4"),
    PercentRange(1, 20, "É quase um Nazista educado!", "hug-darker-than-black.mp4"),
    PercentRange(21, 40, "Já começa a ter traços de Nazista!", "hug-darker-than-black.mp4"),
    PercentRange(41, 60, "É Nazista de carteirinha!", "thug-darker-than-black.mp4"),
    PercentRange(61, 80, "É Nazista raiz! Perigoso", "hug-darker-than-black.mp4"),
    PercentRange(81, 99, "É o rei dos Naxistas! 👑🚖", "hug-darker-than-black.mp4"),
    PercentRange(100, 100, "É O NAZISTA SUPREMO!!", "hug-darker-than-black.mp4")
  ]

  /** `getRealPhoneNumber` over a given table: the mapped phone of the identifier's digits, else the digits. */
  function RealPhoneIn(table: map<string, string>, lid: string): (r: string)
    ensures OnlyNumbers(lid) in table ==> r == table[OnlyNumbers(lid)]
    ensures OnlyNumbers(lid) !in table ==> r == OnlyNumbers(lid)
  {
    var cleanLid := OnlyNumbers(lid);
    if cleanLid in table then table[cleanLid] else cleanLid
  }

  /**
   * `getRealPhoneNumber` with the source's `LID_TO_PHONE_MAP`: as that table
   * is empty, the real number is just the digits of the identifier.
   */
  function GetRealPhoneNumber(lid: string): (r: string)
    ensures r == OnlyNumbers(lid)
  {
    RealPhoneIn(LidToPhone, lid)
  }

  predicate NoDuplicates(vs: seq<string>) {
    forall i, j :: 0 <= i < j < |vs| ==> vs[i] != vs[j]
  }

  /** `Set.prototype.add` on an insertion-ordered set held as a sequence. */
  function AddNew(vs: seq<string>, x: string): (r: seq<string>)
    ensures NoDuplicates(vs) ==> NoDuplicates(r)
    ensures x in r && |vs| <= |r| <= |vs| + 1 && r[..|vs|] == vs
    ensures forall y :: y in r <==> y in vs || y == x
  {
    if x in vs then vs else vs + [x]
  }

  /** The country-code rule: 55 prepended to a local number, or dropped from a full one. */
  ghost predicate CountryCodeVariant(p: string, x: string) {
    || (!StartsWith(p, "55") && (|p| == 10 || |p| == 11) && x == "55" + p)
    || (StartsWith(p, "55") && |p| >= 12 && x == p[2..])
  }

  /** The mobile-nine rule: the 9 after the area code removed, with or without 55 in front. */
  ghost predicate MobileNineVariant(v: string, x: string) {
    || (|v| == 11 && v[2] == '9' && x == v[..2] + v[3..])
    || (|v| == 13 && StartsWith(v, "55") && v[4] == '9' && x == v[..4] + v[5..])
  }

  /** The set before the `forEach`: the number and its country-code variant. */
  function BaseVariations(p: string): (r: seq<string>)
    ensures NoDuplicates(r) && 1 <= |r| <= 2 && r[0] == p
    ensures forall x :: x in r <==> x == p || CountryCodeVariant(p, x)
  {
    var v1 := [p];
    var v2 := if !StartsWith(p, "55") && (|p| == 10 || |p| == 11) then AddNew(v1, "55" + p) else v1;
    if StartsWith(p, "55") && |p| >= 12 then AddNew(v2, p[2..]) else v2
  }

  /** One step of the `forEach` over the snapshot: the variants of `v` are added to `vs`. */
  function AddMobileNine(vs: seq<string>, v: string): (r: seq<string>)
    ensures NoDuplicates(vs) ==> NoDuplicates(r)
    ensures |vs| <= |r| <= |vs| + 1 && r[..|vs|] == vs
    ensures forall x :: x in r <==> x in vs || MobileNineVariant(v, x)
  {
    var a := if |v| == 11 && v[2] == '9' then AddNew(vs, v[..2] + v[3..]) else vs;
    if |v| == 13 && StartsWith(v, "55") && v[4] == '9' then AddNew(a, v[..4] + v[5..]) else a
  }

  /** The `forEach` over the first `|snapshot|` elements, as a left fold. */
  function AddAllMobileNine(vs: seq<string>, snapshot: seq<string>): (r: seq<string>)
    ensures NoDuplicates(vs) ==> NoDuplicates(r)
    ensures |vs| <= |r| <= |vs| + |snapshot| && r[..|vs|] == vs
    ensures forall x :: x in r <==> x in vs || exists v :: v in snapshot && MobileNineVariant(v, x)
  {
    if snapshot == [] then vs
    else
      var init := snapshot[..|snapshot| - 1];
      var r := AddMobileNine(AddAllMobileNine(vs, init), snapshot[|snapshot| - 1]);
      assert forall v :: v in snapshot <==> v in init || v == snapshot[|snapshot| - 1];
      r
  }

  /** What `getAllNumberVariations(p)` returns, in insertion order. */
  function NumberVariations(p: string): seq<string> {
    var base := BaseVariations(p);
    AddAllMobileNine(base, base)
  }

  /**
   * The variations start with the number itself, hold no duplicates and at
   * most four entries, and are exactly the number, its country-code
   * variants and the mobile-nine variants of those.
   */
  lemma NumberVariationsShape(p: string)
    ensures var vs := NumberVariations(p);
      && |vs| >= 1 && vs[0] == p && NoDuplicates(vs) && |vs| <= 4
      && forall x :: x in vs <==>
           || x == p || CountryCodeVariant(p, x)
           || exists v :: (v == p || CountryCodeVariant(p, v)) && MobileNineVariant(v, x)
  {
    var base := BaseVariations(p);
    var vs := NumberVariations(p);
    assert vs[..|base|] == base;
    assert vs[0] == base[0];
  }

  lemma CountryCodeKeepsDigits(p: string, x: string)
    requires AllDigits(p) && CountryCodeVariant(p, x)
    ensures AllDigits(x)
  {
    if x != p[2..] {
      assert forall i :: 2 <= i < |x| ==> x[i] == p[i - 2];
    }
  }

  lemma MobileNineKeepsDigits(v: string, x: string)
    requires AllDigits(v) && MobileNineVariant(v, x)
    ensures AllDigits(x)
  {
    if |v| == 11 && v[2] == '9' && x == v[..2] + v[3..] {
      assert forall i :: 0 <= i < |x| ==> x[i] == (if i < 2 then v[i] else v[i + 1]);
    } else {
      assert forall i :: 0 <= i < |x| ==> x[i] == (if i < 4 then v[i] else v[i + 1]);
    }
  }

  /** Variations of a digits-only number are digits only. */
  lemma VariationsKeepDigits(p: string)
    requires AllDigits(p)
    ensures forall x :: x in NumberVariations(p) ==> AllDigits(x)
  {
    NumberVariationsShape(p);
    forall x | x in NumberVariations(p) ensures AllDigits(x) {
      if x == p {
      } else if CountryCodeVariant(p, x) {
        CountryCodeKeepsDigits(p, x);
      } else {
        var v :| (v == p || CountryCodeVariant(p, v)) && MobileNineVariant(v, x);
        if v != p { CountryCodeKeepsDigits(p, v); }
        MobileNineKeepsDigits(v, x);
      }
    }
  }

  /** `getAllNumberVariations`: builds the `Set`, then adds the mobile-nine variants in a `forEach`. */
  method GetAllNumberVariations(phoneNumber: string) returns (variations: seq<string>)
    ensures variations == NumberVariations(phoneNumber)
  {
    variations := [phoneNumber];
    if !StartsWith(phoneNumber, "55") && (|phoneNumber| == 10 || |phoneNumber| == 11) {
      variations := AddNew(variations, "55" + phoneNumber);
    }
    if StartsWith(phoneNumber, "55") && |phoneNumber| >= 12 {
      variations := AddNew(variations, phoneNumber[2..]);
    }
    var allVariations := variations;
    for k := 0 to |allVariations|
      invariant variations == AddAllMobileNine(allVariations, allVariations[..k])
    {
      var variant := allVariations[k];
      if |variant| == 11 && variant[2] == '9' {
        variations := AddNew(variations, variant[..2] + variant[3..]);
      }
      if |variant| == 13 && StartsWith(variant, "55") && variant[4] == '9' {
        variations := AddNew(variations, variant[..4] + variant[5..]);
      }
      assert allVariations[..k + 1][..k] == allVariations[..k];
    }
    assert allVariations[..|allVariations|] == allVariations;
  }

  predicate HasCountryCode(v: string) {
    StartsWith(v, "55") && |v| >= 12
  }

  /** `variations.find(v => v.startsWith("55") && v.length >= 12)` */
  function FindWithCountryCode(vs: seq<string>): (o: Option<string>)
    ensures o.None? <==> forall i :: 0 <= i < |vs| ==> !HasCountryCode(vs[i])
    ensures o.Some? ==> exists i :: 0 <= i < |vs| && vs[i] == o.value && HasCountryCode(vs[i]) &&
                                    forall j :: 0 <= j < i ==> !HasCountryCode(vs[j])
  {
    if vs == [] then None
    else if HasCountryCode(vs[0]) then Some(vs[0])
    else
      var o := FindWithCountryCode(vs[1..]);
      if o.Some? then
        var i :| 0 <= i < |vs[1..]| && vs[1..][i] == o.value && HasCountryCode(vs[1..][i]) &&
                 forall j :: 0 <= j < i ==> !HasCountryCode(vs[1..][j]);
        assert vs[i + 1] == o.value && forall j :: 0 <= j < i + 1 ==> !HasCountryCode(vs[j]);
        o
      else o
  }

  /** `getDisplayNumber`: the first variation with the country code, else the real number itself. */
  function GetDisplayNumber(lid: string): (r: string)
    ensures var vs := NumberVariations(GetRealPhoneNumber(lid));
      || (HasCountryCode(r) && exists i :: 0 <= i < |vs| && vs[i] == r && forall j :: 0 <= j < i ==> !HasCountryCode(vs[j]))
      || (r == GetRealPhoneNumber(lid) && forall v :: v in vs ==> !HasCountryCode(v))
  {
    var realPhone := GetRealPhoneNumber(lid);
    var variations := NumberVariations(realPhone);
    NumberVariationsShape(realPhone);
    match FindWithCountryCode(variations)
    case Some(withDdi) => withDdi
    case None => variations[0]
  }

  /**
   * `calculateTaxistaPercentage` over a given special-number table: the value
   * of the first variation found in it, otherwise `random` (what
   * `getRandomNumber(0, 100)` returned).
   */
  method CalculateTaxistaPercentage(special: map<string, int>, lid: string, random: int) returns (p: int)
    ensures var vs := NumberVariations(GetRealPhoneNumber(lid));
      || (p == random && forall v :: v in vs ==> v !in special)
      || exists i :: 0 <= i < |vs| && vs[i] in special && p == special[vs[i]] &&
                     forall j :: 0 <= j < i ==> vs[j] !in special
  {
    var realPhone := GetRealPhoneNumber(lid);
    var variations := GetAllNumberVariations(realPhone);
    for k := 0 to |variations|
      invariant forall j :: 0 <= j < k ==> variations[j] !in special
    {
      if variations[k] in special {
        return special[variations[k]];
      }
    }
    return random;
  }

  /** Every integer percentage 0..100 falls in exactly one band. */
  lemma TaxistaRangesPartition(p: int)
    requires 0 <= p <= 100
    ensures UniqueBand(TaxistaRanges, p) && Find(TaxistaRanges, p).Some?
  {
    ContiguousPartitions(TaxistaRanges, 0, 100, p);
  }

  datatype TaxistaReply =
    | InvalidParameter
    | ErrorReply
    | Gif(gif: string, displayNumber: string, percentage: int, result: string, mentions: seq<string>)

  /** `handle`: resolves the target, computes the percentage and sends the band's GIF. */
  method Handle(args: seq<string>, isReply: bool, replyLid: Option<string>, random: int) returns (r: TaxistaReply)
    requires 0 <= random <= 100
    ensures r.InvalidParameter? <==> ResolveTarget(args, isReply, replyLid).MissingArgument?
    ensures r.ErrorReply? <==> ResolveTarget(args, isReply, replyLid).Unidentified?
    ensures r.Gif? ==> var lid := ResolveTarget(args, isReply, replyLid).lid;
      && r.mentions == [lid]
      && r.displayNumber == GetDisplayNumber(lid)
      && r.percentage == random
      && Find(TaxistaRanges, r.percentage).Some?
      && r.gif == Find(TaxistaRanges, r.percentage).value.gif
      && r.result == Find(TaxistaRanges, r.percentage).value.message
      && exists i :: 0 <= i < |TaxistaRanges| && Matches(TaxistaRanges[i], random) && TaxistaRanges[i].gif == r.gif
  {
    match ResolveTarget(args, isReply, replyLid)
    case MissingArgument => return InvalidParameter;
    case Unidentified => return ErrorReply;
    case Resolved(lid) =>
      var percentage := CalculateTaxistaPercentage(SpecialNumbers, lid, random);
      TaxistaRangesPartition(percentage);
      var band := Find(TaxistaRanges, percentage).value;
      return Gif(band.gif, GetDisplayNumber(lid), percentage, band.message, [lid]);
  }
}
